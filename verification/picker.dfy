/** The collection picker of the navigation bar as a state machine: the
    component's state record, one pure transition per handler, the views
    derived from the state, and properties of runs of events. */
module Picker {
  import opened Text
  import opened Catalog

  /** The picker's component state, one field per state hook. */
  datatype State = State(
    isDropdownOpen: bool,
    searchQuery: string,
    searchResults: seq<Collection>,
    showSearchResults: bool,
    selectedCollection: string,
    collections: seq<Collection>,
    collectionsLoading: bool)

  /** The label shown before any selection, also the mobile placeholder's value. */
  const Placeholder: string := "Select Game"
  const NoCollectionsText: string := "No collections found"
  const FeaturedLimit: nat := 4
  const AllCollectionsPath: string := "/collections"

  /** The state on mount: closed, empty query, nothing loaded yet, loading. */
  function Initial(): (s: State)
    ensures !s.isDropdownOpen && s.searchQuery == "" && s.searchResults == [] && !s.showSearchResults
    ensures s.selectedCollection == Placeholder && s.collections == [] && s.collectionsLoading
  {
    State(false, "", [], false, Placeholder, [], true)
  }

  /** A handler's new state and the route it navigates to, if any. */
  datatype Step = Step(state: State, navigateTo: Option<string>)

  /** `handleSearch(query)`: the query is stored as typed; a blank query
      clears and hides the results, any other query filters the collections
      with the untrimmed query and shows the results. */
  function Search(s: State, query: string): (r: State)
    ensures r.searchQuery == query
    ensures r.showSearchResults <==> !IsBlank(query)
    ensures IsBlank(query) ==> r.searchResults == []
    ensures !IsBlank(query) ==> r.searchResults == Filter(s.collections, query)
    ensures forall c :: c in r.searchResults <==> !IsBlank(query) && c in s.collections && Matches(c, query)
    ensures SubsequenceOf(r.searchResults, s.collections)
    ensures r == s.(searchQuery := query, searchResults := r.searchResults, showSearchResults := r.showSearchResults)
  {
    FilterIsSubsequence(s.collections, query);
    if |Trim(query)| > 0 then
      s.(searchQuery := query, searchResults := Filter(s.collections, query), showSearchResults := true)
    else
      s.(searchQuery := query, searchResults := [], showSearchResults := false)
  }

  /** `handleCollectionSelect(collection)`: the label becomes the title, the
      dropdown closes, the query is cleared, and the collection's route is
      the navigation target; the results and their visibility are kept. */
  function SelectCollection(s: State, c: Collection): (r: Step)
    ensures r.state.selectedCollection == c.title && !r.state.isDropdownOpen && r.state.searchQuery == ""
    ensures r.navigateTo == Some(NavigationPath(c.handle))
    ensures r.state.searchResults == s.searchResults && r.state.showSearchResults == s.showSearchResults
    ensures r.state.collections == s.collections && r.state.collectionsLoading == s.collectionsLoading
  {
    Step(s.(selectedCollection := c.title, isDropdownOpen := false, searchQuery := ""),
         Some(NavigationPath(c.handle)))
  }

  /** `toggleDropdown()`: flips the dropdown and nothing else. */
  function ToggleDropdown(s: State): (r: State)
    ensures r.isDropdownOpen != s.isDropdownOpen
    ensures r.(isDropdownOpen := s.isDropdownOpen) == s
  {
    s.(isDropdownOpen := !s.isDropdownOpen)
  }

  /** The document `click` listener: a click outside the dropdown container
      closes the dropdown, a click inside changes nothing. */
  function DropdownClick(s: State, insideDropdown: bool): (r: State)
    ensures insideDropdown ==> r == s
    ensures !insideDropdown ==> !r.isDropdownOpen && r.(isDropdownOpen := s.isDropdownOpen) == s
  {
    if insideDropdown then s else s.(isDropdownOpen := false)
  }

  /** The document `mousedown` listener: a press outside the search container
      hides the results, one inside changes nothing. */
  function SearchMouseDown(s: State, insideSearch: bool): (r: State)
    ensures insideSearch ==> r == s
    ensures !insideSearch ==> !r.showSearchResults && r.(showSearchResults := s.showSearchResults) == s
  {
    if insideSearch then s else s.(showSearchResults := false)
  }

  /** The search input's `onFocus`: shows the results without recomputing them. */
  function FocusSearch(s: State): (r: State)
    ensures r.showSearchResults && r.(showSearchResults := s.showSearchResults) == s
  {
    s.(showSearchResults := true)
  }

  /** The mobile selector's `onChange`: the first collection titled `value`
      becomes the label and its route the target; with no such collection
      (the placeholder, say) nothing happens. */
  function MobileSelect(s: State, value: string): (r: Step)
    ensures r.state.(selectedCollection := s.selectedCollection) == s
    ensures (forall i :: 0 <= i < |s.collections| ==> s.collections[i].title != value) ==>
              r.state == s && r.navigateTo.None?
    ensures (exists i :: 0 <= i < |s.collections| && s.collections[i].title == value) ==>
              r.state.selectedCollection == value &&
              exists i :: 0 <= i < |s.collections| && s.collections[i].title == value &&
                          r.navigateTo == Some(NavigationPath(s.collections[i].handle)) &&
                          forall j :: 0 <= j < i ==> s.collections[j].title != value
  {
    match FindByTitle(s.collections, value)
    case Some(c) => Step(s.(selectedCollection := c.title), Some(NavigationPath(c.handle)))
    case None => Step(s, None)
  }

  /** The "View All Collections" link: closes the dropdown and goes to the
      collections index. */
  function ViewAllCollections(s: State): (r: Step)
    ensures !r.state.isDropdownOpen && r.state.(isDropdownOpen := s.isDropdownOpen) == s
    ensures r.navigateTo == Some(AllCollectionsPath)
  {
    Step(s.(isDropdownOpen := false), Some(AllCollectionsPath))
  }

  /** How the request for the collections ended. A body that does not parse
      is a thrown error. */
  datatype FetchOutcome =
    | Ok(list: Option<seq<Collection>>)  // status 2xx; `data.collections` if present
    | NotOk                              // any other status
    | Thrown                             // network or parse error

  /** The fetch effect starts: `setCollectionsLoading(true)`. */
  function FetchStarted(s: State): (r: State)
    ensures r.collectionsLoading && r.(collectionsLoading := s.collectionsLoading) == s
  {
    s.(collectionsLoading := true)
  }

  /** The fetch effect ends: an ok response stores `data.collections || []`,
      any failure keeps the list; loading is over in every case. */
  function FetchSettled(s: State, outcome: FetchOutcome): (r: State)
    ensures !r.collectionsLoading
    ensures r.collections == match outcome
                             case Ok(Some(list)) => list
                             case Ok(None) => []
                             case _ => s.collections
    ensures r == s.(collections := r.collections, collectionsLoading := false)
  {
    match outcome
    case Ok(list) => s.(collections := if list.Some? then list.value else [], collectionsLoading := false)
    case NotOk => s.(collectionsLoading := false)
    case Thrown => s.(collectionsLoading := false)
  }

  /** What the "Featured Collections" grid shows. */
  datatype FeaturedView =
    | Skeletons(count: nat)
    | Cards(items: seq<Collection>)
    | EmptyMessage(text: string)

  /** Four skeletons while loading; then the first four collections, or the
      empty-state message when there are none. */
  function Featured(s: State): (v: FeaturedView)
    ensures s.collectionsLoading <==> v == Skeletons(FeaturedLimit)
    ensures !s.collectionsLoading && |s.collections| == 0 <==> v == EmptyMessage(NoCollectionsText)
    ensures v.Cards? ==> 0 < |v.items| <= FeaturedLimit && |v.items| <= |s.collections|
    ensures !s.collectionsLoading && |s.collections| > 0 ==>
              v.Cards? && |v.items| == (if |s.collections| < FeaturedLimit then |s.collections| else FeaturedLimit) &&
              v.items == s.collections[..|v.items|]
  {
    if s.collectionsLoading then Skeletons(FeaturedLimit)
    else if |s.collections| > 0 then Cards(Take(s.collections, FeaturedLimit))
    else EmptyMessage(NoCollectionsText)
  }

  /** The results panel is rendered inside the open dropdown, when it is
      to be shown and there is something in it. */
  predicate ResultsPanelVisible(s: State) {
    s.isDropdownOpen && s.showSearchResults && |s.searchResults| > 0
  }

  /** The user interactions and the fetch effect, one per handler. */
  datatype Event =
    | TypeQuery(query: string)
    | PickCollection(collection: Collection)
    | ToggleClick
    | DocumentClick(insideDropdown: bool)
    | DocumentMouseDown(insideSearch: bool)
    | FocusInput
    | MobileChange(value: string)
    | ViewAllClick
    | FetchStart
    | FetchEnd(outcome: FetchOutcome)

  /** The effect of one event; each handler runs atomically. */
  function Apply(s: State, e: Event): (r: Step)
    ensures !e.FetchEnd? ==> r.state.collections == s.collections
    ensures !e.FetchStart? && !e.FetchEnd? ==> r.state.collectionsLoading == s.collectionsLoading
    ensures r.navigateTo.Some? ==> e.PickCollection? || e.MobileChange? || e.ViewAllClick?
  {
    match e
    case TypeQuery(q) => Step(Search(s, q), None)
    case PickCollection(c) => SelectCollection(s, c)
    case ToggleClick => Step(ToggleDropdown(s), None)
    case DocumentClick(inside) => Step(DropdownClick(s, inside), None)
    case DocumentMouseDown(inside) => Step(SearchMouseDown(s, inside), None)
    case FocusInput => Step(FocusSearch(s), None)
    case MobileChange(v) => MobileSelect(s, v)
    case ViewAllClick => ViewAllCollections(s)
    case FetchStart => Step(FetchStarted(s), None)
    case FetchEnd(o) => Step(FetchSettled(s, o), None)
  }

  /** The state after a sequence of events. */
  function Run(s: State, es: seq<Event>): State
    decreases |es|
  {
    if es == [] then s else Run(Apply(s, es[0]).state, es[1..])
  }

  /** Toggling twice restores the state. */
  lemma ToggleTwice(s: State)
    ensures ToggleDropdown(ToggleDropdown(s)) == s
  {
  }

  /** An outside click on a closed dropdown, or any click inside, is a no-op. */
  lemma DropdownClickNoOp(s: State, insideDropdown: bool)
    requires insideDropdown || !s.isDropdownOpen
    ensures DropdownClick(s, insideDropdown) == s
  {
  }

  /** Every result matches the current query. */
  predicate ResultsMatchQuery(s: State) {
    forall c :: c in s.searchResults ==> Matches(c, s.searchQuery)
  }

  /** Every handler keeps "every result matches the query": a selection clears
      the query but keeps the results, and the empty query matches everything. */
  lemma ApplyKeepsResultsMatchQuery(s: State, e: Event)
    requires ResultsMatchQuery(s)
    ensures ResultsMatchQuery(Apply(s, e).state)
  {
    if e.PickCollection? {
      forall c | c in s.searchResults ensures Matches(c, "") {
        MatchesEmptyQuery(c);
      }
    }
  }

  lemma {:induction false} RunKeepsResultsMatchQuery(s: State, es: seq<Event>)
    requires ResultsMatchQuery(s)
    ensures ResultsMatchQuery(Run(s, es))
    decreases |es|
  {
    if es != [] {
      ApplyKeepsResultsMatchQuery(s, es[0]);
      RunKeepsResultsMatchQuery(Apply(s, es[0]).state, es[1..]);
    }
  }

  /** The invariant holds in every state reachable from mount. */
  lemma ReachableResultsMatchQuery(es: seq<Event>)
    ensures ResultsMatchQuery(Run(Initial(), es))
  {
    RunKeepsResultsMatchQuery(Initial(), es);
  }

  /** Running two sequences of events one after the other is running their
      concatenation. */
  lemma {:induction false} RunAppend(s: State, es1: seq<Event>, es2: seq<Event>)
    ensures Run(s, es1 + es2) == Run(Run(s, es1), es2)
    decreases |es1|
  {
    if es1 == [] {
      assert es1 + es2 == es2;
    } else {
      assert (es1 + es2)[0] == es1[0] && (es1 + es2)[1..] == es1[1..] + es2;
      RunAppend(Apply(s, es1[0]).state, es1[1..], es2);
    }
  }

  /** With the dropdown open, a search shows the results panel exactly when
      the query is not blank and some collection matches it. */
  lemma SearchPanelVisibility(s: State, query: string)
    requires s.isDropdownOpen
    ensures ResultsPanelVisible(Search(s, query)) <==>
              !IsBlank(query) && exists c :: c in s.collections && Matches(c, query)
  {
    var r := Search(s, query).searchResults;
    if r != [] {
      assert r[0] in r;
    }
  }

  /** A selection closes the dropdown, and with it the results panel. */
  lemma SelectHidesPanel(s: State, c: Collection)
    ensures !ResultsPanelVisible(SelectCollection(s, c).state)
  {
  }

  /** Only the end of the fetch changes the list of collections. */
  lemma {:induction false} RunWithoutFetchEndKeepsCollections(s: State, es: seq<Event>)
    requires forall i :: 0 <= i < |es| ==> !es[i].FetchEnd?
    ensures Run(s, es).collections == s.collections
    decreases |es|
  {
    if es != [] {
      RunWithoutFetchEndKeepsCollections(Apply(s, es[0]).state, es[1..]);
    }
  }

  /** Once the fetch has ended, and while it is not started again, the
      grid shows no skeletons, whatever else the user does. */
  lemma LoadingOverAfterFetchEnd(s: State, o: FetchOutcome, es: seq<Event>)
    requires forall i :: 0 <= i < |es| ==> !es[i].FetchStart?
    ensures !Run(s, [FetchEnd(o)] + es).collectionsLoading
  {
    var s1 := FetchSettled(s, o);
    assert ([FetchEnd(o)] + es)[1..] == es;
    KeepsNotLoading(s1, es);
  }

  lemma {:induction false} KeepsNotLoading(s: State, es: seq<Event>)
    requires !s.collectionsLoading
    requires forall i :: 0 <= i < |es| ==> !es[i].FetchStart?
    ensures !Run(s, es).collectionsLoading
    decreases |es|
  {
    if es != [] {
      KeepsNotLoading(Apply(s, es[0]).state, es[1..]);
    }
  }

  /** A failed fetch on mount leaves the grid with the empty-state message. */
  lemma FailedFetchShowsEmptyState(o: FetchOutcome)
    requires o.NotOk? || o.Thrown?
    ensures Featured(FetchSettled(FetchStarted(Initial()), o)) == EmptyMessage(NoCollectionsText)
  {
  }

  const Valorant: Collection := Collection("gid-1", "Valorant", None, "valorant")
  const Apex: Collection := Collection("gid-2", "Apex Legends", Some("Battle royale"), "apex-legends")

  lemma ValorantMatchesVal()
    ensures Matches(Valorant, "val")
  {
    var lv := Lower("val");
    assert lv == "val" by { assert lv[0] == 'v' && lv[1] == 'a' && lv[2] == 'l'; }
    var lt := Lower("Valorant");
    assert lv <= lt by { assert lt[0] == 'v' && lt[1] == 'a' && lt[2] == 'l'; }
  }

  lemma ApexDoesNotMatchVal()
    ensures !Matches(Apex, "val")
  {
    var lv := Lower("val");
    assert lv[0] == 'v';
    LacksFirstChar(Lower("Apex Legends"), lv);
    LacksFirstChar(Lower("Battle royale"), lv);
  }

  /** Searching "val" over Valorant and Apex Legends finds only Valorant. */
  lemma SearchValScenario()
    ensures Search(FetchSettled(Initial(), Ok(Some([Valorant, Apex]))), "val").searchResults == [Valorant]
  {
    assert !IsBlank("val") by { assert !IsTrimmable("val"[0]); }
    ValorantMatchesVal();
    ApexDoesNotMatchVal();
    var cs := [Valorant, Apex];
    assert cs[1..] == [Apex] && [Apex][1..] == [];
    assert Filter(cs, "val") == [Valorant];
  }

  /** Picking Valorant routes to /collections/valorant, closes the dropdown
      and clears the query. */
  lemma PickValorantScenario(s: State)
    ensures SelectCollection(s, Valorant).navigateTo == Some("/collections/valorant")
    ensures !SelectCollection(s, Valorant).state.isDropdownOpen
    ensures SelectCollection(s, Valorant).state.searchQuery == ""
  {
    assert CollectionsPrefix + "valorant" == "/collections/valorant";
  }

  /** A selection keeps the results, so when the dropdown is reopened (the
      press on the toggle hides the results) and the input is focused, the
      old results are shown again under an empty query. */
  lemma StaleResultsAfterSelect()
    ensures var loaded := FetchSettled(FetchStarted(Initial()), Ok(Some([Valorant, Apex])));
            var searched := Search(ToggleDropdown(loaded), "val");
            var picked := SelectCollection(searched, Valorant).state;
            var s := FocusSearch(SearchMouseDown(ToggleDropdown(SearchMouseDown(picked, false)), true));
            s.searchQuery == "" && s.searchResults == [Valorant] && ResultsPanelVisible(s)
  {
    var loaded := FetchSettled(FetchStarted(Initial()), Ok(Some([Valorant, Apex])));
    assert ToggleDropdown(loaded).collections == FetchSettled(Initial(), Ok(Some([Valorant, Apex]))).collections;
    SearchValScenario();
  }
}
