/** The navigation bar's collection picker as a component whose handlers
    update its state fields in place. Each handler is proved to leave the
    component in the state the corresponding transition of `Picker` gives. */
module ModernNavbar {
  import opened Text
  import opened Catalog
  import opened Picker

  class CollectionPicker {
    var isDropdownOpen: bool
    var searchQuery: string
    var searchResults: seq<Collection>
    var showSearchResults: bool
    var selectedCollection: string
    var collections: seq<Collection>
    var collectionsLoading: bool

    /** The component's state as a value. */
    function Snapshot(): State
      reads this
    {
      State(isDropdownOpen, searchQuery, searchResults, showSearchResults,
            selectedCollection, collections, collectionsLoading)
    }

    /** Mounting: every hook at its initial value. */
    constructor ()
      ensures Snapshot() == Initial()
    {
      isDropdownOpen := false;
      searchQuery := "";
      collections := [];
      searchResults := [];
      showSearchResults := false;
      collectionsLoading := true;
      selectedCollection := Placeholder;
    }

    /** The input's `onChange`. */
    method HandleSearch(query: string)
      modifies this
      ensures Snapshot() == Search(old(Snapshot()), query)
    {
      searchQuery := query;
      if |Trim(query)| > 0 {
        searchResults := Filter(collections, query);
        showSearchResults := true;
      } else {
        searchResults := [];
        showSearchResults := false;
      }
    }

    /** A result or a featured card is clicked. */
    method HandleCollectionSelect(collection: Collection) returns (navigateTo: string)
      modifies this
      ensures Snapshot() == SelectCollection(old(Snapshot()), collection).state
      ensures navigateTo == NavigationPath(collection.handle)
    {
      selectedCollection := collection.title;
      isDropdownOpen := false;
      searchQuery := "";
      navigateTo := CollectionsPrefix + collection.handle;
    }

    /** The picker button's `onClick`. */
    method ToggleDropdown()
      modifies this
      ensures Snapshot() == Picker.ToggleDropdown(old(Snapshot()))
    {
      isDropdownOpen := !isDropdownOpen;
    }

    /** The document `click` listener; `insideDropdown` says whether the
        target lies in the dropdown container. */
    method HandleDocumentClick(insideDropdown: bool)
      modifies this
      ensures Snapshot() == DropdownClick(old(Snapshot()), insideDropdown)
    {
      if !insideDropdown {
        isDropdownOpen := false;
      }
    }

    /** The document `mousedown` listener; `insideSearch` says whether the
        target lies in the search container. */
    method HandleDocumentMouseDown(insideSearch: bool)
      modifies this
      ensures Snapshot() == SearchMouseDown(old(Snapshot()), insideSearch)
    {
      if !insideSearch {
        showSearchResults := false;
      }
    }

    /** The input's `onFocus`. */
    method HandleFocus()
      modifies this
      ensures Snapshot() == FocusSearch(old(Snapshot()))
    {
      showSearchResults := true;
    }

    /** The mobile selector's `onChange` with the chosen option's value. */
    method HandleMobileChange(value: string) returns (navigateTo: Option<string>)
      modifies this
      ensures Snapshot() == MobileSelect(old(Snapshot()), value).state
      ensures navigateTo == MobileSelect(old(Snapshot()), value).navigateTo
    {
      var found := FindByTitle(collections, value);
      if found.Some? {
        selectedCollection := found.value.title;
        navigateTo := Some(CollectionsPrefix + found.value.handle);
      } else {
        navigateTo := None;
      }
    }

    /** The "View All Collections" link's `onClick`. */
    method HandleViewAll() returns (navigateTo: string)
      modifies this
      ensures Snapshot() == ViewAllCollections(old(Snapshot())).state
      ensures Some(navigateTo) == ViewAllCollections(old(Snapshot())).navigateTo
    {
      isDropdownOpen := false;
      navigateTo := AllCollectionsPath;
    }

    /** The fetch effect before its request. */
    method BeginFetch()
      modifies this
      ensures Snapshot() == FetchStarted(old(Snapshot()))
    {
      collectionsLoading := true;
    }

    /** The fetch effect once its request has ended with `outcome`. */
    method EndFetch(outcome: FetchOutcome)
      modifies this
      ensures Snapshot() == FetchSettled(old(Snapshot()), outcome)
    {
      match outcome {
        case Ok(list) =>
          collections := if list.Some? then list.value else [];
        case NotOk =>
        case Thrown =>
      }
      collectionsLoading := false;
    }

  }
}
