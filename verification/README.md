# Collection picker of the GamePalace navigation bar

This project models, in Dafny, the collection picker of the storefront's
navigation bar (`ModernNavbar`). The picker has seven parts:

- a "Select Game" dropdown button;
- a search box whose results panel filters the collections fetched from the
  collections endpoint;
- a "Featured Collections" grid showing at most four collections;
- a "View All Collections" link;
- two document listeners that close the dropdown and hide the results when the
  user interacts outside them;
- the mobile `<select>` that picks a collection by title;
- the one-shot fetch that fills the list.

The files:

- `text.dfy` (module `Text`): the string operations the filter uses. `trim` is
  modelled with ECMAScript's exact white-space and line-terminator set.
  `toLowerCase` is modelled on ASCII letters. `includes` is proved equal to
  "occurs at some position".
- `catalog.dfy` (module `Catalog`): the `Collection` record and the filter
  predicate. It also holds `collections.filter` as `Filter`, which is proved to
  return the matching elements with their multiplicities, in order, and to be
  idempotent. Also here: `collections.find` by title as `FindByTitle` (the
  first match), `slice(0, 4)` and the `/collections/<handle>` route.
- `picker.dfy` (module `Picker`): the component state as a record and one pure
  transition per handler. Each transition states what changes and what stays
  the same. This file also has the featured-grid view, the event type and runs
  of events, with invariants proved over whole runs.
- `navbar.dfy` (module `ModernNavbar`): the class `CollectionPicker`. It has the
  seven state fields, and each handler is a method updating them in place. Each
  method is proved to reach exactly the state that the matching `Picker`
  transition describes.

Navigation is a returned route, never an effect. A fetch is an abstract
outcome: ok with a list, ok without one, a non-ok status, or a thrown error.
A DOM target test (`closest(...)`) is a boolean saying whether the target lies
inside the container.

Observations the proofs make precise:

- Whether a query is blank is decided on the trimmed query. Matching uses the
  untrimmed, lowercased query, so `" val"` finds nothing in "Valorant".
- Selecting a collection clears the query but keeps the results and their
  visibility. The empty query matches every collection, so "every result
  matches the current query" still holds after every handler
  (`RunKeepsResultsMatchQuery`). Yet the results panel can reappear with an
  empty query, as `StaleResultsAfterSelect` shows: reopen the dropdown, then
  focus the input.
- A failed fetch keeps the list as it was. That list is empty only because
  the fetch runs once, on mount.
- A whitespace-only query counts as blank, not only the empty query.
- The mobile placeholder's value is "Select Game". A collection with exactly
  that title would be picked by choosing the placeholder; `FindByTitle` shows
  this.

## Model

| member | source | states |
|---|---|---|
| `Text.TrimStart` | app/components/ModernNavbar.jsx:55 | drops exactly the leading trimmable characters: the result is a suffix starting with a kept character or empty |
| `Text.TrimEnd` | app/components/ModernNavbar.jsx:55 | drops exactly the trailing trimmable characters: the result is a prefix ending with a kept character or empty |
| `Text.Trim` | app/components/ModernNavbar.jsx:55 | `trim` removes a white-space prefix and a white-space suffix and keeps what lies between; the result is empty exactly when the query is blank, so `query.trim().length > 0` holds exactly when some character is not white space |
| `Text.Lower` | app/components/ModernNavbar.jsx:57-58 | lowercasing keeps the length (ASCII letters only) |
| `Text.LowerIdempotent` | app/components/ModernNavbar.jsx:57-58 | lowercasing twice equals lowercasing once, and the result has no upper-case ASCII letter |
| `Text.Includes` | app/components/ModernNavbar.jsx:57-58 | `s.includes(q)` holds exactly when `q` occurs in `s` at some position |
| `Text.IncludesEmpty` | app/components/ModernNavbar.jsx:57 | every string includes the empty string |
| `Catalog.Matches` | app/components/ModernNavbar.jsx:56-58 | the lowercased title includes the lowercased query, or a non-empty description's lowercased form does; stated as an occurrence at some position |
| `Catalog.MatchesIgnoresQueryCase` | app/components/ModernNavbar.jsx:57-58 | lowercasing the query first does not change whether a collection matches |
| `Catalog.MatchesEmptyQuery` | app/components/ModernNavbar.jsx:57-58 | the empty query matches every collection |
| `Catalog.Filter` | app/components/ModernNavbar.jsx:56-59 | a collection is in the result exactly when it is in the input and matches; the result is no longer than the input |
| `Catalog.FilterCount` | app/components/ModernNavbar.jsx:56-59 | each matching collection occurs in the result as often as in the input, every other one not at all |
| `Catalog.FilterCons` | app/components/ModernNavbar.jsx:56-59 | the filter keeps the first collection exactly when it matches, followed by the filter of the rest |
| `Catalog.FilterIsSubsequence` | app/components/ModernNavbar.jsx:56-59 | the filter keeps the input order: its result is a subsequence of the collections |
| `Catalog.SubsequenceLength` | app/components/ModernNavbar.jsx:56-59 | a subsequence is no longer than the sequence it comes from |
| `Catalog.FilterIdempotent` | app/components/ModernNavbar.jsx:56-59 | filtering the results again with the same query returns them unchanged |
| `Catalog.FilterAppend` | app/components/ModernNavbar.jsx:56-59 | filtering a concatenation filters each part and concatenates |
| `Catalog.FindByTitle` | app/components/ModernNavbar.jsx:322 | none exactly when no collection has the title; otherwise the first collection with that title |
| `Catalog.NavigationPath` | app/components/ModernNavbar.jsx:107 | the route is `/collections/` followed by the handle, which can be read back from it |
| `Catalog.NavigationPathInjective` | app/components/ModernNavbar.jsx:325 | two handles with the same route are equal |
| `Catalog.Take` | app/components/ModernNavbar.jsx:233 | `slice(0, n)` gives the first `min(n, length)` elements in order |
| `Picker.Initial` | app/components/ModernNavbar.jsx:22-28 | on mount the dropdown is closed, query and results are empty and hidden, the label is "Select Game", the list is empty and loading is on |
| `Picker.Search` | app/components/ModernNavbar.jsx:53-66 | the query is stored verbatim; a blank query empties and hides the results; any other query shows them and sets them to the in-order filter of the collections with the untrimmed query; nothing else changes |
| `Picker.SelectCollection` | app/components/ModernNavbar.jsx:103-108 | the label becomes the title, the dropdown closes, the query becomes empty and the route is `/collections/<handle>`; results, their visibility, the list and loading are kept |
| `Picker.ToggleDropdown` | app/components/ModernNavbar.jsx:114-116 | the dropdown flag is negated and nothing else changes |
| `Picker.ToggleTwice` | app/components/ModernNavbar.jsx:114-116 | toggling twice is the identity |
| `Picker.DropdownClick` | app/components/ModernNavbar.jsx:82-85 | a click outside closes the dropdown and changes nothing else; a click inside changes nothing |
| `Picker.DropdownClickNoOp` | app/components/ModernNavbar.jsx:82-85 | an outside click on a closed dropdown is a no-op |
| `Picker.SearchMouseDown` | app/components/ModernNavbar.jsx:70-73 | a press outside the search container hides the results and changes nothing else; a press inside changes nothing |
| `Picker.FocusSearch` | app/components/ModernNavbar.jsx:174 | focusing shows the results without recomputing them |
| `Picker.MobileSelect` | app/components/ModernNavbar.jsx:321-327 | with a collection titled as the value, the label becomes the value and the route is the first such collection's; with none, nothing changes and there is no navigation; dropdown and query are never touched |
| `Picker.ViewAllCollections` | app/components/ModernNavbar.jsx:281-287 | the link closes the dropdown, changes nothing else and goes to `/collections` |
| `Picker.FetchStarted` | app/components/ModernNavbar.jsx:34 | loading is turned on and nothing else changes |
| `Picker.FetchSettled` | app/components/ModernNavbar.jsx:36-46 | loading is off after any outcome; an ok response stores its list or the empty list; a non-ok or thrown outcome keeps the list; nothing else changes |
| `Picker.Featured` | app/components/ModernNavbar.jsx:224-271 | four skeletons exactly while loading; the empty-state message exactly when loaded with no collections; otherwise the first `min(4, n)` collections in order |
| `Picker.FailedFetchShowsEmptyState` | app/components/ModernNavbar.jsx:39-45 | a failed fetch on mount leaves the grid showing "No collections found" |
| `Picker.ResultsPanelVisible` | app/components/ModernNavbar.jsx:163-179 | the results panel is rendered when the dropdown is open, the results are to be shown and there is at least one result |
| `Picker.SearchPanelVisibility` | app/components/ModernNavbar.jsx:53-66 | with the dropdown open, a search shows the results panel exactly when the query is not blank and some collection matches it |
| `Picker.SelectHidesPanel` | app/components/ModernNavbar.jsx:103-108 | after a selection the results panel is not rendered, since the dropdown is closed |
| `Picker.Apply` | app/components/ModernNavbar.jsx:31-116 | only the end of the fetch changes the list, only the fetch changes loading, and only a selection or the link navigates |
| `Picker.Run` | app/components/ModernNavbar.jsx:31-116 | the state after the handlers for a sequence of events run one after another, each atomically |
| `Picker.RunAppend` | app/components/ModernNavbar.jsx:31-116 | running two sequences of events one after the other equals running their concatenation |
| `Picker.ApplyKeepsResultsMatchQuery` | app/components/ModernNavbar.jsx:53-108 | every handler keeps "every result matches the current query" |
| `Picker.RunKeepsResultsMatchQuery` | app/components/ModernNavbar.jsx:53-108 | any sequence of events keeps "every result matches the current query" |
| `Picker.ReachableResultsMatchQuery` | app/components/ModernNavbar.jsx:20-116 | in every state reachable from mount, every result matches the current query |
| `Picker.RunWithoutFetchEndKeepsCollections` | app/components/ModernNavbar.jsx:31-50 | events other than the end of the fetch never change the list |
| `Picker.KeepsNotLoading` | app/components/ModernNavbar.jsx:44-46 | once loading is off, no event but a fetch start turns it on again |
| `Picker.LoadingOverAfterFetchEnd` | app/components/ModernNavbar.jsx:44-46 | after the fetch ends, loading stays off whatever the user does |
| `Picker.ValorantMatchesVal` | app/components/ModernNavbar.jsx:57 | "Valorant" matches the query "val" |
| `Picker.ApexDoesNotMatchVal` | app/components/ModernNavbar.jsx:57-58 | "Apex Legends" with its description does not match "val" |
| `Picker.SearchValScenario` | app/components/ModernNavbar.jsx:53-61 | searching "val" over Valorant and Apex Legends yields exactly Valorant |
| `Picker.PickValorantScenario` | app/components/ModernNavbar.jsx:103-108 | picking Valorant routes to `/collections/valorant`, closes the dropdown and clears the query |
| `Picker.StaleResultsAfterSelect` | app/components/ModernNavbar.jsx:103-108 | after a selection, reopening and focusing shows the earlier results under an empty query |
| `ModernNavbar.CollectionPicker.constructor` | app/components/ModernNavbar.jsx:20-28 | the fields start in the initial state |
| `ModernNavbar.CollectionPicker.HandleSearch` | app/components/ModernNavbar.jsx:53-66 | the fields become the `Search` transition of their old values |
| `ModernNavbar.CollectionPicker.HandleCollectionSelect` | app/components/ModernNavbar.jsx:103-108 | the fields follow `SelectCollection`; the returned route is `/collections/<handle>` |
| `ModernNavbar.CollectionPicker.ToggleDropdown` | app/components/ModernNavbar.jsx:114-116 | the fields follow `ToggleDropdown` |
| `ModernNavbar.CollectionPicker.HandleDocumentClick` | app/components/ModernNavbar.jsx:82-85 | the fields follow `DropdownClick` |
| `ModernNavbar.CollectionPicker.HandleDocumentMouseDown` | app/components/ModernNavbar.jsx:70-73 | the fields follow `SearchMouseDown` |
| `ModernNavbar.CollectionPicker.HandleFocus` | app/components/ModernNavbar.jsx:174 | the fields follow `FocusSearch` |
| `ModernNavbar.CollectionPicker.HandleMobileChange` | app/components/ModernNavbar.jsx:321-327 | the fields and the returned route follow `MobileSelect` |
| `ModernNavbar.CollectionPicker.HandleViewAll` | app/components/ModernNavbar.jsx:283 | the fields and the returned route follow `ViewAllCollections` |
| `ModernNavbar.CollectionPicker.BeginFetch` | app/components/ModernNavbar.jsx:34 | the fields follow `FetchStarted` |
| `ModernNavbar.CollectionPicker.EndFetch` | app/components/ModernNavbar.jsx:36-46 | the fields follow `FetchSettled` for the outcome |

## Left out

- Text.Lower: only ASCII letters are lowercased. JavaScript's `toLowerCase` applies full Unicode case mapping, so non-ASCII titles may match differently.
- The request to the collections endpoint and the parsing of its JSON body are not modelled. They are replaced by the `FetchOutcome` value. The error logging is dropped.
- Cancelling a fetch that resolves after unmount is not modelled. The source does not do it either.
- Effect and listener plumbing is not modelled: registering and removing the document listeners, and the cleanup that removes a `mousedown` handler registered for `click`. Only each handler's effect on the state is modelled.
- Whether an element is rendered is not modelled. Every handler can fire in every state, although some elements exist only while the dropdown or the mobile menu is open. `ResultsPanelVisible` states the render condition of the results panel.
- The mobile menu toggle (`isMobileMenuOpen`) is not modelled: it is not part of the picker's state. The scroll styling is also left out: it reads a browser float and only drives CSS.
- The search and cart asides, the router's `Link` and `navigate` are not modelled: they are calls into code outside this component. Navigation is a returned route.
- Images and markup are not modelled. The types exclude three inputs the source would mishandle:
  - a collection whose title is not a string, on which the filter throws at line 57;
  - a truthy description that is not a string (`description: Option<string>`), on which `toLowerCase` throws at line 58;
  - a truthy `data.collections` that is not an array (`Ok(list: Option<seq<Collection>>)`), which line 38 would store as it is.
- The footer, the hero section and the home page are not part of this model: they hold markup, random particle positions and a carousel timer, with no picker logic.
