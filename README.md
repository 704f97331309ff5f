# TextReader search, filter and navigation core in Dafny

TextReader is a WinForms viewer for large line-oriented texts. This project
models its engine: the part that decides which lines match a query, which
lines the grid shows, and how "find next"/"find previous" move between
matches and grid rows. The document is a fixed `seq<string>` of lines.
Each service is modelled over one document for its whole lifetime.

- `text.dfy` (module `Text`): `string.IsNullOrWhiteSpace` and
  `string.Contains` with the ordinal and ordinal-ignore-case comparisons.
- `line_match.dfy` (module `LineMatch`): the LINQ pipeline that collects
  the indices of matching lines, `Enumerable.Range` and `List.IndexOf`.
  The match list is proved strictly increasing, to hold exactly the
  matching lines, and to be the only such list.
- `navigation.dfy` (module `Navigation`): `SearchNavigator`, a saturating
  cursor that is -1 while unset. One step is a pure function (`NextStep`,
  `PreviousStep`), and the class methods are proved equal to it. `Run`
  replays a sequence of key presses, and the trace lemmas are stated
  over it.
- `filtering.dfy` (module `Filtering`): `TextFilterService`. Its fields
  form a `FilterState`. Each method is proved to produce the state given
  by a pure transition (`Applied`, `Reset`, `WithIgnoreCase`). The
  invariant `Consistent` says the visible list is either empty or exactly
  the view of the stored filter text under the stored flag.
- `searching.dfy` (module `Searching`): `TextSearchService`, which owns
  its navigator. It is built the same way from the transitions
  `Searched`, `WithIgnoreCase`, `FoundNext` and `FoundPrevious`.
- `manager.dfy` (module `Manager`): `SearchManager`, whose handlers run
  search, filter and navigation in the source's order. A small `Grid`
  class stands in for the data grid's selected row and first displayed
  row.

The model follows the code, including these behaviours a reader may not
expect:
- A freshly built filter service shows no rows at all. The identity list
  appears only after `ResetFilter` or `ApplyFilter`.
- Changing the case flag recomputes a search or a filter only when its
  current list is non-empty. So a query or filter with zero hits is not
  recomputed and can stay stale. `ZeroHitSearchStaysStale` and
  `ZeroRowFilterStaysStale` exhibit this. The invariant `Consistent`
  allows exactly this staleness and no other kind.
- `GetFilteredIndex` is the linear `List.IndexOf`. There is no reverse map.
- `Next` and `Previous` on an empty match list answer "no match" and leave
  the cursor alone, whatever it was.

The navigator reads the match list through a back-reference to its search
service. In this model the list is passed to `Next` and `Previous` instead.
On a non-empty list, `Previous` indexes it at the decremented cursor, so
`PreviousStep` requires that such a cursor is not past the end of the
list. An empty list is answered "no match" whatever the cursor. The search
service's invariant guarantees this precondition.

## Model

| member | source | states |
|---|---|---|
| `Text.OrdinalHitIsIgnoreCaseHit` | TextReader/Services/TextSearchService.cs:69 | a line containing the query case-sensitively also contains it ignoring case |
| `LineMatch.MatchingPrefix` | TextReader/Services/TextSearchService.cs:67-71 | the selected indices below n are strictly increasing, below n, and are exactly the lines containing the query |
| `LineMatch.Matching` | TextReader/Services/TextFilterService.cs:70-74 | the pipeline's result is strictly increasing, within the document, and i is in it iff line i contains the text under the chosen comparison |
| `LineMatch.Identity` | TextReader/Services/TextFilterService.cs:82 | the reset list has one entry per line, is strictly increasing, and holds index i at position i |
| `LineMatch.IndexOf` | TextReader/Services/TextFilterService.cs:100 | -1 iff the value is absent; otherwise the position holds the value and no earlier position does |
| `LineMatch.IndexOfAt` | TextReader/Services/TextFilterService.cs:91-101 | in a strictly increasing list, looking up the entry at position r gives back r |
| `LineMatch.IncreasingUnique` | TextReader/Services/TextSearchService.cs:67-71 | two strictly increasing lists with the same members are equal |
| `LineMatch.MatchingIsCanonical` | TextReader/Services/TextSearchService.cs:58-75 | any strictly increasing list holding exactly the matching lines is the match list, so the result depends only on lines, query and flag |
| `LineMatch.IgnoreCaseWidens` | TextReader/Services/TextSearchService.cs:65-72 | every case-sensitive match is also a case-insensitive match |
| `LineMatch.CaseDecidesHit` | TextReader/Services/TextFilterService.cs:72 | "abc" misses "ABC" under the ordinal comparison and hits it ignoring case |
| `LineMatch.MixedCaseHits` | TextReader.Tests/TextSearchServiceTests.cs:87-98 | ignoring case, "test" matches "TEST1", "test2" and "Test3" |
| `LineMatch.SkipsNonMatchingLine` | TextReader.Tests/TextFilterServiceTests.cs:37-52 | "test" over "test1", "other", "test2", "test3" selects [0, 2, 3] under either comparison |
| `Navigation.NextStep` | TextReader/Services/SearchNavigator.cs:38-60 | a step forward keeps a valid cursor valid; a hit is the match under the new cursor; a miss leaves the cursor unchanged |
| `Navigation.PreviousStep` | TextReader/Services/SearchNavigator.cs:66-88 | the same three facts for a step backward |
| `Navigation.NeverWraps` | TextReader/Services/SearchNavigator.cs:53-57 | at the last match, next misses and stays; at the first, previous misses and stays |
| `Navigation.StepsStayInList` | TextReader/Services/SearchNavigator.cs:9 | from a valid cursor both steps give a valid cursor and return only members of the match list |
| `Navigation.Run` | TextReader/Services/SearchNavigator.cs:38-88 | a sequence of next and previous presses from a valid cursor gives one answer per press, and every hit is a member of the match list |
| `Navigation.ForwardFrom` | TextReader/Services/SearchNavigator.cs:38-60 | from the cursor before position j, next returns the matches from j on in order, then misses |
| `Navigation.ForwardFromUnset` | TextReader.Tests/TextSearchServiceTests.cs:49-61 | n+1 presses of next from the unset cursor return all n matches in order and then no match |
| `Navigation.ForwardSaturates` | TextReader/Services/SearchNavigator.cs:53-57 | once at the last match, any number of further next presses all miss |
| `Navigation.BackwardFrom` | TextReader/Services/SearchNavigator.cs:66-88 | from position j (unset when j is the length), previous returns the matches before j, last first, then misses |
| `Navigation.BackwardFromUnset` | TextReader/Services/SearchNavigator.cs:72-75 | n+1 presses of previous from the unset cursor return all matches last first and then no match |
| `Navigation.ThreeMatchesTrace` | TextReader.Tests/TextSearchServiceTests.cs:64-84 | next four times, then previous three times, over [0, 1, 2] gives 0, 1, 2, none, 1, 0, none |
| `Navigation.SearchNavigator.constructor` | TextReader/Services/SearchNavigator.cs:9 | a new navigator is unset (-1) |
| `Navigation.SearchNavigator.Reset` | TextReader/Services/SearchNavigator.cs:29-32 | the cursor becomes -1 |
| `Navigation.SearchNavigator.Next` | TextReader/Services/SearchNavigator.cs:38-60 | the new cursor and the result are those of `NextStep` on the old cursor |
| `Navigation.SearchNavigator.Previous` | TextReader/Services/SearchNavigator.cs:66-88 | the new cursor and the result are those of `PreviousStep` on the old cursor |
| `Filtering.View` | TextReader/Services/TextFilterService.cs:64-82 | the rows a filter text selects are strictly increasing line indices: every line, each at its own row, for a blank text, otherwise exactly the lines containing it |
| `Filtering.Reset` | TextReader/Services/TextFilterService.cs:80-84 | reset clears the stored text, keeps the flag, and shows the view of the empty text |
| `Filtering.Applied` | TextReader/Services/TextFilterService.cs:61-75 | apply stores the text (empty when blank), keeps the flag, and shows the view of the stored text |
| `Filtering.WithIgnoreCase` | TextReader/Services/TextFilterService.cs:33-43 | the flag is set; an empty list stays empty with the text kept; a non-empty list under a changed flag becomes the view of the stored text under the new flag |
| `Filtering.ConsistentWellFormed` | TextReader/Services/TextFilterService.cs:14 | every reachable row list is strictly increasing and within the document |
| `Filtering.InitialHasNoRows` | TextReader/Services/TextFilterService.cs:14-15 | a fresh service is consistent and has zero rows |
| `Filtering.ResetShowsAll` | TextReader/Services/TextFilterService.cs:80-84 | reset shows every line, each at its own row, clears the stored text and keeps the flag |
| `Filtering.BlankApplyIsReset` | TextReader/Services/TextFilterService.cs:61-67 | applying a blank text gives exactly the reset state, with the stored text empty |
| `Filtering.ApplyKeepsMatchingLines` | TextReader/Services/TextFilterService.cs:69-74 | a non-blank filter gives a strictly increasing list holding exactly the lines that contain it, and stores the text |
| `Filtering.AppliedIsDerived` | TextReader/Services/TextFilterService.cs:61-84 | after apply or reset, the list is exactly the view of the stored text under the stored flag |
| `Filtering.SameIgnoreCaseIsNoop` | TextReader/Services/TextFilterService.cs:35 | setting the flag to its current value changes nothing |
| `Filtering.ChangedIgnoreCase` | TextReader/Services/TextFilterService.cs:35-42 | a new flag value is stored; the filter is re-applied iff the list was non-empty |
| `Filtering.OperationsKeepConsistent` | TextReader/Services/TextFilterService.cs:30-84 | apply, reset and the flag setter preserve the invariant "empty, or exactly the derived view" |
| `Filtering.ZeroRowFilterStaysStale` | TextReader/Services/TextFilterService.cs:39 | with ["ABC"], a zero-row case-sensitive filter "abc" stays empty when ignore-case is turned on, although its view is now [0] |
| `Filtering.DefaultIgnoresCase` | TextReader.Tests/TextFilterServiceTests.cs:55-67 | with the default flag, "test" keeps "TEST1", "test2" and "Test3" |
| `Filtering.FilterHidesOther` | TextReader.Tests/TextFilterServiceTests.cs:104-116 | "test" over "test1", "other", "test2", "test3" shows rows backed by lines 0, 2 and 3 |
| `Filtering.TextFilterService.constructor` | TextReader/Services/TextFilterService.cs:52-55 | a new service has no rows, empty filter text and ignore-case on |
| `Filtering.TextFilterService.ApplyFilter` | TextReader/Services/TextFilterService.cs:61-75 | the new state is `Applied` of the old one, and the invariant holds |
| `Filtering.TextFilterService.ResetFilter` | TextReader/Services/TextFilterService.cs:80-84 | the new state is `Reset` of the old one, and the invariant holds |
| `Filtering.TextFilterService.SetIgnoreCase` | TextReader/Services/TextFilterService.cs:30-45 | the new state is `WithIgnoreCase` of the old one, and the invariant holds |
| `Filtering.TextFilterService.GetOriginalIndex` | TextReader/Services/TextFilterService.cs:91-96 | -1 exactly for rows out of range; otherwise the row's entry, a valid line index |
| `Filtering.TextFilterService.GetFilteredIndex` | TextReader/Services/TextFilterService.cs:98-101 | -1 exactly when the line is not visible; otherwise a row whose original index is that line |
| `Filtering.TextFilterService.RowRoundTrip` | TextReader/Services/TextFilterService.cs:91-101 | for every valid row r, the filtered index of its original index is r |
| `Searching.Hits` | TextReader/Services/TextSearchService.cs:61-72 | the matches of a query are strictly increasing line indices, and i is among them iff the query is not blank and line i contains it |
| `Searching.Searched` | TextReader/Services/TextSearchService.cs:58-75 | a search stores the query, keeps the flag, unsets the cursor, and leaves a consistent state whose matches are the query's hits |
| `Searching.WithIgnoreCase` | TextReader/Services/TextSearchService.cs:27-42 | the flag is set and the query kept; an empty list changes nothing else; a non-empty one under a changed flag becomes the hits under the new flag with the cursor unset; consistency is preserved |
| `Searching.FoundNext` | TextReader/Services/TextSearchService.cs:81-84 | find next moves only the cursor; a result is the match under the new cursor; a miss changes nothing; a valid cursor stays valid |
| `Searching.FoundPrevious` | TextReader/Services/TextSearchService.cs:90-93 | the same four facts for find previous |
| `Searching.SearchFindsContainingLines` | TextReader/Services/TextSearchService.cs:58-75 | a search stores the query and resets the cursor; a blank query finds nothing; otherwise it finds exactly the containing lines, in order |
| `Searching.SearchIdempotent` | TextReader/Services/TextSearchService.cs:58-75 | searching again for the same query with the same flag gives the same state |
| `Searching.BlankQueryClears` | TextReader/Services/TextSearchService.cs:61-64 | a blank query empties the matches, whatever was found before, and unsets the cursor |
| `Searching.SameIgnoreCaseIsNoop` | TextReader/Services/TextSearchService.cs:32 | setting the flag to its current value changes nothing |
| `Searching.ChangedIgnoreCase` | TextReader/Services/TextSearchService.cs:32-40 | a new flag value is stored; the query is searched again, unsetting the cursor, iff the matches were non-empty |
| `Searching.OperationsKeepConsistent` | TextReader/Services/TextSearchService.cs:27-93 | search, the flag setter and both finds preserve the invariant; the finds return only matches and leave the list alone |
| `Searching.FirstHitAfterSearch` | TextReader/Services/TextSearchService.cs:74-84 | right after a search, next lands on the first hit at cursor 0, or misses with the cursor unset when there is none |
| `Searching.ZeroHitSearchStaysStale` | TextReader/Services/TextSearchService.cs:36 | with ["ABC"], a zero-hit case-sensitive search for "abc" stays empty when ignore-case is turned on, although it now hits line 0 |
| `Searching.DefaultIgnoresCase` | TextReader/Services/TextSearchService.cs:16 | with the default flag, "test" finds lines 0, 1 and 2 of "TEST1", "test2", "Test3" |
| `Searching.TextSearchService.constructor` | TextReader/Services/TextSearchService.cs:48-52 | a new service has no matches, an empty query, ignore-case on and an unset cursor |
| `Searching.TextSearchService.Search` | TextReader/Services/TextSearchService.cs:58-75 | the new state is `Searched` of the old one, and the invariant holds |
| `Searching.TextSearchService.SetIgnoreCase` | TextReader/Services/TextSearchService.cs:27-42 | the new state is `WithIgnoreCase` of the old one, and the invariant holds |
| `Searching.TextSearchService.FindNext` | TextReader/Services/TextSearchService.cs:81-84 | the new state and result are `FoundNext` of the old state, and a result is a member of the matches |
| `Searching.TextSearchService.FindPrevious` | TextReader/Services/TextSearchService.cs:90-93 | the new state and result are `FoundPrevious` of the old state, and a result is a member of the matches |
| `Manager.ScrollTop` | TextReader/Services/SearchManager.cs:159 | the top row is at or above the selected row, keeps it on screen, and is half a screen above it; it is clamped at 0 exactly when the row is within half a screen of the top |
| `Manager.Navigated` | TextReader/Services/SearchManager.cs:147-161 | a visible result selects the row backed by that line and scrolls so the top row is `ScrollTop` of it (half a screen above, clamped at 0), keeping it on screen; no result or a hidden line changes nothing |
| `Manager.JumpLandsOnHit` | TextReader/Services/SearchManager.cs:60-71 | when typing outside filter mode jumps, the selected row shows a line containing the query |
| `Manager.SearchManager.constructor` | TextReader/Services/SearchManager.cs:16-29 | the manager holds the two services and the grid, over one document |
| `Manager.SearchManager.NavigateToResult` | TextReader/Services/SearchManager.cs:147-170 | the grid becomes `Navigated` of its old selection and scroll |
| `Manager.SearchManager.SearchTextChanged` | TextReader/Services/SearchManager.cs:56-78 | always searches; in filter mode also applies the filter, with no jump; otherwise a non-blank text jumps to the first hit, leaving the cursor at 0, or -1 without hits |
| `Manager.SearchManager.FilteringChanged` | TextReader/Services/SearchManager.cs:80-91 | filtering on applies the query as filter, off resets; search state and grid are untouched |
| `Manager.SearchManager.CaseSensitivityChanged` | TextReader/Services/SearchManager.cs:93-117 | sets the flag on both services; then re-applies the filter in filter mode, or re-searches a non-blank query and jumps to its first hit |
| `Manager.SearchManager.FindNext` | TextReader/Services/SearchManager.cs:119-131 | the search state steps forward and the grid shows the result |
| `Manager.SearchManager.FindPrevious` | TextReader/Services/SearchManager.cs:133-145 | the search state steps backward and the grid shows the result |

## Left out

- The WinForms shell (`MainForm`, `SearchBoxForm`, `UrlInputForm` and the designer files) is not modelled. This covers menus, dialogs, the status bar and cross-thread `Invoke`. The search box's text and filter check box reach the handlers as parameters.
- `SearchManager.ShowSearchBox` is not modelled. It creates, shows and hides the search box window.
- The manager's `updateDataGridView` and `updateSearchStatus` callbacks are not modelled. On the form, the grid callback (`MainForm.UpdateDataGridView`, TextReader/UI/MainForm.cs:190-221) rebuilds the grid rows and restores the first displayed row and the selection only when they are still in range, so it can change both. `Grid` records only what the manager itself assigns, and the "grid unchanged" clauses of the handlers describe only the manager's own assignments, not the form's rebuild.
- The `try`/`catch` blocks that show a message box are not modelled. Nothing in the model can raise an exception.
- The grid lookup `Controls.Find("dataGridView")` is replaced by a `Grid` object held by the manager. The grid is assumed to have one row per visible line, so `Rows[filteredIndex]` always exists. Setting the current cell is folded into `selectedRow`.
- `KeyboardNavigationHandler` only clamps grid scroll and selection against the widget, so it is not modelled.
- The text sources are not modelled: file reading, URL download with HTML stripping, and the random generator. They are I/O or randomness. The document is a parameter of each service.
- Loading a new document is not modelled. The host replaces the lines and resets the filter; each service here keeps one fixed document.
- Unicode details are replaced by ASCII stand-ins. Case folding covers ASCII letters only, and white space covers the ASCII white-space characters. Strings are sequences of characters, not UTF-16 code units.
- Null strings are not modelled.
- `TextSearchService.Search` clears its list in place for a blank query and replaces it otherwise. A caller that kept the old `Matches` reference would see the difference. The model uses values, so this aliasing is not captured.
- `SearchNavigator.TotalMatches` reads the search service's list through the back-reference. The navigator here holds no list, so it has no such member; `TextSearchService.TotalMatches` gives the same count.
- `SearchNavigator.CurrentMatchIndex`, `TextSearchService.TotalMatches`/`Matches`/`CurrentMatchIndex` and `TextFilterService.FilteredLines` are plain field reads. They appear as functions without contracts of their own.
- The linear cost of `List.IndexOf` is not modelled.
