/** The search manager: reacts to the search box (text edited, filtering
    toggled, case toggled, find next/previous) by driving the search and
    filter services, and brings a found line into view in the grid. */
module Manager {
  import opened Text
  import opened LineMatch
  import opened Optional
  import F = Filtering
  import S = Searching

  /** The two grid properties the manager sets: the selected row and the
      first row scrolled into view. */
  datatype Viewport = Viewport(selectedRow: int, firstDisplayedRow: int)

  /** `Math.Max(0, row - displayed / 2)`: the first row to show so that
      `row` sits half a screen below the top, or as near as the top of the
      grid allows. */
  function ScrollTop(row: nat, displayed: nat): (top: nat)
    ensures top <= row
    ensures displayed > 0 ==> row < top + displayed
    ensures top == 0 || row - top == displayed / 2
    ensures top == 0 ==> row <= displayed / 2
  {
    if row - displayed / 2 > 0 then row - displayed / 2 else 0
  }

  /** `NavigateToResult` on the grid: a result whose line is visible
      selects the grid row backed by that line and scrolls it half a screen
      below the top, clamped at the first row; no result, or a filtered-out
      line, leaves the grid as it was. */
  function Navigated(shown: Viewport, view: seq<int>, result: Option<int>, displayed: nat): (t: Viewport)
    ensures result.Some? && result.value in view ==>
      0 <= t.selectedRow < |view| && view[t.selectedRow] == result.value &&
      t.firstDisplayedRow == ScrollTop(t.selectedRow, displayed) &&
      t.firstDisplayedRow <= t.selectedRow &&
      (displayed > 0 ==> t.selectedRow < t.firstDisplayedRow + displayed)
    ensures !(result.Some? && result.value in view) ==> t == shown
  {
    if result.None? then shown
    else
      var row := IndexOf(view, result.value);
      if row < 0 then shown else Viewport(row, ScrollTop(row, displayed))
  }

  /** After a search outside filter mode jumps to its first hit, the grid
      row it selects shows a line that contains the query. */
  lemma JumpLandsOnHit(lines: Lines, s: S.SearchState, f: F.FilterState, query: string, shown: Viewport, displayed: nat)
    requires F.Consistent(lines, f)
    ensures var (_, r) := S.FoundNext(S.Searched(lines, s, query));
      var t := Navigated(shown, f.indices, r, displayed);
      r.Some? && r.value in f.indices ==>
        0 <= t.selectedRow < |f.indices| && 0 <= f.indices[t.selectedRow] < |lines| &&
        Contains(lines[f.indices[t.selectedRow]], query, s.ignoreCase)
  {
    F.ConsistentWellFormed(lines, f);
    S.FirstHitAfterSearch(lines, s, query);
    var (_, r) := S.FoundNext(S.Searched(lines, s, query));
    if r.Some? {
      var hits := S.Hits(lines, query, s.ignoreCase);
      assert r.value == hits[0];
      assert hits[0] in hits;
    }
  }

  /** The data grid, as far as the manager touches it. */
  class Grid {
    var selectedRow: int
    var firstDisplayedRow: int

    constructor (selectedRow: int, firstDisplayedRow: int)
      ensures this.selectedRow == selectedRow && this.firstDisplayedRow == firstDisplayedRow
    {
      this.selectedRow := selectedRow;
      this.firstDisplayedRow := firstDisplayedRow;
    }

    function Shown(): Viewport
      reads this
    {
      Viewport(selectedRow, firstDisplayedRow)
    }
  }

  /** `SearchManager`. The search box's state (its text and its filter
      check box) arrives as parameters; the grid's displayed row count is a
      parameter of each call that may scroll. */
  class SearchManager {
    const search: S.TextSearchService
    const filter: F.TextFilterService
    const grid: Grid

    ghost predicate Valid()
      reads this, search, search.navigator, filter
    {
      search.Valid() && filter.Valid() && search.lines == filter.lines
    }

    constructor (search: S.TextSearchService, filter: F.TextFilterService, grid: Grid)
      requires search.Valid() && filter.Valid() && search.lines == filter.lines
      ensures this.search == search && this.filter == filter && this.grid == grid
      ensures Valid()
    {
      this.search := search;
      this.filter := filter;
      this.grid := grid;
    }

    /** `NavigateToResult`. */
    method NavigateToResult(index: Option<int>, displayed: nat)
      requires Valid()
      modifies grid
      ensures grid.Shown() == Navigated(old(grid.Shown()), filter.filteredIndices, index, displayed)
    {
      if index.Some? {
        var filteredIndex := filter.GetFilteredIndex(index.value);
        if filteredIndex >= 0 {
          grid.firstDisplayedRow := ScrollTop(filteredIndex, displayed);
          grid.selectedRow := filteredIndex;
        }
      }
    }

    /** `SearchForm_SearchTextChanged`. */
    method SearchTextChanged(searchText: string, isFiltering: bool, displayed: nat)
      requires Valid()
      modifies search, search.navigator, filter, grid
      ensures Valid()
      ensures isFiltering || IsBlank(searchText) ==>
        search.State() == S.Searched(search.lines, old(search.State()), searchText) &&
        search.CurrentMatchIndex() == -1 &&
        grid.Shown() == old(grid.Shown())
      ensures isFiltering ==> filter.State() == F.Applied(filter.lines, old(filter.State()), searchText)
      ensures !isFiltering ==> filter.State() == old(filter.State())
      ensures !isFiltering && !IsBlank(searchText) ==>
        var (t, r) := S.FoundNext(S.Searched(search.lines, old(search.State()), searchText));
        search.State() == t &&
        search.CurrentMatchIndex() == (if search.TotalMatches() > 0 then 0 else -1) &&
        grid.Shown() == Navigated(old(grid.Shown()), filter.filteredIndices, r, displayed)
    {
      search.Search(searchText);
      if isFiltering {
        filter.ApplyFilter(searchText);
      } else if !IsBlank(searchText) {
        S.FirstHitAfterSearch(search.lines, old(search.State()), searchText);
        var result := search.FindNext();
        NavigateToResult(result, displayed);
      }
    }

    /** `SearchForm_FilteringChanged`: filtering on applies the search box
        text as the filter, filtering off shows every line; the search
        state and the grid selection are not touched. */
    method FilteringChanged(isFiltering: bool, searchQuery: string)
      requires Valid()
      modifies filter
      ensures Valid()
      ensures filter.State() == if isFiltering then F.Applied(filter.lines, old(filter.State()), searchQuery)
                                else F.Reset(filter.lines, old(filter.State()))
    {
      if isFiltering {
        filter.ApplyFilter(searchQuery);
      } else {
        filter.ResetFilter();
      }
    }

    /** `SearchForm_CaseSensitivityChanged`. */
    method CaseSensitivityChanged(ignoreCase: bool, isFiltering: bool, searchQuery: string, displayed: nat)
      requires Valid()
      modifies search, search.navigator, filter, grid
      ensures Valid()
      ensures search.ignoreCase == ignoreCase && filter.ignoreCase == ignoreCase
      ensures var flippedSearch := S.WithIgnoreCase(search.lines, old(search.State()), ignoreCase);
        var flippedFilter := F.WithIgnoreCase(filter.lines, old(filter.State()), ignoreCase);
        if isFiltering then
          search.State() == flippedSearch &&
          filter.State() == F.Applied(filter.lines, flippedFilter, searchQuery) &&
          grid.Shown() == old(grid.Shown())
        else if IsBlank(searchQuery) then
          search.State() == flippedSearch &&
          filter.State() == flippedFilter &&
          grid.Shown() == old(grid.Shown())
        else
          var (t, r) := S.FoundNext(S.Searched(search.lines, flippedSearch, searchQuery));
          search.State() == t &&
          filter.State() == flippedFilter &&
          grid.Shown() == Navigated(old(grid.Shown()), filter.filteredIndices, r, displayed)
    {
      search.SetIgnoreCase(ignoreCase);
      filter.SetIgnoreCase(ignoreCase);
      if isFiltering {
        filter.ApplyFilter(searchQuery);
      } else if !IsBlank(searchQuery) {
        search.Search(searchQuery);
        var result := search.FindNext();
        NavigateToResult(result, displayed);
      }
    }

    /** `FindNext`: step the navigator forward and show the result. */
    method FindNext(displayed: nat)
      requires Valid()
      modifies search.navigator, grid
      ensures Valid()
      ensures var (t, r) := S.FoundNext(old(search.State()));
        search.State() == t &&
        grid.Shown() == Navigated(old(grid.Shown()), filter.filteredIndices, r, displayed)
    {
      var result := search.FindNext();
      NavigateToResult(result, displayed);
    }

    /** `FindPrevious`: step the navigator backward and show the result. */
    method FindPrevious(displayed: nat)
      requires Valid()
      modifies search.navigator, grid
      ensures Valid()
      ensures var (t, r) := S.FoundPrevious(old(search.State()));
        search.State() == t &&
        grid.Shown() == Navigated(old(grid.Shown()), filter.filteredIndices, r, displayed)
    {
      var result := search.FindPrevious();
      NavigateToResult(result, displayed);
    }
  }
}
