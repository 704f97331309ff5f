/** The filter service: the list of original line indices the grid shows,
    and the mapping between grid rows and original indices. */
module Filtering {
  import opened Text
  import opened LineMatch

  /** The fields of `TextFilterService`: the visible indices, the stored
      filter text and the comparison flag. */
  datatype FilterState = FilterState(indices: seq<int>, current: string, ignoreCase: bool)

  /** A fresh service: no rows at all, empty filter text, ignore-case on. */
  const Initial := FilterState([], "", true)

  /** The rows a filter text selects: every line when the text is blank,
      otherwise the lines containing it. */
  function View(lines: Lines, filter: string, ignoreCase: bool): (r: seq<int>)
    ensures StrictlyIncreasing(r) && IndicesBelow(r, |lines|)
    ensures IsBlank(filter) ==> |r| == |lines| && forall k :: 0 <= k < |r| ==> r[k] == k
    ensures !IsBlank(filter) ==>
      forall i :: i in r <==> 0 <= i < |lines| && Contains(lines[i], filter, ignoreCase)
  {
    if IsBlank(filter) then Identity(|lines|) else Matching(lines, filter, ignoreCase)
  }

  /** `ResetFilter`: the list becomes the view of the now empty filter
      text, that is every line; the flag is kept. */
  function Reset(lines: Lines, s: FilterState): (t: FilterState)
    ensures t.current == "" && t.ignoreCase == s.ignoreCase
    ensures t.indices == View(lines, t.current, t.ignoreCase)
  {
    assert IsBlank("");
    s.(indices := Identity(|lines|), current := "")
  }

  /** `ApplyFilter`: the stored text becomes the filter (the empty text
      when it is blank) and the list becomes its view; the flag is kept. */
  function Applied(lines: Lines, s: FilterState, filter: string): (t: FilterState)
    ensures t.current == (if IsBlank(filter) then "" else filter) && t.ignoreCase == s.ignoreCase
    ensures t.indices == View(lines, t.current, t.ignoreCase)
  {
    if IsBlank(filter) then Reset(lines, s)
    else s.(indices := Matching(lines, filter, s.ignoreCase), current := filter)
  }

  /** The `IgnoreCase` setter: the filter is applied again only when the
      flag changes and the current list is non-empty. */
  function WithIgnoreCase(lines: Lines, s: FilterState, value: bool): (t: FilterState)
    ensures t.ignoreCase == value
    ensures s.indices == [] ==> t.indices == [] && t.current == s.current
    ensures s.indices != [] && s.ignoreCase != value ==> t.indices == View(lines, t.current, value)
  {
    if s.ignoreCase == value then s
    else
      var flipped := s.(ignoreCase := value);
      if |s.indices| > 0 then Applied(lines, flipped, s.current) else flipped
  }

  /** What every reachable state satisfies: the list is the view of the
      stored filter text under the stored flag, or it is empty (a fresh
      service, or a zero-row filter whose flag was changed afterwards). */
  predicate Consistent(lines: Lines, s: FilterState) {
    s.indices == [] || s.indices == View(lines, s.current, s.ignoreCase)
  }

  /** Every reachable list is strictly increasing and within the document. */
  lemma ConsistentWellFormed(lines: Lines, s: FilterState)
    requires Consistent(lines, s)
    ensures StrictlyIncreasing(s.indices) && IndicesBelow(s.indices, |lines|)
  {
  }

  /** A fresh service shows no row until the filter is reset or applied. */
  lemma InitialHasNoRows(lines: Lines)
    ensures Consistent(lines, Initial) && |Initial.indices| == 0
  {
  }

  /** Resetting shows every line, in order, each at its own row, and
      forgets the filter text. */
  lemma ResetShowsAll(lines: Lines, s: FilterState)
    ensures var t := Reset(lines, s);
      |t.indices| == |lines| && t.current == "" && t.ignoreCase == s.ignoreCase &&
      (forall r :: 0 <= r < |lines| ==> t.indices[r] == r)
  {
  }

  /** A blank filter text is exactly a reset, stored text included. */
  lemma BlankApplyIsReset(lines: Lines, s: FilterState, filter: string)
    requires IsBlank(filter)
    ensures Applied(lines, s, filter) == Reset(lines, s)
    ensures Applied(lines, s, filter).current == ""
  {
  }

  /** A non-blank filter keeps exactly the lines containing the text under
      the current comparison, in document order. */
  lemma ApplyKeepsMatchingLines(lines: Lines, s: FilterState, filter: string)
    requires !IsBlank(filter)
    ensures var t := Applied(lines, s, filter);
      StrictlyIncreasing(t.indices) && IndicesBelow(t.indices, |lines|) &&
      t.current == filter && t.ignoreCase == s.ignoreCase &&
      (forall i :: i in t.indices <==> 0 <= i < |lines| && Contains(lines[i], filter, s.ignoreCase))
  {
  }

  /** Applying and resetting always leave a state whose list is exactly
      the view of its stored text. */
  lemma AppliedIsDerived(lines: Lines, s: FilterState, filter: string)
    ensures var t := Applied(lines, s, filter); t.indices == View(lines, t.current, t.ignoreCase)
    ensures var t := Reset(lines, s); t.indices == View(lines, t.current, t.ignoreCase)
  {
    assert IsBlank("");
  }

  /** Setting the flag to its current value changes nothing. */
  lemma SameIgnoreCaseIsNoop(lines: Lines, s: FilterState)
    ensures WithIgnoreCase(lines, s, s.ignoreCase) == s
  {
  }

  /** Changing the flag sets it, and re-applies the stored text exactly when
      the list was non-empty; an empty list stays empty. */
  lemma ChangedIgnoreCase(lines: Lines, s: FilterState, value: bool)
    requires value != s.ignoreCase
    ensures WithIgnoreCase(lines, s, value).ignoreCase == value
    ensures |s.indices| > 0 ==> WithIgnoreCase(lines, s, value) == Applied(lines, s.(ignoreCase := value), s.current)
    ensures |s.indices| == 0 ==> WithIgnoreCase(lines, s, value) == s.(ignoreCase := value)
  {
  }

  /** Every operation keeps a consistent state consistent. */
  lemma OperationsKeepConsistent(lines: Lines, s: FilterState, filter: string, value: bool)
    requires Consistent(lines, s)
    ensures Consistent(lines, Applied(lines, s, filter))
    ensures Consistent(lines, Reset(lines, s))
    ensures Consistent(lines, WithIgnoreCase(lines, s, value))
  {
    AppliedIsDerived(lines, s, filter);
    AppliedIsDerived(lines, s.(ignoreCase := value), s.current);
  }

  /** A filter with no rows goes stale when the flag changes: with
      ["ABC"], the case-sensitive filter "abc" shows nothing, and turning
      ignore-case on leaves it showing nothing although "ABC" now
      matches. */
  lemma ZeroRowFilterStaysStale()
    ensures var lines := ["ABC"];
      var before := Applied(lines, Initial.(ignoreCase := false), "abc");
      before.indices == [] &&
      WithIgnoreCase(lines, before, true).indices == [] &&
      View(lines, "abc", true) == [0]
  {
    CaseDecidesHit();
    assert !IsBlank("abc") by { assert !IsWhiteSpace("abc"[0]); }
  }

  /** The default comparison ignores case: "test" shows all of "TEST1",
      "test2" and "Test3". */
  lemma DefaultIgnoresCase()
    ensures Applied(["TEST1", "test2", "Test3"], Initial, "test").indices == [0, 1, 2]
  {
    MixedCaseHits();
    assert !IsBlank("test") by { assert !IsWhiteSpace("test"[0]); }
  }

  /** "test" over "test1", "other", "test2", "test3" shows three rows,
      backed by lines 0, 2 and 3. */
  lemma FilterHidesOther()
    ensures Applied(["test1", "other", "test2", "test3"], Initial, "test").indices == [0, 2, 3]
  {
    SkipsNonMatchingLine(true);
    assert !IsBlank("test") by { assert !IsWhiteSpace("test"[0]); }
  }

  /** `TextFilterService` over a fixed document. */
  class TextFilterService {
    const lines: Lines
    var filteredIndices: seq<int>
    var ignoreCase: bool
    var currentFilter: string

    function State(): FilterState
      reads this
    {
      FilterState(filteredIndices, currentFilter, ignoreCase)
    }

    ghost predicate Valid()
      reads this
    {
      Consistent(lines, State())
    }

    constructor (lines: Lines)
      ensures this.lines == lines
      ensures Valid() && State() == Initial
    {
      this.lines := lines;
      filteredIndices := [];
      ignoreCase := true;
      currentFilter := "";
    }

    /** `FilteredLines`: the number of grid rows. */
    function FilteredLines(): int
      reads this
    {
      |filteredIndices|
    }

    method ApplyFilter(filter: string)
      modifies this
      ensures Valid() && State() == Applied(lines, old(State()), filter)
    {
      currentFilter := filter;
      if IsBlank(filter) {
        ResetFilter();
        return;
      }
      filteredIndices := Matching(lines, filter, ignoreCase);
      AppliedIsDerived(lines, old(State()), filter);
    }

    method ResetFilter()
      modifies this
      ensures Valid() && State() == Reset(lines, old(State()))
    {
      filteredIndices := Identity(|lines|);
      currentFilter := "";
      AppliedIsDerived(lines, old(State()), "");
    }

    /** The `IgnoreCase` setter. */
    method SetIgnoreCase(value: bool)
      requires Valid()
      modifies this
      ensures Valid() && State() == WithIgnoreCase(lines, old(State()), value)
    {
      if ignoreCase != value {
        ignoreCase := value;
        if |filteredIndices| > 0 {
          ApplyFilter(currentFilter);
        }
      }
    }

    /** The original line shown at grid row `filteredIndex`, or -1 when the
        row does not exist; since every entry is an original index, -1
        means "no such row" and nothing else. */
    function GetOriginalIndex(filteredIndex: int): (r: int)
      requires Valid()
      reads this
      ensures r == -1 <==> !(0 <= filteredIndex < FilteredLines())
      ensures r != -1 ==> 0 <= r < |lines| && r == filteredIndices[filteredIndex]
    {
      ConsistentWellFormed(lines, State());
      if 0 <= filteredIndex < |filteredIndices| then filteredIndices[filteredIndex] else -1
    }

    /** The grid row showing original line `originalIndex`, or -1 when that
        line is filtered out. */
    function GetFilteredIndex(originalIndex: int): (r: int)
      requires Valid()
      reads this
      ensures r == -1 <==> originalIndex !in filteredIndices
      ensures r != -1 ==> 0 <= r < FilteredLines() && GetOriginalIndex(r) == originalIndex
    {
      IndexOf(filteredIndices, originalIndex)
    }

    /** Row to line and back again is the identity on grid rows. */
    lemma RowRoundTrip(row: int)
      requires Valid() && 0 <= row < FilteredLines()
      ensures GetFilteredIndex(GetOriginalIndex(row)) == row
    {
      ConsistentWellFormed(lines, State());
      IndexOfAt(filteredIndices, row);
    }
  }
}
