/** The search service: the ordered list of original indices of the lines
    that contain the query, and the navigator that walks it. */
module Searching {
  import opened Text
  import opened LineMatch
  import opened Optional
  import opened Navigation

  /** The fields of `TextSearchService` and of its navigator: the match
      list, the stored query, the comparison flag and the cursor. */
  datatype SearchState = SearchState(matches: seq<int>, query: string, ignoreCase: bool, cursor: int)

  /** A fresh service: no matches, empty query, ignore-case on, no cursor. */
  const Initial := SearchState([], "", true, -1)

  /** The matches a query selects: none for a blank query, otherwise the
      lines containing it. */
  function Hits(lines: Lines, query: string, ignoreCase: bool): (r: seq<int>)
    ensures StrictlyIncreasing(r) && IndicesBelow(r, |lines|)
    ensures forall i :: i in r <==>
      !IsBlank(query) && 0 <= i < |lines| && Contains(lines[i], query, ignoreCase)
  {
    if IsBlank(query) then [] else Matching(lines, query, ignoreCase)
  }

  /** `Search`: store the query, recompute the matches, reset the cursor. */
  function Searched(lines: Lines, s: SearchState, query: string): (t: SearchState)
    ensures t.query == query && t.ignoreCase == s.ignoreCase && t.cursor == -1
    ensures t.matches == Hits(lines, t.query, t.ignoreCase) && Consistent(lines, t)
  {
    SearchState(Hits(lines, query, s.ignoreCase), query, s.ignoreCase, -1)
  }

  /** The `IgnoreCase` setter: the stored query is searched again only when
      the flag changes and the current match list is non-empty. */
  function WithIgnoreCase(lines: Lines, s: SearchState, value: bool): (t: SearchState)
    ensures t.ignoreCase == value && t.query == s.query
    ensures s.matches == [] ==> t == s.(ignoreCase := value)
    ensures s.matches != [] && s.ignoreCase != value ==>
      t.matches == Hits(lines, s.query, value) && t.cursor == -1
    ensures Consistent(lines, s) ==> Consistent(lines, t)
  {
    if s.ignoreCase == value then s
    else
      var flipped := s.(ignoreCase := value);
      if |s.matches| > 0 then Searched(lines, flipped, s.query) else flipped
  }

  /** `FindNext`: one navigator step forward. */
  function FoundNext(s: SearchState): (p: (SearchState, Option<int>))
    ensures p.0 == s.(cursor := p.0.cursor)
    ensures p.1.Some? ==> 0 <= p.0.cursor < |s.matches| && p.1.value == s.matches[p.0.cursor]
    ensures p.1.None? ==> p.0 == s
    ensures CursorValid(s.matches, s.cursor) ==> CursorValid(s.matches, p.0.cursor)
  {
    var st := NextStep(s.matches, s.cursor);
    (s.(cursor := st.cursor), st.result)
  }

  /** `FindPrevious`: one navigator step backward. */
  function FoundPrevious(s: SearchState): (p: (SearchState, Option<int>))
    requires |s.matches| == 0 || s.cursor <= |s.matches|
    ensures p.0 == s.(cursor := p.0.cursor)
    ensures p.1.Some? ==> 0 <= p.0.cursor < |s.matches| && p.1.value == s.matches[p.0.cursor]
    ensures p.1.None? ==> p.0 == s
    ensures CursorValid(s.matches, s.cursor) ==> CursorValid(s.matches, p.0.cursor)
  {
    var st := PreviousStep(s.matches, s.cursor);
    (s.(cursor := st.cursor), st.result)
  }

  /** What every reachable state satisfies: the match list is the hits of
      the stored query under the stored flag, or it is empty (a zero-hit
      query whose flag was changed afterwards); the cursor is unset or at a
      match. */
  predicate Consistent(lines: Lines, s: SearchState) {
    (s.matches == [] || s.matches == Hits(lines, s.query, s.ignoreCase)) &&
    CursorValid(s.matches, s.cursor)
  }

  /** A search stores its query, resets the cursor, finds nothing for a
      blank query, and otherwise finds exactly the lines containing the
      query, in document order. */
  lemma SearchFindsContainingLines(lines: Lines, s: SearchState, query: string)
    ensures var t := Searched(lines, s, query);
      t.query == query && t.ignoreCase == s.ignoreCase && t.cursor == -1 &&
      (IsBlank(query) ==> t.matches == []) &&
      (!IsBlank(query) ==>
        StrictlyIncreasing(t.matches) && IndicesBelow(t.matches, |lines|) &&
        forall i :: i in t.matches <==> 0 <= i < |lines| && Contains(lines[i], query, s.ignoreCase))
  {
  }

  /** Searching again for the stored query gives the same state. */
  lemma SearchIdempotent(lines: Lines, s: SearchState, query: string)
    ensures Searched(lines, Searched(lines, s, query), query) == Searched(lines, s, query)
  {
  }

  /** A blank query clears the matches, whatever was found before. */
  lemma BlankQueryClears(lines: Lines, s: SearchState, query: string)
    requires IsBlank(query)
    ensures Searched(lines, s, query).matches == [] && Searched(lines, s, query).cursor == -1
  {
  }

  /** Setting the flag to its current value changes nothing. */
  lemma SameIgnoreCaseIsNoop(lines: Lines, s: SearchState)
    ensures WithIgnoreCase(lines, s, s.ignoreCase) == s
  {
  }

  /** Changing the flag sets it; with a non-empty match list the stored
      query is searched again (so the cursor is reset), with an empty one
      nothing else changes. */
  lemma ChangedIgnoreCase(lines: Lines, s: SearchState, value: bool)
    requires value != s.ignoreCase
    ensures WithIgnoreCase(lines, s, value).ignoreCase == value
    ensures |s.matches| > 0 ==>
      WithIgnoreCase(lines, s, value) == Searched(lines, s.(ignoreCase := value), s.query) &&
      WithIgnoreCase(lines, s, value).cursor == -1
    ensures |s.matches| == 0 ==> WithIgnoreCase(lines, s, value) == s.(ignoreCase := value)
  {
  }

  /** Every operation keeps a consistent state consistent, and the two
      finds return only members of the match list and leave it alone. */
  lemma OperationsKeepConsistent(lines: Lines, s: SearchState, query: string, value: bool)
    requires Consistent(lines, s)
    ensures Consistent(lines, Searched(lines, s, query))
    ensures Consistent(lines, WithIgnoreCase(lines, s, value))
    ensures var (t, r) := FoundNext(s);
      Consistent(lines, t) && t.matches == s.matches && (r.Some? ==> r.value in s.matches)
    ensures var (t, r) := FoundPrevious(s);
      Consistent(lines, t) && t.matches == s.matches && (r.Some? ==> r.value in s.matches)
  {
    StepsStayInList(s.matches, s.cursor);
  }

  /** Right after a search, find next lands on the first hit, or answers
      "no match" and leaves the cursor unset when there is none. */
  lemma FirstHitAfterSearch(lines: Lines, s: SearchState, query: string)
    ensures var hits := Hits(lines, query, s.ignoreCase);
      var (t, r) := FoundNext(Searched(lines, s, query));
      t.matches == hits &&
      (|hits| > 0 ==> t.cursor == 0 && r == Some(hits[0])) &&
      (|hits| == 0 ==> t.cursor == -1 && r == None)
  {
  }

  /** A zero-hit search goes stale when the flag changes: with ["ABC"],
      the case-sensitive query "abc" finds nothing, and turning ignore-case
      on leaves nothing found although "ABC" now matches. */
  lemma ZeroHitSearchStaysStale()
    ensures var lines := ["ABC"];
      var before := Searched(lines, Initial.(ignoreCase := false), "abc");
      before.matches == [] &&
      WithIgnoreCase(lines, before, true).matches == [] &&
      Hits(lines, "abc", true) == [0]
  {
    CaseDecidesHit();
    assert !IsBlank("abc") by { assert !IsWhiteSpace("abc"[0]); }
  }

  /** The default comparison ignores case: "test" finds all of "TEST1",
      "test2" and "Test3". */
  lemma DefaultIgnoresCase()
    ensures Searched(["TEST1", "test2", "Test3"], Initial, "test").matches == [0, 1, 2]
  {
    MixedCaseHits();
    assert !IsBlank("test") by { assert !IsWhiteSpace("test"[0]); }
  }

  /** `TextSearchService` over a fixed document; it owns its navigator. */
  class TextSearchService {
    const lines: Lines
    var matchedIndices: seq<int>
    const navigator: SearchNavigator
    var ignoreCase: bool
    var currentQuery: string

    function State(): SearchState
      reads this, navigator
    {
      SearchState(matchedIndices, currentQuery, ignoreCase, navigator.currentIndex)
    }

    ghost predicate Valid()
      reads this, navigator
    {
      Consistent(lines, State())
    }

    constructor (lines: Lines)
      ensures this.lines == lines && fresh(navigator)
      ensures Valid() && State() == Initial
    {
      this.lines := lines;
      matchedIndices := [];
      ignoreCase := true;
      currentQuery := "";
      navigator := new SearchNavigator();
    }

    /** `Matches`. */
    function Matches(): seq<int>
      reads this
    {
      matchedIndices
    }

    /** `CurrentMatchIndex`: the cursor, -1 when unset. */
    function CurrentMatchIndex(): int
      reads this, navigator
    {
      navigator.CurrentMatchIndex()
    }

    /** `TotalMatches`: the length of the match list. */
    function TotalMatches(): int
      reads this
    {
      |matchedIndices|
    }

    method Search(query: string)
      modifies this, navigator
      ensures Valid() && State() == Searched(lines, old(State()), query)
    {
      currentQuery := query;
      if IsBlank(query) {
        matchedIndices := [];
      } else {
        matchedIndices := Matching(lines, query, ignoreCase);
      }
      navigator.Reset();
    }

    /** The `IgnoreCase` setter. */
    method SetIgnoreCase(value: bool)
      requires Valid()
      modifies this, navigator
      ensures Valid() && State() == WithIgnoreCase(lines, old(State()), value)
    {
      if ignoreCase != value {
        ignoreCase := value;
        if |matchedIndices| > 0 {
          Search(currentQuery);
        }
      }
    }

    method FindNext() returns (r: Option<int>)
      requires Valid()
      modifies navigator
      ensures Valid() && (State(), r) == FoundNext(old(State()))
      ensures r.Some? ==> r.value in matchedIndices
    {
      r := navigator.Next(matchedIndices);
      StepsStayInList(matchedIndices, old(navigator.currentIndex));
    }

    method FindPrevious() returns (r: Option<int>)
      requires Valid()
      modifies navigator
      ensures Valid() && (State(), r) == FoundPrevious(old(State()))
      ensures r.Some? ==> r.value in matchedIndices
    {
      r := navigator.Previous(matchedIndices);
      StepsStayInList(matchedIndices, old(navigator.currentIndex));
    }
  }
}
