/** The match navigator: a saturating cursor over the current match list.
    The cursor is -1 while unset, otherwise a position in the list. Stepping
    past either end answers "no match" and leaves the cursor where it was. */
module Navigation {
  import opened Optional

  /** The cursor is unset, or at a position of `matches`. */
  predicate CursorValid(matches: seq<int>, cursor: int) {
    cursor == -1 || 0 <= cursor < |matches|
  }

  /** The cursor after one step, and the original index the step returns. */
  datatype Step = Step(cursor: int, result: Option<int>)

  /** `SearchNavigator.Next`. */
  function NextStep(matches: seq<int>, cursor: int): (st: Step)
    ensures CursorValid(matches, cursor) ==> CursorValid(matches, st.cursor)
    ensures st.result.Some? ==> 0 <= st.cursor < |matches| && st.result.value == matches[st.cursor]
    ensures st.result.None? ==> st.cursor == cursor
  {
    if |matches| == 0 then Step(cursor, None)
    else if cursor < 0 then Step(0, Some(matches[0]))
    else if cursor < |matches| - 1 then Step(cursor + 1, Some(matches[cursor + 1]))
    else Step(cursor, None)
  }

  /** `SearchNavigator.Previous`. The source indexes a non-empty list at
      the decremented cursor, so a cursor beyond its end would fault there. */
  function PreviousStep(matches: seq<int>, cursor: int): (st: Step)
    requires |matches| == 0 || cursor <= |matches|
    ensures CursorValid(matches, cursor) ==> CursorValid(matches, st.cursor)
    ensures st.result.Some? ==> 0 <= st.cursor < |matches| && st.result.value == matches[st.cursor]
    ensures st.result.None? ==> st.cursor == cursor
  {
    if |matches| == 0 then Step(cursor, None)
    else if cursor < 0 then Step(|matches| - 1, Some(matches[|matches| - 1]))
    else if cursor > 0 then Step(cursor - 1, Some(matches[cursor - 1]))
    else Step(cursor, None)
  }

  /** A user gesture: find next or find previous. */
  datatype Move = Forward | Backward

  /** The results of a sequence of moves started at `cursor`. */
  function Run(matches: seq<int>, cursor: int, moves: seq<Move>): (r: seq<Option<int>>)
    requires CursorValid(matches, cursor)
    ensures |r| == |moves|
    ensures forall k :: 0 <= k < |r| && r[k].Some? ==> r[k].value in matches
    decreases |moves|
  {
    if moves == [] then []
    else
      var st := if moves[0] == Forward then NextStep(matches, cursor) else PreviousStep(matches, cursor);
      [st.result] + Run(matches, st.cursor, moves[1..])
  }

  /** `k` presses of find next. */
  function Forwards(k: nat): seq<Move> {
    seq(k, _ => Forward)
  }

  /** `k` presses of find previous. */
  function Backwards(k: nat): seq<Move> {
    seq(k, _ => Backward)
  }

  /** Every match, in list order, as a navigation result. */
  function InOrder(s: seq<int>): seq<Option<int>> {
    seq(|s|, i requires 0 <= i < |s| => Some(s[i]))
  }

  /** Every match, last first, as a navigation result. */
  function InReverse(s: seq<int>): seq<Option<int>> {
    seq(|s|, i requires 0 <= i < |s| => Some(s[|s| - 1 - i]))
  }

  /** `k` answers of "no match". */
  function Misses(k: nat): seq<Option<int>> {
    seq(k, _ => None)
  }

  /** The navigator does not wrap: at the last match, find next answers
      "no match" and stays; at the first, so does find previous. */
  lemma NeverWraps(matches: seq<int>)
    requires |matches| > 0
    ensures NextStep(matches, |matches| - 1) == Step(|matches| - 1, None)
    ensures PreviousStep(matches, 0) == Step(0, None)
  {
  }

  /** Both steps keep the cursor valid and return only members of the list. */
  lemma StepsStayInList(matches: seq<int>, cursor: int)
    requires CursorValid(matches, cursor)
    ensures var st := NextStep(matches, cursor);
      CursorValid(matches, st.cursor) && (st.result.Some? ==> st.result.value in matches)
    ensures var st := PreviousStep(matches, cursor);
      CursorValid(matches, st.cursor) && (st.result.Some? ==> st.result.value in matches)
  {
  }

  /** Find next from the cursor just before position `j` visits the rest
      of the list in order, then answers "no match". */
  lemma {:induction false} ForwardFrom(matches: seq<int>, j: nat)
    requires j <= |matches|
    ensures Run(matches, j - 1, Forwards(|matches| - j + 1)) == InOrder(matches[j..]) + [None]
    decreases |matches| - j
  {
    var moves := Forwards(|matches| - j + 1);
    if j == |matches| {
      assert moves[1..] == [];
    } else {
      assert NextStep(matches, j - 1) == Step(j, Some(matches[j]));
      assert moves[1..] == Forwards(|matches| - (j + 1) + 1);
      ForwardFrom(matches, j + 1);
      assert InOrder(matches[j..]) == [Some(matches[j])] + InOrder(matches[j + 1..]);
    }
  }

  /** Pressing find next `|matches| + 1` times from the unset cursor
      returns every match in order and then "no match". */
  lemma ForwardFromUnset(matches: seq<int>)
    ensures Run(matches, -1, Forwards(|matches| + 1)) == InOrder(matches) + [None]
  {
    ForwardFrom(matches, 0);
    assert matches[0..] == matches;
  }

  /** Once at the last match, find next keeps answering "no match". */
  lemma {:induction false} ForwardSaturates(matches: seq<int>, k: nat)
    requires |matches| > 0
    ensures Run(matches, |matches| - 1, Forwards(k)) == Misses(k)
    decreases k
  {
    if k > 0 {
      assert Forwards(k)[1..] == Forwards(k - 1);
      ForwardSaturates(matches, k - 1);
      assert Misses(k) == [None] + Misses(k - 1);
    }
  }

  /** Find previous from the cursor at position `j` (unset when `j` is the
      length) visits the matches before `j`, last first, then answers
      "no match". */
  lemma {:induction false} BackwardFrom(matches: seq<int>, j: nat)
    requires j <= |matches|
    ensures Run(matches, if j == |matches| then -1 else j, Backwards(j + 1)) == InReverse(matches[..j]) + [None]
    decreases j
  {
    var moves := Backwards(j + 1);
    if j == 0 {
      assert moves[1..] == [];
    } else {
      var c := if j == |matches| then -1 else j;
      assert PreviousStep(matches, c) == Step(j - 1, Some(matches[j - 1]));
      assert moves[1..] == Backwards(j);
      BackwardFrom(matches, j - 1);
      assert matches[..j][..j - 1] == matches[..j - 1];
      assert InReverse(matches[..j]) == [Some(matches[j - 1])] + InReverse(matches[..j - 1]);
    }
  }

  /** Pressing find previous `|matches| + 1` times from the unset cursor
      returns every match, last first, and then "no match". */
  lemma BackwardFromUnset(matches: seq<int>)
    ensures Run(matches, -1, Backwards(|matches| + 1)) == InReverse(matches) + [None]
  {
    BackwardFrom(matches, |matches|);
    assert matches[..|matches|] == matches;
  }

  /** Three matches: four presses of find next, then three of find
      previous. */
  lemma ThreeMatchesTrace()
    ensures Run([0, 1, 2], -1, [Forward, Forward, Forward, Forward, Backward, Backward, Backward])
         == [Some(0), Some(1), Some(2), None, Some(1), Some(0), None]
  {
  }

  /** `SearchNavigator`: the cursor over the search service's match list.
      The list is read through the owning search service in the source;
      here it is passed to each call. */
  class SearchNavigator {
    var currentIndex: int

    constructor ()
      ensures currentIndex == -1
    {
      currentIndex := -1;
    }

    /** `CurrentMatchIndex`. */
    function CurrentMatchIndex(): int
      reads this
    {
      currentIndex
    }

    method Reset()
      modifies this
      ensures currentIndex == -1
    {
      currentIndex := -1;
    }

    method Next(matches: seq<int>) returns (r: Option<int>)
      modifies this
      ensures Step(currentIndex, r) == NextStep(matches, old(currentIndex))
    {
      if |matches| == 0 {
        return None;
      }
      if currentIndex < 0 {
        currentIndex := 0;
      } else if currentIndex < |matches| - 1 {
        currentIndex := currentIndex + 1;
      } else {
        return None;
      }
      r := Some(matches[currentIndex]);
    }

    method Previous(matches: seq<int>) returns (r: Option<int>)
      requires |matches| == 0 || currentIndex <= |matches|
      modifies this
      ensures Step(currentIndex, r) == PreviousStep(matches, old(currentIndex))
    {
      if |matches| == 0 {
        return None;
      }
      if currentIndex < 0 {
        currentIndex := |matches| - 1;
      } else if currentIndex > 0 {
        currentIndex := currentIndex - 1;
      } else {
        return None;
      }
      r := Some(matches[currentIndex]);
    }
  }
}
