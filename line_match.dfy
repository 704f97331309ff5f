/** The index lists shared by the search and filter services: the LINQ
    pipeline that selects the original indices of matching lines, the identity
    list produced by `Enumerable.Range`, and `List.IndexOf`. */
module LineMatch {
  import opened Text

  /** The document: an ordered list of lines, fixed while a service lives. */
  type Lines = seq<string>

  /** A list of original indices in strictly increasing order. */
  predicate StrictlyIncreasing(s: seq<int>) {
    forall i, j :: 0 <= i < j < |s| ==> s[i] < s[j]
  }

  /** Every entry is an original index of a document of `n` lines. */
  predicate IndicesBelow(s: seq<int>, n: int) {
    forall i :: 0 <= i < |s| ==> 0 <= s[i] < n
  }

  /** The indices `i < n` whose line contains `query`, in document order. */
  function MatchingPrefix(lines: Lines, query: string, ignoreCase: bool, n: nat): (r: seq<int>)
    requires n <= |lines|
    ensures StrictlyIncreasing(r) && IndicesBelow(r, n)
    ensures forall i :: i in r <==> 0 <= i < n && Contains(lines[i], query, ignoreCase)
    decreases n
  {
    if n == 0 then []
    else
      var earlier := MatchingPrefix(lines, query, ignoreCase, n - 1);
      if Contains(lines[n - 1], query, ignoreCase) then earlier + [n - 1] else earlier
  }

  /** `lines.Select((line, index) => ...).Where(line contains query).Select(index)`:
      the original indices of all lines containing `query`, in order. */
  function Matching(lines: Lines, query: string, ignoreCase: bool): (r: seq<int>)
    ensures StrictlyIncreasing(r) && IndicesBelow(r, |lines|)
    ensures forall i :: i in r <==> 0 <= i < |lines| && Contains(lines[i], query, ignoreCase)
  {
    MatchingPrefix(lines, query, ignoreCase, |lines|)
  }

  /** `Enumerable.Range(0, n)`: every original index, each at its own position. */
  function Identity(n: nat): (r: seq<int>)
    ensures |r| == n && StrictlyIncreasing(r) && IndicesBelow(r, n)
    ensures forall i :: i in r <==> 0 <= i < n
    ensures forall i :: 0 <= i < n ==> r[i] == i
  {
    var r := seq(n, i => i);
    forall i | 0 <= i < n ensures i in r {
      assert r[i] == i;
    }
    forall x | x in r ensures 0 <= x < n {
      var k :| 0 <= k < n && r[k] == x;
    }
    r
  }

  /** `List.IndexOf`: the first position holding `x`, or -1 when there is none. */
  function IndexOf(s: seq<int>, x: int): (r: int)
    ensures -1 <= r < |s|
    ensures r == -1 <==> x !in s
    ensures r != -1 ==> s[r] == x && x !in s[..r]
  {
    if |s| == 0 then -1
    else if s[0] == x then 0
    else
      var t := IndexOf(s[1..], x);
      if t == -1 then -1
      else
        assert s[..t + 1] == [s[0]] + s[1..][..t];
        t + 1
  }

  /** In a list without repeats, `IndexOf` inverts indexing. */
  lemma IndexOfAt(s: seq<int>, r: int)
    requires StrictlyIncreasing(s)
    requires 0 <= r < |s|
    ensures IndexOf(s, s[r]) == r
  {
    assert s[r] in s;
    var k := IndexOf(s, s[r]);
    assert forall j :: 0 <= j < k ==> s[..k][j] == s[j];
  }

  /** The first entry of a non-empty list is one of its members. */
  lemma HeadIsMember(s: seq<int>)
    requires s != []
    ensures s[0] in s
  {
  }

  /** A strictly increasing list is fixed by the set of its entries. */
  lemma {:induction false} IncreasingUnique(a: seq<int>, b: seq<int>)
    requires StrictlyIncreasing(a) && StrictlyIncreasing(b)
    requires forall x :: x in a <==> x in b
    ensures a == b
    decreases |a|
  {
    if a == [] && b == [] {
    } else if a == [] {
      HeadIsMember(b);
      assert false;
    } else if b == [] {
      HeadIsMember(a);
      assert false;
    } else {
      HeadIsMember(a);
      HeadIsMember(b);
      assert a[0] == b[0];
      forall x
        ensures x in a[1..] <==> x in b[1..]
      {
        if x in a[1..] {
          var p :| 1 <= p < |a| && a[p] == x;
          assert x > a[0];
          assert x in b;
          var q :| 0 <= q < |b| && b[q] == x;
          assert q != 0;
          assert b[1..][q - 1] == x;
        }
        if x in b[1..] {
          var q :| 1 <= q < |b| && b[q] == x;
          assert x > b[0];
          assert x in a;
          var p :| 0 <= p < |a| && a[p] == x;
          assert p != 0;
          assert a[1..][p - 1] == x;
        }
      }
      IncreasingUnique(a[1..], b[1..]);
      assert a == [a[0]] + a[1..];
      assert b == [b[0]] + b[1..];
    }
  }

  /** The match list is the only strictly increasing list holding exactly the
      indices of the matching lines: it depends on the lines, the query and
      the comparison alone, so searching twice gives the same list. */
  lemma MatchingIsCanonical(lines: Lines, query: string, ignoreCase: bool, r: seq<int>)
    requires StrictlyIncreasing(r)
    requires forall i :: i in r <==> 0 <= i < |lines| && Contains(lines[i], query, ignoreCase)
    ensures r == Matching(lines, query, ignoreCase)
  {
    IncreasingUnique(r, Matching(lines, query, ignoreCase));
  }

  /** Ignoring case never loses a hit: the case-sensitive matches are a
      subset of the case-insensitive ones. */
  lemma IgnoreCaseWidens(lines: Lines, query: string)
    ensures forall i :: i in Matching(lines, query, false) ==> i in Matching(lines, query, true)
  {
    forall i | i in Matching(lines, query, false)
      ensures i in Matching(lines, query, true)
    {
      OrdinalHitIsIgnoreCaseHit(lines[i], query);
    }
  }

  /** With the one line "ABC", the query "abc" finds nothing case-sensitively
      and finds the line when case is ignored. */
  lemma CaseDecidesHit()
    ensures Matching(["ABC"], "abc", false) == []
    ensures Matching(["ABC"], "abc", true) == [0]
  {
    var lines := ["ABC"];
    assert !OccursAt(lines[0], "abc", 0, false) by {
      assert !SameChar(lines[0][0], "abc"[0], false);
    }
    var none := Matching(lines, "abc", false);
    assert forall i :: i !in none;
    IncreasingUnique(none, []);
    assert OccursAt(lines[0], "abc", 0, true);
    var one := Matching(lines, "abc", true);
    assert 0 in one;
    IncreasingUnique(one, [0]);
  }

  /** Ignoring case, "test" is found in "TEST1", "test2" and "Test3". */
  lemma MixedCaseHits()
    ensures Matching(["TEST1", "test2", "Test3"], "test", true) == [0, 1, 2]
  {
    var lines := ["TEST1", "test2", "Test3"];
    assert OccursAt(lines[0], "test", 0, true);
    assert OccursAt(lines[1], "test", 0, true);
    assert OccursAt(lines[2], "test", 0, true);
    var m := Matching(lines, "test", true);
    assert 0 in m && 1 in m && 2 in m;
    IncreasingUnique(m, [0, 1, 2]);
  }

  /** "other" does not contain "test", whatever the comparison. */
  lemma OtherLacksTest(ignoreCase: bool)
    ensures !Contains("other", "test", ignoreCase)
  {
    assert !OccursAt("other", "test", 0, ignoreCase) by {
      assert !SameChar("other"[0], "test"[0], ignoreCase);
    }
    assert !OccursAt("other", "test", 1, ignoreCase) by {
      assert !SameChar("other"[2], "test"[1], ignoreCase);
    }
  }

  /** A line starting with "test" contains it. */
  lemma StartsWithTest(line: string, ignoreCase: bool)
    requires |line| >= 4 && line[..4] == "test"
    ensures Contains(line, "test", ignoreCase)
  {
    assert OccursAt(line, "test", 0, ignoreCase);
  }

  /** "test" is found in "test1", "test2" and "test3" and not in "other". */
  lemma SkipsNonMatchingLine(ignoreCase: bool)
    ensures Matching(["test1", "other", "test2", "test3"], "test", ignoreCase) == [0, 2, 3]
  {
    var lines := ["test1", "other", "test2", "test3"];
    OtherLacksTest(ignoreCase);
    StartsWithTest(lines[0], ignoreCase);
    StartsWithTest(lines[2], ignoreCase);
    StartsWithTest(lines[3], ignoreCase);
    var hits := [0, 2, 3];
    assert forall i :: i in hits <==> 0 <= i < |lines| && Contains(lines[i], "test", ignoreCase);
    MatchingIsCanonical(lines, "test", ignoreCase, hits);
  }
}
