/** Character-level comparisons used by the search and filter services:
    `string.IsNullOrWhiteSpace` and `string.Contains` with an ordinal or an
    ordinal-ignore-case comparison. Strings are sequences of characters compared
    one by one; the Unicode case and white-space tables are replaced by their
    ASCII part. */
module Text {

  /** A character that `string.IsNullOrWhiteSpace` treats as white space
      (the ASCII members of the Unicode white-space set). */
  predicate IsWhiteSpace(c: char) {
    c == ' ' || c == '\t' || c == '\n' || c == '\r' || c == '\U{B}' || c == '\U{C}'
  }

  /** `string.IsNullOrWhiteSpace`: empty, or white space only. */
  predicate IsBlank(s: string) {
    forall i :: 0 <= i < |s| ==> IsWhiteSpace(s[i])
  }

  /** The per-character fold behind `StringComparison.OrdinalIgnoreCase`
      (upper-casing), restricted to ASCII letters. */
  function Fold(c: char): char {
    if 'a' <= c <= 'z' then (c as int - 'a' as int + 'A' as int) as char else c
  }

  /** One code unit compared ordinally, or ordinally after folding. */
  predicate SameChar(a: char, b: char, ignoreCase: bool) {
    if ignoreCase then Fold(a) == Fold(b) else a == b
  }

  /** `query` occurs in `line` starting at position `k`. */
  predicate OccursAt(line: string, query: string, k: int, ignoreCase: bool)
    requires 0 <= k <= |line| - |query|
  {
    forall j :: 0 <= j < |query| ==> SameChar(line[k + j], query[j], ignoreCase)
  }

  /** `line.Contains(query, comparison)`: some slice of `line` equals `query`. */
  predicate Contains(line: string, query: string, ignoreCase: bool) {
    exists k :: 0 <= k <= |line| - |query| && OccursAt(line, query, k, ignoreCase)
  }

  /** A case-sensitive hit is also a case-insensitive hit: switching to
      ignore-case can only widen a search or a filter. */
  lemma OrdinalHitIsIgnoreCaseHit(line: string, query: string)
    ensures Contains(line, query, false) ==> Contains(line, query, true)
  {
    if Contains(line, query, false) {
      var k :| 0 <= k <= |line| - |query| && OccursAt(line, query, k, false);
      assert OccursAt(line, query, k, true) by {
        forall j | 0 <= j < |query|
          ensures SameChar(line[k + j], query[j], true)
        {
          assert SameChar(line[k + j], query[j], false);
        }
      }
    }
  }
}
