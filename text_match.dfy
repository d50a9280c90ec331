/**
 * The `ilike '%q%'` filters of the catalogue queries: a case-insensitive
 * substring test, folding ASCII letters only.
 */
module TextMatch {

  function LowerChar(c: char): char {
    if 'A' <= c <= 'Z' then (c as int + 32) as char else c
  }

  function Lower(s: string): (r: string)
    ensures |r| == |s|
    ensures forall i :: 0 <= i < |s| ==> r[i] == LowerChar(s[i])
  {
    seq(|s|, i requires 0 <= i < |s| => LowerChar(s[i]))
  }

  /** `sub` occurs in `s` starting at index `at`. */
  predicate OccursAt(sub: string, s: string, at: int) {
    0 <= at && at + |sub| <= |s| && s[at..at + |sub|] == sub
  }

  predicate Contains(s: string, sub: string) {
    exists at :: 0 <= at <= |s| - |sub| && OccursAt(sub, s, at)
  }

  /** `s ILIKE '%' || pattern || '%'`, without any wildcard inside `pattern`. */
  predicate ILike(s: string, pattern: string) {
    Contains(Lower(s), Lower(pattern))
  }

  /** Matching ignores the case of ASCII letters in both the text and the pattern. */
  lemma ILikeIgnoresCase(s: string, pattern: string)
    ensures ILike(s, pattern) == ILike(Lower(s), Lower(pattern))
  {
    assert Lower(Lower(s)) == Lower(s);
    assert Lower(Lower(pattern)) == Lower(pattern);
  }

  /** An empty pattern matches every text. */
  lemma ILikeEmpty(s: string)
    ensures ILike(s, "")
  {
    assert OccursAt(Lower(""), Lower(s), 0);
  }

  /** A text matches every pattern that occurs in it as it is. */
  lemma ILikeOccurrence(s: string, pattern: string, at: int)
    requires OccursAt(pattern, s, at)
    ensures ILike(s, pattern)
  {
    assert Lower(s)[at..at + |pattern|] == Lower(pattern);
    assert OccursAt(Lower(pattern), Lower(s), at);
  }
}
