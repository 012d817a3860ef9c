/**
 * The handful of Foundation string operations the app relies on, over
 * `string` (a sequence of Unicode scalar values).
 */
module Strings {

  /** One character of `lowercased()`, on the ASCII range only. */
  function LowerChar(c: char): char {
    if 'A' <= c <= 'Z' then (c as int - 'A' as int + 'a' as int) as char else c
  }

  /**
   * `lowercased()`, on the ASCII range: no upper-case letter is left, each
   * upper-case letter becomes its lower-case partner, and every other
   * character stays as it is, in place.
   */
  function Lowercased(s: string): (r: string)
    ensures |r| == |s|
    ensures forall i :: 0 <= i < |r| ==> !('A' <= r[i] <= 'Z')
    ensures forall i :: 0 <= i < |s| && 'A' <= s[i] <= 'Z' ==> r[i] as int == s[i] as int + 32
    ensures forall i :: 0 <= i < |s| && !('A' <= s[i] <= 'Z') ==> r[i] == s[i]
    ensures forall i :: 0 <= i < |s| ==> r[i] == LowerChar(s[i])
  {
    seq(|s|, i requires 0 <= i < |s| => LowerChar(s[i]))
  }

  /** Lowercasing twice is lowercasing once. */
  lemma LowercasedIdempotent(s: string)
    ensures Lowercased(Lowercased(s)) == Lowercased(s)
  {
    assert forall i :: 0 <= i < |s| ==> LowerChar(LowerChar(s[i])) == LowerChar(s[i]);
  }

  /** `a.lowercased() == b.lowercased()`. */
  predicate SameIgnoringCase(a: string, b: string) {
    Lowercased(a) == Lowercased(b)
  }

  /**
   * Membership in `CharacterSet.whitespaces`: Unicode general category Zs
   * and the horizontal tab. Line separators (newline, carriage return) are
   * NOT in this set.
   */
  predicate IsWhitespace(c: char): (r: bool)
    ensures c == ' ' || c == '\t' ==> r
    ensures r ==> c != '\n' && c != '\r'
    ensures r ==> !IsAlphanumeric(c)
  {
    || c == '\t'
    || c == ' '
    || c == '\U{00A0}'
    || c == '\U{1680}'
    || ('\U{2000}' <= c <= '\U{200A}')
    || c == '\U{202F}'
    || c == '\U{205F}'
    || c == '\U{3000}'
  }

  /** Membership in `CharacterSet.alphanumerics`, on the ASCII range only. */
  predicate IsAlphanumeric(c: char): (r: bool)
    ensures r <==> ('0' <= c <= '9') || ('a' <= LowerChar(c) <= 'z')
    ensures r ==> c != '#'
  {
    ('a' <= c <= 'z') || ('A' <= c <= 'Z') || ('0' <= c <= '9')
  }

  predicate IsNotAlphanumeric(c: char) {
    !IsAlphanumeric(c)
  }

  /** How many characters at the start of `s` belong to `inSet`, up to the first that does not. */
  function LeadingCount(s: string, inSet: char -> bool): (n: nat)
    ensures n <= |s|
    ensures forall i :: 0 <= i < n ==> inSet(s[i])
    ensures n < |s| ==> !inSet(s[n])
    decreases |s|
  {
    if s != [] && inSet(s[0]) then
      var m := LeadingCount(s[1..], inSet);
      assert forall i :: 1 <= i < m + 1 ==> s[i] == s[1..][i - 1];
      m + 1
    else
      0
  }

  /** How many characters at the end of `s` belong to `inSet`, back to the last that does not. */
  function TrailingCount(s: string, inSet: char -> bool): (n: nat)
    ensures n <= |s|
    ensures forall i :: |s| - n <= i < |s| ==> inSet(s[i])
    ensures n < |s| ==> !inSet(s[|s| - n - 1])
    decreases |s|
  {
    if s != [] && inSet(s[|s| - 1]) then
      var m := TrailingCount(s[..|s| - 1], inSet);
      assert forall i :: |s| - 1 - m <= i < |s| - 1 ==> s[i] == s[..|s| - 1][i];
      m + 1
    else
      0
  }

  /** `r` is `s[a..b]`, and everything of `s` outside `a..b` belongs to `inSet`. */
  predicate StrippedFromEnds(s: string, r: string, inSet: char -> bool, a: int, b: int) {
    && 0 <= a <= b <= |s| && r == s[a..b]
    && (forall i :: 0 <= i < a ==> inSet(s[i]))
    && (forall i :: b <= i < |s| ==> inSet(s[i]))
  }

  /**
   * `trimmingCharacters(in:)`: what is left of `s` once the characters of
   * `inSet` are stripped from both ends. It is empty exactly when every
   * character of `s` is in the set; otherwise both its ends lie outside it.
   */
  function Trimmed(s: string, inSet: char -> bool): (r: string)
    ensures exists a, b :: StrippedFromEnds(s, r, inSet, a, b)
    ensures r == [] <==> forall i :: 0 <= i < |s| ==> inSet(s[i])
    ensures r != [] ==> !inSet(r[0]) && !inSet(r[|r| - 1])
  {
    var a := LeadingCount(s, inSet);
    var lead := s[a..];
    var b := a + (|lead| - TrailingCount(lead, inSet));
    CutBothEnds(s, inSet, a, b);
    s[a..b]
  }

  /**
   * Cutting the leading run and then the trailing run of what remains
   * leaves `s[a..b]` with set characters only outside it and non-set
   * characters at its ends.
   */
  lemma {:induction false} CutBothEnds(s: string, inSet: char -> bool, a: int, b: int)
    requires a == LeadingCount(s, inSet)
    requires b == a + (|s[a..]| - TrailingCount(s[a..], inSet))
    ensures StrippedFromEnds(s, s[a..b], inSet, a, b)
    ensures a < b ==> !inSet(s[a]) && !inSet(s[b - 1])
    ensures a == b <==> forall i :: 0 <= i < |s| ==> inSet(s[i])
  {
    var lead := s[a..];
    var t := TrailingCount(lead, inSet);
    forall i | b <= i < |s|
      ensures inSet(s[i])
    {
      assert s[i] == lead[i - a];
    }
    if a < b {
      assert s[b - 1] == lead[|lead| - t - 1];
    }
    if a == b {
      assert forall i :: 0 <= i < |s| ==> inSet(s[i]);
    }
  }

  /** `needle` occurs in `hay` starting at offset `i`. */
  predicate OccursAt(hay: string, needle: string, i: int) {
    0 <= i && i + |needle| <= |hay| && hay[i..i + |needle|] == needle
  }

  /** An occurrence at 0 is a prefix; one past 0 is an occurrence in the rest, one place earlier. */
  lemma OccursInRest(hay: string, needle: string)
    requires hay != []
    ensures OccursAt(hay, needle, 0) <==> needle <= hay
    ensures forall j :: 0 <= j ==> (OccursAt(hay[1..], needle, j) <==> OccursAt(hay, needle, j + 1))
    ensures forall i :: 1 <= i ==> (OccursAt(hay, needle, i) <==> OccursAt(hay[1..], needle, i - 1))
  {
    forall j | 0 <= j
      ensures OccursAt(hay[1..], needle, j) <==> OccursAt(hay, needle, j + 1)
    {
      if j + 1 + |needle| <= |hay| {
        assert hay[1..][j..j + |needle|] == hay[j + 1..j + 1 + |needle|];
      }
    }
  }

  /** `hay.contains(needle)`: `needle` occurs as a contiguous piece of `hay`. */
  predicate Contains(hay: string, needle: string): (r: bool)
    ensures r <==> exists i :: OccursAt(hay, needle, i)
    decreases |hay|
  {
    if needle <= hay then
      assert OccursAt(hay, needle, 0);
      true
    else if hay == [] then
      false
    else
      OccursInRest(hay, needle);
      Contains(hay[1..], needle)
  }

  /** Swift's `<` on strings, for the scalar-by-scalar lexicographic order. */
  predicate Precedes(a: string, b: string) {
    if a == [] then b != []
    else b != [] && (a[0] < b[0] || (a[0] == b[0] && Precedes(a[1..], b[1..])))
  }

  /** `a` precedes `b` when they agree up to position `k` and differ there upwards. */
  lemma {:induction false} PrecedesAt(a: string, b: string, k: nat)
    requires k < |a| && k < |b| && a[..k] == b[..k] && a[k] < b[k]
    ensures Precedes(a, b)
  {
    if k > 0 {
      assert a[0] == a[..k][0];
      assert a[1..][..k - 1] == a[..k][1..];
      assert b[1..][..k - 1] == b[..k][1..];
      PrecedesAt(a[1..], b[1..], k - 1);
    }
  }

  lemma {:induction false} PrecedesIrreflexive(a: string)
    ensures !Precedes(a, a)
  {
    if a != [] {
      PrecedesIrreflexive(a[1..]);
    }
  }

  lemma {:induction false} PrecedesTransitive(a: string, b: string, c: string)
    requires Precedes(a, b) && Precedes(b, c)
    ensures Precedes(a, c)
  {
    if a != [] && a[0] == b[0] && b[0] == c[0] {
      PrecedesTransitive(a[1..], b[1..], c[1..]);
    }
  }
}
