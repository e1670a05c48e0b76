/**
 * The few Python string operations the chunker relies on: the whitespace
 * class shared by the regex `\s` and `str.strip()`, the end-of-sentence
 * marks, `str.strip()` itself and `" ".join(...)`.
 */
module Text {
  import opened Seqs

  /** Python's `str.isspace()` / the regex class `\s` on `str` patterns. */
  predicate IsSpace(c: char)
  {
    c == ' ' || c == '\t' || c == '\n' || c == '\r' || c == '\U{B}' || c == '\U{C}'
    || ('\U{1C}' <= c <= '\U{1F}') || c == '\U{85}' || c == '\U{A0}' || c == '\U{1680}'
    || ('\U{2000}' <= c <= '\U{200A}') || c == '\U{2028}' || c == '\U{2029}' || c == '\U{202F}'
    || c == '\U{205F}' || c == '\U{3000}'
  }

  /** The character class `[.!?]` of the sentence pattern. */
  predicate IsPunct(c: char) { c == '.' || c == '!' || c == '?' }

  predicate AllSpace(s: string) { forall k :: 0 <= k < |s| ==> IsSpace(s[k]) }

  /** The length of the whitespace run that starts `s`. */
  function LeadingSpaces(s: string): (n: nat)
    ensures n <= |s| && AllSpace(s[..n])
    ensures n < |s| ==> !IsSpace(s[n])
  {
    if |s| > 0 && IsSpace(s[0]) then
      var m := LeadingSpaces(s[1..]);
      assert s[..m + 1] == [s[0]] + s[1..][..m];
      m + 1
    else 0
  }

  /** The length of the whitespace run that ends `s`. */
  function TrailingSpaces(s: string): (n: nat)
    ensures n <= |s|
    ensures forall k :: |s| - n <= k < |s| ==> IsSpace(s[k])
    ensures n < |s| ==> !IsSpace(s[|s| - n - 1])
  {
    if |s| > 0 && IsSpace(s[|s| - 1]) then
      TrailingSpaces(s[..|s| - 1]) + 1
    else 0
  }

  /** `s.strip()`: the middle of `s` between its whitespace margins. */
  function Strip(s: string): (r: string)
    ensures exists a, b :: 0 <= a <= b <= |s| && r == s[a..b] && AllSpace(s[..a]) && AllSpace(s[b..])
    ensures |r| > 0 ==> !IsSpace(r[0]) && !IsSpace(r[|r| - 1])
  {
    var a := LeadingSpaces(s);
    var rest := s[a..];
    var b := |rest| - TrailingSpaces(rest);
    SpaceSuffix(rest, b);
    assert rest[b..] == s[a + b..] && rest[..b] == s[a..a + b];
    rest[..b]
  }

  /** A tail of whitespace characters is all whitespace. */
  lemma SpaceSuffix(t: string, b: int)
    requires 0 <= b <= |t| && forall k :: b <= k < |t| ==> IsSpace(t[k])
    ensures AllSpace(t[b..])
  {
    assert forall k :: 0 <= k < |t| - b ==> t[b..][k] == t[b + k];
  }

  /** `" ".join(xs)`, written as the left fold that appends " " + x. */
  function SpaceJoin(xs: seq<string>): string
  {
    if |xs| == 0 then ""
    else if |xs| == 1 then xs[0]
    else SpaceJoin(xs[..|xs| - 1]) + " " + xs[|xs| - 1]
  }

  /** Every string followed by one space: what `f"{x} "` accumulates. */
  function SpaceAfterEach(xs: seq<string>): string
  {
    if |xs| == 0 then "" else SpaceAfterEach(xs[..|xs| - 1]) + xs[|xs| - 1] + " "
  }

  /** Every string preceded by one space: what `" " + x` accumulates. */
  function SpaceBeforeEach(xs: seq<string>): string
  {
    if |xs| == 0 then "" else SpaceBeforeEach(xs[..|xs| - 1]) + " " + xs[|xs| - 1]
  }

  /** Strings written with a space after each, then one more string, are joined by spaces. */
  lemma {:induction false} SpaceAfterEachThenJoin(xs: seq<string>, y: string)
    ensures SpaceAfterEach(xs) + y == SpaceJoin(xs + [y])
  {
    if |xs| > 0 {
      var ys := xs[..|xs| - 1];
      SpaceAfterEachThenJoin(ys, xs[|xs| - 1]);
      InitOfSnoc(xs, y);
      InitThenLast(xs);
    } else {
      assert xs + [y] == [y];
    }
  }

  /** Appending " " + x after a join of a non-empty list extends the join. */
  lemma SpaceJoinSnoc(xs: seq<string>, y: string)
    requires |xs| > 0
    ensures SpaceJoin(xs + [y]) == SpaceJoin(xs) + " " + y
  {
    InitOfSnoc(xs, y);
  }

  /** A leading space before every string is one space before their join. */
  lemma {:induction false} SpaceBeforeEachIsJoin(xs: seq<string>)
    requires |xs| > 0
    ensures SpaceBeforeEach(xs) == " " + SpaceJoin(xs)
  {
    if |xs| > 1 {
      var ys := xs[..|xs| - 1];
      SpaceBeforeEachIsJoin(ys);
    } else {
      assert xs[..0] == [];
    }
  }

  /** A join followed by " " + y for each further y is the join of all of them. */
  lemma {:induction false} JoinThenSpaceBeforeEach(xs: seq<string>, ys: seq<string>)
    requires |xs| > 0
    ensures SpaceJoin(xs) + SpaceBeforeEach(ys) == SpaceJoin(xs + ys)
  {
    if |ys| == 0 {
      assert xs + ys == xs;
    } else {
      var init := ys[..|ys| - 1];
      JoinThenSpaceBeforeEach(xs, init);
      SpaceJoinSnoc(xs + init, ys[|ys| - 1]);
      InitThenLast(ys);
      AppendAssoc(xs, init, [ys[|ys| - 1]]);
    }
  }
}
