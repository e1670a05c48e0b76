/**
 * Sentence splitting: newlines become spaces, then the text is cut at every
 * whitespace run that follows `.`, `!` or `?` (the pattern
 * `(?<=[.!?])\s+` given to `re.split`), and one `Sentence` is created per
 * piece.
 */
module Splitter {
  import opened Types
  import opened Text
  import opened Seqs

  /** `text.replace("\n", " ")`. */
  function ReplaceNewlines(t: string): (r: string)
    ensures |r| == |t| && '\n' !in r
    ensures forall k :: 0 <= k < |t| && t[k] != '\n' ==> r[k] == t[k]
    ensures forall k :: 0 <= k < |t| && t[k] == '\n' ==> r[k] == ' '
  {
    seq(|t|, k requires 0 <= k < |t| => if t[k] == '\n' then ' ' else t[k])
  }

  /** True when a cut starts right after position 0 of `t`. */
  predicate CutAtOne(t: string)
  {
    |t| >= 2 && IsPunct(t[0]) && IsSpace(t[1])
  }

  /**
   * `re.split(r"(?<=[.!?])\s+", t)`. A match needs a punctuation mark just
   * before it and takes the whole whitespace run after it; the text between
   * matches is returned, including an empty last piece when the text ends
   * in a match.
   */
  function Split(t: string): (r: seq<string>)
    ensures |r| >= 1
    decreases |t|
  {
    if |t| == 0 then [""]
    else if CutAtOne(t) then [[t[0]]] + Split(t[1 + LeadingSpaces(t[1..])..])
    else
      var rest := Split(t[1..]);
      [[t[0]] + rest[0]] + rest[1..]
  }

  /** The whitespace runs `Split` removes, in order. */
  function Separators(t: string): (r: seq<string>)
    decreases |t|
  {
    if |t| == 0 then []
    else if CutAtOne(t) then
      var n := LeadingSpaces(t[1..]);
      [t[1..1 + n]] + Separators(t[1 + n..])
    else Separators(t[1..])
  }

  /** `p0 + s0 + p1 + s1 + ... + pn`: the pieces with the runs put back. */
  function Interleave(pieces: seq<string>, seps: seq<string>): string
    requires |pieces| == |seps| + 1
  {
    if |seps| == 0 then pieces[0]
    else pieces[0] + seps[0] + Interleave(pieces[1..], seps[1..])
  }

  /** `"".join(pages)`. */
  function Concat(pages: seq<string>): string
  {
    if |pages| == 0 then "" else pages[0] + Concat(pages[1..])
  }

  lemma InterleavePrepend(a: string, pieces: seq<string>, seps: seq<string>)
    requires |pieces| == |seps| + 1
    ensures Interleave([a + pieces[0]] + pieces[1..], seps) == a + Interleave(pieces, seps)
  {
    var ps := [a + pieces[0]] + pieces[1..];
    assert ps[1..] == pieces[1..];
  }

  /**
   * Putting the removed runs back between the pieces gives the text again;
   * every removed run is non-empty whitespace.
   */
  lemma SplitReconstructs(t: string)
    ensures |Separators(t)| == |Split(t)| - 1
    ensures Interleave(Split(t), Separators(t)) == t
    ensures forall k :: 0 <= k < |Separators(t)| ==> |Separators(t)[k]| > 0 && AllSpace(Separators(t)[k])
  {
    SplitInterleaves(t);
    SeparatorsAreSpace(t);
  }

  /** At a cut, the text is the mark, the whitespace run and the rest. */
  lemma CutUnfold(t: string)
    requires CutAtOne(t)
    ensures var n := LeadingSpaces(t[1..]);
            var sep, l := t[1..1 + n], t[1 + n..];
            && Split(t) == [[t[0]]] + Split(l) && Separators(t) == [sep] + Separators(l)
            && t == [t[0]] + sep + l && |sep| > 0 && AllSpace(sep)
  {
    var n := LeadingSpaces(t[1..]);
    CutPieces(t, n);
    CutRun(t, n);
  }

  lemma CutPieces(t: string, n: int)
    requires CutAtOne(t) && n == LeadingSpaces(t[1..])
    ensures Split(t) == [[t[0]]] + Split(t[1 + n..]) && Separators(t) == [t[1..1 + n]] + Separators(t[1 + n..])
  {
  }

  lemma CutRun(t: string, n: int)
    requires CutAtOne(t) && n == LeadingSpaces(t[1..])
    ensures t == [t[0]] + t[1..1 + n] + t[1 + n..] && n > 0 && AllSpace(t[1..1 + n])
  {
    assert t[1..1 + n] == t[1..][..n];
    assert IsSpace(t[1..][0]);
  }

  /** There is one run fewer than pieces, and the runs put back give the text. */
  lemma {:induction false} SplitInterleaves(t: string)
    ensures |Separators(t)| == |Split(t)| - 1
    ensures Interleave(Split(t), Separators(t)) == t
    decreases |t|
  {
    if |t| == 0 {
    } else if CutAtOne(t) {
      var n := LeadingSpaces(t[1..]);
      var sep, l := t[1..1 + n], t[1 + n..];
      CutUnfold(t);
      SplitInterleaves(l);
      assert ([[t[0]]] + Split(l))[1..] == Split(l);
      assert ([sep] + Separators(l))[1..] == Separators(l);
    } else {
      var rest := Split(t[1..]);
      SplitInterleaves(t[1..]);
      InterleavePrepend([t[0]], rest, Separators(t[1..]));
      assert t == [t[0]] + t[1..];
    }
  }

  /** Every removed run is non-empty whitespace. */
  lemma {:induction false} SeparatorsAreSpace(t: string)
    ensures forall k :: 0 <= k < |Separators(t)| ==> |Separators(t)[k]| > 0 && AllSpace(Separators(t)[k])
    decreases |t|
  {
    if |t| > 0 {
      if CutAtOne(t) {
        var n := LeadingSpaces(t[1..]);
        CutUnfold(t);
        SeparatorsAreSpace(t[1 + n..]);
      } else {
        SeparatorsAreSpace(t[1..]);
      }
    }
  }

  /** `p` is non-empty and ends in a punctuation mark. */
  predicate EndsInPunct(p: string)
  {
    |p| > 0 && IsPunct(p[|p| - 1])
  }

  /** Every piece except the last ends in a punctuation mark. */
  lemma {:induction false} PiecesEndInPunct(t: string)
    ensures forall k :: 0 <= k < |Split(t)| - 1 ==> EndsInPunct(Split(t)[k])
    decreases |t|
  {
    if |t| == 0 {
    } else if CutAtOne(t) {
      var l := t[1 + LeadingSpaces(t[1..])..];
      PiecesEndInPunct(l);
      assert Split(t)[1..] == Split(l);
    } else {
      var rest := Split(t[1..]);
      PiecesEndInPunct(t[1..]);
      var r := Split(t);
      assert r[1..] == rest[1..];
      if |rest| > 1 {
        assert r[0] == [t[0]] + rest[0];
        assert EndsInPunct(rest[0]);
        assert r[0][|r[0]| - 1] == rest[0][|rest[0]| - 1];
      }
    }
  }

  /** The first piece is where the text starts. */
  lemma {:induction false} FirstPieceIsPrefix(t: string)
    ensures |Split(t)[0]| <= |t| && Split(t)[0] == t[..|Split(t)[0]|]
    decreases |t|
  {
    if |t| > 0 && !CutAtOne(t) {
      FirstPieceIsPrefix(t[1..]);
      assert t == [t[0]] + t[1..];
    }
  }

  /** `p` holds no mark followed by whitespace. */
  predicate NoCut(p: string)
  {
    forall j :: 0 <= j < |p| - 1 ==> !(IsPunct(p[j]) && IsSpace(p[j + 1]))
  }

  /** The runs are maximal: no piece holds a mark followed by whitespace. */
  lemma {:induction false} NoCutInsidePiece(t: string)
    ensures forall k :: 0 <= k < |Split(t)| ==> NoCut(Split(t)[k])
    decreases |t|
  {
    if |t| == 0 {
    } else if CutAtOne(t) {
      var l := t[1 + LeadingSpaces(t[1..])..];
      NoCutInsidePiece(l);
      assert Split(t)[1..] == Split(l);
    } else {
      var rest := Split(t[1..]);
      NoCutInsidePiece(t[1..]);
      FirstPieceIsPrefix(t[1..]);
      var r := Split(t);
      assert r[1..] == rest[1..];
      var p := r[0];
      assert p == [t[0]] + rest[0];
      assert NoCut(rest[0]);
      forall j | 0 <= j < |p| - 1
        ensures !(IsPunct(p[j]) && IsSpace(p[j + 1]))
      {
        if j > 0 {
          assert p[j] == rest[0][j - 1] && p[j + 1] == rest[0][j];
        } else {
          assert p[1] == rest[0][0] == t[1];
        }
      }
    }
  }

  /** `p` does not start with whitespace. */
  predicate StartsWithoutSpace(p: string)
  {
    |p| > 0 ==> !IsSpace(p[0])
  }

  /** Each removed run is maximal: no piece after the first starts with whitespace. */
  lemma {:induction false} PiecesStartWithoutSpace(t: string)
    ensures forall k :: 1 <= k < |Split(t)| ==> StartsWithoutSpace(Split(t)[k])
    decreases |t|
  {
    if |t| == 0 {
    } else if CutAtOne(t) {
      var n := LeadingSpaces(t[1..]);
      var l := t[1 + n..];
      PiecesStartWithoutSpace(l);
      FirstPieceIsPrefix(l);
      assert Split(t)[1..] == Split(l);
      if |l| > 0 {
        assert l[0] == t[1..][n];
      }
    } else {
      PiecesStartWithoutSpace(t[1..]);
      assert Split(t)[1..] == Split(t[1..])[1..];
    }
  }

  /** The whitespace run of `s` stops at its first non-space character. */
  lemma {:induction false} SpaceRunStopsAt(s: string, i: int)
    requires 0 <= i < |s| && !IsSpace(s[i])
    ensures LeadingSpaces(s) <= i
    decreases i
  {
    if i > 0 && IsSpace(s[0]) {
      SpaceRunStopsAt(s[1..], i - 1);
    }
  }

  /** A string of whitespace is one whole run. */
  lemma {:induction false} AllSpaceRun(w: string)
    requires AllSpace(w)
    ensures LeadingSpaces(w) == |w|
  {
    if |w| > 0 {
      AllSpaceRun(w[1..]);
    }
  }

  /** A split whose last piece is empty, after at least one cut. */
  predicate EndsWithEmptyPiece(r: seq<string>)
  {
    |r| >= 2 && r[|r| - 1] == ""
  }

  /** Putting pieces in front keeps an empty last piece. */
  lemma EmptyLastAfterPrefix(front: seq<string>, rest: seq<string>)
    requires EndsWithEmptyPiece(rest)
    ensures EndsWithEmptyPiece(front + rest)
  {
    assert (front + rest)[|front| + |rest| - 1] == rest[|rest| - 1];
  }

  /** Growing the first piece keeps an empty last piece. */
  lemma EmptyLastAfterGrowth(a: string, rest: seq<string>)
    requires EndsWithEmptyPiece(rest)
    ensures EndsWithEmptyPiece([a + rest[0]] + rest[1..])
  {
    var k, r := |rest| - 1, [a + rest[0]] + rest[1..];
    assert |r| == k + 1 && r[k] == rest[1..][k - 1] == rest[k];
  }

  /** A cut keeps the last piece of the rest. */
  lemma SplitCutStep(t: string)
    requires CutAtOne(t)
    ensures EndsWithEmptyPiece(Split(t[1 + LeadingSpaces(t[1..])..])) ==> EndsWithEmptyPiece(Split(t))
  {
    var rest := Split(t[1 + LeadingSpaces(t[1..])..]);
    assert Split(t) == [[t[0]]] + rest;
    if EndsWithEmptyPiece(rest) {
      EmptyLastAfterPrefix([[t[0]]], rest);
    }
  }

  /** A character outside a cut keeps the last piece of the rest. */
  lemma SplitPlainStep(t: string)
    requires |t| > 0 && !CutAtOne(t)
    ensures EndsWithEmptyPiece(Split(t[1..])) ==> EndsWithEmptyPiece(Split(t))
  {
    var rest := Split(t[1..]);
    assert Split(t) == [[t[0]] + rest[0]] + rest[1..];
    if EndsWithEmptyPiece(rest) {
      EmptyLastAfterGrowth([t[0]], rest);
    }
  }

  /**
   * Text that ends in a mark followed only by whitespace gives an empty last
   * piece: the trailing run is removed as a match.
   */
  lemma {:induction false} TrailingCutGivesEmptyPiece(t: string, i: int)
    requires 0 <= i < |t| - 1 && IsPunct(t[i]) && AllSpace(t[i + 1..])
    ensures EndsWithEmptyPiece(Split(t))
    decreases |t|, 1
  {
    if i == 0 {
      MarkThenSpaces(t);
    } else if CutAtOne(t) {
      CutBeforeMark(t, i);
    } else {
      var v := t[1..];
      assert v[i - 1] == t[i];
      DropDrop(t, 1, i);
      TrailingCutGivesEmptyPiece(v, i - 1);
      SplitPlainStep(t);
    }
  }

  /** A mark followed only by whitespace is one cut that leaves an empty piece. */
  lemma MarkThenSpaces(t: string)
    requires 1 < |t| && IsPunct(t[0]) && AllSpace(t[1..])
    ensures EndsWithEmptyPiece(Split(t))
  {
    assert CutAtOne(t);
    AllSpaceRun(t[1..]);
    SplitCutStep(t);
  }

  /** A cut before the final mark: the whitespace run stops before the mark, and the rest ends the same way. */
  lemma {:induction false} CutBeforeMark(t: string, i: int)
    requires 0 < i < |t| - 1 && IsPunct(t[i]) && AllSpace(t[i + 1..]) && CutAtOne(t)
    ensures EndsWithEmptyPiece(Split(t))
    decreases |t|, 0
  {
    var v := t[1..];
    assert v[i - 1] == t[i];
    var m := LeadingSpaces(v);
    SpaceRunStopsAt(v, i - 1);
    var l := v[m..];
    DropDrop(t, 1, m);
    assert l[i - 1 - m] == t[i];
    DropDrop(t, 1 + m, i - m);
    TrailingCutGivesEmptyPiece(l, i - 1 - m);
    SplitCutStep(t);
  }

  /** `_preprocess_data`: one new `Sentence` per piece of the split text, in order. */
  method PreprocessData(ids: IdCounter, text: string) returns (ss: seq<Sentence>)
    modifies ids
    ensures |ss| == |Split(ReplaceNewlines(text))|
    ensures ids.count == old(ids.count) + |ss|
    ensures forall k :: 0 <= k < |ss| ==>
              ss[k] == Sentence(old(ids.count) + k + 1, Split(ReplaceNewlines(text))[k], None)
  {
    var pieces := Split(ReplaceNewlines(text));
    ss := NewSentences(ids, pieces);
  }

  /**
   * The split in `_load_pdf`: the page texts are joined with "", newlines
   * become spaces, and the result is split as above.
   */
  method LoadPdfSentences(ids: IdCounter, pages: seq<string>) returns (ss: seq<Sentence>)
    modifies ids
    ensures |ss| == |Split(ReplaceNewlines(Concat(pages)))|
    ensures ids.count == old(ids.count) + |ss|
    ensures forall k :: 0 <= k < |ss| ==>
              ss[k] == Sentence(old(ids.count) + k + 1, Split(ReplaceNewlines(Concat(pages)))[k], None)
  {
    var fullText := Concat(pages);
    fullText := ReplaceNewlines(fullText);
    var pieces := Split(fullText);
    ss := NewSentences(ids, pieces);
  }
}
