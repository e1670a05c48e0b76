/**
 * `_connect_sentences`: every sentence gets a window text made of up to
 * `overlap` sentences before it, itself and up to `overlap` sentences after
 * it, separated by single spaces.
 */
module Windower {
  import opened Types
  import opened Text
  import opened Seqs

  /** The texts of the sentences, in order. */
  function Texts(ss: seq<Sentence>): seq<string>
  {
    seq(|ss|, j requires 0 <= j < |ss| => ss[j].sentence)
  }

  function Max(a: int, b: int): int { if a < b then b else a }
  function Min(a: int, b: int): int { if a < b then a else b }

  /** First sentence of the window of sentence `i`; a negative overlap counts as 0. */
  function WindowStart(i: int, overlap: int): (lo: int)
    requires 0 <= i
    ensures 0 <= lo <= i
  {
    Max(0, i - Max(0, overlap))
  }

  /** One past the last sentence of the window of sentence `i`. */
  function WindowEnd(n: int, i: int, overlap: int): (hi: int)
    requires 0 <= i < n
    ensures i < hi <= n
  {
    Min(n, i + 1 + Max(0, overlap))
  }

  /** The window text of sentence `i`: its clipped window joined by single spaces. */
  function Window(texts: seq<string>, i: int, overlap: int): string
    requires 0 <= i < |texts|
  {
    SpaceJoin(texts[WindowStart(i, overlap)..WindowEnd(|texts|, i, overlap)])
  }

  /** One more sentence of the leading part of the window. */
  lemma AfterEachStep(texts: seq<string>, lo: int, j: int)
    requires 0 <= lo <= j < |texts|
    ensures SpaceAfterEach(texts[lo..j + 1]) == SpaceAfterEach(texts[lo..j]) + texts[j] + " "
  {
    SliceSnoc(texts, lo, j);
  }

  /** One more sentence of the trailing part of the window. */
  lemma JoinStep(texts: seq<string>, lo: int, j: int)
    requires 0 <= lo < j < |texts|
    ensures SpaceJoin(texts[lo..j + 1]) == SpaceJoin(texts[lo..j]) + " " + texts[j]
  {
    SpaceJoinSnoc(texts[lo..j], texts[j]);
    SliceSnoc(texts, lo, j);
  }

  /** The first loop has appended the sentences of the window before `j`, each followed by a space. */
  ghost predicate LeadingSoFar(texts: seq<string>, i: int, overlap: int, j: int, combined: string)
    requires 0 <= i < |texts|
  {
    var lo := WindowStart(i, overlap);
    i - Max(0, overlap) <= j <= i && combined == SpaceAfterEach(texts[lo..Max(j, lo)])
  }

  lemma LeadingStep(texts: seq<string>, i: int, overlap: int, j: int, combined: string)
    requires 0 <= i < |texts| && j < i && LeadingSoFar(texts, i, overlap, j, combined)
    ensures j >= 0 ==> LeadingSoFar(texts, i, overlap, j + 1, combined + texts[j] + " ")
    ensures j < 0 ==> LeadingSoFar(texts, i, overlap, j + 1, combined)
  {
    var lo := WindowStart(i, overlap);
    if j >= 0 {
      assert Max(j, lo) == j && Max(j + 1, lo) == j + 1;
      AfterEachStep(texts, lo, j);
    } else {
      assert Max(j, lo) == lo == Max(j + 1, lo);
    }
  }

  /** The second loop has joined the window up to `j` (clipped at the end of the list) by single spaces. */
  ghost predicate TrailingSoFar(texts: seq<string>, i: int, overlap: int, j: int, combined: string)
    requires 0 <= i < |texts|
  {
    i + 1 <= j <= Max(i + 1 + overlap, i + 1)
    && combined == SpaceJoin(texts[WindowStart(i, overlap)..Min(j, |texts|)])
  }

  lemma TrailingStart(texts: seq<string>, i: int, overlap: int, combined: string)
    requires 0 <= i < |texts| && LeadingSoFar(texts, i, overlap, i, combined)
    ensures TrailingSoFar(texts, i, overlap, i + 1, combined + texts[i])
  {
    var lo := WindowStart(i, overlap);
    assert Max(i, lo) == i && Min(i + 1, |texts|) == i + 1;
    SpaceAfterEachThenJoin(texts[lo..i], texts[i]);
    SliceSnoc(texts, lo, i);
  }

  lemma TrailingStep(texts: seq<string>, i: int, overlap: int, j: int, combined: string)
    requires 0 <= i < |texts| && j < i + 1 + overlap && TrailingSoFar(texts, i, overlap, j, combined)
    ensures j < |texts| ==> TrailingSoFar(texts, i, overlap, j + 1, combined + " " + texts[j])
    ensures j >= |texts| ==> TrailingSoFar(texts, i, overlap, j + 1, combined)
  {
    var lo := WindowStart(i, overlap);
    if j < |texts| {
      assert Min(j, |texts|) == j && Min(j + 1, |texts|) == j + 1;
      JoinStep(texts, lo, j);
    }
  }

  lemma TrailingDone(texts: seq<string>, i: int, overlap: int, j: int, combined: string)
    requires 0 <= i < |texts| && j >= i + 1 + overlap && TrailingSoFar(texts, i, overlap, j, combined)
    ensures combined == Window(texts, i, overlap)
  {
    assert Min(j, |texts|) == WindowEnd(|texts|, i, overlap);
  }

  /**
   * The text built for sentence `i` by the two accumulator loops: the
   * sentences of the clipped window, joined by single spaces.
   */
  method WindowText(texts: seq<string>, i: int, overlap: int) returns (combined: string)
    requires 0 <= i < |texts|
    ensures combined == Window(texts, i, overlap)
  {
    combined := "";
    var j := i - overlap;
    if j > i {
      j := i;
    }
    while j < i
      invariant LeadingSoFar(texts, i, overlap, j, combined)
    {
      LeadingStep(texts, i, overlap, j, combined);
      if j >= 0 {
        combined := combined + texts[j] + " ";
      }
      j := j + 1;
    }
    TrailingStart(texts, i, overlap, combined);
    combined := combined + texts[i];
    j := i + 1;
    var stop := i + 1 + overlap;
    while j < stop
      invariant TrailingSoFar(texts, i, overlap, j, combined)
    {
      TrailingStep(texts, i, overlap, j, combined);
      if j < |texts| {
        combined := combined + " " + texts[j];
      }
      j := j + 1;
    }
    TrailingDone(texts, i, overlap, j, combined);
  }

  /**
   * The window of sentence `i` is the sentence itself with the sentences
   * before it, each followed by a space, in front, and the sentences after
   * it, each preceded by a space, behind.
   */
  lemma {:induction false} WindowAroundSentence(texts: seq<string>, i: int, overlap: int)
    requires 0 <= i < |texts|
    ensures Window(texts, i, overlap)
            == SpaceAfterEach(texts[WindowStart(i, overlap)..i]) + texts[i]
               + SpaceBeforeEach(texts[i + 1..WindowEnd(|texts|, i, overlap)])
  {
    var lo, hi := WindowStart(i, overlap), WindowEnd(|texts|, i, overlap);
    SpaceAfterEachThenJoin(texts[lo..i], texts[i]);
    JoinThenSpaceBeforeEach(texts[lo..i] + [texts[i]], texts[i + 1..hi]);
    SliceAround(texts, lo, i, hi);
  }

  /** With overlap 0 (or less) the window is the sentence alone. */
  lemma {:induction false} NoOverlapWindowIsSentence(texts: seq<string>, i: int, overlap: int)
    requires 0 <= i < |texts| && overlap <= 0
    ensures Window(texts, i, overlap) == texts[i]
  {
    assert texts[WindowStart(i, overlap)..WindowEnd(|texts|, i, overlap)] == [texts[i]];
  }

  /**
   * With overlap 1, as in the recursive-semantic pipeline, an inner sentence
   * is framed by its two neighbours and the first and last sentences by
   * their one neighbour.
   */
  lemma {:induction false} OverlapOneWindow(texts: seq<string>, i: int)
    requires 0 <= i < |texts|
    ensures Window(texts, i, 1) == (if i > 0 then texts[i - 1] + " " else "") + texts[i]
                                   + (if i + 1 < |texts| then " " + texts[i + 1] else "")
  {
    var lo, hi := WindowStart(i, 1), WindowEnd(|texts|, i, 1);
    WindowAroundSentence(texts, i, 1);
    if i > 0 {
      assert texts[lo..i] == [texts[i - 1]];
      assert texts[lo..i][..0] == [];
    } else {
      assert texts[lo..i] == [];
    }
    if i + 1 < |texts| {
      assert texts[i + 1..hi] == [texts[i + 1]];
      assert texts[i + 1..hi][..0] == [];
    } else {
      assert texts[i + 1..hi] == [];
    }
  }

  /**
   * `_connect_sentences(sentences, overlap)`: one new `CombinedSentences` per
   * sentence, in order, keeping its text and chunk index, with the window
   * text as `combined_sentence`.
   */
  method ConnectSentences(ids: IdCounter, sentences: seq<Sentence>, overlap: int)
    returns (combined: seq<CombinedSentence>)
    modifies ids
    ensures ids.count == old(ids.count) + |sentences|
    ensures |combined| == |sentences|
    ensures forall i :: 0 <= i < |sentences| ==>
              combined[i] == CombinedSentence(old(ids.count) + i + 1, sentences[i].sentence, sentences[i].chunkIndex,
                                              Window(Texts(sentences), i, overlap))
  {
    var texts := Texts(sentences);
    combined := [];
    var i := 0;
    while i < |sentences|
      invariant 0 <= i <= |sentences|
      invariant ids.count == old(ids.count) + i
      invariant |combined| == i
      invariant forall k :: 0 <= k < i ==>
                  combined[k] == CombinedSentence(old(ids.count) + k + 1, sentences[k].sentence, sentences[k].chunkIndex,
                                                  Window(texts, k, overlap))
    {
      var text := WindowText(texts, i, overlap);
      var c := NewCombined(ids, sentences[i].sentence, text, sentences[i].chunkIndex);
      combined := combined + [c];
      i := i + 1;
    }
  }
}
