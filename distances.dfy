/**
 * The rest of the preparation: embeddings for the window texts, the distance
 * from each sentence to the next, and the two pipelines that chain the
 * steps. The embedder and the cosine distance are external and appear as
 * function parameters.
 */
module Distances {
  import opened Types
  import opened Text
  import opened Splitter
  import opened Windower

  /** `_apply_embeddings`: each record gets the embedding of its window text. */
  method ApplyEmbeddings(s: seq<CombinedSentence>, embed: string -> seq<real>) returns (r: seq<CombinedSentence>)
    ensures |r| == |s|
    ensures forall i :: 0 <= i < |s| ==> r[i] == s[i].(embeddings := embed(s[i].combinedSentence))
  {
    r := s;
    var i := 0;
    while i < |r|
      invariant 0 <= i <= |r| == |s|
      invariant forall k :: 0 <= k < i ==> r[k] == s[k].(embeddings := embed(s[k].combinedSentence))
      invariant forall k :: i <= k < |s| ==> r[k] == s[k]
    {
      r := r[i := r[i].(embeddings := embed(r[i].combinedSentence))];
      i := i + 1;
    }
  }

  /**
   * `_compare_vectors`: sentence i gets the distance between its embedding
   * and the next one; the last sentence gets the value the loop variable
   * holds at the end, i.e. the distance of the one before it. With fewer
   * than two sentences the loop never assigns that variable and reading it
   * fails.
   */
  method CompareVectors(s: seq<CombinedSentence>, distance: (seq<real>, seq<real>) -> real)
    returns (r: Result<seq<CombinedSentence>>)
    ensures r.Err? <==> |s| < 2
    ensures r.Err? ==> r.error == UnboundLocal
    ensures r.Ok? ==> |r.value| == |s|
    ensures r.Ok? ==> forall i :: 0 <= i < |s| - 1 ==>
              r.value[i] == s[i].(cosineDistance := Some(distance(s[i].embeddings, s[i + 1].embeddings)))
    ensures r.Ok? ==> r.value[|s| - 1] == s[|s| - 1].(cosineDistance := r.value[|s| - 2].cosineDistance)
    ensures r.Ok? ==> forall i :: 0 <= i < |s| ==> r.value[i].cosineDistance.Some?
  {
    var out := s;
    var last: Option<real> := None;
    var i := 0;
    while i < |s| - 1
      invariant 0 <= i <= |s| - 1 || (|s| == 0 && i == 0)
      invariant |out| == |s|
      invariant forall k :: 0 <= k < i ==>
                  out[k] == s[k].(cosineDistance := Some(distance(s[k].embeddings, s[k + 1].embeddings)))
      invariant forall k :: i <= k < |s| ==> out[k] == s[k]
      invariant last == if i == 0 then None else Some(distance(s[i - 1].embeddings, s[i].embeddings))
    {
      var d := distance(out[i].embeddings, out[i + 1].embeddings);
      out := out[i := out[i].(cosineDistance := Some(d))];
      last := Some(d);
      i := i + 1;
    }
    if last.None? {
      return Err(UnboundLocal);
    }
    forall k | 0 <= k < |s| - 1
      ensures out[k].cosineDistance.Some?
    {
      assert out[k] == s[k].(cosineDistance := Some(distance(s[k].embeddings, s[k + 1].embeddings)));
    }
    out := out[|out| - 1 := out[|out| - 1].(cosineDistance := last)];
    r := Ok(out);
  }

  /**
   * What both pipelines promise for text long enough to be measured: one
   * record per piece, in order, with its text, no chunk index, the window
   * text and that window's embedding; each record but the last holds the
   * distance from its embedding to the next one, and the last repeats the
   * distance of the one before it.
   */
  predicate Prepared(r: seq<CombinedSentence>, pieces: seq<string>, overlap: int,
                     embed: string -> seq<real>, distance: (seq<real>, seq<real>) -> real)
  {
    |r| == |pieces|
    && (forall i :: 0 <= i < |r| ==> r[i].sentence == pieces[i] && r[i].chunkIndex == None)
    && (forall i :: 0 <= i < |r| ==> r[i].cosineDistance.Some? && r[i].combinedSentence == Window(pieces, i, overlap))
    && (forall i :: 0 <= i < |r| ==> r[i].embeddings == embed(Window(pieces, i, overlap)))
    && (forall i :: 0 <= i < |r| - 1 ==> r[i].cosineDistance == Some(distance(r[i].embeddings, r[i + 1].embeddings)))
    && (|r| >= 2 ==> r[|r| - 1].cosineDistance == r[|r| - 2].cosineDistance)
  }

  /** The steps both pipelines share: window, embed, measure. */
  method WindowEmbedMeasure(combinedIds: IdCounter, sentences: seq<Sentence>, overlap: int,
                            embed: string -> seq<real>, distance: (seq<real>, seq<real>) -> real)
    returns (r: Result<seq<CombinedSentence>>)
    requires forall i :: 0 <= i < |sentences| ==> sentences[i].chunkIndex == None
    modifies combinedIds
    ensures (r.Err? <==> |sentences| < 2) && (r.Err? ==> r.error == UnboundLocal)
    ensures r.Ok? ==> Prepared(r.value, Texts(sentences), overlap, embed, distance)
    ensures combinedIds.count == old(combinedIds.count) + |sentences|
    ensures r.Ok? ==> forall i :: 0 <= i < |r.value| ==> r.value[i].index == old(combinedIds.count) + i + 1
  {
    var connected := ConnectSentences(combinedIds, sentences, overlap);
    var embedded := ApplyEmbeddings(connected, embed);
    r := CompareVectors(embedded, distance);
    if r.Ok? {
      forall i | 0 <= i < |r.value|
        ensures r.value[i].sentence == sentences[i].sentence && r.value[i].chunkIndex == None
        ensures r.value[i].combinedSentence == Window(Texts(sentences), i, overlap)
        ensures r.value[i].embeddings == embed(Window(Texts(sentences), i, overlap))
        ensures r.value[i].index == old(combinedIds.count) + i + 1
      {
        var c := connected[i];
        assert c.sentence == sentences[i].sentence && c.chunkIndex == None && c.index == old(combinedIds.count) + i + 1;
        assert c.combinedSentence == Window(Texts(sentences), i, overlap);
        assert embedded[i] == c.(embeddings := embed(c.combinedSentence));
        if i < |r.value| - 1 {
          assert r.value[i] == embedded[i].(cosineDistance := Some(distance(embedded[i].embeddings, embedded[i + 1].embeddings)));
        } else {
          assert r.value[i] == embedded[i].(cosineDistance := r.value[i - 1].cosineDistance);
        }
      }
      forall i | 0 <= i < |r.value| - 1
        ensures r.value[i].cosineDistance == Some(distance(r.value[i].embeddings, r.value[i + 1].embeddings))
      {
        assert r.value[i] == embedded[i].(cosineDistance := Some(distance(embedded[i].embeddings, embedded[i + 1].embeddings)));
        assert r.value[i + 1].embeddings == embedded[i + 1].embeddings;
      }
    }
  }

  /**
   * `prepare_for_recursive_semantic_chunking` of the recursive-semantic
   * pipeline: split the text; three sentences or fewer give one record
   * holding all of them joined by spaces; otherwise window (overlap 1),
   * embed and measure.
   */
  method PrepareText(sentenceIds: IdCounter, combinedIds: IdCounter, text: string,
                     embed: string -> seq<real>, distance: (seq<real>, seq<real>) -> real)
    returns (r: seq<CombinedSentence>)
    requires sentenceIds != combinedIds
    modifies sentenceIds, combinedIds
    ensures var pieces := Split(ReplaceNewlines(text));
            |pieces| <= 3 ==> r == [CombinedSentence(old(combinedIds.count) + 1, combinedSentence := SpaceJoin(pieces))]
    ensures var pieces := Split(ReplaceNewlines(text));
            |pieces| > 3 ==> Prepared(r, pieces, 1, embed, distance)
    ensures var pieces := Split(ReplaceNewlines(text));
            |pieces| > 3 ==> forall i :: 0 <= i < |r| ==> r[i].index == old(combinedIds.count) + i + 1
    ensures var pieces := Split(ReplaceNewlines(text));
            && sentenceIds.count == old(sentenceIds.count) + |pieces|
            && combinedIds.count == old(combinedIds.count) + (if |pieces| <= 3 then 1 else |pieces|)
  {
    var sentences := PreprocessData(sentenceIds, text);
    ghost var pieces := Split(ReplaceNewlines(text));
    assert Texts(sentences) == pieces;
    if |sentences| <= 3 {
      var c := NewCombined(combinedIds, "", SpaceJoin(Texts(sentences)), None);
      return [c];
    }
    var measured := WindowEmbedMeasure(combinedIds, sentences, 1, embed, distance);
    r := measured.value;
  }

  /**
   * `prepare_for_recursive_semantic_chunking` of the PDF pipeline: join the
   * page texts, split, window with the given overlap, embed and measure.
   * There is no short-circuit, so a document that gives a single sentence
   * fails when the distances are compared.
   */
  method PreparePdf(sentenceIds: IdCounter, combinedIds: IdCounter, pages: seq<string>, overlap: int,
                    embed: string -> seq<real>, distance: (seq<real>, seq<real>) -> real)
    returns (r: Result<seq<CombinedSentence>>)
    requires sentenceIds != combinedIds
    modifies sentenceIds, combinedIds
    ensures var pieces := Split(ReplaceNewlines(Concat(pages)));
            (r.Err? <==> |pieces| == 1) && (r.Err? ==> r.error == UnboundLocal)
    ensures r.Ok? ==> Prepared(r.value, Split(ReplaceNewlines(Concat(pages))), overlap, embed, distance)
    ensures r.Ok? ==> forall i :: 0 <= i < |r.value| ==> r.value[i].index == old(combinedIds.count) + i + 1
    ensures var pieces := Split(ReplaceNewlines(Concat(pages)));
            && sentenceIds.count == old(sentenceIds.count) + |pieces|
            && combinedIds.count == old(combinedIds.count) + |pieces|
  {
    var sentences := LoadPdfSentences(sentenceIds, pages);
    assert Texts(sentences) == Split(ReplaceNewlines(Concat(pages)));
    r := WindowEmbedMeasure(combinedIds, sentences, overlap, embed, distance);
  }
}
