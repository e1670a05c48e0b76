/**
 * `extract_chunks`: the sentences are cut into maximal runs of equal chunk
 * index, and every run becomes one string, its raw sentences each preceded
 * by a space and the whole stripped. The copy in `src/utils/chunk_utils.py`
 * always groups; the recursive-semantic copy first returns the window
 * texts unchanged when the first sentence has no chunk index (None or 0).
 */
module Extract {
  import opened Types
  import opened Text
  import opened Seqs

  /** The maximal runs of consecutive sentences that carry the same chunk index, in order. */
  function Runs(s: seq<CombinedSentence>): (r: seq<seq<CombinedSentence>>)
    ensures |r| > 0 <==> |s| > 0
    decreases |s|
  {
    if |s| == 0 then []
    else
      var n := |s| - 1;
      var rs := Runs(s[..n]);
      if n > 0 && s[n - 1].chunkIndex == s[n].chunkIndex then rs[..|rs| - 1] + [rs[|rs| - 1] + [s[n]]]
      else rs + [[s[n]]]
  }

  /** The runs laid end to end. */
  function Flatten(rs: seq<seq<CombinedSentence>>): seq<CombinedSentence>
  {
    if |rs| == 0 then [] else Flatten(rs[..|rs| - 1]) + rs[|rs| - 1]
  }

  /**
   * Every run is non-empty and carries one index throughout, and two
   * neighbouring runs carry different indices.
   */
  predicate MaximalRuns(rs: seq<seq<CombinedSentence>>)
  {
    (forall k :: 0 <= k < |rs| ==> |rs[k]| > 0)
    && (forall k, x :: 0 <= k < |rs| && 0 <= x < |rs[k]| ==> rs[k][x].chunkIndex == rs[k][0].chunkIndex)
    && (forall k :: 0 < k < |rs| ==> rs[k - 1][0].chunkIndex != rs[k][0].chunkIndex)
  }

  /** The raw sentence texts of a run. */
  function RunTexts(run: seq<CombinedSentence>): (r: seq<string>)
    ensures |r| == |run| && forall j :: 0 <= j < |run| ==> r[j] == run[j].sentence
  {
    seq(|run|, j requires 0 <= j < |run| => run[j].sentence)
  }

  /** The string one run becomes. */
  function ChunkText(run: seq<CombinedSentence>): string
  {
    Strip(SpaceBeforeEach(RunTexts(run)))
  }

  function ChunkTexts(rs: seq<seq<CombinedSentence>>): (r: seq<string>)
    ensures |r| == |rs| && forall k :: 0 <= k < |rs| ==> r[k] == ChunkText(rs[k])
  {
    seq(|rs|, k requires 0 <= k < |rs| => ChunkText(rs[k]))
  }

  lemma ChunkTextsSnoc(rs: seq<seq<CombinedSentence>>)
    requires |rs| > 0
    ensures ChunkTexts(rs) == ChunkTexts(rs[..|rs| - 1]) + [ChunkText(rs[|rs| - 1])]
  {
    var a, b := ChunkTexts(rs), ChunkTexts(rs[..|rs| - 1]) + [ChunkText(rs[|rs| - 1])];
    assert |a| == |b|;
    forall k | 0 <= k < |a|
      ensures a[k] == b[k]
    {
      if k < |rs| - 1 {
        assert b[k] == ChunkText(rs[..|rs| - 1][k]);
      }
    }
  }

  /** One more sentence either extends the last run or opens a new one. */
  lemma RunsStep(s: seq<CombinedSentence>, i: int)
    requires 0 < i < |s|
    ensures var rs := Runs(s[..i]);
            Runs(s[..i + 1]) == if s[i - 1].chunkIndex == s[i].chunkIndex then rs[..|rs| - 1] + [rs[|rs| - 1] + [s[i]]]
                                else rs + [[s[i]]]
  {
    assert s[..i + 1][..i] == s[..i];
  }

  /** Appending a sentence to a run appends its text, preceded by a space. */
  lemma RunTextStep(run: seq<CombinedSentence>, c: CombinedSentence)
    ensures SpaceBeforeEach(RunTexts(run + [c])) == SpaceBeforeEach(RunTexts(run)) + " " + c.sentence
  {
    assert RunTexts(run + [c])[..|run|] == RunTexts(run);
  }

  /**
   * The state of the grouping loop after `i` sentences: the finished runs
   * are in `extracted`, and `chunk` holds the open last run.
   */
  ghost predicate Grouped(s: seq<CombinedSentence>, i: int, extracted: seq<string>, chunk: string)
  {
    0 < i <= |s|
    && var rs := Runs(s[..i]);
    extracted == ChunkTexts(rs[..|rs| - 1]) && chunk == SpaceBeforeEach(RunTexts(rs[|rs| - 1]))
  }

  lemma GroupedStart(s: seq<CombinedSentence>)
    requires |s| > 0
    ensures Grouped(s, 1, [], "" + " " + s[0].sentence)
  {
    assert s[..1] == [s[0]];
    assert Runs(s[..1]) == [[s[0]]];
    assert SpaceBeforeEach(RunTexts([s[0]])) == " " + s[0].sentence;
  }

  /** A sentence with the same index as the one before it joins the open run. */
  lemma GroupedExtend(s: seq<CombinedSentence>, i: int, extracted: seq<string>, chunk: string)
    requires Grouped(s, i, extracted, chunk) && i < |s| && s[i - 1].chunkIndex == s[i].chunkIndex
    ensures Grouped(s, i + 1, extracted, chunk + " " + s[i].sentence)
  {
    var rs := Runs(s[..i]);
    RunsStep(s, i);
    RunTextStep(rs[|rs| - 1], s[i]);
    assert (rs[..|rs| - 1] + [rs[|rs| - 1] + [s[i]]])[..|rs| - 1] == rs[..|rs| - 1];
  }

  /** A sentence with another index closes the open run, which is never empty, and opens its own. */
  lemma GroupedCut(s: seq<CombinedSentence>, i: int, extracted: seq<string>, chunk: string)
    requires Grouped(s, i, extracted, chunk) && i < |s| && s[i - 1].chunkIndex != s[i].chunkIndex
    ensures |chunk| > 0
    ensures Grouped(s, i + 1, extracted + [Strip(chunk)], "" + " " + s[i].sentence)
  {
    var rs := Runs(s[..i]);
    RunsStep(s, i);
    LastRunEndsAtLast(s[..i]);
    ClosedRun(rs, extracted, chunk);
    OneRunText(s[i]);
    assert (rs + [[s[i]]])[..|rs|] == rs;
  }

  /** Closing the open run, which is not empty, adds its string. */
  lemma ClosedRun(rs: seq<seq<CombinedSentence>>, extracted: seq<string>, chunk: string)
    requires |rs| > 0 && |rs[|rs| - 1]| > 0
    requires extracted == ChunkTexts(rs[..|rs| - 1]) && chunk == SpaceBeforeEach(RunTexts(rs[|rs| - 1]))
    ensures |chunk| > 0 && extracted + [Strip(chunk)] == ChunkTexts(rs)
  {
    ChunkTextsSnoc(rs);
  }

  /** A run of one sentence is that sentence preceded by a space. */
  lemma OneRunText(c: CombinedSentence)
    ensures SpaceBeforeEach(RunTexts([c])) == " " + c.sentence
  {
    assert RunTexts([c]) == [c.sentence];
    assert RunTexts([c])[..0] == [];
  }

  /** After the last sentence, closing the open run gives one string per run. */
  lemma GroupedDone(s: seq<CombinedSentence>, extracted: seq<string>, chunk: string)
    requires Grouped(s, |s|, extracted, chunk)
    ensures |chunk| > 0 && extracted + [Strip(chunk)] == ChunkTexts(Runs(s))
  {
    var rs := Runs(s);
    assert s[..|s|] == s;
    LastRunEndsAtLast(s);
    assert |SpaceBeforeEach(RunTexts(rs[|rs| - 1]))| > 0;
    ChunkTextsSnoc(rs);
  }

  /**
   * `extract_chunks` of `src/utils/chunk_utils.py`: one stripped string per
   * maximal run; an empty list fails on `combined_sentences[0]`.
   */
  method ExtractChunksPlain(s: seq<CombinedSentence>) returns (r: Result<seq<string>>)
    ensures r.Err? <==> |s| == 0
    ensures r.Err? ==> r.error == IndexError
    ensures r.Ok? ==> r.value == ChunkTexts(Runs(s))
  {
    if |s| == 0 {
      return Err(IndexError);
    }
    var extracted: seq<string> := [];
    var chunk := "";
    var current := s[0].chunkIndex;
    var i := 0;
    while i < |s|
      invariant 0 <= i <= |s|
      invariant i == 0 ==> chunk == "" && extracted == [] && current == s[0].chunkIndex
      invariant i > 0 ==> current == s[i - 1].chunkIndex && Grouped(s, i, extracted, chunk)
    {
      if i == 0 {
        GroupedStart(s);
      } else if current == s[i].chunkIndex {
        GroupedExtend(s, i, extracted, chunk);
      } else {
        GroupedCut(s, i, extracted, chunk);
      }
      if current != s[i].chunkIndex {
        if |chunk| > 0 {
          extracted := extracted + [Strip(chunk)];
        }
        chunk := "";
      }
      chunk := chunk + " " + s[i].sentence;
      current := s[i].chunkIndex;
      i := i + 1;
    }
    GroupedDone(s, extracted, chunk);
    if |chunk| > 0 {
      extracted := extracted + [Strip(chunk)];
    }
    return Ok(extracted);
  }

  /**
   * `extract_chunks` of the recursive-semantic `utils.py`: when the first
   * sentence has no chunk index (None or 0) the window texts come back one
   * per sentence; otherwise as in `ExtractChunksPlain`.
   */
  method ExtractChunks(s: seq<CombinedSentence>) returns (r: Result<seq<string>>)
    ensures r.Err? <==> |s| == 0
    ensures r.Err? ==> r.error == IndexError
    ensures r.Ok? && (s[0].chunkIndex == None || s[0].chunkIndex == Some(0)) ==>
              r.value == seq(|s|, j requires 0 <= j < |s| => s[j].combinedSentence)
    ensures r.Ok? && s[0].chunkIndex != None && s[0].chunkIndex != Some(0) ==> r.value == ChunkTexts(Runs(s))
  {
    if |s| == 0 {
      return Err(IndexError);
    }
    if s[0].chunkIndex == None || s[0].chunkIndex == Some(0) {
      return Ok(seq(|s|, j requires 0 <= j < |s| => s[j].combinedSentence));
    }
    r := ExtractChunksPlain(s);
  }

  /** The runs, laid end to end, give back the sentence list. */
  lemma {:induction false} RunsCover(s: seq<CombinedSentence>)
    ensures Flatten(Runs(s)) == s
    decreases |s|
  {
    if |s| > 0 {
      var n := |s| - 1;
      var rs := Runs(s[..n]);
      RunsCover(s[..n]);
      if n > 0 && s[n - 1].chunkIndex == s[n].chunkIndex {
        FlattenExtend(rs, s[n]);
      } else {
        FlattenSnoc(rs, [s[n]]);
      }
      InitThenLast(s);
    }
  }

  /** Laying out one more run appends it. */
  lemma FlattenSnoc(rs: seq<seq<CombinedSentence>>, run: seq<CombinedSentence>)
    ensures Flatten(rs + [run]) == Flatten(rs) + run
  {
    InitOfSnoc(rs, run);
  }

  /** Growing the last run by one sentence appends that sentence. */
  lemma FlattenExtend(rs: seq<seq<CombinedSentence>>, c: CombinedSentence)
    requires |rs| > 0
    ensures Flatten(rs[..|rs| - 1] + [rs[|rs| - 1] + [c]]) == Flatten(rs) + [c]
  {
    var init, last := rs[..|rs| - 1], rs[|rs| - 1];
    FlattenSnoc(init, last + [c]);
    InitThenLast(rs);
    FlattenSnoc(init, last);
    AppendAssoc(Flatten(init), last, [c]);
  }

  /** The last run ends with the last sentence. */
  lemma LastRunEndsAtLast(s: seq<CombinedSentence>)
    requires |s| > 0
    ensures var rs := Runs(s); |rs[|rs| - 1]| > 0 && rs[|rs| - 1][|rs[|rs| - 1]| - 1] == s[|s| - 1]
  {
  }

  /** The runs are maximal: non-empty, of one index each, and different from their neighbours. */
  lemma {:induction false} RunsAreMaximal(s: seq<CombinedSentence>)
    ensures MaximalRuns(Runs(s))
    decreases |s|
  {
    if |s| > 1 {
      var n := |s| - 1;
      RunsAreMaximal(s[..n]);
      LastRunEndsAtLast(s[..n]);
      if s[n - 1].chunkIndex == s[n].chunkIndex {
        ExtendKeepsMaximal(Runs(s[..n]), s[n]);
      } else {
        OpenKeepsMaximal(Runs(s[..n]), s[n]);
      }
    }
  }

  lemma ExtendKeepsMaximal(rs: seq<seq<CombinedSentence>>, c: CombinedSentence)
    requires MaximalRuns(rs) && |rs| > 0 && rs[|rs| - 1][|rs[|rs| - 1]| - 1].chunkIndex == c.chunkIndex
    ensures MaximalRuns(rs[..|rs| - 1] + [rs[|rs| - 1] + [c]])
  {
    var last := rs[|rs| - 1];
    var rs' := rs[..|rs| - 1] + [last + [c]];
    assert forall k :: 0 <= k < |rs| - 1 ==> rs'[k] == rs[k];
    assert rs'[|rs| - 1] == last + [c];
  }

  lemma OpenKeepsMaximal(rs: seq<seq<CombinedSentence>>, c: CombinedSentence)
    requires MaximalRuns(rs) && |rs| > 0 && rs[|rs| - 1][|rs[|rs| - 1]| - 1].chunkIndex != c.chunkIndex
    ensures MaximalRuns(rs + [[c]])
  {
    var rs' := rs + [[c]];
    assert forall k :: 0 <= k < |rs| ==> rs'[k] == rs[k];
  }
}
