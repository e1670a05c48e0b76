/**
 * `ReduceChunkSize` (src/operations/chunk_operations/reduce_size.py): the
 * sentences are cut after every sentence whose distance to the next one
 * reaches a percentile of the distances, and every chunk whose text is
 * longer than `max_size` is cut again the same way, until none is.
 */
module Reduce {
  import opened Types
  import opened Percentile
  import opened Partition
  import opened Reindex
  import opened Seqs

  // ---------------------------------------------------------------------
  // `_sentences_above_threshold`
  // ---------------------------------------------------------------------

  /** The distance of sentence `j`, known to be measured. */
  function Dist(s: seq<CombinedSentence>, j: int): real
    requires AllMeasured(Distances(s)) && 0 <= j < |s|
  {
    Distances(s)[j].value
  }

  /**
   * The sentences with their marks under threshold `t`: a sentence is marked
   * when its distance reaches `t` and it is not the last one.
   */
  function Mark(s: seq<CombinedSentence>, t: real): (r: seq<CombinedSentence>)
    requires AllMeasured(Distances(s))
    ensures |r| == |s|
  {
    seq(|s|, j requires 0 <= j < |s| => s[j].(isAbovePercentile := Dist(s, j) >= t && j < |s| - 1))
  }

  /** Some sentence other than the last reaches `t`. */
  predicate AnyMarked(s: seq<CombinedSentence>, t: real)
    requires AllMeasured(Distances(s))
  {
    exists j :: 0 <= j < |s| - 1 && Dist(s, j) >= t
  }

  /** The threshold after `k` retries, each of which multiplies it by 0.99. */
  function Relaxed(t: real, k: nat): real
    decreases k
  {
    if k == 0 then t else Relaxed(t * 0.99, k - 1)
  }

  /**
   * Some retry marks a sentence: a sentence other than the last reaches `t`
   * already, or `t` is positive and shrinks towards a positive distance.
   */
  predicate Reachable(s: seq<CombinedSentence>, t: real)
    requires AllMeasured(Distances(s))
  {
    exists j :: 0 <= j < |s| - 1 && (Dist(s, j) >= t || (t > 0.0 && Dist(s, j) > 0.0))
  }

  /** The largest of a non-empty list of reals. */
  function MaxOf(xs: seq<real>): real
    requires |xs| > 0
  {
    if |xs| == 1 then xs[0]
    else
      var m := MaxOf(xs[..|xs| - 1]);
      if xs[|xs| - 1] > m then xs[|xs| - 1] else m
  }

  /** MaxOf is an element of the list and no element exceeds it. */
  lemma {:induction false} MaxOfIsMax(xs: seq<real>)
    requires |xs| > 0
    ensures forall j :: 0 <= j < |xs| ==> xs[j] <= MaxOf(xs)
    ensures exists j :: 0 <= j < |xs| && xs[j] == MaxOf(xs)
    decreases |xs|
  {
    if |xs| > 1 {
      var init, last := xs[..|xs| - 1], xs[|xs| - 1];
      MaxOfIsMax(init);
      var m := MaxOf(init);
      assert MaxOf(xs) == if last > m then last else m;
      var k :| 0 <= k < |init| && init[k] == m;
      if last > m {
        assert xs[|xs| - 1] == MaxOf(xs);
      } else {
        assert xs[k] == MaxOf(xs);
      }
      forall j | 0 <= j < |xs|
        ensures xs[j] <= MaxOf(xs)
      {
        if j < |xs| - 1 {
          assert init[j] == xs[j];
        }
      }
    } else {
      assert xs[0] == MaxOf(xs);
    }
  }

  /** The gap (t - m) / (m / 100) + 1 from `t` down to a positive `m` below it, and 0 otherwise. */
  ghost function Gap(t: real, m: real): (r: real)
    ensures r >= 0.0
  {
    if m > 0.0 && t > m then
      var q := 100.0 / m;
      assert (t - m) * q > 0.0;
      (t - m) * q + 1.0
    else 0.0
  }

  /** One retry, t becoming t * 0.99, shrinks the gap to a positive `m` below `t` by at least 1. */
  lemma GapShrinks(t: real, m: real)
    requires 0.0 < m < t
    ensures Gap(t * 0.99, m) <= Gap(t, m) - 1.0
  {
    var q := 100.0 / m;
    assert m * q == 100.0;
    var g := t - m;
    assert g * q > 0.0;
    var tq := t * q;
    assert tq == g * q + m * q;
    assert tq > 100.0;
    var t' := t * 0.99;
    assert (t' - m) * q == t' * q - m * q;
    assert t' * q == 0.99 * tq;
    assert (t' - m) * q == g * q - 0.01 * tq;
    assert Gap(t, m) == g * q + 1.0;
    if t' > m {
      assert Gap(t', m) == (t' - m) * q + 1.0;
    }
  }

  /**
   * The number of retries, each multiplying `t` by 0.99, that bring `t` down
   * to a positive `m`; it is finite because every retry takes at least 1 off
   * the gap.
   */
  ghost function RoundsLeft(t: real, m: real): nat
    requires m > 0.0
    decreases Gap(t, m)
  {
    if t <= m then 0
    else
      GapShrinks(t, m);
      1 + RoundsLeft(t * 0.99, m)
  }

  /**
   * The retries left for `s`: those that bring the threshold down to the
   * largest positive distance other than the last (none when there is
   * nothing to compare).
   */
  ghost function Slack(ds: seq<Option<real>>, threshold: Option<real>): nat
  {
    if threshold.None? || !AllMeasured(ds) || |ds| < 2 then 0
    else
      var m := MaxOf(Values(ds)[..|ds| - 1]);
      if m > 0.0 then RoundsLeft(threshold.value, m) else 0
  }

  /** A retry with nothing marked keeps the threshold reachable and uses up one retry. */
  lemma RetryShrinksSlack(s: seq<CombinedSentence>, s': seq<CombinedSentence>, t: real)
    requires AllMeasured(Distances(s)) && Reachable(s, t) && !AnyMarked(s, t)
    requires Distances(s') == Distances(s)
    ensures AllMeasured(Distances(s')) && Reachable(s', t * 0.99)
    ensures Slack(Distances(s'), Some(t * 0.99)) < Slack(Distances(s), Some(t))
  {
    var j :| 0 <= j < |s| - 1 && (Dist(s, j) >= t || (t > 0.0 && Dist(s, j) > 0.0));
    assert t > 0.0 && Dist(s, j) > 0.0;
    RetryReachable(s, s', t, j);
    var ds := Distances(s);
    assert forall i :: 0 <= i < |ds| - 1 ==> ds[i].value < t by {
      forall i | 0 <= i < |ds| - 1
        ensures ds[i].value < t
      {
        assert Dist(s, i) == ds[i].value;
      }
    }
    SlackStep(ds, t, j);
  }

  /** The sentence that a positive threshold shrinks towards stays in reach after a retry. */
  lemma RetryReachable(s: seq<CombinedSentence>, s': seq<CombinedSentence>, t: real, j: int)
    requires AllMeasured(Distances(s)) && Distances(s') == Distances(s)
    requires 0 <= j < |s| - 1 && t > 0.0 && Dist(s, j) > 0.0
    ensures AllMeasured(Distances(s')) && Reachable(s', t * 0.99)
  {
    assert |s'| == |Distances(s')| == |s|;
    assert Dist(s', j) == Dist(s, j);
  }

  /**
   * Below a positive threshold every distance but the last stays under it,
   * and one of them is positive: a retry uses up one round.
   */
  lemma SlackStep(ds: seq<Option<real>>, t: real, j: int)
    requires AllMeasured(ds) && 0 <= j < |ds| - 1 && ds[j].value > 0.0
    requires forall i :: 0 <= i < |ds| - 1 ==> ds[i].value < t
    ensures Slack(ds, Some(t * 0.99)) < Slack(ds, Some(t))
  {
    var xs := Values(ds)[..|ds| - 1];
    assert xs[j] == ds[j].value;
    var m := MaxOf(xs);
    MaxOfIsMax(xs);
    var k :| 0 <= k < |xs| && xs[k] == m;
    assert xs[k] == ds[k].value;
    assert RoundsLeft(t, m) == 1 + RoundsLeft(t * 0.99, m);
  }

  /** The relaxation never marks anything when the threshold is not reachable. */
  lemma {:induction false} NeverMarked(s: seq<CombinedSentence>, t: real, k: nat)
    requires AllMeasured(Distances(s)) && !Reachable(s, t)
    ensures !AnyMarked(s, Relaxed(t, k))
    decreases k
  {
    if k > 0 {
      forall j | 0 <= j < |s| - 1
        ensures !(Dist(s, j) >= t * 0.99 || (t * 0.99 > 0.0 && Dist(s, j) > 0.0))
      {
        assert !(Dist(s, j) >= t || (t > 0.0 && Dist(s, j) > 0.0));
      }
      NeverMarked(s, t * 0.99, k - 1);
    }
  }

  /** A one-sentence list is never marked, whatever the threshold, so its relaxation never ends. */
  lemma OneSentenceNeverMarked(s: seq<CombinedSentence>, t: real, k: nat)
    requires AllMeasured(Distances(s)) && |s| <= 1
    ensures !AnyMarked(s, Relaxed(t, k))
  {
    NeverMarked(s, t, k);
  }

  /** Whether anything is marked depends on the distances alone. */
  lemma SameDistancesSameMarks(s: seq<CombinedSentence>, s': seq<CombinedSentence>, t: real)
    requires AllMeasured(Distances(s)) && Distances(s) == Distances(s')
    ensures AnyMarked(s, t) <==> AnyMarked(s', t)
  {
    assert |s| == |Distances(s)| == |s'|;
    assert forall j :: 0 <= j < |s| ==> Dist(s, j) == Dist(s', j);
  }

  /** Marking again only replaces the marks. */
  lemma MarkAgain(s: seq<CombinedSentence>, t: real, t': real)
    requires AllMeasured(Distances(s))
    ensures Distances(Mark(s, t)) == Distances(s)
    ensures Mark(Mark(s, t), t') == Mark(s, t')
  {
    assert Distances(Mark(s, t)) == Distances(s);
  }

  /**
   * The marking loop of `_sentences_above_threshold`: every sentence gets its
   * mark under `t`, and `checkList` collects the marks.
   */
  method MarkAll(s: seq<CombinedSentence>, t: real) returns (marked: seq<CombinedSentence>, checkList: seq<bool>)
    requires AllMeasured(Distances(s))
    ensures marked == Mark(s, t) && Distances(marked) == Distances(s)
    ensures true in checkList <==> AnyMarked(s, t)
  {
    marked := [];
    checkList := [];
    var i := 0;
    while i < |s|
      invariant 0 <= i <= |s|
      invariant marked == Mark(s, t)[..i]
      invariant |checkList| == i && forall j :: 0 <= j < i ==> checkList[j] == marked[j].isAbovePercentile
    {
      var d := s[i].cosineDistance.value;
      marked := marked + [s[i].(isAbovePercentile := d >= t && i < |s| - 1)];
      checkList := checkList + [marked[i].isAbovePercentile];
      i := i + 1;
    }
    assert marked == Mark(s, t);
    MarkAgain(s, t, t);
    if AnyMarked(s, t) {
      var j :| 0 <= j < |s| - 1 && Dist(s, j) >= t;
      assert checkList[j];
    }
  }

  /**
   * The outcome of the relaxation from `t`: after `rounds` fruitless retries
   * the threshold Relaxed(t, rounds) marks some sentence, and `v` holds the
   * sentences with their marks under it.
   */
  ghost predicate MarkedAfter(s: seq<CombinedSentence>, t: real, rounds: nat, v: seq<CombinedSentence>)
  {
    && AllMeasured(Distances(s))
    && v == Mark(s, Relaxed(t, rounds))
    && AnyMarked(s, Relaxed(t, rounds))
    && forall k :: 0 <= k < rounds ==> !AnyMarked(s, Relaxed(t, k))
  }

  /** A first round that marks something needs no retry. */
  lemma FirstRound(s: seq<CombinedSentence>, t: real, marked: seq<CombinedSentence>)
    requires AllMeasured(Distances(s)) && marked == Mark(s, t) && AnyMarked(s, t)
    ensures MarkedAfter(s, t, 0, marked)
  {
  }

  /**
   * What the retry from t * 0.99 on the marked list finds, counted from `t`
   * on the original list: one more round, the same marks.
   */
  lemma RetryOutcome(s: seq<CombinedSentence>, marked: seq<CombinedSentence>, t: real, t': real, more: nat,
                     v: seq<CombinedSentence>)
    requires AllMeasured(Distances(s)) && !AnyMarked(s, t)
    requires marked == Mark(s, t) && Distances(marked) == Distances(s)
    requires t' == t * 0.99 && MarkedAfter(marked, t', more, v)
    ensures MarkedAfter(s, t, more + 1, v)
  {
    MarkAgain(s, t, Relaxed(t * 0.99, more));
    SameDistancesSameMarks(marked, s, Relaxed(t * 0.99, more));
    forall k | 0 <= k < more + 1
      ensures !AnyMarked(s, Relaxed(t, k))
    {
      if k > 0 {
        var x := Relaxed(t * 0.99, k - 1);
        assert Relaxed(t, k) == x;
        assert !AnyMarked(marked, x);
        SameDistancesSameMarks(marked, s, x);
      }
    }
  }

  /**
   * `_sentences_above_threshold`: the marks under the threshold, retried with
   * the threshold times 0.99 until some sentence is marked. The threshold
   * and every distance must be numbers (a None raises TypeError). When none
   * ever gets marked the source recurses without end, so the retry
   * must be able to succeed.
   */
  method SentencesAboveThreshold(s: seq<CombinedSentence>, threshold: Option<real>)
    returns (r: Result<seq<CombinedSentence>>, ghost rounds: nat)
    requires threshold.Some? && AllMeasured(Distances(s)) ==> Reachable(s, threshold.value)
    ensures r.Err? <==> threshold.None? || !AllMeasured(Distances(s))
    ensures r.Err? ==> r.error == TypeError
    ensures r.Ok? ==> MarkedAfter(s, threshold.value, rounds, r.value)
    decreases Slack(Distances(s), threshold), 1
  {
    if threshold.None? || !AllMeasured(Distances(s)) {
      return Err(TypeError), 0;
    }
    var t := threshold.value;
    var marked, checkList := MarkAll(s, t);
    if true !in checkList {
      r, rounds := Retry(s, t, marked);
      return;
    }
    FirstRound(s, t, marked);
    return Ok(marked), 0;
  }

  /**
   * The recursive call of `_sentences_above_threshold` when nothing is
   * marked under `t`: the marked list again, with the threshold times 0.99.
   */
  method Retry(s: seq<CombinedSentence>, t: real, marked: seq<CombinedSentence>)
    returns (r: Result<seq<CombinedSentence>>, ghost rounds: nat)
    requires AllMeasured(Distances(s)) && Reachable(s, t) && !AnyMarked(s, t)
    requires marked == Mark(s, t) && Distances(marked) == Distances(s)
    ensures r.Ok? && MarkedAfter(s, t, rounds, r.value)
    decreases Slack(Distances(s), Some(t)), 0
  {
    var next := Some(t * 0.99);
    RetryReady(s, marked, t, next);
    ghost var more;
    r, more := SentencesAboveThreshold(marked, next);
    RetryResult(s, marked, t, next, r, more);
    rounds := more + 1;
  }

  /** The retry may start: its threshold is reachable and one round fewer is left. */
  lemma RetryReady(s: seq<CombinedSentence>, marked: seq<CombinedSentence>, t: real, next: Option<real>)
    requires AllMeasured(Distances(s)) && Reachable(s, t) && !AnyMarked(s, t)
    requires Distances(marked) == Distances(s) && next == Some(t * 0.99)
    ensures next.Some? && AllMeasured(Distances(marked)) && Reachable(marked, next.value)
    ensures Slack(Distances(marked), next) < Slack(Distances(s), Some(t))
  {
    RetryShrinksSlack(s, marked, t);
  }

  /** The retry's result, read back as a result for the list before the retry. */
  lemma RetryResult(s: seq<CombinedSentence>, marked: seq<CombinedSentence>, t: real, next: Option<real>,
                    r: Result<seq<CombinedSentence>>, more: nat)
    requires AllMeasured(Distances(s)) && !AnyMarked(s, t)
    requires marked == Mark(s, t) && Distances(marked) == Distances(s) && AllMeasured(Distances(marked))
    requires next == Some(t * 0.99)
    requires r.Err? <==> next.None? || !AllMeasured(Distances(marked))
    requires r.Ok? ==> MarkedAfter(marked, next.value, more, r.value)
    ensures r.Ok? && MarkedAfter(s, t, more + 1, r.value)
  {
    RetryOutcome(s, marked, t, next.value, more, r.value);
  }

  // ---------------------------------------------------------------------
  // `_assign_chunks`
  // ---------------------------------------------------------------------

  /** `_assign_chunks` counts from `chunk_index`, or from 0 when it is None or 0. */
  function StartIndex(chunkIndex: Option<int>): int
  {
    if chunkIndex.None? || chunkIndex == Some(0) then 0 else chunkIndex.value
  }

  /** The sentence with chunk index `ci`. */
  function Indexed(x: CombinedSentence, ci: int): CombinedSentence
  {
    x.(chunkIndex := Some(ci))
  }

  /** Sentence `j` closes a chunk: it is marked, or it is the last sentence. */
  predicate Closes(s: seq<CombinedSentence>, j: int)
    requires 0 <= j < |s|
  {
    s[j].isAbovePercentile || j == |s| - 1
  }

  /** The number of chunks closed before sentence `j`. */
  function Closed(s: seq<CombinedSentence>, j: int): nat
    requires 0 <= j <= |s|
    decreases j
  {
    if j == 0 then 0 else Closed(s, j - 1) + (if Closes(s, j - 1) then 1 else 0)
  }

  /** A chunk as `_assign_chunks` creates it: the given index, too big exactly when over `maxSize`. */
  predicate Fresh(c: Chunk, index: int, maxSize: int)
  {
    c == Chunk(index, c.size, None, Some(c.size > maxSize), None)
  }

  /** `out` is `s`'s prefix with the chunk indices `idx`. */
  ghost predicate Labelled(s: seq<CombinedSentence>, idx: seq<int>, out: seq<CombinedSentence>)
  {
    |out| == |idx| <= |s| && forall j {:trigger out[j]} :: 0 <= j < |out| ==> out[j] == Indexed(s[j], idx[j])
  }

  /** `idx` holds the indices `_assign_chunks` gives the first `|idx|` sentences. */
  ghost predicate Counted(s: seq<CombinedSentence>, start: int, idx: seq<int>)
  {
    |idx| <= |s| && forall j {:trigger idx[j]} :: 0 <= j < |idx| ==> idx[j] == start + Closed(s, j)
  }

  /**
   * `out` is `s` with every sentence given its running chunk index: `start`
   * plus the number of chunks closed before it.
   */
  ghost predicate Relabelled(s: seq<CombinedSentence>, start: int, out: seq<CombinedSentence>)
  {
    |out| == |s| && forall j {:trigger out[j]} :: 0 <= j < |out| ==> out[j] == Indexed(s[j], start + Closed(s, j))
  }

  /** Every sentence from `lo` on carries index `ci`. */
  predicate OpenFrom(out: seq<CombinedSentence>, lo: int, ci: int)
    requires 0 <= lo
  {
    forall j :: lo <= j < |out| ==> out[j].chunkIndex == Some(ci)
  }

  /** Chunk `k` is fresh with index `start + k`. */
  predicate AllFresh(chunks: seq<Chunk>, start: int, maxSize: int)
  {
    forall k :: 0 <= k < |chunks| ==> Fresh(chunks[k], start + k, maxSize)
  }

  /**
   * The state of the `_assign_chunks` loop after `i` sentences: they carry
   * their indices, the closed chunks partition the sentences up to `b`'s last
   * bound, and the open chunk holds the rest with `size` as its length.
   */
  ghost predicate AssignedUpTo(s: seq<CombinedSentence>, start: int, maxSize: int, i: int, idx: seq<int>,
                               out: seq<CombinedSentence>, chunks: seq<Chunk>, b: seq<int>, size: int)
  {
    && 0 <= i <= |s| && |out| == i && Labelled(s, idx, out) && Counted(s, start, idx)
    && |chunks| == Closed(s, i) && |b| == |chunks| + 1 && 0 <= b[|chunks|] <= i
    && PartitionedBy(out[..b[|chunks|]], chunks, b)
    && AllFresh(chunks, start, maxSize)
    && OpenFrom(out, b[|chunks|], start + |chunks|)
    && size == SumLen(out[b[|chunks|]..])
    && (i == |s| ==> b[|chunks|] == |s|)
  }

  lemma AssignStart(s: seq<CombinedSentence>, start: int, maxSize: int)
    ensures AssignedUpTo(s, start, maxSize, 0, [], [], [], [0], 0)
  {
    var e: seq<CombinedSentence> := [];
    assert e[..0] == e;
  }

  lemma LabelledSnoc(s: seq<CombinedSentence>, idx: seq<int>, out: seq<CombinedSentence>, ci: int)
    requires Labelled(s, idx, out) && |out| < |s|
    ensures Labelled(s, idx + [ci], out + [Indexed(s[|out|], ci)])
  {
  }

  lemma CountedSnoc(s: seq<CombinedSentence>, start: int, idx: seq<int>, ci: int)
    requires Counted(s, start, idx) && |idx| < |s| && ci == start + Closed(s, |idx|)
    ensures Counted(s, start, idx + [ci])
  {
  }

  lemma OpenSnoc(out: seq<CombinedSentence>, lo: int, ci: int, x: CombinedSentence)
    requires 0 <= lo && OpenFrom(out, lo, ci) && x.chunkIndex == Some(ci)
    ensures OpenFrom(out + [x], lo, ci)
  {
  }

  /** Appending `x` leaves the slices before `lo` alone and adds `x`'s length after it. */
  lemma SnocSlices(out: seq<CombinedSentence>, lo: int, x: CombinedSentence)
    requires 0 <= lo <= |out|
    ensures (out + [x])[..lo] == out[..lo]
    ensures (out + [x])[lo..] == out[lo..] + [x]
    ensures SumLen((out + [x])[lo..]) == SumLen(out[lo..]) + |x.sentence|
  {
    assert (out[lo..] + [x])[..|out| - lo] == out[lo..];
  }

  lemma FreshSnoc(chunks: seq<Chunk>, start: int, maxSize: int, c: Chunk)
    requires AllFresh(chunks, start, maxSize) && Fresh(c, start + |chunks|, maxSize)
    ensures AllFresh(chunks + [c], start, maxSize)
  {
  }

  /** Closing the open block that starts at `lo` with `x` extends the partition by chunk `c`. */
  lemma CloseBlock(out: seq<CombinedSentence>, lo: int, x: CombinedSentence, chunks: seq<Chunk>, b: seq<int>, c: Chunk)
    requires 0 <= lo <= |out| && PartitionedBy(out[..lo], chunks, b) && OpenFrom(out, lo, c.chunkIndex)
    requires x.chunkIndex == Some(c.chunkIndex) && c.size == SumLen(out[lo..]) + |x.sentence|
    ensures PartitionedBy(out + [x], chunks + [c], b + [|out| + 1])
  {
    var out' := out + [x];
    SnocSlices(out, lo, x);
    assert OneBlock(out'[lo..], c);
    PartitionExtend(out'[..lo], chunks, b, out'[lo..], c);
    assert out'[..lo] + out'[lo..] == out';
  }

  /** A sentence that does not close a chunk joins the open one. */
  lemma AssignKeep(s: seq<CombinedSentence>, start: int, maxSize: int, i: int, idx: seq<int>, ci: int,
                   out: seq<CombinedSentence>, chunks: seq<Chunk>, b: seq<int>, size: int, size': int)
    requires AssignedUpTo(s, start, maxSize, i, idx, out, chunks, b, size) && i < |s| && !Closes(s, i)
    requires ci == start + |chunks| && size' == size + |s[i].sentence|
    ensures AssignedUpTo(s, start, maxSize, i + 1, idx + [ci], out + [Indexed(s[i], ci)], chunks, b, size')
  {
    var lo := b[|chunks|];
    var x := Indexed(s[i], ci);
    var out' := out + [x];
    assert Labelled(s, idx + [ci], out') by { LabelledSnoc(s, idx, out, ci); }
    assert Counted(s, start, idx + [ci]) by { CountedSnoc(s, start, idx, ci); }
    assert OpenFrom(out', lo, ci) by { OpenSnoc(out, lo, ci, x); }
    assert PartitionedBy(out'[..lo], chunks, b) && size' == SumLen(out'[lo..]) by {
      SnocSlices(out, lo, x);
    }
  }

  /** A marked or last sentence joins the open chunk and closes it. */
  lemma AssignClose(s: seq<CombinedSentence>, start: int, maxSize: int, i: int, idx: seq<int>, ci: int,
                    out: seq<CombinedSentence>, chunks: seq<Chunk>, b: seq<int>, size: int, size': int)
    requires AssignedUpTo(s, start, maxSize, i, idx, out, chunks, b, size) && i < |s| && Closes(s, i)
    requires ci == start + |chunks| && size' == size + |s[i].sentence|
    ensures AssignedUpTo(s, start, maxSize, i + 1, idx + [ci], out + [Indexed(s[i], ci)],
                         chunks + [Chunk(ci, size', None, Some(size' > maxSize), None)], b + [i + 1], 0)
  {
    var lo := b[|chunks|];
    var x := Indexed(s[i], ci);
    var out' := out + [x];
    var c := Chunk(ci, size', None, Some(size' > maxSize), None);
    assert Labelled(s, idx + [ci], out') by { LabelledSnoc(s, idx, out, ci); }
    assert Counted(s, start, idx + [ci]) by { CountedSnoc(s, start, idx, ci); }
    assert AllFresh(chunks + [c], start, maxSize) by { FreshSnoc(chunks, start, maxSize, c); }
    assert PartitionedBy(out'[..i + 1], chunks + [c], b + [i + 1]) by {
      CloseBlock(out, lo, x, chunks, b, c);
      assert out'[..i + 1] == out';
    }
    assert out'[i + 1..] == [];
  }

  /** The labels are the counted indices. */
  lemma LabelledCounted(s: seq<CombinedSentence>, start: int, idx: seq<int>, out: seq<CombinedSentence>)
    requires Labelled(s, idx, out) && Counted(s, start, idx) && |out| == |s|
    ensures Relabelled(s, start, out)
  {
    forall j | 0 <= j < |out|
      ensures out[j] == Indexed(s[j], start + Closed(s, j))
    {
      assert out[j] == Indexed(s[j], idx[j]);
      assert idx[j] == start + Closed(s, j);
    }
  }

  /** At the end of the loop every chunk is closed. */
  lemma AssignDone(s: seq<CombinedSentence>, start: int, maxSize: int, idx: seq<int>,
                   out: seq<CombinedSentence>, chunks: seq<Chunk>, b: seq<int>, size: int)
    requires AssignedUpTo(s, start, maxSize, |s|, idx, out, chunks, b, size)
    ensures PartitionedBy(out, chunks, b)
  {
    assert out[..|s|] == out;
  }

  /**
   * `_assign_chunks`: every sentence gets the running chunk index, which
   * starts at `chunk_index` (0 when falsy) and steps by one after each
   * marked sentence; one chunk per run, sized by its raw sentence texts and
   * flagged too big exactly when over `max_size`.
   */
  method AssignChunks(s: seq<CombinedSentence>, maxSize: int, chunkIndex: Option<int>)
    returns (out: seq<CombinedSentence>, chunks: seq<Chunk>, ghost b: seq<int>)
    ensures Relabelled(s, StartIndex(chunkIndex), out)
    ensures |chunks| == Closed(s, |s|)
    ensures PartitionedBy(out, chunks, b)
    ensures AllFresh(chunks, StartIndex(chunkIndex), maxSize)
  {
    var chunkSize := 0;
    chunks := [];
    out := [];
    b := [0];
    var ci := StartIndex(chunkIndex);
    ghost var start := ci;
    ghost var idx := [];
    AssignStart(s, start, maxSize);
    var i := 0;
    while i < |s|
      invariant AssignedUpTo(s, start, maxSize, i, idx, out, chunks, b, chunkSize)
      invariant ci == start + |chunks|
    {
      var size := chunkSize + |s[i].sentence|;
      if s[i].isAbovePercentile || i == |s| - 1 {
        AssignClose(s, start, maxSize, i, idx, ci, out, chunks, b, chunkSize, size);
        idx := idx + [ci];
        out := out + [Indexed(s[i], ci)];
        chunks := chunks + [Chunk(ci, size, None, Some(size > maxSize), None)];
        b := b + [i + 1];
        chunkSize := 0;
        ci := ci + 1;
      } else {
        AssignKeep(s, start, maxSize, i, idx, ci, out, chunks, b, chunkSize, size);
        idx := idx + [ci];
        out := out + [Indexed(s[i], ci)];
        chunkSize := size;
      }
      i := i + 1;
    }
    AssignDone(s, start, maxSize, idx, out, chunks, b, chunkSize);
    LabelledCounted(s, start, idx, out);
  }

  /** The number of marked sentences. */
  function MarkedCount(s: seq<CombinedSentence>): nat
  {
    if |s| == 0 then 0 else MarkedCount(s[..|s| - 1]) + (if s[|s| - 1].isAbovePercentile then 1 else 0)
  }

  lemma {:induction false} ClosedIsMarked(s: seq<CombinedSentence>, j: int)
    requires 0 <= j < |s|
    ensures Closed(s, j) == MarkedCount(s[..j])
    decreases j
  {
    if j > 0 {
      ClosedIsMarked(s, j - 1);
      assert s[..j][..j - 1] == s[..j - 1];
    }
  }

  /** `_assign_chunks` makes one chunk per marked sentence before the last, plus the final one. */
  lemma ChunkCount(s: seq<CombinedSentence>)
    requires |s| > 0
    ensures Closed(s, |s|) == MarkedCount(s[..|s| - 1]) + 1
  {
    ClosedIsMarked(s, |s| - 1);
  }

  lemma {:induction false} ClosedMonotone(s: seq<CombinedSentence>, j: int, l: int)
    requires 0 <= j <= l <= |s|
    ensures Closed(s, j) <= Closed(s, l)
    decreases l - j
  {
    if j < l {
      ClosedMonotone(s, j, l - 1);
    }
  }

  /** A marked sentence before the last one splits the list into at least two chunks. */
  lemma ClosedAtLeastTwo(s: seq<CombinedSentence>, j: int)
    requires 0 <= j < |s| - 1 && s[j].isAbovePercentile
    ensures Closed(s, |s|) >= 2
  {
    ClosedMonotone(s, j + 1, |s| - 1);
  }

  // ---------------------------------------------------------------------
  // `reduce_size`
  // ---------------------------------------------------------------------

  /** The positions before `n` of the sentences that carry chunk index `ci`, in order. */
  function Members(s: seq<CombinedSentence>, ci: int, n: int): (r: seq<int>)
    requires 0 <= n <= |s|
    decreases n
  {
    if n == 0 then []
    else Members(s, ci, n - 1) + (if s[n - 1].chunkIndex == Some(ci) then [n - 1] else [])
  }

  /** Exactly the positions of the sentences with index `ci`, strictly increasing. */
  lemma {:induction false} MembersExactly(s: seq<CombinedSentence>, ci: int, n: int)
    requires 0 <= n <= |s|
    ensures forall x :: 0 <= x < |Members(s, ci, n)| ==> 0 <= Members(s, ci, n)[x] < n
    ensures forall x, y :: 0 <= x < y < |Members(s, ci, n)| ==> Members(s, ci, n)[x] < Members(s, ci, n)[y]
    ensures forall j :: 0 <= j < n ==> (s[j].chunkIndex == Some(ci) <==> j in Members(s, ci, n))
    decreases n
  {
    if n > 0 {
      MembersExactly(s, ci, n - 1);
    }
  }

  /** `min(max(n, lo), hi)`. */
  function Clamp(n: int, lo: int, hi: int): int
  {
    if n < lo then lo else if n > hi then hi else n
  }

  /** In a partition with distinct indices, the members of chunk `k`'s index are block `k`. */
  lemma {:induction false} MembersOfBlock(s: seq<CombinedSentence>, ord: seq<Chunk>, b: seq<int>, k: int, n: int)
    requires PartitionedBy(s, ord, b) && DistinctIndices(ord) && 0 <= k < |ord| && 0 <= n <= |s|
    ensures b[k] <= Clamp(n, b[k], b[k + 1]) <= b[k + 1]
    ensures Members(s, ord[k].chunkIndex, n) == Range(b[k], Clamp(n, b[k], b[k + 1]))
    decreases n
  {
    assert b[k] < b[k + 1];
    if n > 0 {
      MembersOfBlock(s, ord, b, k, n - 1);
      BlockIsIndexClass(s, ord, b, k, n - 1);
      if b[k] <= n - 1 < b[k + 1] {
        RangeSnoc(b[k], n);
      }
    }
  }

  /** The sentences before `n` that carry chunk index `ci`, in order. */
  function Gathered(s: seq<CombinedSentence>, ci: int, n: int): seq<CombinedSentence>
    requires 0 <= n <= |s|
    decreases n
  {
    if n == 0 then []
    else Gathered(s, ci, n - 1) + (if s[n - 1].chunkIndex == Some(ci) then [s[n - 1]] else [])
  }

  /**
   * The filter loop of `reduce_size`: the sentences that carry index `ci`,
   * with their positions.
   */
  method CollectChunk(s: seq<CombinedSentence>, ci: int) returns (sub: seq<CombinedSentence>, idx: seq<int>)
    ensures sub == Gathered(s, ci, |s|) && idx == Members(s, ci, |s|)
    ensures |sub| == |idx| && forall x {:trigger idx[x]} :: 0 <= x < |idx| ==> 0 <= idx[x] < |s| && sub[x] == s[idx[x]]
  {
    sub := [];
    idx := [];
    var j := 0;
    MembersExactly(s, ci, 0);
    while j < |s|
      invariant 0 <= j <= |s| && sub == Gathered(s, ci, j) && idx == Members(s, ci, j)
      invariant |sub| == |idx| && forall x :: 0 <= x < |idx| ==> 0 <= idx[x] < j && sub[x] == s[idx[x]]
    {
      MembersExactly(s, ci, j);
      if s[j].chunkIndex == Some(ci) {
        sub := sub + [s[j]];
        idx := idx + [j];
      }
      j := j + 1;
    }
  }

  /**
   * The write-back loop of `reduce_size`: popping position `idx[x]` and
   * inserting `sub[x]` there replaces that one sentence.
   */
  method WriteBack(s: seq<CombinedSentence>, idx: seq<int>, sub: seq<CombinedSentence>) returns (r: seq<CombinedSentence>)
    requires |idx| == |sub| && forall x :: 0 <= x < |idx| ==> 0 <= idx[x] < |s|
    requires forall x, y :: 0 <= x < y < |idx| ==> idx[x] < idx[y]
    ensures |r| == |s|
    ensures forall x :: 0 <= x < |idx| ==> r[idx[x]] == sub[x]
    ensures forall j :: 0 <= j < |s| && j !in idx ==> r[j] == s[j]
  {
    r := s;
    var x := 0;
    while x < |idx|
      invariant 0 <= x <= |idx| && |r| == |s|
      invariant forall y :: 0 <= y < x ==> r[idx[y]] == sub[y]
      invariant forall j :: 0 <= j < |s| && j !in idx[..x] ==> r[j] == s[j]
    {
      r := r[idx[x] := sub[x]];
      x := x + 1;
    }
    assert idx[..|idx|] == idx;
  }

  /** `np.max` of the chunk indices. */
  function MaxIndex(chunks: seq<Chunk>): (m: int)
    requires |chunks| > 0
    ensures forall k :: 0 <= k < |chunks| ==> chunks[k].chunkIndex <= m
    ensures exists k :: 0 <= k < |chunks| && chunks[k].chunkIndex == m
  {
    if |chunks| == 1 then chunks[0].chunkIndex
    else
      var m := MaxIndex(chunks[1..]);
      assert forall k :: 1 <= k < |chunks| ==> chunks[k] == chunks[1..][k - 1];
      if chunks[0].chunkIndex > m then chunks[0].chunkIndex else m
  }

  /** The same sentence record, whatever its chunk index and mark. */
  predicate SameRecord(x: CombinedSentence, y: CombinedSentence)
  {
    x.index == y.index && x.sentence == y.sentence && x.combinedSentence == y.combinedSentence
    && x.embeddings == y.embeddings && x.cosineDistance == y.cosineDistance
  }

  /** The same sentences in the same order; only chunk indices and marks may differ. */
  predicate Resembles(a: seq<CombinedSentence>, c: seq<CombinedSentence>)
  {
    |a| == |c| && forall j :: 0 <= j < |a| ==> SameRecord(a[j], c[j])
  }

  lemma ResemblesDistances(a: seq<CombinedSentence>, c: seq<CombinedSentence>)
    requires Resembles(a, c)
    ensures Distances(a) == Distances(c)
  {
  }

  lemma ResemblesTrans(a: seq<CombinedSentence>, c: seq<CombinedSentence>, e: seq<CombinedSentence>)
    requires Resembles(a, c) && Resembles(c, e)
    ensures Resembles(a, e)
  {
  }

  lemma MarkResembles(s: seq<CombinedSentence>, t: real)
    requires AllMeasured(Distances(s))
    ensures Resembles(s, Mark(s, t))
  {
  }

  lemma RenumberedResembles(s: seq<CombinedSentence>)
    ensures Resembles(s, Renumbered(s))
  {
  }

  /** Putting a resembling block back in place of block `lo`..`hi` keeps the resemblance. */
  lemma SpliceResembles(s: seq<CombinedSentence>, lo: int, hi: int, u: seq<CombinedSentence>)
    requires 0 <= lo <= hi <= |s| && Resembles(s[lo..hi], u)
    ensures Resembles(s, s[..lo] + u + s[hi..])
  {
    var r := s[..lo] + u + s[hi..];
    forall j | 0 <= j < |s|
      ensures SameRecord(s[j], r[j])
    {
      if lo <= j < hi {
        assert r[j] == u[j - lo] && s[lo..hi][j - lo] == s[j];
      }
    }
  }

  /**
   * The state of the `reduce_size` loop: the sentences are those of `s0`
   * re-indexed and re-marked, the chunk list is a permutation of a
   * partition `ord` with distinct indices, every chunk's flag says whether
   * it is over `maxSize`, and the chunks before `i` are not.
   */
  ghost predicate Splitting(s0: seq<CombinedSentence>, maxSize: int, s: seq<CombinedSentence>, chunks: seq<Chunk>,
                            i: int, ord: seq<Chunk>, b: seq<int>)
  {
    && Resembles(s0, s) && AllMeasured(Distances(s))
    && PartitionedBy(s, ord, b) && DistinctIndices(ord) && multiset(chunks) == multiset(ord)
    && 0 <= i <= |chunks| <= |s|
    && (forall k :: 0 <= k < |chunks| ==> Flagged(chunks[k], maxSize))
    && (forall k :: 0 <= k < i ==> chunks[k].size <= maxSize)
  }

  /** A chunk as `_assign_chunks` leaves it: too big exactly when over `maxSize`, no distance, no small flag. */
  predicate Flagged(c: Chunk, maxSize: int)
  {
    c.isTooBig == Some(c.size > maxSize) && c.cosineDistance == None && c.isTooSmall == None
  }

  /** The first assignment starts the loop. */
  lemma SplittingStart(s0: seq<CombinedSentence>, maxSize: int, v: seq<CombinedSentence>, t: real, rounds: nat,
                       s: seq<CombinedSentence>, chunks: seq<Chunk>, b: seq<int>)
    requires MarkedAfter(s0, t, rounds, v)
    requires Relabelled(v, StartIndex(None), s)
    requires PartitionedBy(s, chunks, b) && AllFresh(chunks, StartIndex(None), maxSize)
    ensures Splitting(s0, maxSize, s, chunks, 0, chunks, b)
  {
    MarkResembles(s0, Relaxed(t, rounds));
    assert Resembles(v, s) by {
      forall j | 0 <= j < |s|
        ensures SameRecord(v[j], s[j])
      {
        assert s[j] == Indexed(v[j], StartIndex(None) + Closed(v, j));
      }
    }
    ResemblesTrans(s0, v, s);
    ResemblesDistances(s0, s);
    FewerBlocksThanSentences(b, |chunks|, |s|);
  }

  /** A chunk that is not too big is passed over. */
  lemma SplittingKeep(s0: seq<CombinedSentence>, maxSize: int, s: seq<CombinedSentence>, chunks: seq<Chunk>,
                      i: int, ord: seq<Chunk>, b: seq<int>)
    requires Splitting(s0, maxSize, s, chunks, i, ord, b) && i < |chunks| && chunks[i].isTooBig != Some(true)
    ensures Splitting(s0, maxSize, s, chunks, i + 1, ord, b)
  {
    assert Flagged(chunks[i], maxSize);
  }

  /** The chunk at position `i` of the list is some block of the partition. */
  lemma FindBlock(chunks: seq<Chunk>, ord: seq<Chunk>, i: int) returns (k: int)
    requires multiset(chunks) == multiset(ord) && 0 <= i < |chunks|
    ensures 0 <= k < |ord| && ord[k] == chunks[i]
  {
    assert chunks[i] in multiset(ord);
    k :| 0 <= k < |ord| && ord[k] == chunks[i];
  }

  /** What the filter loop collects for block `k` is that block, with its positions. */
  lemma CollectedBlock(s: seq<CombinedSentence>, ord: seq<Chunk>, b: seq<int>, k: int,
                       idx: seq<int>, sub: seq<CombinedSentence>)
    requires PartitionedBy(s, ord, b) && DistinctIndices(ord) && 0 <= k < |ord|
    requires idx == Members(s, ord[k].chunkIndex, |s|)
    requires |sub| == |idx| && forall x {:trigger idx[x]} :: 0 <= x < |idx| ==> 0 <= idx[x] < |s| && sub[x] == s[idx[x]]
    ensures 0 <= b[k] < b[k + 1] <= |s|
    ensures idx == Range(b[k], b[k + 1]) && sub == s[b[k]..b[k + 1]]
  {
    var lo, hi := b[k], b[k + 1];
    assert 0 <= lo < hi <= |s| by {
      assert b[k] < b[k + 1] && b[k + 1] <= b[|ord|];
    }
    assert idx == Range(lo, hi) by {
      MembersOfBlock(s, ord, b, k, |s|);
    }
    GatheredSlice(s, lo, hi, idx, sub);
  }

  /** Gathering the positions `lo`..`hi` gives the slice. */
  lemma GatheredSlice(s: seq<CombinedSentence>, lo: int, hi: int, idx: seq<int>, sub: seq<CombinedSentence>)
    requires 0 <= lo <= hi <= |s| && idx == Range(lo, hi)
    requires |sub| == |idx| && forall x {:trigger idx[x]} :: 0 <= x < |idx| ==> 0 <= idx[x] < |s| && sub[x] == s[idx[x]]
    ensures sub == s[lo..hi]
  {
    RangeAt(lo, hi);
    forall x | 0 <= x < |sub|
      ensures sub[x] == s[lo..hi][x]
    {
      assert idx[x] == lo + x;
    }
  }

  /** Writing back over the positions of a block replaces the block. */
  lemma WrittenBlock(s: seq<CombinedSentence>, lo: int, hi: int, idx: seq<int>, u: seq<CombinedSentence>,
                     r: seq<CombinedSentence>)
    requires 0 <= lo <= hi <= |s| && idx == Range(lo, hi) && |u| == hi - lo
    requires |r| == |s|
    requires forall x :: 0 <= x < |idx| ==> 0 <= idx[x] < |r| && r[idx[x]] == u[x]
    requires forall j :: 0 <= j < |s| && j !in idx ==> r[j] == s[j]
    ensures r == s[..lo] + u + s[hi..]
  {
    var e := s[..lo] + u + s[hi..];
    RangeAt(lo, hi);
    forall j | 0 <= j < |s|
      ensures r[j] == e[j]
    {
      if lo <= j < hi {
        assert idx[j - lo] == j;
      } else {
        assert j !in idx;
      }
    }
  }

  /** New chunks numbered past every old index keep the indices distinct. */
  lemma ReplaceDistinct(ord: seq<Chunk>, k: int, sc: seq<Chunk>, start: int, maxSize: int)
    requires DistinctIndices(ord) && 0 <= k < |ord|
    requires forall l :: 0 <= l < |ord| ==> ord[l].chunkIndex < start
    requires AllFresh(sc, start, maxSize)
    ensures DistinctIndices(ord[..k] + sc + ord[k + 1..])
  {
    var o := ord[..k] + sc + ord[k + 1..];
    var m := |sc|;
    forall x, y | 0 <= x < y < |o|
      ensures o[x].chunkIndex != o[y].chunkIndex
    {
      if k <= x < k + m {
        assert Fresh(sc[x - k], start + (x - k), maxSize);
      }
      if k <= y < k + m {
        assert Fresh(sc[y - k], start + (y - k), maxSize);
      }
      if x < k && y >= k + m {
        assert o[y] == ord[y - m + 1];
      } else if x >= k + m {
        assert o[x] == ord[x - m + 1] && o[y] == ord[y - m + 1];
      } else if k <= x < k + m && y >= k + m {
        assert o[y] == ord[y - m + 1];
      }
    }
  }

  /** Popping chunk `i` and appending the new chunks matches replacing block `k` by them. */
  lemma SwapMultiset(chunks: seq<Chunk>, i: int, ord: seq<Chunk>, k: int, sc: seq<Chunk>)
    requires multiset(chunks) == multiset(ord) && 0 <= i < |chunks| && 0 <= k < |ord| && ord[k] == chunks[i]
    ensures multiset(chunks[..i] + chunks[i + 1..] + sc) == multiset(ord[..k] + sc + ord[k + 1..])
  {
    assert chunks == chunks[..i] + [chunks[i]] + chunks[i + 1..];
    assert ord == ord[..k] + [ord[k]] + ord[k + 1..];
    assert multiset(chunks[..i] + chunks[i + 1..]) == multiset(chunks) - multiset{chunks[i]};
    assert multiset(ord[..k] + ord[k + 1..]) == multiset(ord) - multiset{ord[k]};
  }

  /** Every old index is at most the largest one in the list. */
  lemma BelowMax(chunks: seq<Chunk>, ord: seq<Chunk>)
    requires multiset(chunks) == multiset(ord) && |chunks| > 0
    ensures forall l :: 0 <= l < |ord| ==> ord[l].chunkIndex < MaxIndex(chunks) + 1
  {
    forall l | 0 <= l < |ord|
      ensures ord[l].chunkIndex < MaxIndex(chunks) + 1
    {
      assert ord[l] in multiset(chunks);
    }
  }

  /** A block of a partition of measured sentences is non-empty and measured. */
  lemma BlockMeasured(s: seq<CombinedSentence>, lo: int, hi: int)
    requires 0 <= lo < hi <= |s| && AllMeasured(Distances(s))
    ensures |s[lo..hi]| > 0 && AllMeasured(Distances(s[lo..hi]))
  {
    assert forall j :: 0 <= j < hi - lo ==> s[lo..hi][j] == s[lo + j];
  }

  /** Re-marking and re-indexing a block leaves its records alone. */
  lemma RelabelResembles(sub: seq<CombinedSentence>, threshold: real, v: seq<CombinedSentence>,
                         start: int, out: seq<CombinedSentence>)
    requires AllMeasured(Distances(sub)) && v == Mark(sub, threshold)
    requires Relabelled(v, start, out)
    ensures Resembles(sub, out)
  {
    IndexedResembles(v, start, out);
    MarkResembles(sub, threshold);
    ResemblesTrans(sub, v, out);
  }

  /** Re-indexing leaves the records alone. */
  lemma IndexedResembles(v: seq<CombinedSentence>, start: int, out: seq<CombinedSentence>)
    requires Relabelled(v, start, out)
    ensures Resembles(v, out)
  {
    forall j | 0 <= j < |out|
      ensures SameRecord(v[j], out[j])
    {
      assert out[j] == Indexed(v[j], start + Closed(v, j));
    }
  }

  /** The marks that end the relaxation cut a block into at least two chunks. */
  lemma MoreChunks(sub: seq<CombinedSentence>, t: real, rounds: nat, v: seq<CombinedSentence>)
    requires MarkedAfter(sub, t, rounds, v)
    ensures |v| == |sub| && Closed(v, |v|) >= 2
  {
    var j :| 0 <= j < |sub| - 1 && Dist(sub, j) >= Relaxed(t, rounds);
    assert v[j].isAbovePercentile;
    ClosedAtLeastTwo(v, j);
  }

  /** Popping chunk `i` and appending fresh chunks keeps every flag and the checked prefix. */
  lemma FlagsAfterSplit(chunks: seq<Chunk>, i: int, sc: seq<Chunk>, start: int, maxSize: int)
    requires 0 <= i < |chunks| && forall k :: 0 <= k < |chunks| ==> Flagged(chunks[k], maxSize)
    requires forall k :: 0 <= k < i ==> chunks[k].size <= maxSize
    requires AllFresh(sc, start, maxSize)
    ensures var c := chunks[..i] + chunks[i + 1..] + sc;
            && (forall k :: 0 <= k < |c| ==> Flagged(c[k], maxSize))
            && (forall k :: 0 <= k < i ==> c[k].size <= maxSize)
  {
    var c := chunks[..i] + chunks[i + 1..] + sc;
    forall k | 0 <= k < |c|
      ensures Flagged(c[k], maxSize)
    {
      if k < i {
        assert c[k] == chunks[k];
      } else if k < |chunks| - 1 {
        assert c[k] == chunks[k + 1];
      } else {
        assert Fresh(sc[k - |chunks| + 1], start + (k - |chunks| + 1), maxSize);
      }
    }
  }

  /**
   * One split of a too-big chunk: the sentences of chunk `i`, re-marked and
   * re-indexed past the largest index, are written back over their block,
   * and the chunk list loses chunk `i` and gains the block's new chunks.
   */
  lemma SplitStep(s0: seq<CombinedSentence>, maxSize: int, s: seq<CombinedSentence>, chunks: seq<Chunk>,
                  i: int, ord: seq<Chunk>, b: seq<int>, last: int, idx: seq<int>, sub: seq<CombinedSentence>,
                  c: Cut, r: seq<CombinedSentence>)
    returns (ord': seq<Chunk>, b': seq<int>)
    requires Splitting(s0, maxSize, s, chunks, i, ord, b) && i < |chunks|
    requires idx == Members(s, chunks[i].chunkIndex, |s|)
    requires |sub| == |idx| && forall x {:trigger idx[x]} :: 0 <= x < |idx| ==> 0 <= idx[x] < |s| && sub[x] == s[idx[x]]
    requires last == MaxIndex(chunks) && Recut(sub, c, last + 1, maxSize)
    requires |r| == |s| && (forall x :: 0 <= x < |idx| ==> r[idx[x]] == c.out[x])
    requires forall j :: 0 <= j < |s| && j !in idx ==> r[j] == s[j]
    ensures Splitting(s0, maxSize, r, chunks[..i] + chunks[i + 1..] + c.sc, i, ord', b')
    ensures |chunks[..i] + chunks[i + 1..] + c.sc| > |chunks|
    ensures Refines(b, b')
  {
    var k := FindBlock(chunks, ord, i);
    CutBlock(s, ord, b, k, idx, sub, c, last + 1, maxSize, r);
    ord', b' := SpliceStep(s0, maxSize, s, chunks, i, ord, b, k, c.out, c.sc, c.e, last + 1, r);
  }

  /**
   * The sentences of block `k`, cut anew and written back over the block:
   * the new sentences resemble the block's, the new chunks (two at least)
   * partition them, and the list is the block replaced by them.
   */
  lemma CutBlock(s: seq<CombinedSentence>, ord: seq<Chunk>, b: seq<int>, k: int, idx: seq<int>,
                 sub: seq<CombinedSentence>, c: Cut, start: int, maxSize: int, r: seq<CombinedSentence>)
    requires PartitionedBy(s, ord, b) && DistinctIndices(ord) && 0 <= k < |ord|
    requires idx == Members(s, ord[k].chunkIndex, |s|)
    requires |sub| == |idx| && forall x {:trigger idx[x]} :: 0 <= x < |idx| ==> 0 <= idx[x] < |s| && sub[x] == s[idx[x]]
    requires Recut(sub, c, start, maxSize)
    requires |r| == |s| && (forall x :: 0 <= x < |idx| ==> r[idx[x]] == c.out[x])
    requires forall j :: 0 <= j < |s| && j !in idx ==> r[j] == s[j]
    ensures 0 <= b[k] <= b[k + 1] <= |s|
    ensures Resembles(s[b[k]..b[k + 1]], c.out)
    ensures PartitionedBy(c.out, c.sc, c.e) && AllFresh(c.sc, start, maxSize) && |c.sc| >= 2
    ensures r == s[..b[k]] + c.out + s[b[k + 1]..]
  {
    RelabelResembles(sub, Relaxed(c.t, c.rounds), c.v, start, c.out);
    CollectedBlock(s, ord, b, k, idx, sub);
    WrittenBlock(s, b[k], b[k + 1], idx, c.out, r);
    MoreChunks(sub, c.t, c.rounds, c.v);
  }

  /** The split, once the block's new sentences and chunks are known. */
  lemma SpliceStep(s0: seq<CombinedSentence>, maxSize: int, s: seq<CombinedSentence>, chunks: seq<Chunk>,
                   i: int, ord: seq<Chunk>, b: seq<int>, k: int, out: seq<CombinedSentence>, sc: seq<Chunk>,
                   e: seq<int>, start: int, r: seq<CombinedSentence>)
    returns (ord': seq<Chunk>, b': seq<int>)
    requires Splitting(s0, maxSize, s, chunks, i, ord, b) && i < |chunks|
    requires 0 <= k < |ord| && ord[k] == chunks[i] && 0 <= b[k] <= b[k + 1] <= |s|
    requires start == MaxIndex(chunks) + 1
    requires Resembles(s[b[k]..b[k + 1]], out)
    requires PartitionedBy(out, sc, e) && AllFresh(sc, start, maxSize) && |sc| >= 2
    requires r == s[..b[k]] + out + s[b[k + 1]..]
    ensures Splitting(s0, maxSize, r, chunks[..i] + chunks[i + 1..] + sc, i, ord', b')
    ensures |chunks[..i] + chunks[i + 1..] + sc| > |chunks|
    ensures Refines(b, b')
  {
    b' := PartitionReplace(s, ord, b, k, out, sc, e);
    assert |out| == b[k + 1] - b[k];
    ord' := ord[..k] + sc + ord[k + 1..];
    var chunks' := chunks[..i] + chunks[i + 1..] + sc;
    assert DistinctIndices(ord') by {
      BelowMax(chunks, ord);
      assert start == MaxIndex(chunks) + 1;
      ReplaceDistinct(ord, k, sc, start, maxSize);
    }
    assert multiset(chunks') == multiset(ord') by {
      SwapMultiset(chunks, i, ord, k, sc);
    }
    assert Resembles(s0, r) && AllMeasured(Distances(r)) by {
      SpliceResembles(s, b[k], b[k + 1], out);
      ResemblesTrans(s0, s, r);
      ResemblesDistances(s0, r);
    }
    FlagsAfterSplit(chunks, i, sc, start, maxSize);
    assert |chunks'| <= |r| by {
      FewerBlocksThanSentences(b', |ord'|, |r|);
      assert |chunks'| == |multiset(chunks')| == |multiset(ord')| == |ord'|;
    }
  }

  /** The chunk collected for a split is non-empty, measured and in sentence order. */
  lemma CollectedFacts(s0: seq<CombinedSentence>, maxSize: int, s: seq<CombinedSentence>, chunks: seq<Chunk>,
                       i: int, ord: seq<Chunk>, b: seq<int>, idx: seq<int>, sub: seq<CombinedSentence>)
    requires Splitting(s0, maxSize, s, chunks, i, ord, b) && i < |chunks|
    requires idx == Members(s, chunks[i].chunkIndex, |s|)
    requires |sub| == |idx| && forall x {:trigger idx[x]} :: 0 <= x < |idx| ==> 0 <= idx[x] < |s| && sub[x] == s[idx[x]]
    ensures |sub| > 0 && AllMeasured(Distances(sub))
    ensures forall x, y :: 0 <= x < y < |idx| ==> idx[x] < idx[y]
  {
    var k := FindBlock(chunks, ord, i);
    CollectedBlock(s, ord, b, k, idx, sub);
    BlockMeasured(s, b[k], b[k + 1]);
    MembersExactly(s, chunks[i].chunkIndex, |s|);
  }

  /** A threshold computed over a non-empty measured list with a valid percentage is a number. */
  lemma PercentileDefined(sub: seq<CombinedSentence>, percentage: int)
    requires |sub| > 0 && AllMeasured(Distances(sub)) && 0 <= percentage <= 100
    ensures CalculatePercentile(sub, percentage).Ok? && CalculatePercentile(sub, percentage).value.Some?
  {
  }

  /**
   * What `reduce_size` returns: the sentences of the input, renumbered,
   * partitioned into the chunks 1, 2, ... in order, each within `maxSize`
   * and flagged not too big.
   */
  ghost predicate Reduced(s0: seq<CombinedSentence>, maxSize: int, ss: seq<CombinedSentence>, cs: seq<Chunk>,
                          b: seq<int>)
  {
    && Resembles(s0, ss) && PartitionedBy(ss, cs, b)
    && forall k :: 0 <= k < |cs| ==>
         && cs[k].chunkIndex == k + 1 && cs[k].size <= maxSize
         && cs[k].isTooBig == Some(false) && cs[k].cosineDistance == None && cs[k].isTooSmall == None
  }

  /** A partition of a non-empty list has a chunk. */
  lemma SomeChunk(s: seq<CombinedSentence>, chunks: seq<Chunk>, ord: seq<Chunk>, b: seq<int>)
    requires PartitionedBy(s, ord, b) && multiset(chunks) == multiset(ord) && |s| > 0
    ensures |chunks| > 0
  {
    assert |chunks| == |multiset(chunks)| == |multiset(ord)| == |ord|;
  }

  /** When every chunk has been checked, the reset gives what `reduce_size` promises. */
  lemma Finished(s0: seq<CombinedSentence>, maxSize: int, s: seq<CombinedSentence>, chunks: seq<Chunk>,
                 ord: seq<Chunk>, b: seq<int>, sorted: seq<Chunk>)
    requires Splitting(s0, maxSize, s, chunks, |chunks|, ord, b)
    requires forall k :: 0 <= k < |chunks| ==> Some(chunks[k].chunkIndex) in Firsts(Indices(s))
    requires SortedByIndex(sorted) && multiset(sorted) == multiset(RenumberChunks(chunks, Firsts(Indices(s))))
    ensures Reduced(s0, maxSize, Renumbered(s), sorted, b)
  {
    ResetOfPartition(s, chunks, ord, b, sorted);
    RenumberedResembles(s);
    ResemblesTrans(s0, s, Renumbered(s));
    forall k | 0 <= k < |sorted|
      ensures sorted[k].chunkIndex == k + 1 && sorted[k].size <= maxSize
      ensures sorted[k].isTooBig == Some(false) && sorted[k].cosineDistance == None && sorted[k].isTooSmall == None
    {
      assert sorted[k] == ord[k].(chunkIndex := k + 1);
      assert ord[k] in multiset(chunks);
      var l :| 0 <= l < |chunks| && chunks[l] == ord[k];
      assert Flagged(chunks[l], maxSize);
    }
  }

  /**
   * One cut of a sentence list on its own: the threshold `t` it starts
   * from, the number of fruitless retries, the marked sentences `v`, the
   * sentences `out` with their new chunk indices, the new chunks `sc` and
   * their block bounds `e`.
   */
  datatype Cut = Cut(t: real, rounds: nat, v: seq<CombinedSentence>, out: seq<CombinedSentence>,
                     sc: seq<Chunk>, e: seq<int>)

  /**
   * `c` is how `sub` is cut: `v` holds its marks under the relaxed
   * threshold, and `out`, `v` re-indexed from `start`, is partitioned into
   * the fresh chunks `sc`.
   */
  ghost predicate Recut(sub: seq<CombinedSentence>, c: Cut, start: int, maxSize: int)
  {
    && MarkedAfter(sub, c.t, c.rounds, c.v) && Relabelled(c.v, start, c.out)
    && |c.sc| == Closed(c.v, |c.v|) && PartitionedBy(c.out, c.sc, c.e) && AllFresh(c.sc, start, maxSize)
  }

  /** A list whose whole text fits in `maxSize` is cut into chunks that all fit. */
  lemma RecutFits(sub: seq<CombinedSentence>, c: Cut, start: int, maxSize: int)
    requires Recut(sub, c, start, maxSize) && SumLen(sub) <= maxSize
    ensures forall k :: 0 <= k < |c.sc| ==> c.sc[k].size <= maxSize && c.sc[k].isTooBig == Some(false)
  {
    assert SameTexts(sub, c.out) by {
      forall j | 0 <= j < |sub|
        ensures c.out[j].sentence == sub[j].sentence
      {
        assert c.out[j] == Indexed(c.v[j], start + Closed(c.v, j));
      }
    }
    SumLenSameTexts(sub, c.out);
    forall k | 0 <= k < |c.sc|
      ensures c.sc[k].size <= maxSize && c.sc[k].isTooBig == Some(false)
    {
      ChunkWithinTotal(c.out, c.sc, c.e, k);
      assert Fresh(c.sc[k], start + k, maxSize);
    }
  }

  /**
   * The sentences of a too-big chunk cut on their own: the threshold is
   * their own percentile, the marks are retried until one sticks, and the
   * pieces are numbered from `next`. Fails with Diverges when no retry can
   * mark a sentence.
   */
  method CutChunk(sub: seq<CombinedSentence>, percentage: int, maxSize: int, next: Option<int>)
    returns (r: Result<(seq<CombinedSentence>, seq<Chunk>)>, ghost c: Cut)
    requires |sub| > 0 && AllMeasured(Distances(sub)) && 0 <= percentage <= 100
    ensures CalculatePercentile(sub, percentage) == Ok(Some(c.t))
    ensures r.Err? <==> !Reachable(sub, c.t)
    ensures r.Err? ==> r.error == Diverges
    ensures r.Ok? ==> r.value == (c.out, c.sc) && Recut(sub, c, StartIndex(next), maxSize)
  {
    PercentileDefined(sub, percentage);
    var threshold := CalculatePercentile(sub, percentage).value;
    if !Reachable(sub, threshold.value) {
      return Err(Diverges), Cut(threshold.value, 0, [], [], [], []);
    }
    var marked, rounds := SentencesAboveThreshold(sub, threshold);
    var out, sc;
    ghost var e;
    out, sc, e := AssignChunks(marked.value, maxSize, next);
    c := Cut(threshold.value, rounds, marked.value, out, sc, e);
    r := Ok((out, sc));
  }

  /** `t` is the percentile threshold of the non-empty, measured list `sub`. */
  ghost predicate Thresholded(sub: seq<CombinedSentence>, percentage: int, t: real)
  {
    |sub| > 0 && AllMeasured(Distances(sub)) && CalculatePercentile(sub, percentage) == Ok(Some(t))
  }

  /** No retry from `t` can mark a sentence of `sub`. */
  ghost predicate Stuck(sub: seq<CombinedSentence>, t: real)
  {
    AllMeasured(Distances(sub)) && !Reachable(sub, t)
  }

  /**
   * `r` is `s` with the sentences carrying index `ci`, in order, replaced by
   * those of `out`, and every other sentence left alone.
   */
  ghost predicate WrittenOver(s: seq<CombinedSentence>, ci: int, out: seq<CombinedSentence>, r: seq<CombinedSentence>)
  {
    && |r| == |s|
    && (forall j :: 0 <= j < |s| && s[j].chunkIndex != Some(ci) ==> r[j] == s[j])
    && var idx := Members(s, ci, |s|);
       forall x :: 0 <= x < |idx| ==> 0 <= idx[x] < |s| && x < |out| && r[idx[x]] == out[x]
  }

  /** The cut of the gathered sentences, numbered past the largest index. */
  lemma RecutOfChunk(s: seq<CombinedSentence>, chunks: seq<Chunk>, i: int, sub: seq<CombinedSentence>, c: Cut,
                     start: int, maxSize: int)
    requires 0 <= i < |chunks| && sub == Gathered(s, chunks[i].chunkIndex, |s|)
    requires Recut(sub, c, start, maxSize) && start == MaxIndex(chunks) + 1
    ensures Recut(Gathered(s, chunks[i].chunkIndex, |s|), c, MaxIndex(chunks) + 1, maxSize)
  {
  }

  /** Writing `out` back at the positions of the sentences with index `ci` is `WrittenOver`. */
  lemma WriteBackOver(s: seq<CombinedSentence>, ci: int, idx: seq<int>, out: seq<CombinedSentence>,
                      r: seq<CombinedSentence>)
    requires idx == Members(s, ci, |s|) && |out| == |idx| && |r| == |s|
    requires forall x :: 0 <= x < |idx| ==> 0 <= idx[x] < |s| && r[idx[x]] == out[x]
    requires forall j :: 0 <= j < |s| && j !in idx ==> r[j] == s[j]
    ensures WrittenOver(s, ci, out, r)
  {
    MembersExactly(s, ci, |s|);
  }

  /**
   * The split branch of the `reduce_size` loop for the too-big chunk `i`:
   * gather its sentences, cut them into new chunks numbered past the
   * largest index, drop chunk `i`, append the new chunks and write the
   * sentences back. Fails with Diverges exactly when no retry can mark one
   * of the chunk's own sentences.
   */
  method SplitChunk(ghost s0: seq<CombinedSentence>, maxSize: int, percentage: int, s: seq<CombinedSentence>,
                    chunks: seq<Chunk>, i: int, ghost ord: seq<Chunk>, ghost b: seq<int>)
    returns (r: Result<(seq<CombinedSentence>, seq<Chunk>)>, ghost c: Cut, ghost ord': seq<Chunk>, ghost b': seq<int>)
    requires Splitting(s0, maxSize, s, chunks, i, ord, b) && i < |chunks| && 0 <= percentage <= 100
    ensures Thresholded(Gathered(s, chunks[i].chunkIndex, |s|), percentage, c.t)
    ensures r.Err? <==> Stuck(Gathered(s, chunks[i].chunkIndex, |s|), c.t)
    ensures r.Err? ==> r.error == Diverges
    ensures r.Ok? ==> && Recut(Gathered(s, chunks[i].chunkIndex, |s|), c, MaxIndex(chunks) + 1, maxSize)
                      && r.value.1 == chunks[..i] + chunks[i + 1..] + c.sc && |r.value.1| > |chunks|
    ensures r.Ok? ==> WrittenOver(s, chunks[i].chunkIndex, c.out, r.value.0)
    ensures r.Ok? ==> Splitting(s0, maxSize, r.value.0, r.value.1, i, ord', b') && Refines(b, b')
  {
    ord', b' := ord, b;
    var last := MaxIndex(chunks);
    var next := Some(last + 1);
    var sub, idx := CollectChunk(s, chunks[i].chunkIndex);
    CollectedFacts(s0, maxSize, s, chunks, i, ord, b, idx, sub);
    var cut;
    cut, c := CutChunk(sub, percentage, maxSize, next);
    assert Thresholded(sub, percentage, c.t) && (cut.Err? <==> Stuck(sub, c.t));
    if cut.Err? {
      return Err(cut.error), c, ord', b';
    }
    assert StartIndex(next) == last + 1;
    RecutOfChunk(s, chunks, i, sub, c, StartIndex(next), maxSize);
    var out, sc := cut.value.0, cut.value.1;
    var s' := WriteBack(s, idx, out);
    WriteBackOver(s, chunks[i].chunkIndex, idx, out, s');
    ord', b' := SplitStep(s0, maxSize, s, chunks, i, ord, b, last, idx, sub, c, s');
    r := Ok((s', chunks[..i] + chunks[i + 1..] + sc));
  }

  /** Dropping the too-big chunk `i` and appending `sc` keeps every chunk that is not too big. */
  lemma KeptUnlessTooBig(chunks: seq<Chunk>, cs: seq<Chunk>, i: int, sc: seq<Chunk>)
    requires 0 <= i < |cs| && cs[i].isTooBig == Some(true)
    requires forall k :: 0 <= k < |chunks| && chunks[k].isTooBig != Some(true) ==> chunks[k] in cs
    ensures forall k :: 0 <= k < |chunks| && chunks[k].isTooBig != Some(true) ==> chunks[k] in cs[..i] + cs[i + 1..] + sc
  {
    forall k | 0 <= k < |chunks| && chunks[k].isTooBig != Some(true)
      ensures chunks[k] in cs[..i] + cs[i + 1..] + sc
    {
      var m :| 0 <= m < |cs| && cs[m] == chunks[k];
      if m < i {
        assert (cs[..i] + cs[i + 1..] + sc)[m] == cs[m];
      } else {
        assert (cs[..i] + cs[i + 1..] + sc)[m - 1] == cs[m];
      }
    }
  }

  /** No chunk is flagged too big. */
  predicate NoneTooBig(chunks: seq<Chunk>)
  {
    forall k :: 0 <= k < |chunks| ==> chunks[k].isTooBig != Some(true)
  }

  /**
   * The `reduce_size` loop: every chunk from `i` on that is too big is
   * split, and the pieces are checked in their turn. With no chunk too big
   * nothing changes.
   */
  method SplitAll(ghost s0: seq<CombinedSentence>, maxSize: int, percentage: int, s: seq<CombinedSentence>,
                  chunks: seq<Chunk>, ghost ord: seq<Chunk>, ghost b: seq<int>)
    returns (r: Result<(seq<CombinedSentence>, seq<Chunk>)>, ghost ord': seq<Chunk>, ghost b': seq<int>)
    requires Splitting(s0, maxSize, s, chunks, 0, ord, b) && 0 <= percentage <= 100
    ensures r.Err? ==> r.error == Diverges
    ensures NoneTooBig(chunks) ==> r == Ok((s, chunks)) && ord' == ord && b' == b
    ensures r.Ok? ==> Splitting(s0, maxSize, r.value.0, r.value.1, |r.value.1|, ord', b')
    ensures r.Ok? ==> Refines(b, b')
    ensures r.Ok? ==> forall k :: 0 <= k < |chunks| && chunks[k].isTooBig != Some(true) ==> chunks[k] in r.value.1
  {
    var ss, cs := s, chunks;
    ord', b' := ord, b;
    var i := 0;
    RefinesSelf(b);
    while i < |cs|
      invariant Splitting(s0, maxSize, ss, cs, i, ord', b')
      invariant NoneTooBig(chunks) ==> ss == s && cs == chunks && ord' == ord && b' == b
      invariant Refines(b, b')
      invariant forall k :: 0 <= k < |chunks| && chunks[k].isTooBig != Some(true) ==> chunks[k] in cs
      decreases |s0| - |cs|, |cs| - i
    {
      if cs[i].isTooBig == Some(true) {
        var split;
        ghost var c, b1;
        split, c, ord', b1 := SplitChunk(s0, maxSize, percentage, ss, cs, i, ord', b');
        if split.Err? {
          return split, ord', b1;
        }
        RefinesTrans(b, b', b1);
        b' := b1;
        KeptUnlessTooBig(chunks, cs, i, c.sc);
        ss, cs := split.value.0, split.value.1;
      } else {
        SplittingKeep(s0, maxSize, ss, cs, i, ord', b');
        i := i + 1;
      }
    }
    r := Ok((ss, cs));
  }

  /**
   * `reduce_size`: mark and cut the whole list, then cut again every chunk
   * longer than `maxSize`, appending its pieces to the chunk list, until
   * none is too big; then renumber. An empty list fails with TypeError (the
   * threshold is None), an invalid percentage with ValueError, a missing
   * distance with TypeError; a list or a chunk that no threshold can cut
   * (one sentence, say) makes the source recurse without end (Diverges).
   * `first` is the first cut of the whole list; when none of its chunks is
   * over `maxSize` the result is a success.
   */
  method ReduceSize(s0: seq<CombinedSentence>, percentage: int, maxSize: int)
    returns (r: Result<(seq<CombinedSentence>, seq<Chunk>)>, ghost first: Cut, ghost b: seq<int>)
    ensures |s0| == 0 ==> r == Err(TypeError)
    ensures |s0| > 0 && !(0 <= percentage <= 100) ==> r == Err(ValueError)
    ensures |s0| > 0 && 0 <= percentage <= 100 && !AllMeasured(Distances(s0)) ==> r == Err(TypeError)
    ensures |s0| > 0 && 0 <= percentage <= 100 && AllMeasured(Distances(s0)) ==>
              && Thresholded(s0, percentage, first.t)
              && (Stuck(s0, first.t) ==> r == Err(Diverges))
              && (!Stuck(s0, first.t) ==> Recut(s0, first, 0, maxSize))
              && (r.Ok? || r == Err(Diverges))
    ensures |s0| > 0 && 0 <= percentage <= 100 && AllMeasured(Distances(s0)) && !Stuck(s0, first.t) ==>
              (forall k :: 0 <= k < |first.sc| ==> first.sc[k].size <= maxSize) ==>
                r.Ok? && b == first.e && r.value.0 == Renumbered(first.out)
    ensures r.Ok? ==> Refines(first.e, b)
    ensures |s0| == 1 && 0 <= percentage <= 100 && AllMeasured(Distances(s0)) ==> r == Err(Diverges)
    ensures r.Ok? ==> Reduced(s0, maxSize, r.value.0, r.value.1, b)
  {
    b := [];
    first := Cut(0.0, 0, [], [], [], []);
    if |s0| > 0 && 0 <= percentage <= 100 && AllMeasured(Distances(s0)) {
      PercentileDefined(s0, percentage);
    }
    var th := CalculatePercentile(s0, percentage);
    if th.Err? {
      return Err(th.error), first, b;
    }
    var threshold := th.value;
    if threshold.Some? {
      first := first.(t := threshold.value);
    }
    if threshold.Some? && AllMeasured(Distances(s0)) && !Reachable(s0, threshold.value) {
      return Err(Diverges), first, b;
    }
    var marked, rounds := SentencesAboveThreshold(s0, threshold);
    if marked.Err? {
      return Err(marked.error), first, b;
    }
    var s, chunks;
    ghost var b0;
    s, chunks, b0 := AssignChunks(marked.value, maxSize, None);
    first := Cut(threshold.value, rounds, marked.value, s, chunks, b0);
    assert StartIndex(None) == 0;
    assert Recut(s0, first, 0, maxSize);
    SplittingStart(s0, maxSize, marked.value, threshold.value, rounds, s, chunks, b0);
    assert (forall k :: 0 <= k < |chunks| ==> chunks[k].size <= maxSize) ==> NoneTooBig(chunks) by {
      assert AllFresh(chunks, 0, maxSize);
    }
    var split, ord, b1 := SplitAll(s0, maxSize, percentage, s, chunks, chunks, b0);
    if split.Err? {
      return split, first, b;
    }
    b := b1;
    r := Renumber(s0, maxSize, split.value.0, split.value.1, ord, b);
  }

  /**
   * The index reset that ends `reduce_size`: once every chunk fits, the
   * chunks are numbered 1, 2, ... in text order, and the call succeeds.
   */
  method Renumber(ghost s0: seq<CombinedSentence>, maxSize: int, s: seq<CombinedSentence>, chunks: seq<Chunk>,
                  ghost ord: seq<Chunk>, ghost b: seq<int>)
    returns (r: Result<(seq<CombinedSentence>, seq<Chunk>)>)
    requires Splitting(s0, maxSize, s, chunks, |chunks|, ord, b) && |s0| > 0
    ensures r.Ok? && Reduced(s0, maxSize, r.value.0, r.value.1, b) && r.value.0 == Renumbered(s)
  {
    SomeChunk(s, chunks, ord, b);
    var reset := ResetChunkIndex(s, Some(chunks));
    ResetOfPartition(s, chunks, ord, b, []);
    Finished(s0, maxSize, s, chunks, ord, b, reset.value.chunks);
    r := Ok((reset.value.sentences, reset.value.chunks));
  }

  /**
   * The reduced chunks share out the text exactly, so `reduce_size` can
   * only succeed when no single sentence is longer than `maxSize`.
   */
  lemma ReducedSizes(s0: seq<CombinedSentence>, maxSize: int, ss: seq<CombinedSentence>, cs: seq<Chunk>,
                     b: seq<int>)
    requires Reduced(s0, maxSize, ss, cs, b)
    ensures SumSizes(cs) == SumLen(s0)
    ensures forall j :: 0 <= j < |s0| ==> |s0[j].sentence| <= maxSize
  {
    ReducedTotal(s0, maxSize, ss, cs, b);
    forall j | 0 <= j < |s0|
      ensures |s0[j].sentence| <= maxSize
    {
      var k := SentenceInBlock(ss, cs, b, j);
    }
  }

  /** The reduced chunks' sizes add up to the whole text. */
  lemma ReducedTotal(s0: seq<CombinedSentence>, maxSize: int, ss: seq<CombinedSentence>, cs: seq<Chunk>,
                     b: seq<int>)
    requires Reduced(s0, maxSize, ss, cs, b)
    ensures SumSizes(cs) == SumLen(s0)
  {
    PartitionSizes(ss, cs, b);
    SumLenSameTexts(s0, ss);
  }

  /** Every reduced sentence carries one of the numbers 1 .. |cs|, in order. */
  lemma ReducedNumbering(s0: seq<CombinedSentence>, maxSize: int, ss: seq<CombinedSentence>, cs: seq<Chunk>,
                         b: seq<int>)
    requires Reduced(s0, maxSize, ss, cs, b)
    ensures forall j :: 0 <= j < |ss| ==> ss[j].chunkIndex.Some? && 1 <= ss[j].chunkIndex.value <= |cs|
    ensures forall j, l :: 0 <= j <= l < |ss| ==> ss[j].chunkIndex.value <= ss[l].chunkIndex.value
  {
    forall j | 0 <= j < |ss|
      ensures ss[j].chunkIndex.Some? && 1 <= ss[j].chunkIndex.value <= |cs|
    {
      var k := BlockOf(b, |cs|, |ss|, j);
    }
    forall j, l | 0 <= j <= l < |ss|
      ensures ss[j].chunkIndex.value <= ss[l].chunkIndex.value
    {
      var k := BlockOf(b, |cs|, |ss|, j);
      var m := BlockOf(b, |cs|, |ss|, l);
    }
  }
}
