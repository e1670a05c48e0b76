/**
 * `EnhanceChunkSize` (recursive_semantic/operations/enhance_size.py): every
 * chunk is flagged too small or not, undersized chunks at the two ends of the
 * list are merged into their inner neighbour, undersized chunks inside the
 * list are merged into the neighbour with the smaller distance, and the
 * result is renumbered by `reset_chunk_index`.
 *
 * The Python code mutates the caller's lists and records; here each pass
 * takes the sentence list and the chunk list as values and returns the new
 * ones. Each merge is one call of `Merge`, and each pass is a loop proved
 * equal to a recursive definition (`Boundary`, `Interior`) about which the
 * properties are stated.
 */
module Enhance {
  import opened Types
  import opened Percentile
  import opened Partition
  import opened Reindex

  /**
   * What `enhance_size` returns. With chunks the pair of lists; with no chunk
   * left, `reset_chunk_index` returns the sentence list alone and the
   * two-name assignment unpacks it, which only succeeds for two sentences.
   */
  datatype Enhanced =
    | Enhanced(sentences: seq<CombinedSentence>, chunks: seq<Chunk>)
    | Unpacked(first: CombinedSentence, second: CombinedSentence)

  // ---------------------------------------------------------------------
  // Flagging (enhance_size.py:135-142)
  // ---------------------------------------------------------------------

  /**
   * The entry the table loop leaves under `key`: the distance of the last
   * sentence carrying `key`, or None when no sentence carries it.
   */
  function LastDistance(s: seq<CombinedSentence>, key: Option<int>): (r: Option<Option<real>>)
    ensures r.None? <==> forall j :: 0 <= j < |s| ==> s[j].chunkIndex != key
    ensures r.Some? ==> exists j :: 0 <= j < |s| && s[j].chunkIndex == key && r.value == s[j].cosineDistance
    decreases |s|
  {
    if |s| == 0 then None
    else if s[|s| - 1].chunkIndex == key then Some(s[|s| - 1].cosineDistance)
    else
      var r := LastDistance(s[..|s| - 1], key);
      assert forall j :: 0 <= j < |s| - 1 ==> s[..|s| - 1][j] == s[j];
      r
  }

  /** The entry under `key` is the distance of the last sentence that carries `key`. */
  lemma {:induction false} LastDistanceAt(s: seq<CombinedSentence>, key: Option<int>, j: int)
    requires 0 <= j < |s| && s[j].chunkIndex == key
    requires forall l :: j < l < |s| ==> s[l].chunkIndex != key
    ensures LastDistance(s, key) == Some(s[j].cosineDistance)
    decreases |s|
  {
    if j < |s| - 1 {
      LastDistanceAt(s[..|s| - 1], key, j);
    }
  }

  /** The `distances` dictionary: one pass over the sentences, later entries overwrite earlier ones. */
  method DistanceTable(s: seq<CombinedSentence>) returns (m: map<Option<int>, Option<real>>)
    ensures forall key :: key in m <==> LastDistance(s, key).Some?
    ensures forall key :: key in m ==> LastDistance(s, key) == Some(m[key])
  {
    m := map[];
    for j := 0 to |s|
      invariant forall key :: key in m <==> LastDistance(s[..j], key).Some?
      invariant forall key :: key in m ==> LastDistance(s[..j], key) == Some(m[key])
    {
      assert s[..j + 1][..j] == s[..j];
      m := m[s[j].chunkIndex := s[j].cosineDistance];
    }
    assert s[..|s|] == s;
  }

  /**
   * The flagging loop: each chunk is too small exactly when its size is
   * below `minSize`, and takes the table's distance for its index; an index
   * no sentence carries is a KeyError.
   */
  method FlagChunks(s: seq<CombinedSentence>, chunks: seq<Chunk>, minSize: int) returns (r: Result<seq<Chunk>>)
    ensures r.Err? <==> exists k :: 0 <= k < |chunks| && Some(chunks[k].chunkIndex) !in Indices(s)
    ensures r.Err? ==> r.error == KeyError
    ensures r.Ok? ==> |r.value| == |chunks|
    ensures r.Ok? ==> forall k :: 0 <= k < |chunks| ==>
              && r.value[k] == chunks[k].(isTooSmall := Some(chunks[k].size < minSize),
                                          cosineDistance := r.value[k].cosineDistance)
              && LastDistance(s, Some(chunks[k].chunkIndex)) == Some(r.value[k].cosineDistance)
  {
    var distances := DistanceTable(s);
    var cs := chunks;
    for k := 0 to |chunks|
      invariant FlaggedUpTo(s, chunks, cs, k, minSize)
    {
      var key := Some(cs[k].chunkIndex);
      if key !in distances {
        KeyMissing(s, chunks, k);
        return Err(KeyError);
      }
      FlagStep(s, chunks, cs, k, minSize, distances[key]);
      cs := cs[k := cs[k].(isTooSmall := Some(cs[k].size < minSize), cosineDistance := distances[key])];
    }
    FlaggedAll(s, chunks, cs, minSize);
    r := Ok(cs);
  }

  /**
   * What the flagging loop gives: each chunk flagged too small exactly when
   * its size is below `minSize`, with the table's distance for its index.
   */
  ghost predicate FlaggedAs(s: seq<CombinedSentence>, chunks: seq<Chunk>, c0: seq<Chunk>, minSize: int)
  {
    && |c0| == |chunks|
    && forall k :: 0 <= k < |chunks| ==>
         && c0[k] == chunks[k].(isTooSmall := Some(chunks[k].size < minSize), cosineDistance := c0[k].cosineDistance)
         && LastDistance(s, Some(chunks[k].chunkIndex)) == Some(c0[k].cosineDistance)
  }

  /** The flagged chunks are determined by the sentences, the chunks and `minSize`. */
  lemma FlaggedUnique(s: seq<CombinedSentence>, chunks: seq<Chunk>, c0: seq<Chunk>, c1: seq<Chunk>, minSize: int)
    requires FlaggedAs(s, chunks, c0, minSize) && FlaggedAs(s, chunks, c1, minSize)
    ensures c0 == c1
  {
    forall k | 0 <= k < |chunks|
      ensures c0[k] == c1[k]
    {
      assert Some(c0[k].cosineDistance) == LastDistance(s, Some(chunks[k].chunkIndex)) == Some(c1[k].cosineDistance);
    }
  }

  /** Chunk `l` is flagged: its index is carried, its flag set by size and its distance the table's. */
  ghost predicate FlaggedAt(s: seq<CombinedSentence>, chunks: seq<Chunk>, cs: seq<Chunk>, l: int, minSize: int)
    requires 0 <= l < |chunks| == |cs|
  {
    && Some(chunks[l].chunkIndex) in Indices(s)
    && cs[l] == chunks[l].(isTooSmall := Some(chunks[l].size < minSize), cosineDistance := cs[l].cosineDistance)
    && LastDistance(s, Some(chunks[l].chunkIndex)) == Some(cs[l].cosineDistance)
  }

  /** The flagging loop before chunk `k`: the chunks before it flagged, the others untouched. */
  ghost predicate FlaggedUpTo(s: seq<CombinedSentence>, chunks: seq<Chunk>, cs: seq<Chunk>, k: int, minSize: int)
  {
    && |cs| == |chunks| && 0 <= k <= |chunks|
    && (forall l :: 0 <= l < k ==> FlaggedAt(s, chunks, cs, l, minSize))
    && forall l :: k <= l < |chunks| ==> cs[l] == chunks[l]
  }

  /** Flagging chunk `k` with the distance the table holds for its index. */
  lemma FlagStep(s: seq<CombinedSentence>, chunks: seq<Chunk>, cs: seq<Chunk>, k: int, minSize: int, d: Option<real>)
    requires FlaggedUpTo(s, chunks, cs, k, minSize) && k < |chunks|
    requires LastDistance(s, Some(chunks[k].chunkIndex)) == Some(d)
    ensures FlaggedUpTo(s, chunks, cs[k := cs[k].(isTooSmall := Some(cs[k].size < minSize), cosineDistance := d)],
                        k + 1, minSize)
  {
    var cs' := cs[k := cs[k].(isTooSmall := Some(cs[k].size < minSize), cosineDistance := d)];
    var j :| 0 <= j < |s| && s[j].chunkIndex == Some(chunks[k].chunkIndex);
    assert Indices(s)[j] == Some(chunks[k].chunkIndex);
    assert FlaggedAt(s, chunks, cs', k, minSize);
    forall l | 0 <= l < k
      ensures FlaggedAt(s, chunks, cs', l, minSize)
    {
      assert FlaggedAt(s, chunks, cs, l, minSize);
    }
  }

  /** An index the table lacks is carried by no sentence. */
  lemma KeyMissing(s: seq<CombinedSentence>, chunks: seq<Chunk>, k: int)
    requires 0 <= k < |chunks| && LastDistance(s, Some(chunks[k].chunkIndex)).None?
    ensures exists l :: 0 <= l < |chunks| && Some(chunks[l].chunkIndex) !in Indices(s)
  {
    assert Some(chunks[k].chunkIndex) !in Indices(s);
  }

  /** The flagging loop, completed, gives what the method promises. */
  lemma FlaggedAll(s: seq<CombinedSentence>, chunks: seq<Chunk>, cs: seq<Chunk>, minSize: int)
    requires FlaggedUpTo(s, chunks, cs, |chunks|, minSize)
    ensures !exists k :: 0 <= k < |chunks| && Some(chunks[k].chunkIndex) !in Indices(s)
    ensures forall k :: 0 <= k < |chunks| ==>
              && cs[k] == chunks[k].(isTooSmall := Some(chunks[k].size < minSize), cosineDistance := cs[k].cosineDistance)
              && LastDistance(s, Some(chunks[k].chunkIndex)) == Some(cs[k].cosineDistance)
  {
    forall k | 0 <= k < |chunks|
      ensures Some(chunks[k].chunkIndex) in Indices(s)
      ensures cs[k] == chunks[k].(isTooSmall := Some(chunks[k].size < minSize), cosineDistance := cs[k].cosineDistance)
      ensures LastDistance(s, Some(chunks[k].chunkIndex)) == Some(cs[k].cosineDistance)
    {
      assert FlaggedAt(s, chunks, cs, k, minSize);
    }
  }

  // ---------------------------------------------------------------------
  // One merge (enhance_size.py:45-59 and 97-110)
  // ---------------------------------------------------------------------

  /** Every sentence of chunk `from` relabelled to chunk `to`. */
  function Moved(s: seq<CombinedSentence>, from: int, to: int): (r: seq<CombinedSentence>)
    ensures |r| == |s|
  {
    seq(|s|, j requires 0 <= j < |s| =>
      if s[j].chunkIndex == Some(from) then s[j].(chunkIndex := Some(to)) else s[j])
  }

  /** The relabelling loop over all sentences. */
  method Relabel(s: seq<CombinedSentence>, from: int, to: int) returns (r: seq<CombinedSentence>)
    ensures r == Moved(s, from, to)
  {
    r := s;
    for x := 0 to |r|
      invariant |r| == |s|
      invariant forall j :: 0 <= j < x ==> r[j] == Moved(s, from, to)[j]
      invariant forall j :: x <= j < |s| ==> r[j] == s[j]
    {
      if r[x].chunkIndex == Some(from) {
        r := r[x := r[x].(chunkIndex := Some(to))];
      }
    }
  }

  /**
   * Neighbour `c` after taking in chunk `d`: the sizes add up, the flag is
   * cleared when the sum reaches `minSize` and is otherwise left as it was,
   * and the distance is `d`'s only for a merge to the left inside the list.
   */
  function Absorbed(c: Chunk, d: Chunk, minSize: int, copyDistance: bool): (r: Chunk)
    ensures r.chunkIndex == c.chunkIndex && r.size == c.size + d.size
    ensures IsSet(r.isTooSmall) ==> IsSet(c.isTooSmall) && r.size < minSize
  {
    var size := c.size + d.size;
    c.(size := size,
       isTooSmall := if size >= minSize then Some(false) else c.isTooSmall,
       cosineDistance := if copyDistance then d.cosineDistance else c.cosineDistance)
  }

  /** The chunk list after chunk `id` is merged into chunk `nb` and popped. */
  function Merged(chunks: seq<Chunk>, id: int, nb: int, minSize: int, copyDistance: bool): (r: seq<Chunk>)
    requires 0 <= id < |chunks| && 0 <= nb < |chunks| && id != nb
    ensures |r| == |chunks| - 1
  {
    var u := chunks[nb := Absorbed(chunks[nb], chunks[id], minSize, copyDistance)];
    u[..id] + u[id + 1..]
  }

  lemma {:induction false} SumSizesAt(cs: seq<Chunk>, p: int)
    requires 0 <= p < |cs|
    ensures SumSizes(cs) == SumSizes(cs[..p]) + cs[p].size + SumSizes(cs[p + 1..])
  {
    SumSizesAppend(cs[..p] + [cs[p]], cs[p + 1..]);
    SumSizesAppend(cs[..p], [cs[p]]);
    assert [cs[p]][..0] == [];
    assert cs[..p] + [cs[p]] + cs[p + 1..] == cs;
  }

  /** A merge keeps the total size of the chunks. */
  lemma MergedSizes(chunks: seq<Chunk>, id: int, nb: int, minSize: int, copyDistance: bool)
    requires 0 <= id < |chunks| && 0 <= nb < |chunks| && id != nb
    ensures SumSizes(Merged(chunks, id, nb, minSize, copyDistance)) == SumSizes(chunks)
  {
    var u := chunks[nb := Absorbed(chunks[nb], chunks[id], minSize, copyDistance)];
    SumSizesAt(chunks, nb);
    SumSizesAt(u, nb);
    assert u[..nb] == chunks[..nb] && u[nb + 1..] == chunks[nb + 1..];
    SumSizesAt(u, id);
    SumSizesAppend(u[..id], u[id + 1..]);
  }

  /** One merge, as both passes write it out. */
  method Merge(s: seq<CombinedSentence>, chunks: seq<Chunk>, id: int, nb: int, minSize: int, copyDistance: bool)
    returns (s': seq<CombinedSentence>, chunks': seq<Chunk>)
    requires 0 <= id < |chunks| && 0 <= nb < |chunks| && id != nb
    ensures s' == Moved(s, chunks[id].chunkIndex, chunks[nb].chunkIndex)
    ensures chunks' == Merged(chunks, id, nb, minSize, copyDistance)
  {
    s' := Relabel(s, chunks[id].chunkIndex, chunks[nb].chunkIndex);
    chunks' := chunks[nb := chunks[nb].(size := chunks[nb].size + chunks[id].size)];
    if chunks'[nb].size >= minSize {
      chunks' := chunks'[nb := chunks'[nb].(isTooSmall := Some(false))];
    }
    if copyDistance {
      chunks' := chunks'[nb := chunks'[nb].(cosineDistance := chunks[id].cosineDistance)];
    }
    chunks' := chunks'[..id] + chunks'[id + 1..];
  }

  /**
   * The state the passes keep: the chunks partition the sentences, their
   * indices are distinct, and each flag says whether its size is below
   * `minSize`.
   */
  ghost predicate Tidy(s: seq<CombinedSentence>, chunks: seq<Chunk>, b: seq<int>, minSize: int)
  {
    PartitionedBy(s, chunks, b) && DistinctIndices(chunks)
    && forall k :: 0 <= k < |chunks| ==> chunks[k].isTooSmall == Some(chunks[k].size < minSize)
  }

  /** Every chunk has a distance. */
  predicate Measured(chunks: seq<Chunk>)
  {
    forall k :: 0 <= k < |chunks| ==> chunks[k].cosineDistance.Some?
  }

  /** No chunk is flagged too small. */
  predicate NoneTooSmall(chunks: seq<Chunk>)
  {
    forall k :: 0 <= k < |chunks| ==> !IsSet(chunks[k].isTooSmall)
  }

  /**
   * `t` is `s` with only chunk indices changed, and sentences that shared an
   * index still share one: chunks are fused, never cut.
   */
  predicate Fused(s: seq<CombinedSentence>, t: seq<CombinedSentence>)
  {
    && |t| == |s|
    && (forall j :: 0 <= j < |s| ==> t[j] == s[j].(chunkIndex := t[j].chunkIndex))
    && forall j, l :: 0 <= j < |s| && 0 <= l < |s| && s[j].chunkIndex == s[l].chunkIndex ==>
         t[j].chunkIndex == t[l].chunkIndex
  }

  /** Relabelling one chunk fuses it into another and cuts none. */
  lemma MovedFused(s: seq<CombinedSentence>, from: int, to: int)
    ensures Fused(s, Moved(s, from, to))
  {
  }

  /** A sentence list with its chunk indices unchanged is fused from itself. */
  lemma FusedSelf(s: seq<CombinedSentence>)
    ensures Fused(s, s)
  {
    forall j | 0 <= j < |s|
      ensures s[j] == s[j].(chunkIndex := s[j].chunkIndex)
    {
    }
  }

  lemma FusedTrans(a: seq<CombinedSentence>, b: seq<CombinedSentence>, c: seq<CombinedSentence>)
    requires Fused(a, b) && Fused(b, c)
    ensures Fused(a, c)
  {
  }

  /** The merged list, read position by position. */
  lemma MergedAt(chunks: seq<Chunk>, id: int, nb: int, minSize: int, copyDistance: bool, m: int)
    requires 0 <= id < |chunks| && 0 <= nb < |chunks| && id != nb && 0 <= m < |chunks| - 1
    ensures var p := if m < id then m else m + 1;
            Merged(chunks, id, nb, minSize, copyDistance)[m]
              == if p == nb then Absorbed(chunks[nb], chunks[id], minSize, copyDistance) else chunks[p]
  {
  }

  /** Merging neighbours `k` and `k + 1` leaves one chunk in their place. */
  lemma MergedShape(chunks: seq<Chunk>, id: int, nb: int, minSize: int, copyDistance: bool, k: int)
    requires 0 <= k && k + 1 < |chunks|
    requires (id == k && nb == k + 1) || (id == k + 1 && nb == k)
    ensures Merged(chunks, id, nb, minSize, copyDistance)
              == chunks[..k] + [Absorbed(chunks[nb], chunks[id], minSize, copyDistance)] + chunks[k + 2..]
  {
    var r := Merged(chunks, id, nb, minSize, copyDistance);
    var x := Absorbed(chunks[nb], chunks[id], minSize, copyDistance);
    forall m | 0 <= m < |r|
      ensures r[m] == (chunks[..k] + [x] + chunks[k + 2..])[m]
    {
      MergedAt(chunks, id, nb, minSize, copyDistance, m);
    }
  }

  /** Relabelling chunk `id`'s sentences under a partition leaves every block but `id` alone. */
  lemma MovedOutside(s: seq<CombinedSentence>, chunks: seq<Chunk>, b: seq<int>, k: int, id: int, nb: int)
    requires PartitionedBy(s, chunks, b) && DistinctIndices(chunks) && 0 <= k && k + 1 < |chunks|
    requires (id == k && nb == k + 1) || (id == k + 1 && nb == k)
    ensures var t := Moved(s, chunks[id].chunkIndex, chunks[nb].chunkIndex);
            forall j :: 0 <= j < |s| && (j < b[k] || b[k + 2] <= j) ==> t[j] == s[j]
  {
    var t := Moved(s, chunks[id].chunkIndex, chunks[nb].chunkIndex);
    forall j | 0 <= j < |s| && (j < b[k] || b[k + 2] <= j)
      ensures t[j] == s[j]
    {
      var m := BlockOf(b, |chunks|, |s|, j);
      if m < k {
        assert b[m + 1] <= b[k];
      } else {
        assert b[k + 2] <= b[m];
      }
    }
  }

  /**
   * Relabelling chunk `id`'s sentences to neighbour `nb` under a partition
   * touches only the two neighbouring blocks, which become one block.
   */
  lemma MovedBlocks(s: seq<CombinedSentence>, chunks: seq<Chunk>, b: seq<int>, k: int, id: int, nb: int, x: Chunk)
    requires PartitionedBy(s, chunks, b) && DistinctIndices(chunks) && 0 <= k && k + 1 < |chunks|
    requires (id == k && nb == k + 1) || (id == k + 1 && nb == k)
    requires x.chunkIndex == chunks[nb].chunkIndex && x.size == chunks[k].size + chunks[k + 1].size
    ensures var t := Moved(s, chunks[id].chunkIndex, chunks[nb].chunkIndex);
            t == s[..b[k]] + t[b[k]..b[k + 2]] + s[b[k + 2]..] && OneBlock(t[b[k]..b[k + 2]], x)
  {
    var t := Moved(s, chunks[id].chunkIndex, chunks[nb].chunkIndex);
    var u := t[b[k]..b[k + 2]];
    assert b[k] < b[k + 1] < b[k + 2];
    assert t == s[..b[k]] + u + s[b[k + 2]..] by {
      MovedOutside(s, chunks, b, k, id, nb);
    }
    assert forall j :: 0 <= j < |u| ==> u[j].chunkIndex == Some(x.chunkIndex) by {
      forall j | b[k] <= j < b[k + 2]
        ensures t[j].chunkIndex == Some(x.chunkIndex)
      {
        if j < b[k + 1] {
          assert s[j].chunkIndex == Some(chunks[k].chunkIndex);
        } else {
          assert s[j].chunkIndex == Some(chunks[k + 1].chunkIndex);
        }
      }
    }
    assert x.size == SumLen(u) by {
      SumLenSplit(s, b[k], b[k + 1], b[k + 2]);
      MovedTexts(s, chunks[id].chunkIndex, chunks[nb].chunkIndex, b[k], b[k + 2]);
      SumLenSameTexts(s[b[k]..b[k + 2]], u);
    }
  }

  /** Relabelling keeps the texts of every slice. */
  lemma MovedTexts(s: seq<CombinedSentence>, from: int, to: int, lo: int, hi: int)
    requires 0 <= lo <= hi <= |s|
    ensures SameTexts(s[lo..hi], Moved(s, from, to)[lo..hi])
  {
    var t := Moved(s, from, to);
    forall j | 0 <= j < hi - lo
      ensures t[lo..hi][j].sentence == s[lo..hi][j].sentence
    {
      assert t[lo..hi][j] == t[lo + j];
    }
  }

  /** No two chunks share an index after two neighbours are fused under one of their indices. */
  lemma FusedDistinct(chunks: seq<Chunk>, k: int, x: Chunk)
    requires DistinctIndices(chunks) && 0 <= k && k + 1 < |chunks|
    requires x.chunkIndex == chunks[k].chunkIndex || x.chunkIndex == chunks[k + 1].chunkIndex
    ensures DistinctIndices(chunks[..k] + [x] + chunks[k + 2..])
  {
    var r := chunks[..k] + [x] + chunks[k + 2..];
    forall m, l | 0 <= m < l < |r|
      ensures r[m].chunkIndex != r[l].chunkIndex
    {
      var pm := if m < k then m else m + 1;
      var pl := if l < k then l else l + 1;
      if m != k && l != k {
        assert r[m] == chunks[pm] && r[l] == chunks[pl];
      } else if m == k {
        assert r[l] == chunks[l + 1];
      } else {
        assert r[m] == chunks[m];
      }
    }
  }

  /**
   * A merge of two neighbours keeps the state: the sentences are relabelled
   * exactly on the absorbed block, the sizes add up, one chunk disappears,
   * and the flag of the merged chunk still says whether it is below `minSize`.
   */
  lemma MergeTidy(s: seq<CombinedSentence>, chunks: seq<Chunk>, b: seq<int>, minSize: int,
                  id: int, nb: int, copyDistance: bool) returns (b': seq<int>)
    requires Tidy(s, chunks, b, minSize)
    requires 0 <= id < |chunks| && 0 <= nb < |chunks| && (nb == id + 1 || id == nb + 1)
    ensures Tidy(Moved(s, chunks[id].chunkIndex, chunks[nb].chunkIndex),
                 Merged(chunks, id, nb, minSize, copyDistance), b', minSize)
  {
    var k := if id < nb then id else nb;
    var x := Absorbed(chunks[nb], chunks[id], minSize, copyDistance);
    var t := Moved(s, chunks[id].chunkIndex, chunks[nb].chunkIndex);
    MergedShape(chunks, id, nb, minSize, copyDistance, k);
    MovedBlocks(s, chunks, b, k, id, nb, x);
    b' := PartitionMerge(s, chunks, b, k, t[b[k]..b[k + 2]], x);
    FusedDistinct(chunks, k, x);
    assert chunks[id].size >= 0 by {
      assert chunks[id].size == SumLen(s[b[id]..b[id + 1]]);
    }
  }

  // ---------------------------------------------------------------------
  // The boundary pass (enhance_size.py:13-65)
  // ---------------------------------------------------------------------

  /**
   * What the boundary pass computes: while two or more chunks remain, a
   * too-small first chunk goes into the second, else a too-small last chunk
   * goes into the one before it; it stops at one chunk or when neither end
   * is too small.
   */
  function Boundary(s: seq<CombinedSentence>, chunks: seq<Chunk>, minSize: int)
    : (seq<CombinedSentence>, seq<Chunk>)
    decreases |chunks|
  {
    var n := |chunks|;
    if n <= 1 then (s, chunks)
    else if IsSet(chunks[0].isTooSmall) then
      Boundary(Moved(s, chunks[0].chunkIndex, chunks[1].chunkIndex), Merged(chunks, 0, 1, minSize, false), minSize)
    else if IsSet(chunks[n - 1].isTooSmall) then
      Boundary(Moved(s, chunks[n - 1].chunkIndex, chunks[n - 2].chunkIndex),
               Merged(chunks, n - 1, n - 2, minSize, false), minSize)
    else (s, chunks)
  }

  /** `_handle_boundary_chunks`. */
  method BoundaryPass(s: seq<CombinedSentence>, chunks: seq<Chunk>, minSize: int)
    returns (s': seq<CombinedSentence>, chunks': seq<Chunk>)
    ensures (s', chunks') == Boundary(s, chunks, minSize)
  {
    s', chunks' := s, chunks;
    var done := false;
    while !done
      invariant Boundary(s', chunks', minSize) == Boundary(s, chunks, minSize)
      invariant done ==> (s', chunks') == Boundary(s', chunks', minSize)
      decreases |chunks'|, !done
    {
      var n := |chunks'|;
      if n <= 1 {
        done := true;
      } else if IsSet(chunks'[0].isTooSmall) {
        s', chunks' := Merge(s', chunks', 0, 1, minSize, false);
      } else if IsSet(chunks'[n - 1].isTooSmall) {
        // the source's self-assignment of the neighbour's distance changes nothing
        s', chunks' := Merge(s', chunks', n - 1, n - 2, minSize, false);
      } else {
        done := true;
      }
    }
  }

  /**
   * The boundary pass leaves at most one chunk or two ends that are not too
   * small, keeps at least one chunk, keeps every chunk's distance, and
   * changes nothing when no chunk is too small.
   */
  lemma BoundaryShape(s: seq<CombinedSentence>, chunks: seq<Chunk>, minSize: int)
    ensures var c := Boundary(s, chunks, minSize).1;
            && |c| <= |chunks| && (|chunks| > 0 ==> |c| > 0)
            && (|c| <= 1 || (!IsSet(c[0].isTooSmall) && !IsSet(c[|c| - 1].isTooSmall)))
            && (Measured(chunks) ==> Measured(c))
    ensures NoneTooSmall(chunks) ==> Boundary(s, chunks, minSize) == (s, chunks)
  {
    BoundaryEnds(s, chunks, minSize);
    if Measured(chunks) {
      BoundaryMeasured(s, chunks, minSize);
    }
  }

  /** The boundary pass keeps at least one chunk and leaves no too-small end behind. */
  lemma {:induction false} BoundaryEnds(s: seq<CombinedSentence>, chunks: seq<Chunk>, minSize: int)
    ensures var c := Boundary(s, chunks, minSize).1;
            && |c| <= |chunks| && (|chunks| > 0 ==> |c| > 0)
            && (|c| <= 1 || (!IsSet(c[0].isTooSmall) && !IsSet(c[|c| - 1].isTooSmall)))
    decreases |chunks|
  {
    var n := |chunks|;
    if n <= 1 {
    } else if IsSet(chunks[0].isTooSmall) {
      BoundaryEnds(Moved(s, chunks[0].chunkIndex, chunks[1].chunkIndex), Merged(chunks, 0, 1, minSize, false), minSize);
    } else if IsSet(chunks[n - 1].isTooSmall) {
      BoundaryEnds(Moved(s, chunks[n - 1].chunkIndex, chunks[n - 2].chunkIndex),
                   Merged(chunks, n - 1, n - 2, minSize, false), minSize);
    }
  }

  /** A merge keeps every chunk's distance. */
  lemma MergedMeasured(chunks: seq<Chunk>, id: int, nb: int, minSize: int, copyDistance: bool)
    requires 0 <= id < |chunks| && 0 <= nb < |chunks| && id != nb && Measured(chunks)
    ensures Measured(Merged(chunks, id, nb, minSize, copyDistance))
  {
    var c := Merged(chunks, id, nb, minSize, copyDistance);
    forall m | 0 <= m < |c|
      ensures c[m].cosineDistance.Some?
    {
      MergedAt(chunks, id, nb, minSize, copyDistance, m);
    }
  }

  /** The boundary pass keeps every chunk's distance. */
  lemma {:induction false} BoundaryMeasured(s: seq<CombinedSentence>, chunks: seq<Chunk>, minSize: int)
    requires Measured(chunks)
    ensures Measured(Boundary(s, chunks, minSize).1)
    decreases |chunks|
  {
    var n := |chunks|;
    if n <= 1 {
    } else if IsSet(chunks[0].isTooSmall) {
      MergedMeasured(chunks, 0, 1, minSize, false);
      BoundaryMeasured(Moved(s, chunks[0].chunkIndex, chunks[1].chunkIndex), Merged(chunks, 0, 1, minSize, false), minSize);
    } else if IsSet(chunks[n - 1].isTooSmall) {
      MergedMeasured(chunks, n - 1, n - 2, minSize, false);
      BoundaryMeasured(Moved(s, chunks[n - 1].chunkIndex, chunks[n - 2].chunkIndex),
                       Merged(chunks, n - 1, n - 2, minSize, false), minSize);
    }
  }

  /** The boundary pass keeps the state, and fuses chunks without cutting any. */
  lemma {:induction false} BoundaryTidy(s: seq<CombinedSentence>, chunks: seq<Chunk>, b: seq<int>, minSize: int)
    returns (b': seq<int>)
    requires Tidy(s, chunks, b, minSize)
    ensures var p := Boundary(s, chunks, minSize); Tidy(p.0, p.1, b', minSize) && Fused(s, p.0)
    decreases |chunks|, 1
  {
    var n := |chunks|;
    if n <= 1 {
      b' := b;
      FusedSelf(s);
    } else if IsSet(chunks[0].isTooSmall) {
      assert Boundary(s, chunks, minSize)
               == Boundary(Moved(s, chunks[0].chunkIndex, chunks[1].chunkIndex), Merged(chunks, 0, 1, minSize, false), minSize);
      b' := BoundaryTidyMerge(s, chunks, b, minSize, 0, 1);
    } else if IsSet(chunks[n - 1].isTooSmall) {
      assert Boundary(s, chunks, minSize)
               == Boundary(Moved(s, chunks[n - 1].chunkIndex, chunks[n - 2].chunkIndex),
                           Merged(chunks, n - 1, n - 2, minSize, false), minSize);
      b' := BoundaryTidyMerge(s, chunks, b, minSize, n - 1, n - 2);
    } else {
      b' := b;
      FusedSelf(s);
    }
  }

  /** One merge at an end, then the rest of the boundary pass, keeps the state and fuses without cutting. */
  lemma {:induction false} BoundaryTidyMerge(s: seq<CombinedSentence>, chunks: seq<Chunk>, b: seq<int>, minSize: int,
                                             id: int, nb: int) returns (b': seq<int>)
    requires Tidy(s, chunks, b, minSize)
    requires 0 <= id < |chunks| && 0 <= nb < |chunks| && (nb == id + 1 || id == nb + 1)
    ensures var t := Moved(s, chunks[id].chunkIndex, chunks[nb].chunkIndex);
            var p := Boundary(t, Merged(chunks, id, nb, minSize, false), minSize);
            Tidy(p.0, p.1, b', minSize) && Fused(s, p.0)
    decreases |chunks|, 0
  {
    var t := Moved(s, chunks[id].chunkIndex, chunks[nb].chunkIndex);
    var c := Merged(chunks, id, nb, minSize, false);
    var b1 := MergeTidy(s, chunks, b, minSize, id, nb, false);
    b' := BoundaryTidy(t, c, b1, minSize);
    MovedFused(s, chunks[id].chunkIndex, chunks[nb].chunkIndex);
    FusedTrans(s, t, Boundary(t, c, minSize).0);
  }

  // ---------------------------------------------------------------------
  // The interior pass (enhance_size.py:67-115)
  // ---------------------------------------------------------------------

  /**
   * What the interior pass computes from position `i` on. A chunk that is
   * not too small is passed over. A too-small chunk is merged into its left
   * neighbour when the left distance is at most the right one (ties go
   * left), taking along its own distance, and otherwise into its right
   * neighbour; the position stays where it is. The left neighbour of the
   * first chunk is, as Python's `chunks[-1]`, the last chunk. A too-small
   * last chunk has no right neighbour (IndexError), and a missing distance
   * cannot be compared (TypeError).
   */
  function Interior(s: seq<CombinedSentence>, chunks: seq<Chunk>, i: nat, minSize: int)
    : Result<(seq<CombinedSentence>, seq<Chunk>)>
    decreases |chunks|, |chunks| - i
  {
    if i >= |chunks| then Ok((s, chunks))
    else if !IsSet(chunks[i].isTooSmall) then Interior(s, chunks, i + 1, minSize)
    else if i + 1 >= |chunks| then Err(IndexError)
    else
      var left := if i == 0 then |chunks| - 1 else i - 1;
      var dl, dr := chunks[left].cosineDistance, chunks[i + 1].cosineDistance;
      if dl.None? || dr.None? then Err(TypeError)
      else
        var toLeft := dl.value <= dr.value;
        var nb := if toLeft then left else i + 1;
        Interior(Moved(s, chunks[i].chunkIndex, chunks[nb].chunkIndex),
                 Merged(chunks, i, nb, minSize, toLeft), i, minSize)
  }

  /** `_handle_interior_chunks`. */
  method InteriorPass(s: seq<CombinedSentence>, chunks: seq<Chunk>, minSize: int)
    returns (r: Result<(seq<CombinedSentence>, seq<Chunk>)>)
    ensures r == Interior(s, chunks, 0, minSize)
  {
    var s', chunks' := s, chunks;
    var i := 0;
    while i < |chunks'|
      invariant 0 <= i <= |chunks'|
      invariant Interior(s', chunks', i, minSize) == Interior(s, chunks, 0, minSize)
      decreases |chunks'|, |chunks'| - i
    {
      if IsSet(chunks'[i].isTooSmall) {
        var left := if i == 0 then |chunks'| - 1 else i - 1;
        if i + 1 >= |chunks'| {
          return Err(IndexError);
        }
        var dl, dr := chunks'[left].cosineDistance, chunks'[i + 1].cosineDistance;
        if dl.None? || dr.None? {
          return Err(TypeError);
        }
        var toLeft := dl.value <= dr.value;
        var nb := if toLeft then left else i + 1;
        s', chunks' := Merge(s', chunks', i, nb, minSize, toLeft);
      } else {
        i := i + 1;
      }
    }
    r := Ok((s', chunks'));
  }

  /** Nothing too small from position `i` on: the interior pass changes nothing. */
  lemma {:induction false} InteriorIdle(s: seq<CombinedSentence>, chunks: seq<Chunk>, i: nat, minSize: int)
    requires i <= |chunks| && forall k :: i <= k < |chunks| ==> !IsSet(chunks[k].isTooSmall)
    ensures Interior(s, chunks, i, minSize) == Ok((s, chunks))
    decreases |chunks| - i
  {
    if i < |chunks| {
      InteriorIdle(s, chunks, i + 1, minSize);
    }
  }

  /**
   * The interior pass may start at `i`: at least two chunks, all with a
   * distance, neither end too small, and nothing too small before `i`.
   */
  ghost predicate Ready(chunks: seq<Chunk>, i: int)
  {
    && |chunks| >= 2 && 0 <= i <= |chunks| && Measured(chunks)
    && !IsSet(chunks[0].isTooSmall) && !IsSet(chunks[|chunks| - 1].isTooSmall)
    && forall k :: 0 <= k < i ==> !IsSet(chunks[k].isTooSmall)
  }

  /**
   * From a ready state the interior pass succeeds, leaves two or more chunks
   * none of which is too small, fuses chunks without cutting any, and keeps
   * the state.
   */
  lemma {:induction false} InteriorSettles(s: seq<CombinedSentence>, chunks: seq<Chunk>, i: nat,
                                           b: seq<int>, minSize: int) returns (b': seq<int>)
    requires Ready(chunks, i)
    ensures var r := Interior(s, chunks, i, minSize);
            && r.Ok? && |r.value.1| >= 2 && NoneTooSmall(r.value.1) && Measured(r.value.1)
            && Fused(s, r.value.0)
            && (Tidy(s, chunks, b, minSize) ==> Tidy(r.value.0, r.value.1, b', minSize))
    decreases |chunks|, |chunks| - i, 1
  {
    var n := |chunks|;
    if i == n {
      b' := b;
      FusedSelf(s);
    } else if !IsSet(chunks[i].isTooSmall) {
      b' := InteriorSettles(s, chunks, i + 1, b, minSize);
    } else {
      var toLeft, nb := InteriorStep(s, chunks, i, minSize);
      b' := InteriorSettlesMerge(s, chunks, i, b, minSize, nb, toLeft);
    }
  }

  /**
   * A too-small chunk at `i` of a ready state lies inside the list and is
   * merged into the neighbour with the smaller distance, which leaves a
   * ready state at `i`.
   */
  lemma InteriorStep(s: seq<CombinedSentence>, chunks: seq<Chunk>, i: nat, minSize: int)
    returns (toLeft: bool, nb: int)
    requires Ready(chunks, i) && i < |chunks| && IsSet(chunks[i].isTooSmall)
    ensures 1 <= i < |chunks| - 1 && nb == (if toLeft then i - 1 else i + 1)
    ensures Ready(Merged(chunks, i, nb, minSize, toLeft), i)
    ensures Interior(s, chunks, i, minSize)
              == Interior(Moved(s, chunks[i].chunkIndex, chunks[nb].chunkIndex), Merged(chunks, i, nb, minSize, toLeft), i, minSize)
  {
    toLeft := chunks[i - 1].cosineDistance.value <= chunks[i + 1].cosineDistance.value;
    nb := if toLeft then i - 1 else i + 1;
    var c := Merged(chunks, i, nb, minSize, toLeft);
    forall m | 0 <= m < |c|
      ensures c[m].cosineDistance.Some?
      ensures !IsSet(chunks[if m < i then m else m + 1].isTooSmall) ==> !IsSet(c[m].isTooSmall)
    {
      MergedAt(chunks, i, nb, minSize, toLeft, m);
    }
  }

  /** One interior merge, then the rest of the interior pass, from a ready state. */
  lemma {:induction false} InteriorSettlesMerge(s: seq<CombinedSentence>, chunks: seq<Chunk>, i: nat,
                                                b: seq<int>, minSize: int, nb: int, toLeft: bool) returns (b': seq<int>)
    requires 0 <= i < |chunks| && 0 <= nb < |chunks| && (nb == i + 1 || i == nb + 1)
    requires Ready(Merged(chunks, i, nb, minSize, toLeft), i)
    ensures var t := Moved(s, chunks[i].chunkIndex, chunks[nb].chunkIndex);
            var r := Interior(t, Merged(chunks, i, nb, minSize, toLeft), i, minSize);
            && r.Ok? && |r.value.1| >= 2 && NoneTooSmall(r.value.1) && Measured(r.value.1)
            && Fused(s, r.value.0)
            && (Tidy(s, chunks, b, minSize) ==> Tidy(r.value.0, r.value.1, b', minSize))
    decreases |chunks|, 0, 0
  {
    var c := Merged(chunks, i, nb, minSize, toLeft);
    var t := Moved(s, chunks[i].chunkIndex, chunks[nb].chunkIndex);
    var b1 := b;
    if Tidy(s, chunks, b, minSize) {
      b1 := MergeTidy(s, chunks, b, minSize, i, nb, toLeft);
    }
    b' := InteriorSettles(t, c, i, b1, minSize);
    MovedFused(s, chunks[i].chunkIndex, chunks[nb].chunkIndex);
    FusedTrans(s, t, Interior(t, c, i, minSize).value.0);
  }

  // ---------------------------------------------------------------------
  // enhance_size (enhance_size.py:117-153)
  // ---------------------------------------------------------------------

  /**
   * The input `enhance_size` gets from the chunker: the chunks partition the
   * sentences with distinct indices, and every sentence has a distance.
   */
  ghost predicate WellFormed(s: seq<CombinedSentence>, chunks: seq<Chunk>, b: seq<int>)
  {
    PartitionedBy(s, chunks, b) && DistinctIndices(chunks) && AllMeasured(Distances(s))
  }

  /**
   * The promised result: the sentences of `s` with new chunk indices, no
   * chunk cut, partitioned by chunks numbered 1, 2, ... in sentence order,
   * each of size at least `minSize`, not flagged too small, and with a
   * distance.
   */
  ghost predicate Grown(s: seq<CombinedSentence>, minSize: int, ss: seq<CombinedSentence>, cs: seq<Chunk>, b: seq<int>)
  {
    && Fused(s, ss) && PartitionedBy(ss, cs, b)
    && forall k :: 0 <= k < |cs| ==>
         && cs[k].chunkIndex == k + 1 && cs[k].size >= minSize
         && cs[k].isTooSmall == Some(false) && cs[k].cosineDistance.Some?
  }

  /** Flagging keeps the partition and gives every chunk a distance and a flag that agrees with its size. */
  lemma FlaggedTidy(s: seq<CombinedSentence>, chunks: seq<Chunk>, b: seq<int>, minSize: int, c0: seq<Chunk>)
    requires WellFormed(s, chunks, b) && FlaggedAs(s, chunks, c0, minSize)
    ensures Tidy(s, c0, b, minSize) && Measured(c0)
    ensures (forall k :: 0 <= k < |chunks| ==> chunks[k].size >= minSize) ==> NoneTooSmall(c0)
  {
    forall k | 0 <= k < |c0|
      ensures c0[k].cosineDistance.Some?
    {
      var j :| 0 <= j < |s| && s[j].chunkIndex == Some(chunks[k].chunkIndex) && c0[k].cosineDistance == s[j].cosineDistance;
      assert Distances(s)[j] == s[j].cosineDistance;
    }
  }

  /** The boundary pass, then the interior pass from the first chunk. */
  function Passes(s: seq<CombinedSentence>, c0: seq<Chunk>, minSize: int): Result<(seq<CombinedSentence>, seq<Chunk>)>
  {
    var p := Boundary(s, c0, minSize);
    Interior(p.0, p.1, 0, minSize)
  }

  /**
   * The two passes on flagged chunks of a well-formed input: they fail, with
   * an IndexError, exactly when all the text together is shorter than
   * `minSize`; otherwise they leave a non-empty partition in which no chunk
   * is too small; and when no chunk was too small they change nothing.
   */
  lemma PassesOutcome(s: seq<CombinedSentence>, b: seq<int>, minSize: int, c0: seq<Chunk>)
    returns (b2: seq<int>)
    requires Tidy(s, c0, b, minSize) && Measured(c0) && |c0| > 0
    ensures var r := Passes(s, c0, minSize);
            && (r.Err? <==> SumLen(s) < minSize) && (r.Err? ==> r.error == IndexError)
            && (r.Ok? ==> && |r.value.1| > 0 && Tidy(r.value.0, r.value.1, b2, minSize)
                          && NoneTooSmall(r.value.1) && Measured(r.value.1) && Fused(s, r.value.0))
    ensures NoneTooSmall(c0) ==> Passes(s, c0, minSize) == Ok((s, c0))
  {
    var p := Boundary(s, c0, minSize);
    BoundaryShape(s, c0, minSize);
    var b1 := BoundaryTidy(s, c0, b, minSize);
    SumLenSameTexts(s, p.0);
    b2 := InteriorOutcome(s, p.0, p.1, b1, minSize);
    if NoneTooSmall(c0) {
      InteriorIdle(s, c0, 0, minSize);
    }
  }

  /**
   * The interior pass after the boundary pass: it fails, with an IndexError,
   * exactly when all the text is shorter than `minSize`, and otherwise keeps
   * the state and leaves no chunk too small.
   */
  lemma InteriorOutcome(s: seq<CombinedSentence>, t: seq<CombinedSentence>, c: seq<Chunk>, b: seq<int>, minSize: int)
    returns (b2: seq<int>)
    requires Tidy(t, c, b, minSize) && Measured(c) && |c| > 0 && Fused(s, t)
    requires |c| <= 1 || (!IsSet(c[0].isTooSmall) && !IsSet(c[|c| - 1].isTooSmall))
    ensures var r := Interior(t, c, 0, minSize);
            && (r.Err? <==> SumLen(t) < minSize) && (r.Err? ==> r.error == IndexError)
            && (r.Ok? ==> && |r.value.1| > 0 && Tidy(r.value.0, r.value.1, b2, minSize)
                          && NoneTooSmall(r.value.1) && Measured(r.value.1) && Fused(s, r.value.0))
  {
    assert t[0..|t|] == t;
    if |c| >= 2 {
      b2 := InteriorSettles(t, c, 0, b, minSize);
      var r := Interior(t, c, 0, minSize);
      SumLenSplit(t, 0, b[1], |t|);
      assert c[0].size >= minSize;
      FusedTrans(s, t, r.value.0);
    } else {
      b2 := b;
      if !IsSet(c[0].isTooSmall) {
        InteriorIdle(t, c, 0, minSize);
      }
    }
  }

  /**
   * The body of `enhance_size` before the renumbering: flag, then the
   * boundary pass, then the interior pass.
   */
  method FlagAndMerge(s: seq<CombinedSentence>, chunks: seq<Chunk>, minSize: int, ghost b: seq<int>)
    returns (r: Result<(seq<CombinedSentence>, seq<Chunk>)>, ghost b': seq<int>, ghost c0: seq<Chunk>)
    ensures (exists k :: 0 <= k < |chunks| && Some(chunks[k].chunkIndex) !in Indices(s)) ==> r == Err(KeyError)
    ensures (forall k :: 0 <= k < |chunks| ==> Some(chunks[k].chunkIndex) in Indices(s)) ==>
              FlaggedAs(s, chunks, c0, minSize) && r == Passes(s, c0, minSize)
    ensures chunks == [] ==> r == Ok((s, []))
    ensures WellFormed(s, chunks, b) && chunks != [] ==>
              && (r.Err? <==> SumLen(s) < minSize) && (r.Err? ==> r.error == IndexError)
              && (r.Ok? ==> && |r.value.1| > 0 && Tidy(r.value.0, r.value.1, b', minSize)
                            && NoneTooSmall(r.value.1) && Measured(r.value.1) && Fused(s, r.value.0))
    ensures WellFormed(s, chunks, b) && chunks != [] && (forall k :: 0 <= k < |chunks| ==> chunks[k].size >= minSize)
            ==> r.Ok? && r.value.0 == s && |r.value.1| == |chunks|
  {
    b' := b;
    ghost var wf := WellFormed(s, chunks, b) && chunks != [];
    if wf {
      PartitionCarried(s, chunks, b);
    }
    var flagged := FlagChunks(s, chunks, minSize);
    if flagged.Err? {
      return Err(KeyError), b', [];
    }
    c0 := flagged.value;
    if wf {
      FlaggedTidy(s, chunks, b, minSize, c0);
      b' := PassesOutcome(s, b, minSize, c0);
    }
    var s1, c1 := BoundaryPass(s, flagged.value, minSize);
    r := InteriorPass(s1, c1, minSize);
  }

  /**
   * `enhance_size`: flag and merge, then renumber. An unknown chunk index is
   * a KeyError; with no chunks the result is the unpacked sentence list. On a
   * well-formed input it fails, with an IndexError, exactly when the whole
   * text is shorter than `minSize`, and otherwise every chunk reaches
   * `minSize`; chunks that all reach `minSize` already are only renumbered.
   */
  method EnhanceSize(s: seq<CombinedSentence>, chunks: seq<Chunk>, minSize: int, ghost b: seq<int>)
    returns (r: Result<Enhanced>, ghost b': seq<int>, ghost c0: seq<Chunk>)
    ensures (exists k :: 0 <= k < |chunks| && Some(chunks[k].chunkIndex) !in Indices(s)) ==> r == Err(KeyError)
    ensures (forall k :: 0 <= k < |chunks| ==> Some(chunks[k].chunkIndex) in Indices(s)) ==>
              && FlaggedAs(s, chunks, c0, minSize)
              && (Passes(s, c0, minSize).Err? ==> r == Err(Passes(s, c0, minSize).error))
    ensures r.Ok? && r.value.Enhanced? ==>
              && FlaggedAs(s, chunks, c0, minSize) && Passes(s, c0, minSize).Ok?
              && var p := Passes(s, c0, minSize).value;
                 && (forall k :: 0 <= k < |p.1| ==> Some(p.1[k].chunkIndex) in Firsts(Indices(p.0)))
                 && ResetOf(p.0, p.1, r.value.sentences, r.value.chunks)
    ensures chunks == [] ==>
              r == if |s| == 2 then Ok(Unpacked(Renumbered(s)[0], Renumbered(s)[1])) else Err(ValueError)
    ensures WellFormed(s, chunks, b) && chunks != [] ==>
              && (r.Err? <==> SumLen(s) < minSize) && (r.Err? ==> r.error == IndexError)
              && (r.Ok? ==> r.value.Enhanced? && Grown(s, minSize, r.value.sentences, r.value.chunks, b'))
    ensures WellFormed(s, chunks, b) && chunks != [] && (forall k :: 0 <= k < |chunks| ==> chunks[k].size >= minSize)
            ==> r.Ok? && r.value.Enhanced? && r.value.sentences == Renumbered(s) && |r.value.chunks| == |chunks|
  {
    ghost var wf := WellFormed(s, chunks, b) && chunks != [];
    var merged;
    merged, b', c0 := FlagAndMerge(s, chunks, minSize, b);
    if merged.Err? {
      return Err(merged.error), b', c0;
    }
    var s2, c2 := merged.value.0, merged.value.1;
    if wf {
      PartitionCarried(s2, c2, b');
    }
    var reset := ResetChunkIndex(s2, Some(c2));
    if reset.Err? {
      return Err(reset.error), b', c0;
    }
    match reset.value {
      case SentencesOnly(ss) =>
        r := if |ss| == 2 then Ok(Unpacked(ss[0], ss[1])) else Err(ValueError);
      case WithChunks(ss, cs) =>
        r := Ok(Enhanced(ss, cs));
        if wf {
          GrownAfterReset(s, minSize, s2, c2, b', cs);
        }
    }
  }

  /** Every chunk index of a partition is carried by a sentence. */
  lemma PartitionCarried(s: seq<CombinedSentence>, chunks: seq<Chunk>, b: seq<int>)
    requires PartitionedBy(s, chunks, b)
    ensures forall k :: 0 <= k < |chunks| ==> Some(chunks[k].chunkIndex) in Indices(s)
  {
    forall k | 0 <= k < |chunks|
      ensures Some(chunks[k].chunkIndex) in Indices(s)
    {
      assert b[k] < b[k + 1] <= b[|chunks|];
      assert Indices(s)[b[k]] == Some(chunks[k].chunkIndex);
    }
  }

  /** Renumbering the result of the two passes gives the promised result. */
  lemma GrownAfterReset(s: seq<CombinedSentence>, minSize: int, s2: seq<CombinedSentence>, c2: seq<Chunk>,
                        b: seq<int>, cs: seq<Chunk>)
    requires Tidy(s2, c2, b, minSize) && NoneTooSmall(c2) && Measured(c2) && Fused(s, s2)
    requires forall k :: 0 <= k < |c2| ==> Some(c2[k].chunkIndex) in Firsts(Indices(s2))
    requires SortedByIndex(cs) && multiset(cs) == multiset(RenumberChunks(c2, Firsts(Indices(s2))))
    ensures Grown(s, minSize, Renumbered(s2), cs, b)
  {
    ResetOfPartition(s2, c2, c2, b, cs);
    var ss := Renumbered(s2);
    forall j, l | 0 <= j < |s| && 0 <= l < |s| && s[j].chunkIndex == s[l].chunkIndex
      ensures ss[j].chunkIndex == ss[l].chunkIndex
    {
      RenumberInjective(s2, j, l);
    }
  }
}
