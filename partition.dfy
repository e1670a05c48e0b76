/**
 * The relation the chunk passes keep between the sentence list and the
 * chunk list: the chunks, in list order, cut the sentences into contiguous
 * non-empty blocks; every sentence of block k carries chunk k's index; and
 * chunk k's size is the total length of the raw sentence texts of its block.
 */
module Partition {
  import opened Types
  import opened Seqs

  /** The total length of the raw sentence texts. */
  function SumLen(s: seq<CombinedSentence>): nat
  {
    if |s| == 0 then 0 else SumLen(s[..|s| - 1]) + |s[|s| - 1].sentence|
  }

  /** The sum of the chunk sizes. */
  function SumSizes(chunks: seq<Chunk>): int
  {
    if |chunks| == 0 then 0 else SumSizes(chunks[..|chunks| - 1]) + chunks[|chunks| - 1].size
  }

  lemma {:induction false} SumLenAppend(a: seq<CombinedSentence>, b: seq<CombinedSentence>)
    ensures SumLen(a + b) == SumLen(a) + SumLen(b)
    decreases |b|
  {
    if |b| > 0 {
      SumLenAppend(a, b[..|b| - 1]);
      InitOfAppend(a, b);
    } else {
      assert a + b == a;
    }
  }

  lemma {:induction false} SumSizesAppend(a: seq<Chunk>, b: seq<Chunk>)
    ensures SumSizes(a + b) == SumSizes(a) + SumSizes(b)
    decreases |b|
  {
    if |b| > 0 {
      SumSizesAppend(a, b[..|b| - 1]);
      InitOfAppend(a, b);
    } else {
      assert a + b == a;
    }
  }

  /** The sizes of a block split in two add up. */
  lemma SumLenSplit(s: seq<CombinedSentence>, lo: int, mid: int, hi: int)
    requires 0 <= lo <= mid <= hi <= |s|
    ensures SumLen(s[lo..hi]) == SumLen(s[lo..mid]) + SumLen(s[mid..hi])
  {
    SumLenAppend(s[lo..mid], s[mid..hi]);
    SliceSplit(s, lo, mid, hi);
  }

  /** A block is at least as long as any one of its sentences. */
  lemma {:induction false} SumLenAtLeast(s: seq<CombinedSentence>, j: int)
    requires 0 <= j < |s|
    ensures |s[j].sentence| <= SumLen(s)
    decreases |s|
  {
    if j < |s| - 1 {
      SumLenAtLeast(s[..|s| - 1], j);
    }
  }

  /** Same sentences in the same order, whatever their indices and flags. */
  predicate SameTexts(s: seq<CombinedSentence>, t: seq<CombinedSentence>)
  {
    |s| == |t| && forall j :: 0 <= j < |s| ==> t[j].sentence == s[j].sentence
  }

  lemma {:induction false} SumLenSameTexts(s: seq<CombinedSentence>, t: seq<CombinedSentence>)
    requires SameTexts(s, t)
    ensures SumLen(s) == SumLen(t)
    decreases |s|
  {
    if |s| > 0 {
      SumLenSameTexts(s[..|s| - 1], t[..|t| - 1]);
    }
  }

  /** Strictly increasing block bounds from 0 to `n`, one more than blocks. */
  predicate Bounds(b: seq<int>, blocks: int, n: int)
  {
    0 <= blocks && |b| == blocks + 1 && b[0] == 0 && b[blocks] == n
    && forall k, l :: 0 <= k < l < |b| ==> b[k] < b[l]
  }

  /** Every sentence of block k carries chunk k's index. */
  predicate Carries(s: seq<CombinedSentence>, chunks: seq<Chunk>, b: seq<int>)
    requires Bounds(b, |chunks|, |s|)
  {
    forall k, j :: 0 <= k < |chunks| && b[k] <= j < b[k + 1] ==> s[j].chunkIndex == Some(chunks[k].chunkIndex)
  }

  /** Chunk k's size is the total length of block k's raw sentence texts. */
  predicate Weighs(s: seq<CombinedSentence>, chunks: seq<Chunk>, b: seq<int>)
    requires Bounds(b, |chunks|, |s|)
  {
    forall k :: 0 <= k < |chunks| ==> chunks[k].size == SumLen(s[b[k]..b[k + 1]])
  }

  /** Chunk k covers exactly the sentences b[k] .. b[k+1] - 1, with their total length as size. */
  predicate PartitionedBy(s: seq<CombinedSentence>, chunks: seq<Chunk>, b: seq<int>)
  {
    Bounds(b, |chunks|, |s|) && Carries(s, chunks, b) && Weighs(s, chunks, b)
  }

  /** No two chunks share an index. */
  predicate DistinctIndices(chunks: seq<Chunk>)
  {
    forall k, l :: 0 <= k < l < |chunks| ==> chunks[k].chunkIndex != chunks[l].chunkIndex
  }

  /** The block that holds sentence `j`. */
  lemma {:induction false} BlockOf(b: seq<int>, blocks: int, n: int, j: int) returns (k: int)
    requires Bounds(b, blocks, n) && 0 <= j < n
    ensures 0 <= k < blocks && b[k] <= j < b[k + 1]
  {
    k := 0;
    while b[k + 1] <= j
      invariant 0 <= k < blocks && b[k] <= j
      decreases blocks - k
    {
      k := k + 1;
    }
  }

  /** The block that holds sentence `j`, which is no longer than that block's chunk. */
  lemma SentenceInBlock(s: seq<CombinedSentence>, chunks: seq<Chunk>, b: seq<int>, j: int) returns (k: int)
    requires PartitionedBy(s, chunks, b) && 0 <= j < |s|
    ensures 0 <= k < |chunks| && b[k] <= j < b[k + 1] && |s[j].sentence| <= chunks[k].size
  {
    k := BlockOf(b, |chunks|, |s|, j);
    SumLenAtLeast(s[b[k]..b[k + 1]], j - b[k]);
    assert s[b[k]..b[k + 1]][j - b[k]] == s[j];
  }

  /** No chunk is longer than the whole text. */
  lemma ChunkWithinTotal(s: seq<CombinedSentence>, chunks: seq<Chunk>, b: seq<int>, k: int)
    requires PartitionedBy(s, chunks, b) && 0 <= k < |chunks|
    ensures chunks[k].size <= SumLen(s)
  {
    assert 0 <= b[k] < b[k + 1] <= b[|chunks|];
    SumLenSplit(s, 0, b[k], |s|);
    SumLenSplit(s, b[k], b[k + 1], |s|);
    assert s[0..|s|] == s;
  }

  /** There are never more blocks than sentences. */
  lemma {:induction false} FewerBlocksThanSentences(b: seq<int>, blocks: int, n: int)
    requires Bounds(b, blocks, n)
    ensures blocks <= n
  {
    var k := 0;
    while k < blocks
      invariant 0 <= k <= blocks && k <= b[k]
    {
      k := k + 1;
    }
  }

  /** With distinct indices, the sentences carrying chunk k's index are exactly block k. */
  lemma BlockIsIndexClass(s: seq<CombinedSentence>, chunks: seq<Chunk>, b: seq<int>, k: int, j: int)
    requires PartitionedBy(s, chunks, b) && DistinctIndices(chunks)
    requires 0 <= k < |chunks| && 0 <= j < |s|
    ensures s[j].chunkIndex == Some(chunks[k].chunkIndex) <==> b[k] <= j < b[k + 1]
  {
    var q := BlockOf(b, |chunks|, |s|, j);
    if b[k] <= j < b[k + 1] {
      assert q == k;
    } else {
      assert chunks[q].chunkIndex != chunks[k].chunkIndex;
    }
  }

  /** The chunk sizes add up to the total sentence length. */
  lemma {:induction false} PartitionSizes(s: seq<CombinedSentence>, chunks: seq<Chunk>, b: seq<int>)
    requires PartitionedBy(s, chunks, b)
    ensures SumSizes(chunks) == SumLen(s)
  {
    var m := 0;
    while m < |chunks|
      invariant 0 <= m <= |chunks|
      invariant SumSizes(chunks[..m]) == SumLen(s[..b[m]])
    {
      SumLenSplit(s, 0, b[m], b[m + 1]);
      TakeTake(chunks, m, m + 1);
      m := m + 1;
    }
    assert chunks[..|chunks|] == chunks;
    assert s[..b[|chunks|]] == s;
  }

  /**
   * Every chunk is a contiguous run: two sentences with the same index have
   * only that index between them.
   */
  lemma {:induction false} PartitionRuns(s: seq<CombinedSentence>, chunks: seq<Chunk>, b: seq<int>,
                                         i: int, j: int, l: int)
    requires PartitionedBy(s, chunks, b) && DistinctIndices(chunks)
    requires 0 <= i <= j <= l < |s| && s[i].chunkIndex == s[l].chunkIndex
    ensures s[j].chunkIndex == s[i].chunkIndex
  {
    var k := BlockOf(b, |chunks|, |s|, i);
    BlockIsIndexClass(s, chunks, b, k, l);
    assert b[k] <= j < b[k + 1];
  }

  /** `u` is a non-empty block whose sentences all carry `c`'s index and whose texts add up to `c`'s size. */
  predicate OneBlock(u: seq<CombinedSentence>, c: Chunk)
  {
    |u| > 0 && c.size == SumLen(u) && forall j :: 0 <= j < |u| ==> u[j].chunkIndex == Some(c.chunkIndex)
  }

  /** Every bound moved by `d`. */
  function Shift(b: seq<int>, d: int): (r: seq<int>)
    ensures |r| == |b| && forall x :: 0 <= x < |b| ==> r[x] == b[x] + d
  {
    seq(|b|, x requires 0 <= x < |b| => b[x] + d)
  }

  /** The bounds of two partitions laid end to end: the second's moved past the first's sentences. */
  function Joined(b: seq<int>, e: seq<int>, n: int): seq<int>
    requires |e| > 0
  {
    b + Shift(e[1..], n)
  }

  lemma JoinedAt(b: seq<int>, blocks: int, n: int, e: seq<int>, m: int)
    requires Bounds(b, blocks, n) && |e| > 0 && e[0] == 0 && 0 <= m < |e|
    ensures Joined(b, e, n)[blocks + m] == e[m] + n
  {
  }

  lemma ConcatBounds(b: seq<int>, nc: int, nt: int, e: seq<int>, nd: int, nu: int)
    requires Bounds(b, nc, nt) && Bounds(e, nd, nu)
    ensures Bounds(Joined(b, e, nt), nc + nd, nt + nu)
  {
    var b' := Joined(b, e, nt);
    forall k, l | 0 <= k < l < |b'|
      ensures b'[k] < b'[l]
    {
      if l > nc {
        JoinedAt(b, nc, nt, e, l - nc);
        if k >= nc {
          JoinedAt(b, nc, nt, e, k - nc);
          assert e[k - nc] < e[l - nc];
        } else {
          assert b'[k] == b[k] <= b[nc];
          assert e[0] < e[l - nc];
        }
      }
    }
    JoinedAt(b, nc, nt, e, nd);
  }

  lemma ConcatCarries(t: seq<CombinedSentence>, c: seq<Chunk>, b: seq<int>,
                      u: seq<CombinedSentence>, d: seq<Chunk>, e: seq<int>)
    requires Bounds(b, |c|, |t|) && Bounds(e, |d|, |u|) && Carries(t, c, b) && Carries(u, d, e)
    requires Bounds(Joined(b, e, |t|), |c + d|, |t + u|)
    ensures Carries(t + u, c + d, Joined(b, e, |t|))
  {
    var t', cs, b' := t + u, c + d, Joined(b, e, |t|);
    var n := |c|;
    forall k, j | 0 <= k < |cs| && b'[k] <= j < b'[k + 1]
      ensures t'[j].chunkIndex == Some(cs[k].chunkIndex)
    {
      if k < n {
        assert b'[k + 1] == b[k + 1] <= b[n];
        assert t'[j] == t[j];
      } else {
        JoinedAt(b, n, |t|, e, k - n);
        JoinedAt(b, n, |t|, e, k - n + 1);
        assert t'[j] == u[j - |t|];
      }
    }
  }

  lemma ConcatWeighs(t: seq<CombinedSentence>, c: seq<Chunk>, b: seq<int>,
                     u: seq<CombinedSentence>, d: seq<Chunk>, e: seq<int>)
    requires Bounds(b, |c|, |t|) && Bounds(e, |d|, |u|) && Weighs(t, c, b) && Weighs(u, d, e)
    requires Bounds(Joined(b, e, |t|), |c + d|, |t + u|)
    ensures Weighs(t + u, c + d, Joined(b, e, |t|))
  {
    var t', cs, b' := t + u, c + d, Joined(b, e, |t|);
    var n := |c|;
    forall k | 0 <= k < |cs|
      ensures cs[k].size == SumLen(t'[b'[k]..b'[k + 1]])
    {
      if k < n {
        assert b'[k + 1] == b[k + 1] <= b[n];
        SliceAppendLeft(t, u, b[k], b[k + 1]);
      } else {
        JoinedAt(b, n, |t|, e, k - n);
        JoinedAt(b, n, |t|, e, k - n + 1);
        SliceAppendRight(t, u, b'[k], b'[k + 1]);
      }
    }
  }

  /** Two partitions laid end to end partition the concatenation. */
  lemma PartitionConcat(t: seq<CombinedSentence>, c: seq<Chunk>, b: seq<int>,
                        u: seq<CombinedSentence>, d: seq<Chunk>, e: seq<int>)
    requires PartitionedBy(t, c, b) && PartitionedBy(u, d, e)
    ensures PartitionedBy(t + u, c + d, Joined(b, e, |t|))
  {
    ConcatBounds(b, |c|, |t|, e, |d|, |u|);
    ConcatCarries(t, c, b, u, d, e);
    ConcatWeighs(t, c, b, u, d, e);
  }

  /** One more block extends a partition. */
  lemma PartitionExtend(t: seq<CombinedSentence>, chunks: seq<Chunk>, b: seq<int>, u: seq<CombinedSentence>, c: Chunk)
    requires PartitionedBy(t, chunks, b) && OneBlock(u, c)
    ensures PartitionedBy(t + u, chunks + [c], b + [|t| + |u|])
  {
    OneBlockPartition(u, c);
    PartitionConcat(t, chunks, b, u, [c], [0, |u|]);
    JoinedOne(b, |t|, |u|);
  }

  /** A single block is a partition with one chunk. */
  lemma OneBlockPartition(u: seq<CombinedSentence>, c: Chunk)
    requires OneBlock(u, c)
    ensures PartitionedBy(u, [c], [0, |u|])
  {
    assert u[0..|u|] == u;
  }

  /** Joining the bounds of a single block adds its end. */
  lemma JoinedOne(b: seq<int>, n: int, m: int)
    ensures Joined(b, [0, m], n) == b + [n + m]
  {
    assert [0, m][1..] == [m];
    assert Shift([m], n) == [n + m];
  }

  /** The first `k` blocks partition the sentences before block `k`. */
  lemma PartitionTake(s: seq<CombinedSentence>, cs: seq<Chunk>, b: seq<int>, k: int)
    requires PartitionedBy(s, cs, b) && 0 <= k <= |cs|
    ensures PartitionedBy(s[..b[k]], cs[..k], b[..k + 1])
  {
    var t := s[..b[k]];
    forall l, j | 0 <= l < k && b[l] <= j < b[l + 1]
      ensures t[j].chunkIndex == Some(cs[l].chunkIndex)
    {
      assert b[l + 1] <= b[k];
    }
    forall l | 0 <= l < k
      ensures cs[l].size == SumLen(t[b[l]..b[l + 1]])
    {
      assert b[l + 1] <= b[k];
      SliceOfTake(s, b[l], b[l + 1], b[k]);
    }
  }

  lemma DropBounds(b: seq<int>, blocks: int, n: int, k: int)
    requires Bounds(b, blocks, n) && 0 <= k <= blocks
    ensures Bounds(Shift(b[k..], -b[k]), blocks - k, n - b[k])
  {
  }

  lemma DropCarries(s: seq<CombinedSentence>, cs: seq<Chunk>, b: seq<int>, k: int)
    requires Bounds(b, |cs|, |s|) && Carries(s, cs, b) && 0 <= k <= |cs|
    requires Bounds(Shift(b[k..], -b[k]), |cs[k..]|, |s[b[k]..]|)
    ensures Carries(s[b[k]..], cs[k..], Shift(b[k..], -b[k]))
  {
    var t, e := s[b[k]..], Shift(b[k..], -b[k]);
    forall l, j | 0 <= l < |cs| - k && e[l] <= j < e[l + 1]
      ensures t[j].chunkIndex == Some(cs[k..][l].chunkIndex)
    {
      assert t[j] == s[j + b[k]];
    }
  }

  lemma DropWeighs(s: seq<CombinedSentence>, cs: seq<Chunk>, b: seq<int>, k: int)
    requires Bounds(b, |cs|, |s|) && Weighs(s, cs, b) && 0 <= k <= |cs|
    requires Bounds(Shift(b[k..], -b[k]), |cs[k..]|, |s[b[k]..]|)
    ensures Weighs(s[b[k]..], cs[k..], Shift(b[k..], -b[k]))
  {
    var t, e := s[b[k]..], Shift(b[k..], -b[k]);
    forall l | 0 <= l < |cs| - k
      ensures cs[k..][l].size == SumLen(t[e[l]..e[l + 1]])
    {
      assert b[k] <= b[k + l];
      SliceOfDrop(s, b[k], e[l], e[l + 1]);
    }
  }

  /** The blocks from `k` on partition the sentences from block `k` on. */
  lemma PartitionDrop(s: seq<CombinedSentence>, cs: seq<Chunk>, b: seq<int>, k: int)
    requires PartitionedBy(s, cs, b) && 0 <= k <= |cs|
    ensures PartitionedBy(s[b[k]..], cs[k..], Shift(b[k..], -b[k]))
  {
    DropBounds(b, |cs|, |s|, k);
    DropCarries(s, cs, b, k);
    DropWeighs(s, cs, b, k);
  }

  /** Block `k` replaced by a partitioned list `u` still partitions the sentences. */
  lemma PartitionReplace(s: seq<CombinedSentence>, cs: seq<Chunk>, b: seq<int>, k: int,
                         u: seq<CombinedSentence>, d: seq<Chunk>, e: seq<int>) returns (b': seq<int>)
    requires PartitionedBy(s, cs, b) && 0 <= k < |cs| && PartitionedBy(u, d, e)
    ensures PartitionedBy(s[..b[k]] + u + s[b[k + 1]..], cs[..k] + d + cs[k + 1..], b')
    ensures |u| == b[k + 1] - b[k] ==> Refines(b, b')
  {
    var b1 := ReplaceFront(s, cs, b, k, u, d, e);
    AppendRest(s[..b[k]] + u, cs[..k] + d, b1, s, cs, b, k);
    b' := Joined(b1, Shift(b[k + 1..], -b[k + 1]), |s[..b[k]] + u|);
    if |u| == b[k + 1] - b[k] {
      assert b1[|b1| - 1] == b[k + 1] by {
        assert |b1| - 1 == |cs[..k] + d|;
      }
      ReplaceRefines(b, |cs|, |s|, k, b1);
    }
  }

  /** The blocks of `s` after block `k` appended to a partition of `t`. */
  lemma AppendRest(t: seq<CombinedSentence>, c: seq<Chunk>, b1: seq<int>, s: seq<CombinedSentence>,
                   cs: seq<Chunk>, b: seq<int>, k: int)
    requires PartitionedBy(t, c, b1) && PartitionedBy(s, cs, b) && 0 <= k < |cs|
    ensures PartitionedBy(t + s[b[k + 1]..], c + cs[k + 1..], Joined(b1, Shift(b[k + 1..], -b[k + 1]), |t|))
  {
    PartitionDrop(s, cs, b, k + 1);
    PartitionConcat(t, c, b1, s[b[k + 1]..], cs[k + 1..], Shift(b[k + 1..], -b[k + 1]));
  }

  /** Every bound of `b` is also a bound of `b'`: the blocks of `b'` cut those of `b` further. */
  ghost predicate Refines(b: seq<int>, b': seq<int>)
  {
    forall j :: 0 <= j < |b| ==> b[j] in b'
  }

  /** Bounds refine themselves. */
  lemma RefinesSelf(b: seq<int>)
    ensures Refines(b, b)
  {
    forall j | 0 <= j < |b|
      ensures b[j] in b
    {
    }
  }

  /** Refining a refinement refines the original. */
  lemma RefinesTrans(b: seq<int>, b': seq<int>, b'': seq<int>)
    requires Refines(b, b') && Refines(b', b'')
    ensures Refines(b, b'')
  {
    forall j | 0 <= j < |b|
      ensures b[j] in b''
    {
      var m :| 0 <= m < |b'| && b'[m] == b[j];
    }
  }

  /**
   * Bounds that keep those of `b` up to block `k` and end at the end of
   * block `k`, followed by the rest of `b`, keep every bound of `b`.
   */
  lemma ReplaceRefines(b: seq<int>, blocks: int, n: int, k: int, b1: seq<int>)
    requires Bounds(b, blocks, n) && 0 <= k < blocks
    requires k + 1 < |b1| && (forall j :: 0 <= j <= k ==> b1[j] == b[j]) && b1[|b1| - 1] == b[k + 1]
    ensures Refines(b, Joined(b1, Shift(b[k + 1..], -b[k + 1]), b[k + 1]))
  {
    var b' := Joined(b1, Shift(b[k + 1..], -b[k + 1]), b[k + 1]);
    forall j | 0 <= j < |b|
      ensures b[j] in b'
    {
      if j <= k {
        assert b'[j] == b1[j] == b[j];
      } else if j == k + 1 {
        assert b'[|b1| - 1] == b[k + 1];
      } else {
        assert b'[|b1| + j - k - 2] == b[j];
      }
    }
  }

  /** The blocks before `k` followed by a partitioned list `u`. */
  lemma ReplaceFront(s: seq<CombinedSentence>, cs: seq<Chunk>, b: seq<int>, k: int,
                     u: seq<CombinedSentence>, d: seq<Chunk>, e: seq<int>) returns (b1: seq<int>)
    requires PartitionedBy(s, cs, b) && 0 <= k < |cs| && PartitionedBy(u, d, e)
    ensures PartitionedBy(s[..b[k]] + u, cs[..k] + d, b1)
    ensures k < |b1| && forall j :: 0 <= j <= k ==> b1[j] == b[j]
  {
    PartitionTake(s, cs, b, k);
    PartitionConcat(s[..b[k]], cs[..k], b[..k + 1], u, d, e);
    b1 := Joined(b[..k + 1], e, |s[..b[k]]|);
  }

  /** Two neighbouring blocks fused into one chunk `x` still partition the sentences. */
  lemma PartitionMerge(s: seq<CombinedSentence>, cs: seq<Chunk>, b: seq<int>, k: int,
                       u: seq<CombinedSentence>, x: Chunk) returns (b': seq<int>)
    requires PartitionedBy(s, cs, b) && 0 <= k && k + 1 < |cs| && OneBlock(u, x)
    ensures PartitionedBy(s[..b[k]] + u + s[b[k + 2]..], cs[..k] + [x] + cs[k + 2..], b')
  {
    var b1 := MergeFront(s, cs, b, k, u, x);
    PartitionDrop(s, cs, b, k + 2);
    PartitionConcat(s[..b[k]] + u, cs[..k] + [x], b1, s[b[k + 2]..], cs[k + 2..], Shift(b[k + 2..], -b[k + 2]));
    b' := Joined(b1, Shift(b[k + 2..], -b[k + 2]), |s[..b[k]] + u|);
  }

  /** The blocks before `k` followed by the one block `u`. */
  lemma MergeFront(s: seq<CombinedSentence>, cs: seq<Chunk>, b: seq<int>, k: int,
                   u: seq<CombinedSentence>, x: Chunk) returns (b1: seq<int>)
    requires PartitionedBy(s, cs, b) && 0 <= k < |cs| && OneBlock(u, x)
    ensures PartitionedBy(s[..b[k]] + u, cs[..k] + [x], b1)
  {
    PartitionTake(s, cs, b, k);
    PartitionExtend(s[..b[k]], cs[..k], b[..k + 1], u, x);
    b1 := b[..k + 1] + [|s[..b[k]]| + |u|];
  }
}
