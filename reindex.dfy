/**
 * `reset_chunk_index`: the chunk indices are renumbered 1, 2, 3, ... in the
 * order in which they first appear along the sentence list; the chunks are
 * renumbered through the same table and sorted by their new index. The
 * function is the same in the recursive-semantic `utils.py` and in
 * `src/utils/chunk_utils.py`.
 */
module Reindex {
  import opened Types
  import opened Partition
  import opened Seqs

  /** The chunk index of every sentence, in order. */
  function Indices(s: seq<CombinedSentence>): (r: seq<Option<int>>)
    ensures |r| == |s| && forall j :: 0 <= j < |s| ==> r[j] == s[j].chunkIndex
  {
    seq(|s|, j requires 0 <= j < |s| => s[j].chunkIndex)
  }

  predicate Distinct(xs: seq<Option<int>>)
  {
    forall i, j :: 0 <= i < j < |xs| ==> xs[i] != xs[j]
  }

  /** The distinct values of `xs` in the order of their first appearance. */
  function Firsts(xs: seq<Option<int>>): seq<Option<int>>
    decreases |xs|
  {
    if |xs| == 0 then []
    else
      var f := Firsts(xs[..|xs| - 1]);
      var x := xs[|xs| - 1];
      if x in f then f else f + [x]
  }

  /** The first-appearance list holds exactly the values of the list, each once. */
  lemma {:induction false} FirstsMembers(xs: seq<Option<int>>)
    ensures Distinct(Firsts(xs)) && forall x :: x in Firsts(xs) <==> x in xs
    decreases |xs|
  {
    if |xs| > 0 {
      FirstsMembers(xs[..|xs| - 1]);
      assert xs == xs[..|xs| - 1] + [xs[|xs| - 1]];
    }
  }

  /** Where `x` first occurs in `xs`. */
  function IndexOf(xs: seq<Option<int>>, x: Option<int>): (r: nat)
    requires x in xs
    ensures r < |xs| && xs[r] == x
  {
    if xs[0] == x then 0
    else
      assert xs == [xs[0]] + xs[1..];
      IndexOf(xs[1..], x) + 1
  }

  /** The new number of old index `x`: its position in the first-appearance list, from 1. */
  function Rank(fs: seq<Option<int>>, x: Option<int>): int
    requires x in fs
  {
    IndexOf(fs, x) + 1
  }

  /** Every sentence relabelled through the table `fs`. */
  function Renumber(s: seq<CombinedSentence>, fs: seq<Option<int>>): (r: seq<CombinedSentence>)
    requires forall j :: 0 <= j < |s| ==> s[j].chunkIndex in fs
    ensures |r| == |s|
  {
    seq(|s|, j requires 0 <= j < |s| => s[j].(chunkIndex := Some(Rank(fs, s[j].chunkIndex))))
  }

  /** The sentence half of `reset_chunk_index`. */
  function Renumbered(s: seq<CombinedSentence>): (r: seq<CombinedSentence>)
    ensures |r| == |s|
  {
    var fs := Firsts(Indices(s));
    FirstsMembers(Indices(s));
    assert forall j :: 0 <= j < |s| ==> Indices(s)[j] in fs;
    Renumber(s, fs)
  }

  /** Every chunk relabelled through the table `fs`, still in its old order. */
  function RenumberChunks(chunks: seq<Chunk>, fs: seq<Option<int>>): (r: seq<Chunk>)
    requires forall k :: 0 <= k < |chunks| ==> Some(chunks[k].chunkIndex) in fs
    ensures |r| == |chunks|
  {
    seq(|chunks|, k requires 0 <= k < |chunks| => chunks[k].(chunkIndex := Rank(fs, Some(chunks[k].chunkIndex))))
  }

  predicate SortedByIndex(chunks: seq<Chunk>)
  {
    forall k, l :: 0 <= k < l < |chunks| ==> chunks[k].chunkIndex <= chunks[l].chunkIndex
  }

  predicate StrictlySortedByIndex(chunks: seq<Chunk>)
  {
    forall k, l :: 0 <= k < l < |chunks| ==> chunks[k].chunkIndex < chunks[l].chunkIndex
  }

  /** The two shapes of the result: the sentences alone, or the sentences and the chunks. */
  datatype Reset =
    | SentencesOnly(sentences: seq<CombinedSentence>)
    | WithChunks(sentences: seq<CombinedSentence>, chunks: seq<Chunk>)

  /** The numbers 1..k as chunk indices. */
  function Iota(k: nat): (r: seq<Option<int>>)
    ensures |r| == k && forall i :: 0 <= i < k ==> r[i] == Some(i + 1)
  {
    if k == 0 then [] else Iota(k - 1) + [Some(k)]
  }

  /** Putting `x` between the chunks not above it and those above it keeps the order. */
  lemma InsertKeepsSorted(r: seq<Chunk>, p: int, x: Chunk)
    requires SortedByIndex(r) && 0 <= p <= |r|
    requires forall k :: 0 <= k < p ==> r[k].chunkIndex <= x.chunkIndex
    requires p < |r| ==> x.chunkIndex < r[p].chunkIndex
    ensures SortedByIndex(r[..p] + [x] + r[p..])
  {
    var t := r[..p] + [x] + r[p..];
    forall k, l | 0 <= k < l < |t|
      ensures t[k].chunkIndex <= t[l].chunkIndex
    {
      if l < p {
        assert t[k] == r[k] && t[l] == r[l];
      } else if l == p {
        assert t[k] == r[k] && t[l] == x;
      } else if k < p {
        assert t[k] == r[k] && t[l] == r[l - 1];
      } else if k == p {
        assert t[k] == x && t[l] == r[l - 1];
        assert r[p].chunkIndex <= r[l - 1].chunkIndex;
      } else {
        assert t[k] == r[k - 1] && t[l] == r[l - 1];
      }
    }
  }

  /** Where a stable insertion puts `x`: after every chunk whose index is not above its own. */
  method InsertionPoint(r: seq<Chunk>, x: Chunk) returns (p: int)
    requires SortedByIndex(r)
    ensures 0 <= p <= |r|
    ensures forall k :: 0 <= k < p ==> r[k].chunkIndex <= x.chunkIndex
    ensures p < |r| ==> x.chunkIndex < r[p].chunkIndex
  {
    p := 0;
    while p < |r| && r[p].chunkIndex <= x.chunkIndex
      invariant 0 <= p <= |r|
      invariant forall k :: 0 <= k < p ==> r[k].chunkIndex <= x.chunkIndex
    {
      p := p + 1;
    }
  }

  /** Inserting `x = chunks[i]` into a sorted copy of `chunks[..i]` gives a copy of `chunks[..i + 1]`. */
  lemma InsertCounts(r: seq<Chunk>, p: int, x: Chunk, chunks: seq<Chunk>, i: int)
    requires 0 <= p <= |r| && 0 <= i < |chunks| && x == chunks[i] && multiset(r) == multiset(chunks[..i])
    ensures multiset(r[..p] + [x] + r[p..]) == multiset(chunks[..i + 1])
  {
    assert r == r[..p] + r[p..];
    assert chunks[..i + 1] == chunks[..i] + [x];
  }

  /** The chunks of `cs` whose index is `n`, in their order in `cs`. */
  function WithIndex(cs: seq<Chunk>, n: int): seq<Chunk>
  {
    if cs == [] then []
    else WithIndex(cs[..|cs| - 1], n) + (if cs[|cs| - 1].chunkIndex == n then [cs[|cs| - 1]] else [])
  }

  /** Picking the chunks with one index distributes over concatenation. */
  lemma {:induction false} WithIndexAppend(a: seq<Chunk>, b: seq<Chunk>, n: int)
    ensures WithIndex(a + b, n) == WithIndex(a, n) + WithIndex(b, n)
    decreases |b|
  {
    if b == [] {
      assert a + b == a;
    } else {
      var b' := b[..|b| - 1];
      assert (a + b)[..|a + b| - 1] == a + b';
      WithIndexAppend(a, b', n);
    }
  }

  /** A list holding no chunk with index `n` picks nothing. */
  lemma {:induction false} WithIndexNone(cs: seq<Chunk>, n: int)
    requires forall k :: 0 <= k < |cs| ==> cs[k].chunkIndex != n
    ensures WithIndex(cs, n) == []
    decreases |cs|
  {
    if cs != [] {
      WithIndexNone(cs[..|cs| - 1], n);
    }
  }

  /** A single chunk picks itself exactly when it has index `n`. */
  lemma WithIndexOne(x: Chunk, n: int)
    ensures WithIndex([x], n) == if x.chunkIndex == n then [x] else []
  {
    assert [x][..0] == [];
  }

  /** In a sorted list, nothing from position `p` on has an index below that of `r[p]`. */
  lemma WithIndexAbove(r: seq<Chunk>, p: int, n: int)
    requires SortedByIndex(r) && 0 <= p < |r| && n < r[p].chunkIndex
    ensures WithIndex(r[p..], n) == []
  {
    var t := r[p..];
    forall k | 0 <= k < |t|
      ensures t[k].chunkIndex != n
    {
      assert t[k] == r[p + k] && r[p].chunkIndex <= r[p + k].chunkIndex;
    }
    WithIndexNone(t, n);
  }

  /** A stable insertion adds `x` behind the chunks already there with its index. */
  lemma InsertStable(r: seq<Chunk>, p: int, x: Chunk, n: int)
    requires SortedByIndex(r) && 0 <= p <= |r|
    requires p < |r| ==> x.chunkIndex < r[p].chunkIndex
    ensures WithIndex(r[..p] + [x] + r[p..], n) == WithIndex(r, n) + (if x.chunkIndex == n then [x] else [])
  {
    var xs := if x.chunkIndex == n then [x] else [];
    WithIndexOne(x, n);
    if x.chunkIndex == n && p < |r| {
      WithIndexAbove(r, p, n);
    }
    WithIndexInsert(r, p, x, n);
    WithIndexSplit(r, p, n);
    Regroup(WithIndex(r[..p], n), xs, WithIndex(r[p..], n));
  }

  /** Picking from `r` is picking from its two parts at `p`. */
  lemma WithIndexSplit(r: seq<Chunk>, p: int, n: int)
    requires 0 <= p <= |r|
    ensures WithIndex(r, n) == WithIndex(r[..p], n) + WithIndex(r[p..], n)
  {
    WithIndexAppend(r[..p], r[p..], n);
    assert r[..p] + r[p..] == r;
  }

  /** Picking from `r` with `x` put in at `p` is picking from the three parts. */
  lemma WithIndexInsert(r: seq<Chunk>, p: int, x: Chunk, n: int)
    requires 0 <= p <= |r|
    ensures WithIndex(r[..p] + [x] + r[p..], n) == WithIndex(r[..p], n) + WithIndex([x], n) + WithIndex(r[p..], n)
  {
    WithIndexAppend(r[..p] + [x], r[p..], n);
    WithIndexAppend(r[..p], [x], n);
  }

  /** Moving a list past another that is empty, or moving an empty list, changes nothing. */
  lemma Regroup(a: seq<Chunk>, xs: seq<Chunk>, b: seq<Chunk>)
    requires xs == [] || b == []
    ensures a + xs + b == a + b + xs
  {
  }

  /**
   * `chunks.sort(key=lambda chunk: chunk.chunk_index)`, as a stable insertion
   * sort: sorted, a permutation, and chunks with equal indices keep their
   * relative order.
   */
  method SortByIndex(chunks: seq<Chunk>) returns (r: seq<Chunk>)
    ensures SortedByIndex(r) && multiset(r) == multiset(chunks)
    ensures forall n :: WithIndex(r, n) == WithIndex(chunks, n)
  {
    r := [];
    var i := 0;
    while i < |chunks|
      invariant 0 <= i <= |chunks|
      invariant SortedByIndex(r) && multiset(r) == multiset(chunks[..i])
      invariant forall n :: WithIndex(r, n) == WithIndex(chunks[..i], n)
    {
      var x := chunks[i];
      var p := InsertionPoint(r, x);
      InsertKeepsSorted(r, p, x);
      InsertCounts(r, p, x, chunks, i);
      forall n
        ensures WithIndex(r[..p] + [x] + r[p..], n) == WithIndex(chunks[..i + 1], n)
      {
        InsertStable(r, p, x, n);
        assert chunks[..i + 1][..i] == chunks[..i];
      }
      r := r[..p] + [x] + r[p..];
      i := i + 1;
    }
    assert chunks[..|chunks|] == chunks;
  }

  /**
   * The state of the table loop after `i` sentences: `seen` is the
   * first-appearance list of their indices, `equivalents` maps each of them
   * to its rank in the whole list `fs`, and `next` is the next free number.
   */
  ghost predicate TableUpTo(xs: seq<Option<int>>, fs: seq<Option<int>>, i: int, seen: seq<Option<int>>,
                      equivalents: map<Option<int>, int>, next: int)
  {
    0 <= i <= |xs| && seen == Firsts(xs[..i]) && RankTable(fs, seen, equivalents) && next == |seen| + 1
  }

  /** `equivalents` maps exactly the values of `seen`, each to its rank in `fs`. */
  ghost predicate RankTable(fs: seq<Option<int>>, seen: seq<Option<int>>, equivalents: map<Option<int>, int>)
  {
    && (forall x :: x in equivalents <==> x in seen)
    && (forall x :: x in equivalents ==> x in fs && equivalents[x] == Rank(fs, x))
  }

  /** Entering a value with its rank keeps the table. */
  lemma RankTableAdd(fs: seq<Option<int>>, seen: seq<Option<int>>, equivalents: map<Option<int>, int>,
                     x: Option<int>, v: int)
    requires RankTable(fs, seen, equivalents) && x in fs && v == Rank(fs, x)
    ensures RankTable(fs, seen + [x], equivalents[x := v])
  {
    var grown := equivalents[x := v];
    forall y
      ensures y in grown <==> y in seen + [x]
    {
    }
    forall y | y in grown
      ensures y in fs && grown[y] == Rank(fs, y)
    {
      if y != x {
        assert y in equivalents;
      }
    }
  }

  /** A turn of the table loop on an index already seen keeps its state. */
  lemma TableKeep(xs: seq<Option<int>>, fs: seq<Option<int>>, i: int, seen: seq<Option<int>>,
                  equivalents: map<Option<int>, int>, next: int)
    requires TableUpTo(xs, fs, i, seen, equivalents, next) && i < |xs| && fs == Firsts(xs)
    requires xs[i] in equivalents
    ensures TableUpTo(xs, fs, i + 1, seen, equivalents, next)
  {
    TableStep(xs, seen, i);
  }

  /** A turn of the table loop on a new index gives it the next free number. */
  lemma TableAdd(xs: seq<Option<int>>, fs: seq<Option<int>>, i: int, seen: seq<Option<int>>,
                 equivalents: map<Option<int>, int>, next: int)
    requires TableUpTo(xs, fs, i, seen, equivalents, next) && i < |xs| && fs == Firsts(xs)
    requires xs[i] !in equivalents
    ensures TableUpTo(xs, fs, i + 1, seen + [xs[i]], equivalents[xs[i] := next], next + 1)
  {
    NewIndexRank(xs, seen, i);
    RankTableAdd(fs, seen, equivalents, xs[i], next);
  }

  /** An index not seen before extends the first-appearance list and takes the next rank. */
  lemma NewIndexRank(xs: seq<Option<int>>, seen: seq<Option<int>>, i: int)
    requires 0 <= i < |xs| && seen == Firsts(xs[..i]) && xs[i] !in seen
    ensures Firsts(xs[..i + 1]) == seen + [xs[i]]
    ensures xs[i] in Firsts(xs) && Rank(Firsts(xs), xs[i]) == |seen| + 1
  {
    TableStep(xs, seen, i);
  }

  /** The first `|out|` sentences, relabelled through `fs`. */
  predicate RelabelledPrefix(out: seq<CombinedSentence>, s: seq<CombinedSentence>, fs: seq<Option<int>>)
  {
    |out| <= |s|
    && forall j :: 0 <= j < |out| ==> s[j].chunkIndex in fs && out[j] == s[j].(chunkIndex := Some(Rank(fs, s[j].chunkIndex)))
  }

  lemma RelabelStep(out: seq<CombinedSentence>, s: seq<CombinedSentence>, fs: seq<Option<int>>, v: int)
    requires RelabelledPrefix(out, s, fs) && |out| < |s|
    requires s[|out|].chunkIndex in fs && v == Rank(fs, s[|out|].chunkIndex)
    ensures RelabelledPrefix(out + [s[|out|].(chunkIndex := Some(v))], s, fs)
  {
  }

  /**
   * The first loop of `reset_chunk_index`: the `equivalents` table, filled in
   * order of first appearance, and every sentence relabelled through it.
   */
  method RenumberSentences(s: seq<CombinedSentence>) returns (equivalents: map<Option<int>, int>, out: seq<CombinedSentence>)
    ensures out == Renumbered(s)
    ensures forall x :: x in equivalents <==> x in Indices(s)
    ensures forall x :: x in equivalents ==> x in Firsts(Indices(s)) && equivalents[x] == Rank(Firsts(Indices(s)), x)
  {
    ghost var xs := Indices(s);
    ghost var fs := Firsts(xs);
    FirstsMembers(xs);
    ghost var seen: seq<Option<int>> := [];
    equivalents := map[];
    var newChunkIndex := 1;
    out := [];
    var i := 0;
    while i < |s|
      invariant TableUpTo(xs, fs, i, seen, equivalents, newChunkIndex)
      invariant |out| == i && RelabelledPrefix(out, s, fs)
    {
      var oldIndex := s[i].chunkIndex;
      if oldIndex !in equivalents {
        TableAdd(xs, fs, i, seen, equivalents, newChunkIndex);
        seen := seen + [oldIndex];
        equivalents := equivalents[oldIndex := newChunkIndex];
        newChunkIndex := newChunkIndex + 1;
      } else {
        TableKeep(xs, fs, i, seen, equivalents, newChunkIndex);
      }
      RelabelStep(out, s, fs, equivalents[oldIndex]);
      out := out + [s[i].(chunkIndex := Some(equivalents[oldIndex]))];
      i := i + 1;
    }
    assert xs[..|s|] == xs;
    assert out == Renumbered(s);
  }

  /**
   * What `reset_chunk_index` gives for a list of chunks: the sentences
   * renumbered, and the relabelled chunks sorted by their new index, chunks
   * that share an index keeping their relative order.
   */
  ghost predicate ResetOf(s: seq<CombinedSentence>, chunks: seq<Chunk>, ss: seq<CombinedSentence>, cs: seq<Chunk>)
    requires forall k :: 0 <= k < |chunks| ==> Some(chunks[k].chunkIndex) in Firsts(Indices(s))
  {
    var relabelled := RenumberChunks(chunks, Firsts(Indices(s)));
    && ss == Renumbered(s)
    && SortedByIndex(cs)
    && multiset(cs) == multiset(relabelled)
    && forall n :: WithIndex(cs, n) == WithIndex(relabelled, n)
  }

  /** Picking an index leaves something exactly when some chunk carries it. */
  lemma {:induction false} WithIndexMember(cs: seq<Chunk>, n: int)
    ensures WithIndex(cs, n) != [] <==> exists k :: 0 <= k < |cs| && cs[k].chunkIndex == n
    decreases |cs|
  {
    if cs != [] {
      var front := cs[..|cs| - 1];
      WithIndexMember(front, n);
      if cs[|cs| - 1].chunkIndex != n {
        if exists k :: 0 <= k < |cs| && cs[k].chunkIndex == n {
          var k :| 0 <= k < |cs| && cs[k].chunkIndex == n;
          assert front[k] == cs[k];
        }
        if exists k :: 0 <= k < |front| && front[k].chunkIndex == n {
          var k :| 0 <= k < |front| && front[k].chunkIndex == n;
          assert cs[k] == front[k];
        }
      }
    }
  }

  /**
   * A stable sort has one possible result: two lists sorted by index that
   * hold, for every index, the same chunks in the same order are equal.
   */
  lemma {:induction false} SortedStableUnique(cs: seq<Chunk>, cs': seq<Chunk>)
    requires SortedByIndex(cs) && SortedByIndex(cs')
    requires forall n :: WithIndex(cs, n) == WithIndex(cs', n)
    ensures cs == cs'
    decreases |cs|
  {
    EmptyPicks(cs, cs');
    if cs != [] {
      var front, front' := cs[..|cs| - 1], cs'[..|cs'| - 1];
      var x, y := cs[|cs| - 1], cs'[|cs'| - 1];
      assert cs == front + [x] && cs' == front' + [y];
      LastsAgree(front, x, front', y);
      SortedStableUnique(front, front');
    }
  }

  /** Lists with the same picks for every index are empty together. */
  lemma EmptyPicks(cs: seq<Chunk>, cs': seq<Chunk>)
    requires forall n :: WithIndex(cs, n) == WithIndex(cs', n)
    ensures cs == [] <==> cs' == []
  {
    if cs != [] {
      LastPicked(cs[..|cs| - 1], cs[|cs| - 1]);
      assert cs[..|cs| - 1] + [cs[|cs| - 1]] == cs;
    }
    if cs' != [] {
      LastPicked(cs'[..|cs'| - 1], cs'[|cs'| - 1]);
      assert cs'[..|cs'| - 1] + [cs'[|cs'| - 1]] == cs';
    }
  }

  /**
   * Two sorted lists with the same picks for every index end in the same
   * chunk, and what comes before it is sorted with the same picks again.
   */
  lemma LastsAgree(front: seq<Chunk>, x: Chunk, front': seq<Chunk>, y: Chunk)
    requires SortedByIndex(front + [x]) && SortedByIndex(front' + [y])
    requires forall n :: WithIndex(front + [x], n) == WithIndex(front' + [y], n)
    ensures x == y && SortedByIndex(front) && SortedByIndex(front')
    ensures forall n :: WithIndex(front, n) == WithIndex(front', n)
  {
    SameLastIndex(front, x, front', y);
    forall n
      ensures WithIndex(front, n) == WithIndex(front', n)
    {
      FrontAgreesAt(front, x, front', y, n);
    }
    FrontAgreesAt(front, x, front', y, x.chunkIndex);
    SortedFront(front, x);
    SortedFront(front', y);
  }

  /** What comes before the last chunk of a sorted list is sorted. */
  lemma SortedFront(front: seq<Chunk>, x: Chunk)
    requires SortedByIndex(front + [x])
    ensures SortedByIndex(front)
  {
    forall k, l | 0 <= k < l < |front|
      ensures front[k].chunkIndex <= front[l].chunkIndex
    {
      assert front[k] == (front + [x])[k] && front[l] == (front + [x])[l];
    }
  }

  /** Two sorted lists with the same picks for every index end in chunks with the same index. */
  lemma SameLastIndex(front: seq<Chunk>, x: Chunk, front': seq<Chunk>, y: Chunk)
    requires SortedByIndex(front + [x]) && SortedByIndex(front' + [y])
    requires forall n :: WithIndex(front + [x], n) == WithIndex(front' + [y], n)
    ensures x.chunkIndex == y.chunkIndex
  {
    var cs, cs' := front + [x], front' + [y];
    LastPicked(front', y);
    WithIndexMember(cs, y.chunkIndex);
    var k :| 0 <= k < |cs| && cs[k].chunkIndex == y.chunkIndex;
    assert cs[|cs| - 1] == x;
    LastPicked(front, x);
    WithIndexMember(cs', x.chunkIndex);
    var l :| 0 <= l < |cs'| && cs'[l].chunkIndex == x.chunkIndex;
    assert cs'[|cs'| - 1] == y;
  }

  /** The last chunk of a list is picked with its own index. */
  lemma LastPicked(front: seq<Chunk>, x: Chunk)
    ensures WithIndex(front + [x], x.chunkIndex) != []
  {
    WithIndexAppend(front, [x], x.chunkIndex);
    WithIndexOne(x, x.chunkIndex);
  }

  /** Two lists ending in chunks with the same index and picking the same for `n` pick the same for `n` before their ends. */
  lemma FrontAgreesAt(front: seq<Chunk>, x: Chunk, front': seq<Chunk>, y: Chunk, n: int)
    requires x.chunkIndex == y.chunkIndex && WithIndex(front + [x], n) == WithIndex(front' + [y], n)
    ensures WithIndex(front, n) == WithIndex(front', n)
    ensures x.chunkIndex == n ==> x == y
  {
    WithIndexAppend(front, [x], n);
    WithIndexOne(x, n);
    WithIndexAppend(front', [y], n);
    WithIndexOne(y, n);
    var a, a' := WithIndex(front, n), WithIndex(front', n);
    if x.chunkIndex == n {
      assert (a + [x])[..|a|] == a && (a' + [y])[..|a'|] == a';
      assert (a + [x])[|a|] == x && (a' + [y])[|a'|] == y;
    } else {
      assert a + [] == a && a' + [] == a';
    }
  }

  /** The result of `reset_chunk_index` is determined by its input. */
  lemma ResetOfUnique(s: seq<CombinedSentence>, chunks: seq<Chunk>, ss: seq<CombinedSentence>, cs: seq<Chunk>,
                      ss': seq<CombinedSentence>, cs': seq<Chunk>)
    requires forall k :: 0 <= k < |chunks| ==> Some(chunks[k].chunkIndex) in Firsts(Indices(s))
    requires ResetOf(s, chunks, ss, cs) && ResetOf(s, chunks, ss', cs')
    ensures ss == ss' && cs == cs'
  {
    SortedStableUnique(cs, cs');
  }

  /**
   * `reset_chunk_index(combined_sentences, chunks)`. The table is filled
   * in one pass over the sentences; `chunks` that is None or empty gives
   * the sentences alone; a chunk index no sentence carries is a KeyError.
   */
  method ResetChunkIndex(s: seq<CombinedSentence>, chunks: Option<seq<Chunk>>) returns (r: Result<Reset>)
    ensures (chunks.None? || chunks.value == []) ==> r == Ok(SentencesOnly(Renumbered(s)))
    ensures chunks.Some? && chunks.value != [] ==>
              (r.Err? <==> exists k :: 0 <= k < |chunks.value| && Some(chunks.value[k].chunkIndex) !in Indices(s))
    ensures r.Err? ==> r.error == KeyError
    ensures chunks.Some? && r.Ok? && r.value.WithChunks? ==>
              && (forall k :: 0 <= k < |chunks.value| ==> Some(chunks.value[k].chunkIndex) in Firsts(Indices(s)))
              && ResetOf(s, chunks.value, r.value.sentences, r.value.chunks)
    ensures r.Ok? ==> (r.value.WithChunks? <==> chunks.Some? && chunks.value != [])
  {
    ghost var fs := Firsts(Indices(s));
    FirstsMembers(Indices(s));
    var equivalents, out := RenumberSentences(s);
    if chunks.None? || chunks.value == [] {
      return Ok(SentencesOnly(out));
    }
    var cs := chunks.value;
    var relabelled := cs;
    var k := 0;
    while k < |cs|
      invariant 0 <= k <= |cs| && |relabelled| == |cs|
      invariant forall l :: 0 <= l < k ==> Some(cs[l].chunkIndex) in fs
      invariant forall l :: 0 <= l < k ==> relabelled[l] == cs[l].(chunkIndex := Rank(fs, Some(cs[l].chunkIndex)))
      invariant forall l :: k <= l < |cs| ==> relabelled[l] == cs[l]
    {
      if Some(relabelled[k].chunkIndex) !in equivalents {
        return Err(KeyError);
      }
      relabelled := relabelled[k := relabelled[k].(chunkIndex := equivalents[Some(relabelled[k].chunkIndex)])];
      k := k + 1;
    }
    assert relabelled == RenumberChunks(cs, fs);
    var sorted := SortByIndex(relabelled);
    r := Ok(WithChunks(out, sorted));
  }

  /** One step of the table loop: a new value is the next entry of the whole first-appearance list. */
  lemma TableStep(xs: seq<Option<int>>, seen: seq<Option<int>>, i: int)
    requires 0 <= i < |xs| && seen == Firsts(xs[..i])
    ensures xs[i] in Firsts(xs)
    ensures Firsts(xs[..i + 1]) == if xs[i] in seen then seen else seen + [xs[i]]
    ensures xs[i] !in seen ==> |seen| < |Firsts(xs)| && seen + [xs[i]] == Firsts(xs)[..|seen| + 1]
    ensures xs[i] !in seen ==> Rank(Firsts(xs), xs[i]) == |seen| + 1
    ensures xs[i] in seen ==> Rank(Firsts(xs), xs[i]) <= |seen|
  {
    FirstsMembers(xs);
    FirstsStep(xs, i);
    FirstsPrefix(xs, i + 1);
    var fs := Firsts(xs);
    if xs[i] !in seen {
      assert fs[|seen|] == Firsts(xs[..i + 1])[|seen|] == xs[i];
      RankAt(fs, |seen|);
    } else {
      FirstsPrefix(xs, i);
      var q :| 0 <= q < |seen| && seen[q] == xs[i];
      assert fs[q] == xs[i];
      RankAt(fs, q);
    }
  }

  /** One more value: the first-appearance list grows by it exactly when it is new. */
  lemma FirstsStep(xs: seq<Option<int>>, i: int)
    requires 0 <= i < |xs|
    ensures Firsts(xs[..i + 1]) == if xs[i] in Firsts(xs[..i]) then Firsts(xs[..i]) else Firsts(xs[..i]) + [xs[i]]
  {
    assert xs[..i + 1][..i] == xs[..i];
  }

  /** The first-appearance list of a prefix is a prefix of the whole list's. */
  lemma {:induction false} FirstsPrefix(xs: seq<Option<int>>, i: int)
    requires 0 <= i <= |xs|
    ensures |Firsts(xs[..i])| <= |Firsts(xs)| && Firsts(xs[..i]) == Firsts(xs)[..|Firsts(xs[..i])|]
    decreases |xs|
  {
    if i < |xs| {
      var n := |xs| - 1;
      FirstsPrefix(xs[..n], i);
      assert xs[..n][..i] == xs[..i];
      FirstsStep(xs, n);
      assert xs[..n + 1] == xs;
    } else {
      assert xs[..i] == xs;
    }
  }

  /** In a list without repeats, the value at position n has rank n + 1. */
  lemma RankAt(fs: seq<Option<int>>, n: int)
    requires Distinct(fs) && 0 <= n < |fs|
    ensures Rank(fs, fs[n]) == n + 1
  {
  }

  /**
   * After renumbering, the first appearances along the sentences are
   * exactly 1, 2, ..., K in this order, K being the number of distinct
   * old indices: the numbers are dense and given in order of appearance.
   */
  lemma {:induction false} RenumberedFirsts(s: seq<CombinedSentence>)
    ensures Firsts(Indices(Renumbered(s))) == Iota(|Firsts(Indices(s))|)
  {
    var m := 0;
    while m < |s|
      invariant 0 <= m <= |s|
      invariant Firsts(Indices(Renumbered(s))[..m]) == Iota(|Firsts(Indices(s)[..m])|)
    {
      RenumberedFirstsStep(s, m);
      m := m + 1;
    }
    TakeAll(Indices(s));
    TakeAll(Indices(Renumbered(s)));
  }

  /** One more sentence: its new number is either one already listed or the next one. */
  lemma RenumberedFirstsStep(s: seq<CombinedSentence>, m: int)
    requires 0 <= m < |s|
    requires Firsts(Indices(Renumbered(s))[..m]) == Iota(|Firsts(Indices(s)[..m])|)
    ensures Firsts(Indices(Renumbered(s))[..m + 1]) == Iota(|Firsts(Indices(s)[..m + 1])|)
  {
    var xs, ys := Indices(s), Indices(Renumbered(s));
    var seen := Firsts(xs[..m]);
    TableStep(xs, seen, m);
    FirstsStep(ys, m);
    var n := Rank(Firsts(xs), xs[m]);
    assert ys[m] == Some(n);
    if xs[m] in seen {
      IotaHas(|seen|, n);
    } else {
      IotaLacks(|seen|);
    }
  }

  lemma IotaHas(k: nat, n: int)
    requires 1 <= n <= k
    ensures Some(n) in Iota(k)
  {
    assert Iota(k)[n - 1] == Some(n);
  }

  lemma IotaLacks(k: nat)
    ensures Some(k + 1) !in Iota(k) && Iota(k + 1) == Iota(k) + [Some(k + 1)]
  {
  }

  /** Every new number lies in 1..K, K being the number of distinct old indices. */
  lemma RenumberBounded(s: seq<CombinedSentence>, j: int)
    requires 0 <= j < |s|
    ensures Renumbered(s)[j].chunkIndex.Some?
    ensures 1 <= Renumbered(s)[j].chunkIndex.value <= |Firsts(Indices(s))|
  {
  }

  /** Every number of 1..K is carried by some sentence. */
  lemma RenumberCovers(s: seq<CombinedSentence>, n: int)
    requires 1 <= n <= |Firsts(Indices(s))|
    ensures exists j :: 0 <= j < |s| && Renumbered(s)[j].chunkIndex == Some(n)
  {
    var xs := Indices(s);
    var fs := Firsts(xs);
    FirstsMembers(xs);
    assert fs[n - 1] in xs;
    var j :| 0 <= j < |s| && xs[j] == fs[n - 1];
    RankAt(fs, n - 1);
    assert Renumbered(s)[j].chunkIndex == Some(n);
  }

  /** Two sentences share a new number exactly when they shared an old index. */
  lemma RenumberInjective(s: seq<CombinedSentence>, j: int, l: int)
    requires 0 <= j < |s| && 0 <= l < |s|
    ensures Renumbered(s)[j].chunkIndex == Renumbered(s)[l].chunkIndex <==> s[j].chunkIndex == s[l].chunkIndex
  {
    var fs := Firsts(Indices(s));
    FirstsMembers(Indices(s));
    assert fs[IndexOf(fs, s[j].chunkIndex)] == s[j].chunkIndex;
    assert fs[IndexOf(fs, s[l].chunkIndex)] == s[l].chunkIndex;
  }

  /** Renumbering an already renumbered list changes nothing. */
  lemma {:induction false} ResetIdempotent(s: seq<CombinedSentence>)
    ensures Renumbered(Renumbered(s)) == Renumbered(s)
  {
    var r := Renumbered(s);
    var k := |Firsts(Indices(s))|;
    RenumberedFirsts(s);
    IotaDistinct(k);
    forall j | 0 <= j < |s|
      ensures Renumbered(r)[j] == r[j]
    {
      RenumberBounded(s, j);
      var n := r[j].chunkIndex.value;
      assert Iota(k)[n - 1] == Some(n);
      RankAt(Iota(k), n - 1);
    }
  }

  lemma IotaDistinct(k: nat)
    ensures Distinct(Iota(k))
  {
  }

  /** The indices of the chunks, in list order. */
  function ChunkIds(chunks: seq<Chunk>): (r: seq<Option<int>>)
    ensures |r| == |chunks| && forall k :: 0 <= k < |chunks| ==> r[k] == Some(chunks[k].chunkIndex)
  {
    seq(|chunks|, k requires 0 <= k < |chunks| => Some(chunks[k].chunkIndex))
  }

  /** The chunks with their position, from 1, as new index. */
  function Numbered(chunks: seq<Chunk>): (r: seq<Chunk>)
    ensures |r| == |chunks| && forall k :: 0 <= k < |chunks| ==> r[k] == chunks[k].(chunkIndex := k + 1)
  {
    seq(|chunks|, k requires 0 <= k < |chunks| => chunks[k].(chunkIndex := k + 1))
  }

  /** A run of a value already seen leaves the first-appearance list as it was. */
  lemma {:induction false} FirstsSeenRun(xs: seq<Option<int>>, lo: int, hi: int)
    requires 0 <= lo <= hi <= |xs|
    requires forall m :: lo <= m < hi ==> xs[m] in Firsts(xs[..lo])
    ensures Firsts(xs[..hi]) == Firsts(xs[..lo])
    decreases hi - lo
  {
    if lo < hi {
      FirstsSeenRun(xs, lo, hi - 1);
      FirstsStep(xs, hi - 1);
    }
  }

  /** `xs` is made of runs: the positions from b[k] up to b[k + 1] all hold ids[k]. */
  ghost predicate Runs(xs: seq<Option<int>>, ids: seq<Option<int>>, b: seq<int>)
  {
    Bounds(b, |ids|, |xs|) && forall k, j :: 0 <= k < |ids| && b[k] <= j < b[k + 1] ==> xs[j] == ids[k]
  }

  /** The sentence indices of a partition run through the chunk indices. */
  lemma IndexRuns(s: seq<CombinedSentence>, ord: seq<Chunk>, b: seq<int>)
    requires PartitionedBy(s, ord, b) && DistinctIndices(ord)
    ensures Runs(Indices(s), ChunkIds(ord), b) && Distinct(ChunkIds(ord))
  {
  }

  /** A run of a value not seen before adds exactly that value to the first-appearance list. */
  lemma RunStep(xs: seq<Option<int>>, ids: seq<Option<int>>, b: seq<int>, k: int)
    requires Runs(xs, ids, b) && Distinct(ids) && 0 <= k < |ids|
    requires Firsts(xs[..b[k]]) == ids[..k]
    ensures Firsts(xs[..b[k + 1]]) == ids[..k + 1]
  {
    var m := b[k];
    assert m < b[k + 1];
    FirstsStep(xs, m);
    assert xs[m] == ids[k] && xs[m] !in ids[..k];
    TakeSnoc(ids, k);
    assert forall l :: m + 1 <= l < b[k + 1] ==> xs[l] == ids[..k + 1][k];
    FirstsSeenRun(xs, m + 1, b[k + 1]);
  }

  /**
   * When the chunks partition the sentences with distinct indices, the
   * indices first appear in chunk order.
   */
  lemma {:induction false} PartitionFirsts(s: seq<CombinedSentence>, ord: seq<Chunk>, b: seq<int>)
    requires PartitionedBy(s, ord, b) && DistinctIndices(ord)
    ensures Firsts(Indices(s)) == ChunkIds(ord)
  {
    var xs, ids := Indices(s), ChunkIds(ord);
    IndexRuns(s, ord, b);
    var k := 0;
    while k < |ord|
      invariant 0 <= k <= |ord|
      invariant Firsts(xs[..b[k]]) == ids[..k]
    {
      RunStep(xs, ids, b, k);
      k := k + 1;
    }
    TakeAll(xs);
    TakeAll(ids);
  }

  /**
   * Renumbering a partition with distinct indices numbers chunk k as k + 1
   * and keeps every block and every size.
   */
  lemma RenumberPartition(s: seq<CombinedSentence>, ord: seq<Chunk>, b: seq<int>)
    requires PartitionedBy(s, ord, b) && DistinctIndices(ord)
    ensures forall k :: 0 <= k < |ord| ==> Some(ord[k].chunkIndex) in Firsts(Indices(s))
    ensures RenumberChunks(ord, Firsts(Indices(s))) == Numbered(ord)
    ensures PartitionedBy(Renumbered(s), Numbered(ord), b)
  {
    ChunkRanks(s, ord, b);
    RenumberChunksNumbered(s, ord, b);
    RenumberCarries(s, ord, b);
    RenumberWeighs(s, ord, b);
  }

  /** Relabelling the chunks of such a partition numbers them by position. */
  lemma RenumberChunksNumbered(s: seq<CombinedSentence>, ord: seq<Chunk>, b: seq<int>)
    requires PartitionedBy(s, ord, b) && DistinctIndices(ord)
    ensures forall k :: 0 <= k < |ord| ==> Some(ord[k].chunkIndex) in Firsts(Indices(s))
    ensures RenumberChunks(ord, Firsts(Indices(s))) == Numbered(ord)
  {
    ChunkRanks(s, ord, b);
  }

  /** The renumbered sentences of block k carry the number k + 1. */
  lemma RenumberCarries(s: seq<CombinedSentence>, ord: seq<Chunk>, b: seq<int>)
    requires PartitionedBy(s, ord, b) && DistinctIndices(ord)
    ensures Bounds(b, |Numbered(ord)|, |Renumbered(s)|) && Carries(Renumbered(s), Numbered(ord), b)
  {
    ChunkRanks(s, ord, b);
  }

  /** Renumbering keeps the texts, hence the size of every block. */
  lemma RenumberWeighs(s: seq<CombinedSentence>, ord: seq<Chunk>, b: seq<int>)
    requires PartitionedBy(s, ord, b)
    ensures Bounds(b, |Numbered(ord)|, |Renumbered(s)|) && Weighs(Renumbered(s), Numbered(ord), b)
  {
    var r := Renumbered(s);
    assert SameTexts(s, r);
    forall k | 0 <= k < |ord|
      ensures Numbered(ord)[k].size == SumLen(r[b[k]..b[k + 1]])
    {
      assert b[k] < b[k + 1];
      BlockSameTexts(s, r, b[k], b[k + 1]);
    }
  }

  /** Two lists with the same texts have blocks of the same size. */
  lemma BlockSameTexts(s: seq<CombinedSentence>, t: seq<CombinedSentence>, lo: int, hi: int)
    requires SameTexts(s, t) && 0 <= lo <= hi <= |s|
    ensures SumLen(s[lo..hi]) == SumLen(t[lo..hi])
  {
    SumLenSameTexts(s[lo..hi], t[lo..hi]);
  }

  /** In a partition with distinct indices, chunk k's index has rank k + 1. */
  lemma ChunkRanks(s: seq<CombinedSentence>, ord: seq<Chunk>, b: seq<int>)
    requires PartitionedBy(s, ord, b) && DistinctIndices(ord)
    ensures forall k :: 0 <= k < |ord| ==>
              Some(ord[k].chunkIndex) in Firsts(Indices(s)) && Rank(Firsts(Indices(s)), Some(ord[k].chunkIndex)) == k + 1
  {
    var fs := Firsts(Indices(s));
    PartitionFirsts(s, ord, b);
    FirstsMembers(Indices(s));
    forall k | 0 <= k < |ord|
      ensures Some(ord[k].chunkIndex) in fs && Rank(fs, Some(ord[k].chunkIndex)) == k + 1
    {
      assert fs[k] == Some(ord[k].chunkIndex);
      RankAt(fs, k);
    }
  }

  /** A sorted list and a strictly sorted list with the same elements are the same list. */
  lemma {:induction false} SortedUnique(a: seq<Chunk>, c: seq<Chunk>)
    requires SortedByIndex(a) && StrictlySortedByIndex(c) && multiset(a) == multiset(c)
    ensures a == c
    decreases |a|
  {
    if |a| > 0 {
      SameHead(a, c);
      assert a == [a[0]] + a[1..] && c == [c[0]] + c[1..];
      SortedUnique(a[1..], c[1..]);
    }
  }

  /** The first elements agree, and so do the multisets of the rests. */
  lemma SameHead(a: seq<Chunk>, c: seq<Chunk>)
    requires SortedByIndex(a) && StrictlySortedByIndex(c) && multiset(a) == multiset(c) && |a| > 0
    ensures |c| > 0 && a[0] == c[0] && multiset(a[1..]) == multiset(c[1..])
  {
    assert |c| == |a| by {
      assert |multiset(a)| == |multiset(c)|;
    }
    SameFirst(a, c);
    MultisetTail(a);
    MultisetTail(c);
  }

  /** The least element of both lists comes first in each. */
  lemma SameFirst(a: seq<Chunk>, c: seq<Chunk>)
    requires SortedByIndex(a) && StrictlySortedByIndex(c) && multiset(a) == multiset(c) && |a| > 0 && |c| > 0
    ensures a[0] == c[0]
  {
    assert a[0] in multiset(c) && c[0] in multiset(a);
    var q :| 0 <= q < |c| && c[q] == a[0];
    var p :| 0 <= p < |a| && a[p] == c[0];
    assert a[0].chunkIndex <= a[p].chunkIndex;
    assert q == 0;
  }

  lemma RenumberChunksConcat(c: seq<Chunk>, d: seq<Chunk>, fs: seq<Option<int>>)
    requires forall k :: 0 <= k < |c + d| ==> Some((c + d)[k].chunkIndex) in fs
    ensures forall k :: 0 <= k < |c| ==> Some(c[k].chunkIndex) in fs
    ensures forall k :: 0 <= k < |d| ==> Some(d[k].chunkIndex) in fs
    ensures RenumberChunks(c + d, fs) == RenumberChunks(c, fs) + RenumberChunks(d, fs)
  {
    assert forall k :: 0 <= k < |c| ==> c[k] == (c + d)[k];
    assert forall k :: 0 <= k < |d| ==> d[k] == (c + d)[|c| + k];
  }

  /** Relabelling `x` inserted anywhere adds its relabelled copy to the elements. */
  lemma RenumberChunksInsert(d1: seq<Chunk>, x: Chunk, d2: seq<Chunk>, fs: seq<Option<int>>)
    requires forall k :: 0 <= k < |d1 + [x] + d2| ==> Some((d1 + [x] + d2)[k].chunkIndex) in fs
    ensures forall k :: 0 <= k < |d1 + d2| ==> Some((d1 + d2)[k].chunkIndex) in fs
    ensures Some(x.chunkIndex) in fs
    ensures multiset(RenumberChunks(d1 + [x] + d2, fs))
            == multiset(RenumberChunks(d1 + d2, fs)) + multiset{x.(chunkIndex := Rank(fs, Some(x.chunkIndex)))}
  {
    assert (d1 + [x] + d2)[|d1|] == x;
    assert d1 + [x] + d2 == d1 + ([x] + d2);
    RenumberChunksConcat(d1, [x] + d2, fs);
    RenumberChunksConcat([x], d2, fs);
    RenumberChunksConcat(d1, d2, fs);
  }

  /** Elements of equal multisets satisfy the same membership condition. */
  lemma PermutationKeepsMembership(c: seq<Chunk>, d: seq<Chunk>, fs: seq<Option<int>>)
    requires multiset(c) == multiset(d)
    requires forall k :: 0 <= k < |c| ==> Some(c[k].chunkIndex) in fs
    ensures forall k :: 0 <= k < |d| ==> Some(d[k].chunkIndex) in fs
  {
    forall k | 0 <= k < |d|
      ensures Some(d[k].chunkIndex) in fs
    {
      assert d[k] in multiset(c);
    }
  }

  /** Relabelling two lists with the same elements gives two lists with the same elements. */
  lemma {:induction false} RenumberChunksPermutation(c: seq<Chunk>, d: seq<Chunk>, fs: seq<Option<int>>)
    requires multiset(c) == multiset(d)
    requires forall k :: 0 <= k < |c| ==> Some(c[k].chunkIndex) in fs
    ensures forall k :: 0 <= k < |d| ==> Some(d[k].chunkIndex) in fs
    ensures multiset(RenumberChunks(c, fs)) == multiset(RenumberChunks(d, fs))
    decreases |c|
  {
    PermutationKeepsMembership(c, d, fs);
    if |c| > 0 {
      var n := |c| - 1;
      assert c[n] in multiset(d);
      var j :| 0 <= j < |d| && d[j] == c[n];
      PermutationStep(c, d, j, fs);
      RenumberChunksPermutation(c[..n], d[..j] + d[j + 1..], fs);
    } else {
      assert |d| == |multiset(d)| == 0;
    }
  }

  /** Taking the last element of `c` and its copy in `d` out of both lists. */
  lemma PermutationStep(c: seq<Chunk>, d: seq<Chunk>, j: int, fs: seq<Option<int>>)
    requires multiset(c) == multiset(d) && |c| > 0 && 0 <= j < |d| && d[j] == c[|c| - 1]
    requires forall k :: 0 <= k < |c| ==> Some(c[k].chunkIndex) in fs
    requires forall k :: 0 <= k < |d| ==> Some(d[k].chunkIndex) in fs
    ensures var n, x := |c| - 1, c[|c| - 1];
            && multiset(c[..n]) == multiset(d[..j] + d[j + 1..])
            && (forall k :: 0 <= k < n ==> Some(c[k].chunkIndex) in fs)
            && Some(x.chunkIndex) in fs
            && multiset(RenumberChunks(c, fs)) == multiset(RenumberChunks(c[..n], fs)) + multiset{x.(chunkIndex := Rank(fs, Some(x.chunkIndex)))}
            && multiset(RenumberChunks(d, fs)) == multiset(RenumberChunks(d[..j] + d[j + 1..], fs)) + multiset{x.(chunkIndex := Rank(fs, Some(x.chunkIndex)))}
  {
    var n, x := |c| - 1, c[|c| - 1];
    var d1, d2 := d[..j], d[j + 1..];
    assert c[..n] + [x] + [] == c;
    assert d1 + [x] + d2 == d;
    assert multiset(c[..n]) == multiset(c) - multiset{x};
    assert multiset(d1 + d2) == multiset(d) - multiset{x} by {
      assert multiset(d) == multiset(d1) + multiset{x} + multiset(d2);
    }
    RenumberChunksInsert(c[..n], x, [], fs);
    RenumberChunksInsert(d1, x, d2, fs);
    assert c[..n] + [] == c[..n];
  }

  /**
   * Resetting after a pass that left a partition: every chunk index is
   * carried by a sentence (no KeyError), and the sorted relabelled chunks
   * are the partition's chunks numbered 1, 2, ... in sentence order.
   */
  lemma {:induction false} ResetOfPartition(s: seq<CombinedSentence>, chunks: seq<Chunk>, ord: seq<Chunk>,
                                            b: seq<int>, sorted: seq<Chunk>)
    requires PartitionedBy(s, ord, b) && DistinctIndices(ord) && multiset(chunks) == multiset(ord)
    ensures forall k :: 0 <= k < |chunks| ==> Some(chunks[k].chunkIndex) in Indices(s)
    ensures forall k :: 0 <= k < |chunks| ==> Some(chunks[k].chunkIndex) in Firsts(Indices(s))
    ensures SortedByIndex(sorted) && multiset(sorted) == multiset(RenumberChunks(chunks, Firsts(Indices(s))))
            ==> sorted == Numbered(ord) && PartitionedBy(Renumbered(s), sorted, b)
  {
    var fs := Firsts(Indices(s));
    RenumberPartition(s, ord, b);
    FirstsMembers(Indices(s));
    RenumberChunksPermutation(ord, chunks, fs);
    if SortedByIndex(sorted) && multiset(sorted) == multiset(RenumberChunks(chunks, fs)) {
      SortedUnique(sorted, Numbered(ord));
    }
  }
}
