/**
 * Facts about sequences the other modules use as single steps, proved once
 * here so that each use stays a small proof of its own.
 */
module Seqs {

  /** Dropping the last element and appending it again gives the sequence back. */
  lemma InitThenLast<T>(s: seq<T>)
    requires |s| > 0
    ensures s[..|s| - 1] + [s[|s| - 1]] == s
  {
  }

  /** The positions `lo`, `lo` + 1, ..., `hi` - 1; none when `hi` <= `lo`. */
  function Range(lo: int, hi: int): (r: seq<int>)
    ensures |r| == (if lo <= hi then hi - lo else 0)
    decreases hi - lo
  {
    if lo >= hi then [] else [lo] + Range(lo + 1, hi)
  }

  /** A non-empty range is its first position followed by the rest. */
  lemma RangeCons(lo: int, hi: int)
    requires lo < hi
    ensures Range(lo, hi) == [lo] + Range(lo + 1, hi)
  {
  }

  /** Position `x` of a range is `lo` + `x`. */
  lemma {:induction false} RangeAt(lo: int, hi: int)
    requires lo <= hi
    ensures forall x :: 0 <= x < hi - lo ==> Range(lo, hi)[x] == lo + x
    decreases hi - lo
  {
    if lo < hi {
      RangeAt(lo + 1, hi);
    }
  }

  /** A non-empty range is the range one shorter followed by its last position. */
  lemma RangeSnoc(lo: int, hi: int)
    requires lo < hi
    ensures Range(lo, hi) == Range(lo, hi - 1) + [hi - 1]
  {
    RangeAt(lo, hi);
    RangeAt(lo, hi - 1);
    assert forall x :: 0 <= x < hi - lo ==> Range(lo, hi)[x] == (Range(lo, hi - 1) + [hi - 1])[x];
  }

  /** Concatenation is associative. */
  lemma AppendAssoc<T>(a: seq<T>, b: seq<T>, c: seq<T>)
    ensures a + (b + c) == (a + b) + c
  {
  }

  /** Appending an element and taking the old length gives the old sequence. */
  lemma InitOfSnoc<T>(s: seq<T>, x: T)
    ensures (s + [x])[..|s|] == s
  {
  }

  /** A sequence is its head followed by its tail. */
  lemma HeadThenTail<T>(s: seq<T>)
    requires |s| > 0
    ensures [s[0]] + s[1..] == s
  {
  }

  /** A slice followed by the element after it is the slice one longer. */
  lemma SliceSnoc<T>(s: seq<T>, lo: int, j: int)
    requires 0 <= lo <= j < |s|
    ensures s[lo..j] + [s[j]] == s[lo..j + 1]
    ensures s[lo..j + 1][..j - lo] == s[lo..j]
  {
  }

  /** A slice, one element and the slice after it make up the whole slice. */
  lemma SliceAround<T>(s: seq<T>, lo: int, i: int, hi: int)
    requires 0 <= lo <= i < hi <= |s|
    ensures s[lo..i] + [s[i]] + s[i + 1..hi] == s[lo..hi]
  {
  }

  /** Dropping `a` elements and then `b` more drops `a + b`. */
  lemma DropDrop<T>(s: seq<T>, a: int, b: int)
    requires 0 <= a <= |s| && 0 <= b <= |s| - a
    ensures s[a..][b..] == s[a + b..]
  {
  }

  /** Taking `j` elements of a prefix of length `m >= j` takes `j` elements. */
  lemma TakeTake<T>(s: seq<T>, j: int, m: int)
    requires 0 <= j <= m <= |s|
    ensures s[..m][..j] == s[..j]
  {
  }

  /** A slice inside a prefix is the same slice of the whole. */
  lemma SliceOfTake<T>(s: seq<T>, i: int, j: int, m: int)
    requires 0 <= i <= j <= m <= |s|
    ensures s[..m][i..j] == s[i..j]
  {
  }

  /** A slice of a suffix is the slice of the whole moved by the dropped length. */
  lemma SliceOfDrop<T>(s: seq<T>, d: int, i: int, j: int)
    requires 0 <= d <= |s| && 0 <= i <= j <= |s| - d
    ensures s[d..][i..j] == s[d + i..d + j]
  {
  }

  /** Two adjacent slices make up the slice that spans both. */
  lemma SliceSplit<T>(s: seq<T>, lo: int, mid: int, hi: int)
    requires 0 <= lo <= mid <= hi <= |s|
    ensures s[lo..mid] + s[mid..hi] == s[lo..hi]
  {
  }

  /** A slice of a concatenation that lies in its first part. */
  lemma SliceAppendLeft<T>(a: seq<T>, b: seq<T>, i: int, j: int)
    requires 0 <= i <= j <= |a|
    ensures (a + b)[i..j] == a[i..j]
  {
  }

  /** A slice of a concatenation that lies in its second part. */
  lemma SliceAppendRight<T>(a: seq<T>, b: seq<T>, i: int, j: int)
    requires |a| <= i <= j <= |a| + |b|
    ensures (a + b)[i..j] == b[i - |a|..j - |a|]
  {
  }

  /** Dropping the last element of a concatenation with a non-empty second part. */
  lemma InitOfAppend<T>(a: seq<T>, b: seq<T>)
    requires |b| > 0
    ensures (a + b)[..|a + b| - 1] == a + b[..|b| - 1]
  {
  }

  /** A prefix followed by the next element is the longer prefix. */
  lemma TakeSnoc<T>(s: seq<T>, k: int)
    requires 0 <= k < |s|
    ensures s[..k] + [s[k]] == s[..k + 1]
  {
  }

  /** The prefix as long as the sequence is the sequence. */
  lemma TakeAll<T>(s: seq<T>)
    ensures s[..|s|] == s
  {
  }

  /** The elements after the first are all elements but one copy of the first. */
  lemma MultisetTail<T>(s: seq<T>)
    requires |s| > 0
    ensures multiset(s[1..]) == multiset(s) - multiset{s[0]}
  {
    HeadThenTail(s);
  }
}
