/** Removing elements at a set of positions, as Swift's
    `remove(atOffsets:)` does on an array: an `IndexSet` of offsets, every
    one of which must be a valid index of the array. */
module Offsets {

  /** Every offset names an existing position of a sequence of length `n`;
      Swift traps on any other offset. */
  predicate InBounds(offsets: set<nat>, n: nat) {
    forall o :: o in offsets ==> o < n
  }

  predicate StrictlyIncreasing(xs: seq<nat>) {
    forall i, j :: 0 <= i < j < |xs| ==> xs[i] < xs[j]
  }

  /** `idx` enumerates, in ascending order, exactly the positions below `n`
      that are not among `offsets`. */
  predicate EnumeratesUnmarked(idx: seq<nat>, n: nat, offsets: set<nat>) {
    && StrictlyIncreasing(idx)
    && (forall k :: 0 <= k < |idx| ==> idx[k] < n && idx[k] !in offsets)
    && (forall i :: 0 <= i < n && i !in offsets ==> i in idx)
  }

  /** `r` is `s` with the elements at `offsets` taken out: the elements at
      every other position, each once, in their original relative order. */
  ghost predicate ExactlyUnmarked<T>(r: seq<T>, s: seq<T>, offsets: set<nat>) {
    exists idx :: EnumeratesUnmarked(idx, |s|, offsets) && |idx| == |r|
                   && forall k :: 0 <= k < |r| ==> r[k] == s[idx[k]]
  }

  /** The positions in [lo, n) that are not in `offsets`, ascending. */
  function KeptOffsets(n: nat, offsets: set<nat>, lo: nat): (r: seq<nat>)
    ensures StrictlyIncreasing(r)
    ensures forall k :: 0 <= k < |r| ==> lo <= r[k] < n && r[k] !in offsets
    ensures forall i :: lo <= i < n && i !in offsets ==> i in r
    decreases n - lo
  {
    if lo >= n then []
    else if lo in offsets then KeptOffsets(n, offsets, lo + 1)
    else [lo] + KeptOffsets(n, offsets, lo + 1)
  }

  /** The offsets that fall in [lo, n). */
  function MarkedIn(offsets: set<nat>, lo: nat, n: nat): set<nat> {
    set i | i in offsets && lo <= i < n
  }

  /** Every position of [lo, n) is either kept or marked, never both. */
  lemma {:induction false} KeptOffsetsCount(n: nat, offsets: set<nat>, lo: nat)
    requires lo <= n
    ensures |KeptOffsets(n, offsets, lo)| + |MarkedIn(offsets, lo, n)| == n - lo
    decreases n - lo
  {
    if lo == n {
      assert MarkedIn(offsets, lo, n) == {};
    } else {
      KeptOffsetsCount(n, offsets, lo + 1);
      if lo in offsets {
        assert MarkedIn(offsets, lo, n) == MarkedIn(offsets, lo + 1, n) + {lo};
      } else {
        assert MarkedIn(offsets, lo, n) == MarkedIn(offsets, lo + 1, n);
      }
    }
  }

  /** The elements of `s` at positions `idx`, in that order. */
  function Pick<T>(s: seq<T>, idx: seq<nat>): seq<T>
    requires forall k :: 0 <= k < |idx| ==> idx[k] < |s|
  {
    seq(|idx|, k requires 0 <= k < |idx| => s[idx[k]])
  }

  /** Picking a position first puts its element first. */
  lemma PickCons<T>(s: seq<T>, i: nat, idx: seq<nat>)
    requires i < |s|
    requires forall k :: 0 <= k < |idx| ==> idx[k] < |s|
    ensures Pick(s, [i] + idx) == [s[i]] + Pick(s, idx)
  {
  }

  /** The positions a removal keeps: every position of `s` not in `offsets`. */
  function KeptPositions<T>(s: seq<T>, offsets: set<nat>): (idx: seq<nat>)
    ensures EnumeratesUnmarked(idx, |s|, offsets)
  {
    KeptOffsets(|s|, offsets, 0)
  }

  lemma KeptPositionsCount<T>(s: seq<T>, offsets: set<nat>)
    requires InBounds(offsets, |s|)
    ensures |KeptPositions(s, offsets)| == |s| - |offsets|
  {
    KeptOffsetsCount(|s|, offsets, 0);
    assert MarkedIn(offsets, 0, |s|) == offsets;
  }

  lemma PickKeepsListed<T>(s: seq<T>, idx: seq<nat>, i: nat)
    requires forall k :: 0 <= k < |idx| ==> idx[k] < |s|
    requires i in idx
    ensures s[i] in Pick(s, idx)
  {
    var k :| 0 <= k < |idx| && idx[k] == i;
    assert Pick(s, idx)[k] == s[i];
  }

  /** `array.remove(atOffsets: offsets)`: the result holds the element of
      every unmarked position, once each and in their original order, and is
      shorter by exactly the number of offsets. */
  function RemoveAtOffsets<T>(s: seq<T>, offsets: set<nat>): (r: seq<T>)
    requires InBounds(offsets, |s|)
    ensures |r| == |s| - |offsets|
    ensures ExactlyUnmarked(r, s, offsets)
    ensures forall i :: 0 <= i < |s| && i !in offsets ==> s[i] in r
  {
    var kept := KeptPositions(s, offsets);
    KeptPositionsCount(s, offsets);
    var r := Pick(s, kept);
    assert forall k :: 0 <= k < |r| ==> r[k] == s[kept[k]];
    forall i | 0 <= i < |s| && i !in offsets ensures s[i] in r {
      PickKeepsListed(s, kept, i);
    }
    r
  }

  /** The elements of `s` from position `lo` on whose positions are not in
      `offsets`, in order. */
  function UnmarkedFrom<T>(s: seq<T>, offsets: set<nat>, lo: nat): seq<T>
    decreases |s| - lo
  {
    if lo >= |s| then []
    else if lo in offsets then UnmarkedFrom(s, offsets, lo + 1)
    else [s[lo]] + UnmarkedFrom(s, offsets, lo + 1)
  }

  /** Walking the positions from `lo` on picks the kept positions from `lo`
      on. */
  lemma {:induction false} UnmarkedFromPicksKept<T>(s: seq<T>, offsets: set<nat>, lo: nat)
    requires lo <= |s|
    ensures UnmarkedFrom(s, offsets, lo) == Pick(s, KeptOffsets(|s|, offsets, lo))
    decreases |s| - lo
  {
    if lo < |s| {
      UnmarkedFromPicksKept(s, offsets, lo + 1);
      if lo !in offsets {
        PickCons(s, lo, KeptOffsets(|s|, offsets, lo + 1));
      }
    }
  }

  /** The walk over all positions is the removal. */
  lemma UnmarkedIsRemoval<T>(s: seq<T>, offsets: set<nat>)
    requires InBounds(offsets, |s|)
    ensures UnmarkedFrom(s, offsets, 0) == RemoveAtOffsets(s, offsets)
  {
    UnmarkedFromPicksKept(s, offsets, 0);
  }

  /** Dropping marked position `i` from the partly processed sequence keeps
      the loop invariant of `RemoveHighestFirst`. */
  lemma DropMarkedStep<T>(s: seq<T>, offsets: set<nat>, i: nat, r: seq<T>)
    requires i < |s| && i in offsets
    requires r == s[..i + 1] + UnmarkedFrom(s, offsets, i + 1)
    ensures r[..i] + r[i + 1..] == s[..i] + UnmarkedFrom(s, offsets, i)
  {
    assert r[..i] == s[..i];
    assert r[i + 1..] == UnmarkedFrom(s, offsets, i + 1);
  }

  /** Passing over unmarked position `i` keeps the same invariant. */
  lemma KeepUnmarkedStep<T>(s: seq<T>, offsets: set<nat>, i: nat, r: seq<T>)
    requires i < |s| && i !in offsets
    requires r == s[..i + 1] + UnmarkedFrom(s, offsets, i + 1)
    ensures r == s[..i] + UnmarkedFrom(s, offsets, i)
  {
    assert s[..i + 1] == s[..i] + [s[i]];
  }

  /** The removal carried out one position at a time, highest first, so that
      the lower offsets still to be removed keep their meaning. It computes
      the same sequence as `RemoveAtOffsets`. */
  method RemoveHighestFirst<T>(s: seq<T>, offsets: set<nat>) returns (r: seq<T>)
    requires InBounds(offsets, |s|)
    ensures r == RemoveAtOffsets(s, offsets)
    ensures |r| == |s| - |offsets|
  {
    r := s;
    var i := |s|;
    while i > 0
      invariant 0 <= i <= |s|
      invariant r == s[..i] + UnmarkedFrom(s, offsets, i)
    {
      i := i - 1;
      if i in offsets {
        DropMarkedStep(s, offsets, i, r);
        r := r[..i] + r[i + 1..];
      } else {
        KeepUnmarkedStep(s, offsets, i, r);
      }
    }
    assert r == UnmarkedFrom(s, offsets, 0);
    UnmarkedIsRemoval(s, offsets);
  }
}
