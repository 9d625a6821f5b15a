/** A binary min-heap of eviction candidates, as Go's container/heap keeps it. */
module Heap {
  import opened Ranking

  datatype Candidate = Candidate(key: Key, priority: real)

  function Parent(j: int): int
    requires j >= 1
  {
    (j - 1) / 2
  }

  /** Below position lo nothing is said; from there on, no entry before n is less than its parent. */
  ghost predicate HeapFrom(h: seq<Candidate>, lo: int, n: int)
    requires 0 <= n <= |h|
  {
    forall j :: 1 <= j < n && lo <= Parent(j) ==> h[Parent(j)].priority <= h[j].priority
  }

  /** The root is a least element. */
  lemma {:induction false} RootIsLeast(h: seq<Candidate>, n: int, j: int)
    requires 0 <= j < n <= |h| && HeapFrom(h, 0, n)
    ensures h[0].priority <= h[j].priority
    decreases j
  {
    if j > 0 {
      RootIsLeast(h, n, Parent(j));
    }
  }

  /** The state of a sift-down: only the entry at i may be greater than its children. */
  ghost predicate Sifting(h: seq<Candidate>, lo: int, i: int, n: int)
    requires 0 <= n <= |h|
  {
    && (forall j :: 1 <= j < n && lo <= Parent(j) && Parent(j) != i ==> h[Parent(j)].priority <= h[j].priority)
    && (i > lo && i >= 1 ==> forall j :: 1 <= j < n && Parent(j) == i ==> h[Parent(i)].priority <= h[j].priority)
  }

  ghost predicate Rearranged(g: seq<Candidate>, h: seq<Candidate>) { |g| == |h| && multiset(g) == multiset(h) }

  function Swapped(h: seq<Candidate>, i: nat, j: nat): seq<Candidate>
    requires i < |h| && j < |h|
  {
    h[i := h[j]][j := h[i]]
  }

  lemma SwapRearranges(h: seq<Candidate>, i: nat, j: nat)
    requires i < |h| && j < |h|
    ensures Rearranged(h, Swapped(h, i, j))
  {
  }

  /** Moving the entry at i one level down, to its lesser child. */
  lemma SiftStep(h: seq<Candidate>, lo: nat, i: nat, j: nat, n: nat)
    requires n <= |h| && lo <= i < j < n && Parent(j) == i && Sifting(h, lo, i, n)
    requires h[j].priority < h[i].priority
    requires forall c :: 1 <= c < n && Parent(c) == i ==> h[j].priority <= h[c].priority
    ensures Sifting(Swapped(h, i, j), lo, j, n)
  {
  }

  /** h came from g by sifting among the first n entries, so far down to position i. */
  ghost predicate Sifted(g: seq<Candidate>, h: seq<Candidate>, lo: int, i: int, n: int) {
    0 <= n <= |h| && Rearranged(g, h) && h[n..] == g[n..] && Sifting(h, lo, i, n)
  }

  lemma SiftedNext(g: seq<Candidate>, h: seq<Candidate>, lo: nat, i: nat, j: nat, n: nat)
    requires Sifted(g, h, lo, i, n) && lo <= i && 2 * i + 1 < n && j == LesserChild(h, i, n)
      && h[j].priority < h[i].priority
    ensures Sifted(g, Swapped(h, i, j), lo, j, n)
  {
    LesserChildIs(h, i, n);
    SiftStep(h, lo, i, j, n);
    SwapRearranges(h, i, j);
    assert Swapped(h, i, j)[n..] == h[n..];
  }

  /** The child to sift into. */
  function LesserChild(h: seq<Candidate>, i: nat, n: nat): (j: nat)
    requires 2 * i + 1 < n <= |h|
    ensures i < j < n
  {
    var j1 := 2 * i + 1;
    if j1 + 1 < n && h[j1 + 1].priority < h[j1].priority then j1 + 1 else j1
  }

  lemma LesserChildIs(h: seq<Candidate>, i: nat, n: nat)
    requires 2 * i + 1 < n <= |h|
    ensures Parent(LesserChild(h, i, n)) == i
    ensures forall c :: 1 <= c < n && Parent(c) == i ==> h[LesserChild(h, i, n)].priority <= h[c].priority
  {
  }

  lemma SiftedDone(g: seq<Candidate>, h: seq<Candidate>, lo: nat, i: nat, n: nat)
    requires Sifted(g, h, lo, i, n)
    requires 2 * i + 1 < n ==> h[LesserChild(h, i, n)].priority >= h[i].priority
    ensures HeapFrom(h, lo, n)
  {
  }

  /** After the root has been exchanged with the last entry, only the root may be out of place. */
  lemma RootExchanged(h: seq<Candidate>, n: nat)
    requires |h| == n + 1 && HeapFrom(h, 0, n + 1)
    ensures Sifted(Swapped(h, 0, n), Swapped(h, 0, n), 0, 0, n)
  {
  }

  lemma PoppedElements(before: seq<Candidate>, after: seq<Candidate>, n: nat)
    requires |before| == |after| == n + 1 && Rearranged(Swapped(before, 0, n), after)
    requires after[n..] == Swapped(before, 0, n)[n..]
    ensures after[n] == before[0] && multiset(before) == multiset(after[..n]) + multiset{before[0]}
  {
    SwapRearranges(before, 0, n);
    assert after[n] == after[n..][0] == Swapped(before, 0, n)[n..][0];
    assert after == after[..n] + [after[n]];
  }

  class EvictionHeap {
    var h: seq<Candidate>

    constructor (h: seq<Candidate>)
      ensures this.h == h
    {
      this.h := h;
    }

    function Less(i: nat, j: nat): bool
      requires i < |h| && j < |h|
      reads this
    {
      h[i].priority < h[j].priority
    }

    method Swap(i: nat, j: nat)
      requires i < |h| && j < |h|
      modifies this
      ensures h == Swapped(old(h), i, j)
    {
      h := h[i := h[j]][j := h[i]];
    }

    /** Takes the last element off. */
    method PopLast() returns (c: Candidate)
      requires |h| > 0
      modifies this
      ensures old(h) == h + [c]
    {
      var n := |h|;
      c := h[n - 1];
      h := h[..n - 1];
    }

    /** Sifts the entry at i0 down among the first n. */
    method Down(i0: nat, n: nat)
      requires n <= |h| && Sifting(h, i0, i0, n)
      modifies this
      ensures |h| == |old(h)| && HeapFrom(h, i0, n) && Rearranged(old(h), h) && h[n..] == old(h)[n..]
    {
      var i := i0;
      while 2 * i + 1 < n
        invariant i0 <= i && Sifted(old(h), h, i0, i, n)
        decreases n - i
      {
        var j := 2 * i + 1;
        if j + 1 < n && Less(j + 1, j) {
          j := j + 1;
        }
        assert j == LesserChild(h, i, n);
        if !Less(j, i) {
          break;
        }
        SiftedNext(old(h), h, i0, i, j, n);
        Swap(i, j);
        i := j;
      }
      SiftedDone(old(h), h, i0, i, n);
    }

    method Init()
      modifies this
      ensures HeapFrom(h, 0, |h|) && Rearranged(old(h), h)
    {
      var n := |h|;
      var i := n / 2;
      while i > 0
        invariant 0 <= i <= n / 2 && |h| == n && HeapFrom(h, i, n) && Rearranged(old(h), h)
      {
        i := i - 1;
        Down(i, n);
      }
    }

    /** Removes a least element. */
    method Pop() returns (c: Candidate)
      requires |h| > 0 && HeapFrom(h, 0, |h|)
      modifies this
      ensures HeapFrom(h, 0, |h|) && multiset(old(h)) == multiset(h) + multiset{c}
      ensures forall x :: x in multiset(old(h)) ==> c.priority <= x.priority
    {
      var n := |h| - 1;
      LeastOfAll(h);
      RootExchanged(h, n);
      Swap(0, n);
      Down(0, n);
      PoppedElements(old(h), h, n);
      c := PopLast();
    }
  }

  lemma LeastOfAll(h: seq<Candidate>)
    requires |h| > 0 && HeapFrom(h, 0, |h|)
    ensures forall x :: x in multiset(h) ==> h[0].priority <= x.priority
  {
    forall x | x in multiset(h) ensures h[0].priority <= x.priority {
      var j :| 0 <= j < |h| && h[j] == x;
      RootIsLeast(h, |h|, j);
    }
  }
}
