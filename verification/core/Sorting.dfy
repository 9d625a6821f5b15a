/** Go's sort.Slice: any arrangement of the elements without an inversion. */
module Sorting {
  import opened Sums

  ghost predicate IsPermutation(perm: seq<int>, n: nat) {
    && |perm| == n
    && (forall i :: 0 <= i < n ==> 0 <= perm[i] < n)
    && (forall i, j :: 0 <= i < j < n ==> perm[i] != perm[j])
  }

  /** What sort.Slice asks of its less function. */
  ghost predicate StrictWeakOrder<T(!new)>(less: (T, T) -> bool) {
    && (forall x: T, y: T :: less(x, y) ==> !less(y, x))
    && (forall x: T, y: T, z: T :: !less(x, y) && !less(y, z) ==> !less(x, z))
  }

  ghost predicate Sorted<T>(s: seq<T>, less: (T, T) -> bool) {
    forall i, j :: 0 <= i < j < |s| ==> !less(s[j], s[i])
  }

  ghost predicate Arranges<T>(s: seq<T>, perm: seq<int>, r: seq<T>) {
    && IsPermutation(perm, |s|) && |r| == |s|
    && forall i :: 0 <= i < |s| ==> r[i] == s[perm[i]]
  }

  /** sort.Slice is not stable and its algorithm is not part of its contract:
      callers may use only the ensures clauses. */
  method SortSlice<T(!new)>(s: seq<T>, less: (T, T) -> bool) returns (r: seq<T>, ghost perm: seq<int>)
    requires StrictWeakOrder(less)
    ensures Sorted(r, less) && Arranges(s, perm, r)
    ensures multiset(r) == multiset(s)
  {
    r, perm := [], [];
    for n := 0 to |s|
      invariant Sorted(r, less) && Arranges(s[..n], perm, r) && multiset(r) == multiset(s[..n])
    {
      var at := 0;
      while at < n && !less(s[n], r[at])
        invariant 0 <= at <= n
        invariant forall i :: 0 <= i < at ==> !less(s[n], r[i])
      {
        at := at + 1;
      }
      InsertSorted(r, s[n], at, less);
      InsertArranges(s, n, perm, r, at);
      InsertMultiset(r, s[n], at);
      assert s[..n + 1] == s[..n] + [s[n]];
      r, perm := Insert(r, s[n], at), Insert(perm, n, at);
    }
    assert s[..|s|] == s;
  }

  function Insert<T>(s: seq<T>, x: T, at: nat): seq<T>
    requires at <= |s|
  {
    s[..at] + [x] + s[at..]
  }

  lemma InsertMultiset<T>(s: seq<T>, x: T, at: nat)
    requires at <= |s|
    ensures multiset(Insert(s, x, at)) == multiset(s) + multiset{x}
  {
    assert s == s[..at] + s[at..];
  }

  lemma InsertSorted<T(!new)>(r: seq<T>, x: T, at: nat, less: (T, T) -> bool)
    requires StrictWeakOrder(less) && Sorted(r, less) && at <= |r|
    requires forall i :: 0 <= i < at ==> !less(x, r[i])
    requires at < |r| ==> less(x, r[at])
    ensures Sorted(Insert(r, x, at), less)
  {
  }

  lemma InsertArranges<T>(s: seq<T>, n: nat, perm: seq<int>, r: seq<T>, at: nat)
    requires n < |s| && Arranges(s[..n], perm, r) && at <= n
    ensures Arranges(s[..n + 1], Insert(perm, n, at), Insert(r, s[n], at))
  {
    var p, q := Insert(perm, n, at), Insert(r, s[n], at);
    forall i | 0 <= i < n + 1 ensures 0 <= p[i] < n + 1 && q[i] == s[..n + 1][p[i]] && (i != at ==> p[i] < n) {
      if i < at {
        assert p[i] == perm[i] && q[i] == r[i];
      } else if i > at {
        assert p[i] == perm[i - 1] && q[i] == r[i - 1];
      }
    }
    forall i, j | 0 <= i < j < n + 1 ensures p[i] != p[j] {
      var i', j' := if i < at then i else i - 1, if j < at then j else j - 1;
      if i != at && j != at {
        assert p[i] == perm[i'] && p[j] == perm[j'];
      }
    }
  }

  /** A sum does not depend on the names of its indices. */
  lemma {:induction false} Reindex<S, T>(s: set<S>, t: set<T>, h: S -> T, f: Vec<T>, g: Vec<S>)
    requires |s| == |t|
    requires forall x | x in s :: h(x) in t && g(x) == f(h(x))
    requires forall x, y | x in s && y in s && x != y :: h(x) != h(y)
    ensures Sum(s, g) == Sum(t, f)
    decreases |s|
  {
    if s != {} {
      var x :| x in s;
      Pull(s, g, x);
      Pull(t, f, h(x));
      Reindex(s - {x}, t - {h(x)}, h, f, g);
    }
  }

  function At(perm: seq<int>): int -> int { i => if 0 <= i < |perm| then perm[i] else i }

  lemma SumPermuted(perm: seq<int>, n: nat, f: Vec<int>, g: Vec<int>)
    requires IsPermutation(perm, n)
    requires forall i :: 0 <= i < n ==> g(i) == f(perm[i])
    ensures Sum(Range(n), g) == Sum(Range(n), f)
  {
    Reindex(Range(n), Range(n), At(perm), f, g);
  }
}
