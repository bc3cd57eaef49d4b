/** Ascending order on real samples: the reordering done by `x[np.argsort(x)]`
    and the sorted distinct values returned by `np.unique`. */
module Sorting {

  ghost predicate Sorted(s: seq<real>)
  {
    forall i, j :: 0 <= i < j < |s| ==> s[i] <= s[j]
  }

  ghost predicate StrictlyIncreasing(s: seq<real>)
  {
    forall i, j :: 0 <= i < j < |s| ==> s[i] < s[j]
  }

  /** Places `x` into the sorted sequence `s`. */
  function Insert(x: real, s: seq<real>): (r: seq<real>)
    requires Sorted(s)
    ensures Sorted(r)
    ensures multiset(r) == multiset(s) + multiset{x}
    ensures |r| == |s| + 1
  {
    if s == [] || x <= s[0] then
      [x] + s
    else
      var t := Insert(x, s[1..]);
      BoundedByHead(s, x, t);
      ConsSorted(s[0], t);
      assert s == [s[0]] + s[1..];
      assert multiset([s[0]] + t) == multiset{s[0]} + multiset(t);
      [s[0]] + t
  }

  lemma ConsSorted(h: real, t: seq<real>)
    requires Sorted(t)
    requires forall k :: 0 <= k < |t| ==> h <= t[k]
    ensures Sorted([h] + t)
  {
  }

  /** After inserting `x > s[0]` into the tail, every element is at least `s[0]`. */
  lemma BoundedByHead(s: seq<real>, x: real, t: seq<real>)
    requires Sorted(s) && s != [] && s[0] < x
    requires multiset(t) == multiset(s[1..]) + multiset{x}
    ensures forall k :: 0 <= k < |t| ==> s[0] <= t[k]
  {
    forall k | 0 <= k < |t| ensures s[0] <= t[k] {
      assert t[k] in multiset(t);
      if t[k] != x {
        assert t[k] in multiset(s[1..]);
        assert t[k] in s[1..];
      }
    }
  }

  /** The sample in ascending order. */
  function Sort(s: seq<real>): (r: seq<real>)
    ensures Sorted(r)
    ensures multiset(r) == multiset(s)
    ensures |r| == |s|
  {
    if s == [] then [] else
      assert s == [s[0]] + s[1..];
      Insert(s[0], Sort(s[1..]))
  }

  /** A multiset has exactly one ascending arrangement. */
  lemma {:induction false} SortedUnique(a: seq<real>, b: seq<real>)
    requires Sorted(a) && Sorted(b)
    requires multiset(a) == multiset(b)
    ensures a == b
  {
    if a != [] {
      assert |b| == |a| by {
        assert |multiset(a)| == |a| && |multiset(b)| == |b|;
      }
      assert a[0] in multiset(b);
      assert b[0] in multiset(a);
      assert a[0] == b[0];
      TailMultiset(a);
      TailMultiset(b);
      SortedUnique(a[1..], b[1..]);
    }
  }

  lemma TailMultiset(a: seq<real>)
    requires a != []
    ensures multiset(a[1..]) == multiset(a) - multiset{a[0]}
  {
    assert a == [a[0]] + a[1..];
  }

  /** Sorting depends only on which values occur how often. */
  lemma SortPermutationInvariant(a: seq<real>, b: seq<real>)
    requires multiset(a) == multiset(b)
    ensures Sort(a) == Sort(b)
  {
    SortedUnique(Sort(a), Sort(b));
  }

  /** Keeps the first of every run of equal values in a sorted sequence. */
  function Dedup(s: seq<real>): (r: seq<real>)
    requires Sorted(s)
    ensures StrictlyIncreasing(r)
    ensures forall x :: x in r <==> x in s
    ensures s != [] ==> r != [] && r[0] == s[0]
  {
    if |s| <= 1 then s
    else if s[0] == s[1] then Dedup(s[1..])
    else
      var t := Dedup(s[1..]);
      assert forall k :: 0 <= k < |t| ==> s[0] < t[k] by {
        forall k | 0 <= k < |t| ensures s[0] < t[k] {
          assert t[k] in s[1..];
        }
      }
      [s[0]] + t
  }

  /** np.unique: the distinct values of `s`, ascending. */
  function Unique(s: seq<real>): (u: seq<real>)
    ensures StrictlyIncreasing(u)
    ensures forall x :: x in u <==> x in s
  {
    var t := Sort(s);
    assert forall x :: x in t <==> x in s by {
      forall x ensures x in t <==> x in s {
        assert x in t <==> x in multiset(t);
        assert x in s <==> x in multiset(s);
      }
    }
    Dedup(t)
  }
}
