/** Filtering and Python's `list.remove` on sequences, and the fact that
    removing the matching elements one at a time, in order, leaves exactly
    the elements that do not match. */
module Seqs {

  /** The elements of `xs` satisfying `p`, in order. */
  function Filter<T>(xs: seq<T>, p: T -> bool): (r: seq<T>)
    ensures |r| <= |xs|
  {
    if |xs| == 0 then []
    else (if p(xs[0]) then [xs[0]] else []) + Filter(xs[1..], p)
  }

  /** A filter keeps exactly the elements that satisfy the predicate. */
  lemma {:induction false} FilterMembers<T>(xs: seq<T>, p: T -> bool)
    ensures forall k :: 0 <= k < |Filter(xs, p)| ==> Filter(xs, p)[k] in xs && p(Filter(xs, p)[k])
    ensures forall k :: 0 <= k < |xs| && p(xs[k]) ==> xs[k] in Filter(xs, p)
  {
    if |xs| > 0 {
      FilterMembers(xs[1..], p);
      var r := Filter(xs, p);
      var head := if p(xs[0]) then [xs[0]] else [];
      assert r == head + Filter(xs[1..], p);
      forall k | 0 <= k < |r|
        ensures r[k] in xs && p(r[k])
      {
        if k >= |head| {
          assert r[k] == Filter(xs[1..], p)[k - |head|];
          var j :| 0 <= j < |xs[1..]| && xs[1..][j] == r[k];
          assert xs[j + 1] == r[k];
        }
      }
      forall k | 0 <= k < |xs| && p(xs[k])
        ensures xs[k] in r
      {
        if k > 0 {
          assert xs[k] == xs[1..][k - 1];
        }
      }
    }
  }

  function Not<T>(p: T -> bool): T -> bool {
    x => !p(x)
  }

  lemma {:induction false} FilterConcat<T>(a: seq<T>, b: seq<T>, p: T -> bool)
    ensures Filter(a + b, p) == Filter(a, p) + Filter(b, p)
  {
    if |a| > 0 {
      FilterConcat(a[1..], b, p);
      assert (a + b)[1..] == a[1..] + b;
    } else {
      assert a + b == b;
    }
  }

  lemma {:induction false} FilterAll<T>(xs: seq<T>, p: T -> bool)
    requires forall k :: 0 <= k < |xs| ==> p(xs[k])
    ensures Filter(xs, p) == xs
  {
    if |xs| > 0 {
      FilterAll(xs[1..], p);
      assert xs == [xs[0]] + xs[1..];
    }
  }

  lemma {:induction false} FilterNone<T>(xs: seq<T>, p: T -> bool)
    requires forall k :: 0 <= k < |xs| ==> !p(xs[k])
    ensures Filter(xs, p) == []
  {
    if |xs| > 0 {
      FilterNone(xs[1..], p);
    }
  }

  /** Every element is kept by exactly one of a predicate and its negation. */
  lemma {:induction false} FilterPartition<T>(xs: seq<T>, p: T -> bool)
    ensures |Filter(xs, p)| + |Filter(xs, Not(p))| == |xs|
  {
    if |xs| > 0 {
      FilterPartition(xs[1..], p);
    }
  }

  /** Filtering one more element at the end. */
  lemma FilterSnoc<T>(xs: seq<T>, x: T, p: T -> bool)
    ensures Filter(xs + [x], p) == Filter(xs, p) + (if p(x) then [x] else [])
  {
    FilterConcat(xs, [x], p);
  }

  /** Filtering twice is filtering once when the second predicate implies the first. */
  lemma {:induction false} FilterSubsumed<T>(xs: seq<T>, q: T -> bool, r: T -> bool)
    requires forall k :: 0 <= k < |xs| && r(xs[k]) ==> q(xs[k])
    ensures Filter(Filter(xs, q), r) == Filter(xs, r)
  {
    if |xs| > 0 {
      FilterSubsumed(xs[1..], q, r);
      var head := if q(xs[0]) then [xs[0]] else [];
      FilterConcat(head, Filter(xs[1..], q), r);
    }
  }

  /** An empty filter means no element satisfies the predicate. */
  lemma FilterEmpty<T>(xs: seq<T>, p: T -> bool)
    requires Filter(xs, p) == []
    ensures forall k :: 0 <= k < |xs| ==> !p(xs[k])
  {
    FilterMembers(xs, p);
  }

  /** Predicates that agree on every element filter alike. */
  lemma {:induction false} FilterCongruent<T>(xs: seq<T>, p: T -> bool, q: T -> bool)
    requires forall k :: 0 <= k < |xs| ==> p(xs[k]) == q(xs[k])
    ensures Filter(xs, p) == Filter(xs, q)
  {
    if |xs| > 0 {
      FilterCongruent(xs[1..], p, q);
    }
  }

  /** Python's `xs.remove(x)`: drops the first occurrence of `x`. */
  function RemoveFirst<T(==)>(xs: seq<T>, x: T): (r: seq<T>)
    requires x in xs
    ensures |r| == |xs| - 1
  {
    if xs[0] == x then xs[1..] else [xs[0]] + RemoveFirst(xs[1..], x)
  }

  /** `xs` with its first `k` elements satisfying `p` dropped. */
  function DropMatching<T>(xs: seq<T>, p: T -> bool, k: nat): seq<T>
  {
    if |xs| == 0 then []
    else if p(xs[0]) && k > 0 then DropMatching(xs[1..], p, k - 1)
    else [xs[0]] + DropMatching(xs[1..], p, k)
  }

  lemma {:induction false} DropNothing<T>(xs: seq<T>, p: T -> bool)
    ensures DropMatching(xs, p, 0) == xs
  {
    if |xs| > 0 {
      DropNothing(xs[1..], p);
      assert xs == [xs[0]] + xs[1..];
    }
  }

  /** Once the first `i` matching elements are gone, `list.remove` of the
      next matching element removes that very element. */
  lemma {:induction false} RemoveNextMatching<T>(xs: seq<T>, p: T -> bool, i: nat)
    requires i < |Filter(xs, p)|
    ensures Filter(xs, p)[i] in DropMatching(xs, p, i)
    ensures RemoveFirst(DropMatching(xs, p, i), Filter(xs, p)[i]) == DropMatching(xs, p, i + 1)
  {
    var y := Filter(xs, p)[i];
    if p(xs[0]) {
      assert Filter(xs, p) == [xs[0]] + Filter(xs[1..], p);
      if i == 0 {
        DropNothing(xs, p);
        DropNothing(xs[1..], p);
        assert y == xs[0];
      } else {
        RemoveNextMatching(xs[1..], p, i - 1);
      }
    } else {
      assert Filter(xs, p) == Filter(xs[1..], p);
      FilterMembers(xs, p);
      assert p(y);
      RemoveNextMatching(xs[1..], p, i);
      assert xs[0] != y;
    }
  }

  /** Dropping every matching element is filtering by the negation. */
  lemma {:induction false} DropAllMatching<T>(xs: seq<T>, p: T -> bool)
    ensures DropMatching(xs, p, |Filter(xs, p)|) == Filter(xs, Not(p))
  {
    if |xs| > 0 {
      DropAllMatching(xs[1..], p);
    }
  }
}
