/**
 * JavaScript's `Array.prototype.filter` and `Array.prototype.map` on
 * sequences, for callbacks without side effects, together with the facts the
 * manifest generator relies on: what a filter keeps, where each kept element
 * lands, that order is preserved, and how two chained filters combine.
 */
module JsArrays {

  /** The number of elements of `xs` that satisfy `p`. */
  function Count<T>(xs: seq<T>, p: T -> bool): (n: nat)
    ensures n <= |xs|
  {
    if xs == [] then 0 else (if p(xs[0]) then 1 else 0) + Count(xs[1..], p)
  }

  /** `xs.filter(p)`: the elements satisfying `p`, in their original order. */
  function Filter<T>(xs: seq<T>, p: T -> bool): (r: seq<T>)
    ensures |r| <= |xs|
    ensures forall k :: 0 <= k < |r| ==> r[k] in xs && p(r[k])
    ensures forall i :: 0 <= i < |xs| && p(xs[i]) ==> xs[i] in r
  {
    if xs == [] then []
    else (if p(xs[0]) then [xs[0]] else []) + Filter(xs[1..], p)
  }

  /** `xs.map(f)`: `f` applied to every element, positions kept. */
  function Map<T, U>(xs: seq<T>, f: T --> U): (r: seq<U>)
    requires forall i :: 0 <= i < |xs| ==> f.requires(xs[i])
    ensures |r| == |xs|
    ensures forall i :: 0 <= i < |xs| ==> r[i] == f(xs[i])
  {
    if xs == [] then [] else [f(xs[0])] + Map(xs[1..], f)
  }

  /** A filter keeps exactly as many elements as satisfy the callback. */
  lemma {:induction false} FilterLength<T>(xs: seq<T>, p: T -> bool)
    ensures |Filter(xs, p)| == Count(xs, p)
  {
    if xs != [] {
      FilterLength(xs[1..], p);
    }
  }

  /** Counting over a concatenation adds up. */
  lemma {:induction false} CountAppend<T>(a: seq<T>, b: seq<T>, p: T -> bool)
    ensures Count(a + b, p) == Count(a, p) + Count(b, p)
  {
    if a == [] {
      assert a + b == b;
    } else {
      assert (a + b)[1..] == a[1..] + b;
      CountAppend(a[1..], b, p);
    }
  }

  /**
   * An element that satisfies the callback is kept, at the position given
   * by the number of satisfying elements before it.
   */
  lemma {:induction false} FilterAt<T>(xs: seq<T>, p: T -> bool, i: nat)
    requires i < |xs| && p(xs[i])
    ensures Count(xs[..i], p) < |Filter(xs, p)|
    ensures Filter(xs, p)[Count(xs[..i], p)] == xs[i]
  {
    if i == 0 {
      assert xs[..0] == [];
    } else {
      var tail := xs[1..];
      FilterAt(tail, p, i - 1);
      assert xs[..i][1..] == tail[..i - 1];
      assert xs[..i][0] == xs[0];
    }
  }

  /**
   * Every element of a filter's result is an element of the input that
   * satisfies the callback, and its position is the number of satisfying
   * elements before it.
   */
  lemma {:induction false} FilterFrom<T>(xs: seq<T>, p: T -> bool, k: nat)
    requires k < |Filter(xs, p)|
    ensures exists i :: 0 <= i < |xs| && p(xs[i]) && Count(xs[..i], p) == k && Filter(xs, p)[k] == xs[i]
  {
    var tail := xs[1..];
    if p(xs[0]) && k == 0 {
      assert xs[..0] == [];
      assert p(xs[0]) && Count(xs[..0], p) == k && Filter(xs, p)[k] == xs[0];
    } else {
      var k' := if p(xs[0]) then k - 1 else k;
      FilterFrom(tail, p, k');
      var j :| 0 <= j < |tail| && p(tail[j]) && Count(tail[..j], p) == k' && Filter(tail, p)[k'] == tail[j];
      assert xs[..j + 1][1..] == tail[..j];
      assert xs[..j + 1][0] == xs[0];
      assert p(xs[j + 1]) && Count(xs[..j + 1], p) == k && Filter(xs, p)[k] == xs[j + 1];
    }
  }

  /**
   * Filtering preserves order: of two satisfying elements, the earlier one
   * lands at the smaller position.
   */
  lemma FilterOrder<T>(xs: seq<T>, p: T -> bool, i: nat, j: nat)
    requires i < j < |xs| && p(xs[i]) && p(xs[j])
    ensures Count(xs[..i], p) < Count(xs[..j], p)
  {
    assert xs[..j] == xs[..i] + xs[i..j];
    CountAppend(xs[..i], xs[i..j], p);
    assert xs[i..j][0] == xs[i];
  }

  /** A filter keeps nothing exactly when no element satisfies the callback. */
  lemma {:induction false} FilterEmpty<T>(xs: seq<T>, p: T -> bool)
    ensures Filter(xs, p) == [] <==> forall i :: 0 <= i < |xs| ==> !p(xs[i])
  {
    if xs != [] {
      FilterEmpty(xs[1..], p);
      assert forall i :: 1 <= i < |xs| ==> xs[i] == xs[1..][i - 1];
    }
  }

  /** Two chained filters keep what one filter on the conjunction keeps. */
  lemma {:induction false} FilterFilter<T>(xs: seq<T>, p: T -> bool, q: T -> bool, pq: T -> bool)
    requires forall x :: pq(x) == (p(x) && q(x))
    ensures Filter(Filter(xs, p), q) == Filter(xs, pq)
  {
    if xs != [] {
      FilterFilter(xs[1..], p, q, pq);
      FilterAppend((if p(xs[0]) then [xs[0]] else []), Filter(xs[1..], p), q);
      if p(xs[0]) {
        assert Filter([xs[0]], q) == if q(xs[0]) then [xs[0]] else [];
      }
    }
  }

  /** Filtering a concatenation filters each part. */
  lemma {:induction false} FilterAppend<T>(a: seq<T>, b: seq<T>, p: T -> bool)
    ensures Filter(a + b, p) == Filter(a, p) + Filter(b, p)
  {
    if a == [] {
      assert a + b == b;
    } else {
      assert (a + b)[1..] == a[1..] + b;
      FilterAppend(a[1..], b, p);
    }
  }
}
