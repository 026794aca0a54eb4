/**
 * `Array.prototype.filter`, the order-preserving sub-list relation it
 * establishes, and the concatenation of per-element results that a loop
 * pushing zero or more items per element builds.
 */
module Lists {

  /** `xs` is obtained from `ys` by deleting elements; the rest keep their order. */
  predicate SubList<T(==)>(xs: seq<T>, ys: seq<T>)
    decreases |ys|
  {
    if xs == [] then true
    else if ys == [] then false
    else (xs[0] == ys[0] && SubList(xs[1..], ys[1..])) || SubList(xs, ys[1..])
  }

  /** `xs.filter(keep)`: the elements of `xs` that satisfy `keep`, in their original order. */
  function Filter<T(!new)>(xs: seq<T>, keep: T -> bool): (r: seq<T>)
    ensures |r| <= |xs|
    ensures forall x :: x in r <==> x in xs && keep(x)
    ensures (forall x :: x in xs ==> keep(x)) ==> r == xs
  {
    if xs == [] then [] else (if keep(xs[0]) then [xs[0]] else []) + Filter(xs[1..], keep)
  }

  lemma {:induction false} FilterIsSubList<T(!new)>(xs: seq<T>, keep: T -> bool)
    ensures SubList(Filter(xs, keep), xs)
  {
    if xs != [] {
      FilterIsSubList(xs[1..], keep);
      var rest := Filter(xs[1..], keep);
      if keep(xs[0]) {
        assert Filter(xs, keep) == [xs[0]] + rest;
        assert ([xs[0]] + rest)[1..] == rest;
      } else {
        assert Filter(xs, keep) == rest;
        SubListSkip(rest, xs);
      }
    }
  }

  /** Dropping the first element of the longer list keeps the relation, provided `xs` was a sub-list of its tail. */
  lemma SubListSkip<T>(xs: seq<T>, ys: seq<T>)
    requires ys != [] && SubList(xs, ys[1..])
    ensures SubList(xs, ys)
  {
  }

  lemma {:induction false} FilterAppend<T(!new)>(a: seq<T>, b: seq<T>, keep: T -> bool)
    ensures Filter(a + b, keep) == Filter(a, keep) + Filter(b, keep)
  {
    if a != [] {
      assert (a + b)[1..] == a[1..] + b;
      FilterAppend(a[1..], b, keep);
    } else {
      assert a + b == b;
    }
  }

  /** Nothing is kept exactly when no element passes the test. */
  lemma FilterEmptyIff<T(!new)>(xs: seq<T>, keep: T -> bool)
    ensures Filter(xs, keep) == [] <==> forall k :: 0 <= k < |xs| ==> !keep(xs[k])
  {
    var r := Filter(xs, keep);
    if r != [] {
      assert r[0] in r;
    }
    if exists k :: 0 <= k < |xs| && keep(xs[k]) {
      var k :| 0 <= k < |xs| && keep(xs[k]);
      assert xs[k] in r;
    }
  }

  /** Two tests that agree on every element keep the same elements. */
  lemma {:induction false} FilterAgree<T(!new)>(xs: seq<T>, f: T -> bool, g: T -> bool)
    requires forall i :: 0 <= i < |xs| ==> f(xs[i]) == g(xs[i])
    ensures Filter(xs, f) == Filter(xs, g)
  {
    if xs != [] {
      FilterAgree(xs[1..], f, g);
    }
  }

  /** The results of `f` on the elements of `xs`, concatenated in order. */
  function FlatMap<T, U>(xs: seq<T>, f: T -> seq<U>): seq<U> {
    if xs == [] then [] else FlatMap(xs[..|xs| - 1], f) + f(xs[|xs| - 1])
  }

  lemma {:induction false} FlatMapSnoc<T, U>(xs: seq<T>, x: T, f: T -> seq<U>)
    ensures FlatMap(xs + [x], f) == FlatMap(xs, f) + f(x)
  {
    assert (xs + [x])[..|xs|] == xs;
  }

  lemma {:induction false} FlatMapAppend<T, U>(a: seq<T>, b: seq<T>, f: T -> seq<U>)
    ensures FlatMap(a + b, f) == FlatMap(a, f) + FlatMap(b, f)
  {
    if b == [] {
      assert a + b == a;
    } else {
      var b', y := b[..|b| - 1], b[|b| - 1];
      calc {
        FlatMap(a + b, f);
        == { assert a + b == (a + b') + [y]; }
        FlatMap((a + b') + [y], f);
        == { FlatMapSnoc(a + b', y, f); }
        FlatMap(a + b', f) + f(y);
        == { FlatMapAppend(a, b', f); }
        FlatMap(a, f) + FlatMap(b', f) + f(y);
        == { FlatMapSnoc(b', y, f); assert b == b' + [y]; }
        FlatMap(a, f) + FlatMap(b, f);
      }
    }
  }

  lemma {:induction false} FlatMapMembers<T, U(!new)>(xs: seq<T>, f: T -> seq<U>, y: U)
    ensures y in FlatMap(xs, f) <==> exists i :: 0 <= i < |xs| && y in f(xs[i])
  {
    if xs != [] {
      var init := xs[..|xs| - 1];
      FlatMapMembers(init, f, y);
      if exists i :: 0 <= i < |init| && y in f(init[i]) {
        var i :| 0 <= i < |init| && y in f(init[i]);
        assert xs[i] == init[i];
      }
      if exists i :: 0 <= i < |xs| && y in f(xs[i]) {
        var i :| 0 <= i < |xs| && y in f(xs[i]);
        if i < |xs| - 1 { assert init[i] == xs[i]; }
      }
    }
  }

  /** When every element contributes at most one result, there are no more results than elements. */
  lemma {:induction false} FlatMapLength<T, U>(xs: seq<T>, f: T -> seq<U>)
    requires forall i :: 0 <= i < |xs| ==> |f(xs[i])| <= 1
    ensures |FlatMap(xs, f)| <= |xs|
  {
    if xs != [] {
      FlatMapLength(xs[..|xs| - 1], f);
    }
  }
}
