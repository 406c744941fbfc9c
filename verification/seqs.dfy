/** Order-preserving filtering and first-occurrence deduplication of sequences. */
module Seqs {
  import opened Wrappers

  /** No element occurs twice. */
  predicate NoDups<T(==)>(xs: seq<T>) {
    forall i, j :: 0 <= i < j < |xs| ==> xs[i] != xs[j]
  }

  /** `xs.filter(p)`: the elements satisfying `p`, in their original order. */
  function Filter<T(!new)>(xs: seq<T>, p: T -> bool): (r: seq<T>)
    ensures |r| <= |xs|
    ensures forall x :: x in r <==> x in xs && p(x)
  {
    if xs == [] then []
    else (if p(xs[0]) then [xs[0]] else []) + Filter(xs[1..], p)
  }

  /** Filtering distributes over concatenation. */
  lemma {:induction false} FilterAppend<T(!new)>(xs: seq<T>, ys: seq<T>, p: T -> bool)
    ensures Filter(xs + ys, p) == Filter(xs, p) + Filter(ys, p)
  {
    if xs == [] {
      assert xs + ys == ys;
    } else {
      assert (xs + ys)[1..] == xs[1..] + ys;
      FilterAppend(xs[1..], ys, p);
    }
  }

  /** Filtering with a predicate every element satisfies changes nothing. */
  lemma {:induction false} FilterAll<T(!new)>(xs: seq<T>, p: T -> bool)
    requires forall i :: 0 <= i < |xs| ==> p(xs[i])
    ensures Filter(xs, p) == xs
  {
    if xs != [] {
      FilterAll(xs[1..], p);
    }
  }

  /** `xs.map(f)` with the undefined results dropped, in their original order. */
  function FilterMap<A, B(==,!new)>(xs: seq<A>, f: A -> Option<B>): (r: seq<B>)
    ensures |r| <= |xs|
    ensures forall y :: y in r <==> exists i :: 0 <= i < |xs| && f(xs[i]) == Some(y)
  {
    if xs == [] then []
    else
      FilterMapCons(xs, f);
      (if f(xs[0]).Some? then [f(xs[0]).value] else []) + FilterMap(xs[1..], f)
  }

  /** Some element of a non-empty sequence maps to `y` exactly when its head or some element of its tail does. */
  lemma FilterMapCons<A, B(!new)>(xs: seq<A>, f: A -> Option<B>)
    requires xs != []
    ensures forall y :: (exists i :: 0 <= i < |xs| && f(xs[i]) == Some(y)) <==>
      f(xs[0]) == Some(y) || exists i :: 0 <= i < |xs[1..]| && f(xs[1..][i]) == Some(y)
  {
    forall y | exists i :: 0 <= i < |xs| && f(xs[i]) == Some(y)
      ensures f(xs[0]) == Some(y) || exists i :: 0 <= i < |xs[1..]| && f(xs[1..][i]) == Some(y)
    {
      var i :| 0 <= i < |xs| && f(xs[i]) == Some(y);
      if i > 0 {
        assert xs[1..][i - 1] == xs[i];
      }
    }
    forall y | exists i :: 0 <= i < |xs[1..]| && f(xs[1..][i]) == Some(y)
      ensures exists i :: 0 <= i < |xs| && f(xs[i]) == Some(y)
    {
      var i :| 0 <= i < |xs[1..]| && f(xs[1..][i]) == Some(y);
      assert xs[i + 1] == xs[1..][i];
    }
  }

  /** Mapping and filtering distribute over concatenation. */
  lemma {:induction false} FilterMapAppend<A, B(!new)>(xs: seq<A>, ys: seq<A>, f: A -> Option<B>)
    ensures FilterMap(xs + ys, f) == FilterMap(xs, f) + FilterMap(ys, f)
  {
    if xs == [] {
      assert xs + ys == ys;
    } else {
      assert (xs + ys)[0] == xs[0];
      assert (xs + ys)[1..] == xs[1..] + ys;
      assert FilterMap(xs + ys, f) == (if f(xs[0]).Some? then [f(xs[0]).value] else []) + FilterMap(xs[1..] + ys, f);
      FilterMapAppend(xs[1..], ys, f);
    }
  }

  /**
   * Feeds the elements of `xs` through `step` in order, starting from `s`;
   * the first failure ends the run.
   */
  function FoldSteps<S, X, E>(step: (S, X) -> Result<S, E>, s: S, xs: seq<X>): Result<S, E>
    decreases |xs|
  {
    if xs == [] then Success(s)
    else
      match step(s, xs[0])
      case Success(next) => FoldSteps(step, next, xs[1..])
      case Failure(e) => Failure(e)
  }

  /** The elements after a prefix are stepped from the state the prefix left, unless the prefix failed. */
  lemma {:induction false} FoldStepsAppend<S, X, E>(step: (S, X) -> Result<S, E>, s: S, xs: seq<X>, ys: seq<X>)
    decreases |xs|
    ensures FoldSteps(step, s, xs + ys) ==
      match FoldSteps(step, s, xs)
      case Success(mid) => FoldSteps(step, mid, ys)
      case Failure(e) => Failure(e)
  {
    if xs == [] {
      assert xs + ys == ys;
    } else {
      assert (xs + ys)[0] == xs[0];
      assert (xs + ys)[1..] == xs[1..] + ys;
      match step(s, xs[0])
      case Success(next) => FoldStepsAppend(step, next, xs[1..], ys);
      case Failure(_) =>
    }
  }

  /**
   * The left-to-right deduplication a `reduce` over an accumulator object
   * performs: an element is kept when it is not yet `seen`, and is then seen.
   */
  function Dedup<T(==,!new)>(xs: seq<T>, seen: set<T>): (r: seq<T>)
    ensures NoDups(r)
    ensures forall x :: x in r <==> x in xs && x !in seen
  {
    if xs == [] then []
    else if xs[0] in seen then Dedup(xs[1..], seen)
    else [xs[0]] + Dedup(xs[1..], seen + {xs[0]})
  }

  /**
   * Reference definition of "the distinct elements in first-occurrence
   * order": position `i` contributes `xs[i]` exactly when no earlier
   * position holds the same value and the value is not excluded by `skip`.
   */
  function FirstOccurrences<T(==)>(xs: seq<T>, skip: set<T>): seq<T> {
    if xs == [] then []
    else
      var init, x := xs[..|xs| - 1], xs[|xs| - 1];
      FirstOccurrences(init, skip) + (if x in init || x in skip then [] else [x])
  }

  /** Deduplicating one more element only looks at that element. */
  lemma {:induction false} DedupSnoc<T(!new)>(xs: seq<T>, y: T, seen: set<T>)
    ensures Dedup(xs + [y], seen) == Dedup(xs, seen) + (if y in xs || y in seen then [] else [y])
  {
    if xs == [] {
      assert [y][1..] == [];
    } else {
      var x, rest := xs[0], xs[1..];
      assert (xs + [y])[0] == x && (xs + [y])[1..] == rest + [y];
      if x in seen {
        assert Dedup(xs + [y], seen) == Dedup(rest + [y], seen);
        DedupSnoc(rest, y, seen);
      } else {
        assert Dedup(xs + [y], seen) == [x] + Dedup(rest + [y], seen + {x});
        DedupSnoc(rest, y, seen + {x});
        assert y in xs <==> y == x || y in rest by {
          assert xs == [x] + rest;
        }
        assert [x] + (Dedup(rest, seen + {x}) + (if y in rest || y in seen + {x} then [] else [y]))
          == ([x] + Dedup(rest, seen + {x})) + (if y in rest || y in seen + {x} then [] else [y]);
      }
    }
  }

  /** The accumulator-based deduplication keeps exactly the first occurrences. */
  lemma {:induction false} DedupIsFirstOccurrences<T(!new)>(xs: seq<T>, skip: set<T>)
    ensures Dedup(xs, skip) == FirstOccurrences(xs, skip)
  {
    if xs != [] {
      var init, x := xs[..|xs| - 1], xs[|xs| - 1];
      assert xs == init + [x];
      DedupIsFirstOccurrences(init, skip);
      DedupSnoc(init, x, skip);
    }
  }

  /** Deduplicating a sequence that is already distinct and avoids `seen` is the identity. */
  lemma {:induction false} DedupDistinct<T(!new)>(xs: seq<T>, seen: set<T>)
    requires NoDups(xs)
    requires forall i :: 0 <= i < |xs| ==> xs[i] !in seen
    ensures Dedup(xs, seen) == xs
  {
    if xs != [] {
      assert forall i :: 1 <= i < |xs| ==> xs[i] != xs[0];
      DedupDistinct(xs[1..], seen + {xs[0]});
    }
  }

  /** Deduplication is idempotent. */
  lemma DedupIdempotent<T(!new)>(xs: seq<T>, seen: set<T>)
    ensures Dedup(Dedup(xs, seen), seen) == Dedup(xs, seen)
  {
    var r := Dedup(xs, seen);
    DedupDistinct(r, seen);
  }
}
