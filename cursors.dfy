/// The `PtrBased` cursor protocol of src/ptrbased.rs: a container exposes
/// `begin`/`end`/`next`/`prev` over some position type, and `distance` counts
/// the `next` steps from one position to another.  Each container of the
/// project gives its own `next` as a function value; `Walk` applies it
/// repeatedly.
module Cursors {
  import opened Common

  /** The position reached after `k` calls of `next` from `p`, or `None` once a
      call has returned `None`. */
  function Walk<P>(next: P -> Option<P>, p: P, k: nat): Option<P>
  {
    if k == 0 then Some(p)
    else match Walk(next, p, k - 1)
      case None => None
      case Some(q) => next(q)
  }

  /** Once `next` has returned `None`, further steps stay `None`. */
  lemma {:induction false} WalkStaysNone<P>(next: P -> Option<P>, p: P, j: nat, k: nat)
    requires j <= k && Walk(next, p, j) == None
    ensures Walk(next, p, k) == None
  {
    if j < k {
      WalkStaysNone(next, p, j, k - 1);
    }
  }

  /** `count` is the least number of `next` steps that leads from `first` to `last`. */
  ghost predicate LeastSteps<P>(next: P -> Option<P>, first: P, last: P, count: nat)
  {
    && Walk(next, first, count) == Some(last)
    && forall k :: 0 <= k < count ==> Walk(next, first, k) != Some(last)
  }

  /** The least step count is unique, so any two results of `Distance` agree. */
  lemma LeastStepsUnique<P>(next: P -> Option<P>, first: P, last: P, m: nat, n: nat)
    requires LeastSteps(next, first, last, m) && LeastSteps(next, first, last, n)
    ensures m == n
  {
  }

  /** `distance(first, last)`: advance a cursor with `next` until it equals
      `last`, counting the steps.  The source unwraps every `next`, so it panics
      when `last` is never reached; the caller must know a step count `steps`
      that reaches it. */
  method Distance<P(==)>(next: P -> Option<P>, first: P, last: P, ghost steps: nat) returns (count: nat)
    requires Walk(next, first, steps) == Some(last)
    ensures LeastSteps(next, first, last, count)
    ensures count <= steps
  {
    count := 0;
    var ptr := first;
    while ptr != last
      invariant count <= steps
      invariant Walk(next, first, count) == Some(ptr)
      invariant forall k :: 0 <= k < count ==> Walk(next, first, k) != Some(last)
      decreases steps - count
    {
      if next(ptr).None? {
        WalkStaysNone(next, first, count + 1, steps);
      }
      count := count + 1;
      ptr := next(ptr).value;
    }
  }

  /** `distance(p, p)` is 0: the loop body never runs. */
  method DistanceToSelf<P(==)>(next: P -> Option<P>, p: P) returns (count: nat)
    ensures count == 0
  {
    count := Distance(next, p, p, 0);
  }

  /** A cursor over offsets whose `next` is `p + 1` on the whole stretch
      `[i, j)`: walking `k <= j - i` steps from `i` lands on `i + k`. */
  lemma {:induction false} OffsetWalk(next: int -> Option<int>, i: int, j: int, k: nat)
    requires i <= j && k <= j - i
    requires forall p :: i <= p < j ==> next(p) == Some(p + 1)
    ensures Walk(next, i, k) == Some(i + k)
  {
    if k > 0 {
      OffsetWalk(next, i, j, k - 1);
    }
  }

  /** For such a cursor, `j - i` is the least number of steps from `i` to `j`,
      so `distance(i, j) == j - i`. */
  lemma OffsetDistance(next: int -> Option<int>, i: int, j: int)
    requires i <= j
    requires forall p :: i <= p < j ==> next(p) == Some(p + 1)
    ensures LeastSteps(next, i, j, j - i)
  {
    OffsetWalk(next, i, j, j - i);
    forall k | 0 <= k < j - i
      ensures Walk(next, i, k) != Some(j)
    {
      OffsetWalk(next, i, j, k);
    }
  }
}
