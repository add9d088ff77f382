/// The pointer-cursor block `ArrayLike<T, CAP>` of src/arraylike.rs.  Its
/// cursor `current_ptr` points into the slot array; here a pointer is the
/// offset from the first slot, so `begin` is 0 and `end` is `CAP`.  The cursor
/// is `None` until the first push initialises it, and its `next` only stops
/// once a pointer is already past `end`.
module ArrayLikes {
  import opened Common
  import Cursors

  /** A block's value: all `CAP` slots (`None` = never written) and the cursor. */
  datatype ArrayLikeState<T> = ArrayLikeState(data: seq<Option<T>>, current: Option<int>)

  /** An initialised cursor lies within `[begin, end]`. */
  ghost predicate WellFormed<T>(a: ArrayLikeState<T>)
  {
    a.current.Some? ==> 0 <= a.current.value <= |a.data|
  }

  /** `PtrBased::begin`: the first slot. */
  function Begin(): int { 0 }

  /** `PtrBased::end`: one past the last slot. */
  function End(cap: nat): (e: int)
    ensures e - Begin() == cap
  {
    cap
  }

  /** `PtrBased::next`: one slot further, refused only for a pointer already
      beyond `end` (so `next(end)` is `end + 1`). */
  function Next(cap: nat, p: int): (r: Option<int>)
    ensures r.None? <==> p > End(cap)
    ensures r.Some? ==> r.value == p + 1
  {
    if p > End(cap) then None else Some(p + 1)
  }

  /** `PtrBased::prev`: one slot back, refused only for a pointer already
      before `begin` (so `prev(begin)` is `begin - 1`). */
  function Prev(cap: nat, p: int): (r: Option<int>)
    ensures r.None? <==> p < Begin()
    ensures r.Some? ==> r.value == p - 1
  {
    if p < Begin() then None else Some(p - 1)
  }

  /** `ArrayLike::new()`: nothing written, cursor not yet initialised. */
  function New<T>(cap: nat): (a: ArrayLikeState<T>)
    ensures WellFormed(a) && |a.data| == cap && a.current == None
    ensures forall i :: 0 <= i < cap ==> a.data[i] == None
  {
    ArrayLikeState(seq(cap, _ => None), None)
  }

  /** Where the next push writes: the cursor, or `begin` once `init` has run. */
  function Cursor<T>(a: ArrayLikeState<T>): int
  {
    if a.current.None? then Begin() else a.current.value
  }

  /** `iter`: every one of the `CAP` slots, whatever the cursor. */
  function AllSlots<T>(a: ArrayLikeState<T>): (r: seq<Option<T>>)
    ensures |r| == |a.data|
    ensures forall i :: 0 <= i < |r| ==> r[i] == a.data[i]
  {
    a.data
  }

  /** `insert(index, v)`: fails exactly when `index >= CAP`, otherwise writes
      slot `index` and leaves the cursor alone. */
  function Inserted<T>(a: ArrayLikeState<T>, index: nat, v: T): (r: Option<ArrayLikeState<T>>)
    requires WellFormed(a)
    ensures r.Some? <==> index < |a.data|
    ensures r.Some? ==> && WellFormed(r.value) && r.value.current == a.current
                        && r.value.data == a.data[index := Some(v)]
  {
    if index < |a.data| then Some(a.(data := a.data[index := Some(v)])) else None
  }

  /** `try_push_and_get_ptr` (and `try_push`, which only drops the pointer):
      initialise the cursor if needed; fail when it is at or past `end`,
      otherwise write at the cursor, advance it by one and return the offset
      written.  A failed push still leaves the cursor initialised. */
  function PushedAt<T>(a: ArrayLikeState<T>, v: T): (r: (ArrayLikeState<T>, Option<int>))
    requires WellFormed(a)
    ensures WellFormed(r.0) && |r.0.data| == |a.data|
    ensures r.1.Some? <==> Cursor(a) < End(|a.data|)
    ensures r.1.None? ==> r.0 == ArrayLikeState(a.data, Some(Cursor(a)))
    ensures r.1.Some? ==> && r.1.value == Cursor(a)
                          && r.0.data == a.data[Cursor(a) := Some(v)]
                          && r.0.current == Some(Cursor(a) + 1)
  {
    var cur := if a.current.None? then Begin() else a.current.value;
    if cur >= End(|a.data|) then
      (a.(current := Some(cur)), None)
    else
      (ArrayLikeState(a.data[cur := Some(v)], Next(|a.data|, cur)), Some(cur))
  }

  /** Repeated `try_push(..).unwrap()`: `None` once a push fails (the panic). */
  function PushAll<T>(a: ArrayLikeState<T>, xs: seq<T>): (r: Option<ArrayLikeState<T>>)
    requires WellFormed(a)
    ensures r.Some? ==> WellFormed(r.value) && |r.value.data| == |a.data|
    decreases |xs|
  {
    if xs == [] then Some(a)
    else
      var (a', p) := PushedAt(a, xs[0]);
      if p.None? then None else PushAll(a', xs[1..])
  }

  /** Pushes that fit all succeed: the values land, in order, in the slots
      from the cursor on, and the cursor ends just after them; slots outside
      that run keep their contents. */
  lemma {:induction false} PushAllFits<T>(a: ArrayLikeState<T>, xs: seq<T>)
    requires WellFormed(a) && Cursor(a) + |xs| <= |a.data|
    ensures PushAll(a, xs).Some?
    ensures var r := PushAll(a, xs).value;
            && Cursor(r) == Cursor(a) + |xs|
            && (xs != [] ==> r.current == Some(Cursor(a) + |xs|))
            && (forall i :: 0 <= i < |xs| ==> r.data[Cursor(a) + i] == Some(xs[i]))
            && (forall i :: 0 <= i < |a.data| && !(Cursor(a) <= i < Cursor(a) + |xs|) ==> r.data[i] == a.data[i])
    decreases |xs|
  {
    if xs != [] {
      var (a', p) := PushedAt(a, xs[0]);
      PushAllFits(a', xs[1..]);
      var r := PushAll(a', xs[1..]).value;
      assert PushAll(a, xs).value == r;
      forall i | 0 <= i < |xs|
        ensures r.data[Cursor(a) + i] == Some(xs[i])
      {
        if i > 0 {
          assert r.data[Cursor(a') + (i - 1)] == Some(xs[1..][i - 1]);
        }
      }
    }
  }

  /** A push into a full block fails, however many came before. */
  lemma {:induction false} PushAllOverflows<T>(a: ArrayLikeState<T>, xs: seq<T>)
    requires WellFormed(a) && Cursor(a) + |xs| > |a.data|
    ensures PushAll(a, xs).None?
    decreases |xs|
  {
    if xs != [] {
      var (a', p) := PushedAt(a, xs[0]);
      if p.Some? {
        PushAllOverflows(a', xs[1..]);
      }
    }
  }

  /** The first push initialises the cursor to `begin` and writes there. */
  lemma FirstPushAtBegin<T>(cap: nat, v: T)
    requires cap > 0
    ensures PushedAt(New<T>(cap), v).1 == Some(Begin())
    ensures PushedAt(New<T>(cap), v).0.current == Some(Begin() + 1)
  {
  }

  /** The tests: with `CAP == 1` the second push fails; with `CAP == 100`,
      100 pushes all succeed. */
  lemma PushTests<T>(x: T, y: T, hundred: seq<T>)
    requires |hundred| == 100
    ensures PushAll(New<T>(1), [x]).Some? && PushAll(New<T>(1), [x, y]).None?
    ensures PushAll(New<T>(100), hundred).Some?
  {
    PushAllFits(New<T>(1), [x]);
    PushAllOverflows(New<T>(1), [x, y]);
    PushAllFits(New<T>(100), hundred);
  }

  /** `end` is `CAP` applications of `next` from `begin`, and no fewer. */
  lemma EndIsCapStepsFromBegin(cap: nat)
    ensures Cursors.LeastSteps(p => Next(cap, p), Begin(), End(cap), cap)
  {
    Cursors.OffsetDistance(p => Next(cap, p), Begin(), End(cap));
  }

  /** Walking `prev` back from `end` succeeds `CAP` times (and once more, to
      `begin - 1`). */
  lemma {:induction false} PrevWalksBackFromEnd(cap: nat, k: nat)
    requires k <= cap + 1
    ensures Cursors.Walk(p => Prev(cap, p), End(cap), k) == Some(End(cap) - k)
  {
    if k > 0 {
      PrevWalksBackFromEnd(cap, k - 1);
    }
  }

  /** The block object: the slot array and the cursor field. */
  class ArrayLike<T> {
    var data: array<Option<T>>
    var current: Option<int>

    function Model(): ArrayLikeState<T>
      reads this, data
    {
      ArrayLikeState(data[..], current)
    }

    ghost predicate Valid()
      reads this, data
    {
      WellFormed(Model())
    }

    /** `ArrayLike::new()` for capacity `cap`. */
    constructor (cap: nat)
      ensures Valid() && fresh(data) && Model() == New(cap)
    {
      data := new Option<T>[cap](_ => None);
      current := None;
    }

    /** `init`: point the cursor at `begin`. */
    method Init()
      requires Valid()
      modifies this
      ensures Valid() && data == old(data) && Model() == old(Model()).(current := Some(Begin()))
    {
      current := Some(Begin());
    }

    /** `iter`. */
    function Iter(): (r: seq<Option<T>>)
      reads this, data
      ensures |r| == data.Length
      ensures forall i :: 0 <= i < |r| ==> r[i] == data[i]
    {
      AllSlots(Model())
    }

    /** `insert(index, v)`. */
    method Insert(index: nat, v: T) returns (inserted: bool)
      requires Valid()
      modifies data
      ensures Valid()
      ensures inserted == Inserted(old(Model()), index, v).Some?
      ensures Model() == if inserted then Inserted(old(Model()), index, v).value else old(Model())
    {
      if index < data.Length {
        data[index] := Some(v);
        inserted := true;
      } else {
        inserted := false;
      }
    }

    /** `insert_unchecked(index, v)`: its caller guarantees `index < CAP`. */
    method InsertUnchecked(index: nat, v: T)
      requires Valid() && index < data.Length
      modifies data
      ensures Valid() && Model() == Inserted(old(Model()), index, v).value
    {
      data[index] := Some(v);
    }

    /** `try_push`. */
    method TryPush(v: T) returns (pushed: bool)
      requires Valid()
      modifies this, data
      ensures Valid() && data == old(data)
      ensures Model() == PushedAt(old(Model()), v).0
      ensures pushed == PushedAt(old(Model()), v).1.Some?
    {
      if current.None? {
        Init();
      }
      if current.value >= End(data.Length) {
        pushed := false;
      } else {
        data[current.value] := Some(v);
        current := Next(data.Length, current.value);
        pushed := true;
      }
    }

    /** `try_push_and_get_ptr`. */
    method TryPushAndGetPtr(v: T) returns (ptr: Option<int>)
      requires Valid()
      modifies this, data
      ensures Valid() && data == old(data)
      ensures Model() == PushedAt(old(Model()), v).0
      ensures ptr == PushedAt(old(Model()), v).1
    {
      if current.None? {
        Init();
      }
      if current.value >= End(data.Length) {
        ptr := None;
      } else {
        data[current.value] := Some(v);
        ptr := current;
        current := Next(data.Length, current.value);
      }
    }
  }
}
