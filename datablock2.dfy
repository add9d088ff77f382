/// The pointer-cursor block `DataBlock2<T, CAP>` of src/datablock2.rs.  Unlike
/// `ArrayLike`, `new` initialises the cursor at once, and `next`/`prev` refuse
/// to move past `end`/`begin`.  Pointers are offsets from the first slot.
module DataBlocks2 {
  import opened Common
  import Cursors

  /** A block's value: all `CAP` slots (`None` = never written) and the cursor. */
  datatype Block2State<T> = Block2State(data: seq<Option<T>>, current: int)

  /** The cursor lies within `[begin, end]`. */
  ghost predicate WellFormed<T>(b: Block2State<T>)
  {
    0 <= b.current <= |b.data|
  }

  /** `PtrBased::begin`: the first slot. */
  function Begin(): int { 0 }

  /** `PtrBased::end`: one past the last slot, the same offset as
      `ArrayLikes.End`. */
  function End(cap: nat): (e: int)
    ensures e - Begin() == cap
  {
    cap
  }

  /** `PtrBased::next`: `None` at or past `end`, else one slot further. */
  function Next(cap: nat, p: int): (r: Option<int>)
    ensures r.None? <==> p >= End(cap)
    ensures r.Some? ==> r.value == p + 1
  {
    if p >= End(cap) then None else Some(p + 1)
  }

  /** `PtrBased::prev`: `None` at or before `begin`, else one slot back. */
  function Prev(cap: nat, p: int): (r: Option<int>)
    ensures r.None? <==> p <= Begin()
    ensures r.Some? ==> r.value == p - 1
  {
    if p <= Begin() then None else Some(p - 1)
  }

  /** `DataBlock2::new()` (which runs `init`): nothing written, cursor at `begin`. */
  function New<T>(cap: nat): (b: Block2State<T>)
    ensures WellFormed(b) && |b.data| == cap && b.current == Begin()
    ensures forall i :: 0 <= i < cap ==> b.data[i] == None
  {
    Block2State(seq(cap, _ => None), Begin())
  }

  /** `iter`: every one of the `CAP` slots, whatever the cursor; the same
      definition as `ArrayLikes.AllSlots`, over this block's state. */
  function AllSlots<T>(b: Block2State<T>): (r: seq<Option<T>>)
    ensures |r| == |b.data|
    ensures forall i :: 0 <= i < |r| ==> r[i] == b.data[i]
  {
    b.data
  }

  /** `insert(index, v)`: fails exactly when `index >= CAP`, otherwise writes
      slot `index` and leaves the cursor alone; the same definition as
      `ArrayLikes.Inserted`, over this block's state. */
  function Inserted<T>(b: Block2State<T>, index: nat, v: T): (r: Option<Block2State<T>>)
    requires WellFormed(b)
    ensures r.Some? <==> index < |b.data|
    ensures r.Some? ==> && WellFormed(r.value) && r.value.current == b.current
                        && r.value.data == b.data[index := Some(v)]
  {
    if index < |b.data| then Some(b.(data := b.data[index := Some(v)])) else None
  }

  /** `try_push_and_get_ptr` (and `try_push`, which drops the pointer): fail,
      changing nothing, when the cursor is at `end`; otherwise write at the
      cursor, advance it by one and return the offset written. */
  function PushedAt<T>(b: Block2State<T>, v: T): (r: (Block2State<T>, Option<int>))
    requires WellFormed(b)
    ensures WellFormed(r.0) && |r.0.data| == |b.data|
    ensures r.1.Some? <==> b.current != End(|b.data|)
    ensures r.1.None? ==> r.0 == b
    ensures r.1.Some? ==> && r.1.value == b.current
                          && r.0.data == b.data[b.current := Some(v)]
                          && r.0.current == b.current + 1
  {
    if b.current == End(|b.data|) then
      (b, None)
    else
      (Block2State(b.data[b.current := Some(v)], Next(|b.data|, b.current).value), Some(b.current))
  }

  /** `CAP` successive `next` calls from `begin` all succeed and reach `end`;
      one more returns `None`. */
  lemma NextWalksToEnd(cap: nat)
    ensures Cursors.LeastSteps(p => Next(cap, p), Begin(), End(cap), cap)
    ensures Cursors.Walk(p => Next(cap, p), Begin(), cap + 1) == None
  {
    Cursors.OffsetDistance(p => Next(cap, p), Begin(), End(cap));
  }

  /** The block object: the slot array and the cursor field. */
  class DataBlock2<T> {
    var data: array<Option<T>>
    var current: int

    function Model(): Block2State<T>
      reads this, data
    {
      Block2State(data[..], current)
    }

    ghost predicate Valid()
      reads this, data
    {
      WellFormed(Model())
    }

    /** `DataBlock2::new()` for capacity `cap`. */
    constructor (cap: nat)
      ensures Valid() && fresh(data) && Model() == New(cap)
    {
      data := new Option<T>[cap](_ => None);
      current := Begin();
    }

    /** `init`: point the cursor at `begin`. */
    method Init()
      requires Valid()
      modifies this
      ensures Valid() && data == old(data) && Model() == old(Model()).(current := Begin())
    {
      current := Begin();
    }

    /** `iter`, the same as `ArrayLikes.ArrayLike.Iter`. */
    function Iter(): (r: seq<Option<T>>)
      reads this, data
      ensures |r| == data.Length
      ensures forall i :: 0 <= i < |r| ==> r[i] == data[i]
    {
      AllSlots(Model())
    }

    /** `insert(index, v)`. */
    method Insert(index: nat, v: T) returns (inserted: bool)
      requires Valid()
      modifies data
      ensures Valid()
      ensures inserted == Inserted(old(Model()), index, v).Some?
      ensures Model() == if inserted then Inserted(old(Model()), index, v).value else old(Model())
    {
      if index < data.Length {
        data[index] := Some(v);
        inserted := true;
      } else {
        inserted := false;
      }
    }

    /** `insert_unchecked(index, v)`: its caller guarantees `index < CAP`. */
    method InsertUnchecked(index: nat, v: T)
      requires Valid() && index < data.Length
      modifies data
      ensures Valid() && Model() == Inserted(old(Model()), index, v).value
    {
      data[index] := Some(v);
    }

    /** `try_push`. */
    method TryPush(v: T) returns (pushed: bool)
      requires Valid()
      modifies this, data
      ensures Valid() && data == old(data)
      ensures Model() == PushedAt(old(Model()), v).0
      ensures pushed == PushedAt(old(Model()), v).1.Some?
    {
      if current == End(data.Length) {
        pushed := false;
      } else {
        data[current] := Some(v);
        current := Next(data.Length, current).value;
        pushed := true;
      }
    }

    /** `try_push_and_get_ptr`. */
    method TryPushAndGetPtr(v: T) returns (ptr: Option<int>)
      requires Valid()
      modifies this, data
      ensures Valid() && data == old(data)
      ensures Model() == PushedAt(old(Model()), v).0
      ensures ptr == PushedAt(old(Model()), v).1
    {
      if current == End(data.Length) {
        ptr := None;
      } else {
        data[current] := Some(v);
        ptr := Some(current);
        current := Next(data.Length, current).value;
      }
    }
  }
}
