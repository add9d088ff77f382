/// The slot-counted block `DataBlock<T, CAP>` of src/datablock.rs (copied
/// verbatim, without `insert`, in src/all.rs): `CAP` slots, the fill count
/// `next_slot` and an optional saved fill count `marked_slot`.
///
/// `BlockState` is the value of a block and the functions below say what each
/// operation does to it; class `DataBlock` keeps the slots in an array and
/// updates its fields in place, and each of its methods is proved to perform
/// the corresponding function.  Pools hold blocks by value inside their chain
/// nodes and use the functions directly.
module DataBlocks {
  import opened Common

  /** A block's value.  A slot is `None` while it has never been written (the
      source's `MaybeUninit`); `|slots|` is the capacity `CAP`. */
  datatype BlockState<T> = BlockState(slots: seq<Option<T>>, nextSlot: nat, markedSlot: Option<nat>)

  /** The occupied-boundary invariant: `marked_slot <= next_slot <= CAP`, and
      every slot below `next_slot` holds a value. */
  ghost predicate WellFormed<T>(b: BlockState<T>)
  {
    && b.nextSlot <= |b.slots|
    && (b.markedSlot.Some? ==> b.markedSlot.value <= b.nextSlot)
    && forall i :: 0 <= i < b.nextSlot ==> b.slots[i].Some?
  }

  /** The values `iter` yields: slots `[0, next_slot)`, in index order. */
  function Occupied<T>(b: BlockState<T>): (r: seq<T>)
    requires WellFormed(b)
    ensures |r| == b.nextSlot
    ensures forall i :: 0 <= i < |r| ==> b.slots[i] == Some(r[i])
  {
    seq(b.nextSlot, i requires 0 <= i < b.nextSlot => b.slots[i].value)
  }

  /** `DataBlock::new`: no slot written, `next_slot == 0`, no mark. */
  function Empty<T>(cap: nat): (b: BlockState<T>)
    ensures WellFormed(b) && |b.slots| == cap
    ensures Occupied(b) == [] && b.markedSlot == None
  {
    BlockState(seq(cap, _ => None), 0, None)
  }

  /** `is_empty`: true exactly when `iter` would yield nothing. */
  function IsEmpty<T>(b: BlockState<T>): (r: bool)
    requires WellFormed(b)
    ensures r <==> Occupied(b) == []
  {
    b.nextSlot == 0
  }

  /** `rewind_to_front` (and `clear`, which has the same body): nothing is
      occupied any more and the mark is dropped; the slots keep their values. */
  function RewoundToFront<T>(b: BlockState<T>): (r: BlockState<T>)
    requires WellFormed(b)
    ensures WellFormed(r) && Occupied(r) == [] && r.markedSlot == None
    ensures r.slots == b.slots
  {
    BlockState(b.slots, 0, None)
  }

  /** `mark_slot`: remember the current fill count. */
  function WithMark<T>(b: BlockState<T>): (r: BlockState<T>)
    requires WellFormed(b)
    ensures WellFormed(r) && Occupied(r) == Occupied(b) && r.slots == b.slots
    ensures r.markedSlot == Some(|Occupied(b)|)
  {
    b.(markedSlot := Some(b.nextSlot))
  }

  /** `rewind_to_mark`: the occupied prefix shrinks back to the mark, which is
      kept; without a mark the block falls back to empty. */
  function RewoundToMark<T>(b: BlockState<T>): (r: BlockState<T>)
    requires WellFormed(b)
    ensures WellFormed(r) && r.slots == b.slots && r.markedSlot == b.markedSlot
    ensures b.markedSlot.Some? ==> Occupied(r) == Occupied(b)[..b.markedSlot.value]
    ensures b.markedSlot.None? ==> Occupied(r) == []
  {
    match b.markedSlot
    case Some(slot) => b.(nextSlot := slot)
    case None => b.(nextSlot := 0)
  }

  /** `clear_after_mark`: like `rewind_to_mark` when a mark is set, but a no-op
      without one (it does not fall back to empty). */
  function ClearedAfterMark<T>(b: BlockState<T>): (r: BlockState<T>)
    requires WellFormed(b)
    ensures WellFormed(r)
    ensures b.markedSlot.None? ==> r == b
    ensures b.markedSlot.Some? ==> r == RewoundToMark(b) && Occupied(r) == Occupied(b)[..b.markedSlot.value]
  {
    match b.markedSlot
    case Some(slot) => b.(nextSlot := slot)
    case None => b
  }

  /** `try_push`: fails (`None`, block unchanged) exactly when the block is
      full; otherwise the value lands in slot `next_slot`, which becomes
      occupied, and no other slot and not the mark changes. */
  function Pushed<T>(b: BlockState<T>, v: T): (r: Option<BlockState<T>>)
    requires WellFormed(b)
    ensures r.Some? <==> b.nextSlot < |b.slots|
    ensures r.Some? ==> && WellFormed(r.value)
                        && Occupied(r.value) == Occupied(b) + [v]
                        && r.value.markedSlot == b.markedSlot
                        && |r.value.slots| == |b.slots|
                        && r.value.slots[b.nextSlot] == Some(v)
                        && forall i :: 0 <= i < |b.slots| && i != b.nextSlot ==> r.value.slots[i] == b.slots[i]
  {
    if b.nextSlot < |b.slots| then
      Some(BlockState(b.slots[b.nextSlot := Some(v)], b.nextSlot + 1, b.markedSlot))
    else
      None
  }

  /** `insert(index, v)`: fails exactly when `index >= CAP`; otherwise writes
      slot `index` only and leaves `next_slot` and the mark alone.  Inside the
      occupied prefix this replaces the yielded value, beyond it nothing that
      `iter` yields changes. */
  function Inserted<T>(b: BlockState<T>, index: nat, v: T): (r: Option<BlockState<T>>)
    requires WellFormed(b)
    ensures r.Some? <==> index < |b.slots|
    ensures r.Some? ==> && WellFormed(r.value)
                        && r.value.nextSlot == b.nextSlot && r.value.markedSlot == b.markedSlot
                        && r.value.slots == b.slots[index := Some(v)]
                        && Occupied(r.value) == if index < b.nextSlot then Occupied(b)[index := v] else Occupied(b)
  {
    if index < |b.slots| then Some(b.(slots := b.slots[index := Some(v)])) else None
  }

  /** Free slots left in the block. */
  function Room<T>(b: BlockState<T>): nat
    requires WellFormed(b)
  {
    |b.slots| - b.nextSlot
  }

  /** Repeated `try_push`; `None` as soon as one push fails. */
  function PushAll<T>(b: BlockState<T>, xs: seq<T>): (r: Option<BlockState<T>>)
    requires WellFormed(b)
    ensures r.Some? ==> WellFormed(r.value) && |r.value.slots| == |b.slots|
    decreases |xs|
  {
    if xs == [] then Some(b)
    else match Pushed(b, xs[0])
      case None => None
      case Some(b') => PushAll(b', xs[1..])
  }

  /** Pushing `xs` succeeds exactly when it fits, appends `xs` to what `iter`
      yields, and leaves the mark, the capacity and the already occupied slots
      alone. */
  lemma {:induction false} PushAllAppends<T>(b: BlockState<T>, xs: seq<T>)
    requires WellFormed(b)
    ensures PushAll(b, xs).Some? <==> |xs| <= Room(b)
    ensures PushAll(b, xs).Some? ==>
      var r := PushAll(b, xs).value;
      && WellFormed(r) && Occupied(r) == Occupied(b) + xs
      && r.markedSlot == b.markedSlot && |r.slots| == |b.slots|
      && r.slots[..b.nextSlot] == b.slots[..b.nextSlot]
    decreases |xs|
  {
    if xs != [] {
      var p := Pushed(b, xs[0]);
      if p.Some? {
        PushAllAppends(p.value, xs[1..]);
        assert Occupied(b) + [xs[0]] + xs[1..] == Occupied(b) + xs;
      }
    }
  }

  /** The block test: pushing 1, 2, 3, 4 into a fresh block of capacity 4
      yields `[1, 2, 3, 4]`, and a fifth push fails. */
  lemma FifthPushFails()
    ensures PushAll(Empty<int>(4), [1, 2, 3, 4]).Some?
    ensures Occupied(PushAll(Empty<int>(4), [1, 2, 3, 4]).value) == [1, 2, 3, 4]
    ensures Pushed(PushAll(Empty<int>(4), [1, 2, 3, 4]).value, 5) == None
  {
    PushAllAppends(Empty<int>(4), [1, 2, 3, 4]);
  }

  /** Mark, push anything that fits, rewind to the mark: the block yields what
      it yielded before the mark, and the mark is still there. */
  lemma MarkPushRewind<T>(b: BlockState<T>, xs: seq<T>)
    requires WellFormed(b) && |xs| <= Room(b)
    ensures PushAll(WithMark(b), xs).Some?
    ensures var r := RewoundToMark(PushAll(WithMark(b), xs).value);
            Occupied(r) == Occupied(b) && r.markedSlot == Some(b.nextSlot)
  {
    PushAllAppends(WithMark(b), xs);
  }

  /** The two ways back to the mark agree when a mark is set and differ on a
      non-empty block without one: `rewind_to_mark` empties it,
      `clear_after_mark` keeps it. */
  lemma RewindVersusClearAfterMark<T>(b: BlockState<T>)
    requires WellFormed(b)
    ensures b.markedSlot.Some? ==> ClearedAfterMark(b) == RewoundToMark(b)
    ensures b.markedSlot.None? && b.nextSlot > 0 ==>
              Occupied(ClearedAfterMark(b)) == Occupied(b) != Occupied(RewoundToMark(b))
  {
  }

  /** The block object: the slot array `data` and the two fields that the
      operations reassign. */
  class DataBlock<T> {
    var data: array<Option<T>>
    var nextSlot: nat
    var markedSlot: Option<nat>

    /** The block's value. */
    function Model(): BlockState<T>
      reads this, data
    {
      BlockState(data[..], nextSlot, markedSlot)
    }

    ghost predicate Valid()
      reads this, data
    {
      WellFormed(Model())
    }

    /** `DataBlock::new()` for capacity `cap`. */
    constructor (cap: nat)
      ensures Valid() && fresh(data) && Model() == Empty(cap)
    {
      data := new Option<T>[cap](_ => None);
      nextSlot := 0;
      markedSlot := None;
    }

    /** `is_empty`. */
    function IsEmpty(): (r: bool)
      reads this, data
      requires Valid()
      ensures r <==> Iter() == []
    {
      nextSlot == 0
    }

    /** `clear`. */
    method Clear()
      requires Valid()
      modifies this
      ensures Valid() && data == old(data) && Model() == RewoundToFront(old(Model()))
    {
      nextSlot := 0;
      markedSlot := None;
    }

    /** `clear_after_mark`. */
    method ClearAfterMark()
      requires Valid()
      modifies this
      ensures Valid() && data == old(data) && Model() == ClearedAfterMark(old(Model()))
    {
      if markedSlot.Some? {
        nextSlot := markedSlot.value;
      }
    }

    /** `mark_slot`. */
    method MarkSlot()
      requires Valid()
      modifies this
      ensures Valid() && data == old(data) && Model() == WithMark(old(Model()))
    {
      markedSlot := Some(nextSlot);
    }

    /** `rewind_to_front`. */
    method RewindToFront()
      requires Valid()
      modifies this
      ensures Valid() && data == old(data) && Model() == RewoundToFront(old(Model()))
    {
      nextSlot := 0;
      markedSlot := None;
    }

    /** `rewind_to_mark`. */
    method RewindToMark()
      requires Valid()
      modifies this
      ensures Valid() && data == old(data) && Model() == RewoundToMark(old(Model()))
    {
      if markedSlot.Some? {
        nextSlot := markedSlot.value;
      } else {
        nextSlot := 0;
      }
    }

    /** `try_push`: write slot `next_slot` in place and advance. */
    method TryPush(v: T) returns (pushed: bool)
      requires Valid()
      modifies this, data
      ensures Valid() && data == old(data)
      ensures pushed == Pushed(old(Model()), v).Some?
      ensures Model() == if pushed then Pushed(old(Model()), v).value else old(Model())
    {
      if nextSlot < data.Length {
        data[nextSlot] := Some(v);
        nextSlot := nextSlot + 1;
        pushed := true;
      } else {
        pushed := false;
      }
    }

    /** `push_to_ptr`: as `try_push`, returning the index of the slot written. */
    method PushToPtr(v: T) returns (ptr: Option<nat>)
      requires Valid()
      modifies this, data
      ensures Valid() && data == old(data)
      ensures ptr.Some? == Pushed(old(Model()), v).Some?
      ensures ptr.Some? ==> ptr.value == old(nextSlot) && data[ptr.value] == Some(v)
      ensures Model() == if ptr.Some? then Pushed(old(Model()), v).value else old(Model())
    {
      if nextSlot < data.Length {
        data[nextSlot] := Some(v);
        ptr := Some(nextSlot);
        nextSlot := nextSlot + 1;
      } else {
        ptr := None;
      }
    }

    /** `iter`: the first `next_slot` slots, in index order. */
    function Iter(): (r: seq<T>)
      reads this, data
      requires Valid()
      ensures |r| == nextSlot
      ensures forall i :: 0 <= i < nextSlot ==> data[i] == Some(r[i])
    {
      Occupied(Model())
    }

    /** `insert(index, v)`: write slot `index` in place, cursor untouched. */
    method Insert(index: nat, v: T) returns (inserted: bool)
      requires Valid()
      modifies data
      ensures Valid()
      ensures inserted == Inserted(old(Model()), index, v).Some?
      ensures Model() == if inserted then Inserted(old(Model()), index, v).value else old(Model())
    {
      if index < data.Length {
        data[index] := Some(v);
        inserted := true;
      } else {
        inserted := false;
      }
    }
  }
}
