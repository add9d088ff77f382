/// `Pool2<T, CAP>` of src/pool.rs: the same chain of `DataBlock`s as `Pool`,
/// but the pool keeps the write position itself (`current_block` and
/// `current_slot`, with `marked_block` and `marked_slot` for the mark) and
/// writes values with the blocks' `insert`, so no block's `next_slot` ever
/// moves.
///
/// `Pool2State` is the pool's value with the blocks in chain order.  What the
/// pool has written is what lies before its cursor (`Written`).  `push` as the
/// source writes it loses values (`Pool2PushedAsWritten`); the corrected
/// `Pool2Pushed` is what the rest of the model uses.
module Pools2 {
  import opened Common
  import opened DataBlocks
  import Pools
  import LinkedLists

  datatype Pool2State<T> = Pool2State(blocks: seq<BlockState<T>>, current: Option<nat>, marked: Option<nat>,
                                      slot: nat, markedSlot: Option<nat>)

  /** A block as `Pool2` leaves it: `CAP` slots, only slots ever written,
      `next_slot` still 0 and no mark. */
  ghost predicate Untouched<T>(cap: nat, b: BlockState<T>)
  {
    |b.slots| == cap && b.nextSlot == 0 && b.markedSlot == None
  }

  /** The chain is made of untouched blocks and both block handles are in
      it. */
  ghost predicate Shape<T>(cap: nat, p: Pool2State<T>)
  {
    && (forall i :: 0 <= i < |p.blocks| ==> Untouched(cap, p.blocks[i]))
    && (p.current.Some? ==> p.current.value < |p.blocks|)
    && (p.marked.Some? ==> p.marked.value < |p.blocks|)
  }

  /** The cursor invariant, for `CAP >= 1`: the slot index stays within
      `[0, CAP]` (also the saved one), and without a current block it is 0
      (as is a slot saved without a marked block). */
  ghost predicate Pool2Inv<T>(cap: nat, p: Pool2State<T>)
  {
    && Shape(cap, p) && cap >= 1
    && p.slot <= cap
    && (p.current.None? ==> p.slot == 0)
    && (p.markedSlot.Some? ==> p.markedSlot.value <= cap)
    && (p.marked.None? && p.markedSlot.Some? ==> p.markedSlot.value == 0)
  }

  /** Every slot of a run of blocks, in chain order and slot order. */
  function FlatSlots<T>(bs: seq<BlockState<T>>): seq<Option<T>>
  {
    if bs == [] then [] else FlatSlots(bs[..|bs| - 1]) + bs[|bs| - 1].slots
  }

  /** What the pool has written: the slots the cursor has passed, that is
      every slot of the blocks before the current one and the first
      `current_slot` slots of the current block. */
  function Written<T>(cap: nat, p: Pool2State<T>): seq<Option<T>>
    requires Pool2Inv(cap, p)
  {
    match p.current
    case None => []
    case Some(c) => FlatSlots(p.blocks[..c]) + p.blocks[c].slots[..p.slot]
  }

  /** `insert(index, v)` with its result discarded, as `Pool2` calls it: the
      slot is written when `index < CAP`, and nothing changes otherwise. */
  function InsertedOrSame<T>(b: BlockState<T>, index: nat, v: T): (r: BlockState<T>)
    requires WellFormed(b)
    ensures r.nextSlot == b.nextSlot && r.markedSlot == b.markedSlot
    ensures r.slots == if index < |b.slots| then b.slots[index := Some(v)] else b.slots
  {
    match Inserted(b, index, v)
    case Some(r) => r
    case None => b
  }

  /** `insert(slot, v)` on block `b`, its result discarded, with the cursor
      then put just after that slot of that block. */
  function InsertedAt<T>(cap: nat, p: Pool2State<T>, b: nat, slot: nat, v: T): (r: Pool2State<T>)
    requires Shape(cap, p) && b < |p.blocks|
    ensures Shape(cap, r) && r.current == Some(b) && r.slot == slot + 1
    ensures |r.blocks| == |p.blocks| && r.marked == p.marked && r.markedSlot == p.markedSlot
  {
    p.(blocks := p.blocks[b := InsertedOrSame(p.blocks[b], slot, v)], current := Some(b), slot := slot + 1)
  }

  /** `Pool2::new`: no blocks, the cursor at slot 0 of no block, no mark. */
  function NewPool2<T>(): (p: Pool2State<T>)
    ensures forall cap: nat :: cap >= 1 ==> Pool2Inv(cap, p) && Written(cap, p) == []
  {
    Pool2State([], None, None, 0, None)
  }

  /** `new_block`: a fresh block at the back of the chain becomes current, at
      slot 0. */
  function NewBlock2<T>(cap: nat, p: Pool2State<T>): (r: Pool2State<T>)
    requires Shape(cap, p)
    ensures Shape(cap, r)
    ensures r.blocks == p.blocks + [Empty(cap)]
    ensures r.current == Some(|p.blocks|) && r.slot == 0
    ensures r.marked == p.marked && r.markedSlot == p.markedSlot
  {
    Pool2State(p.blocks + [Empty(cap)], Some(|p.blocks|), p.marked, 0, p.markedSlot)
  }

  /** The first two arms of `push`, which need no new block: `insert` at the
      cursor while `current_slot < CAP`, else at slot 0 of the next block,
      which becomes current.  `None` when a new block is needed. */
  function PushedInPlace<T>(cap: nat, p: Pool2State<T>, v: T): (r: Option<Pool2State<T>>)
    requires Shape(cap, p)
    ensures r.Some? <==> p.current.Some? && (p.slot < cap || p.current.value + 1 < |p.blocks|)
    ensures r.Some? ==> Shape(cap, r.value) && |r.value.blocks| == |p.blocks|
    ensures r.Some? ==> r.value.marked == p.marked && r.value.markedSlot == p.markedSlot
  {
    match p.current
    case None => None
    case Some(c) =>
      if p.slot < cap then
        Some(p.(blocks := p.blocks[c := InsertedOrSame(p.blocks[c], p.slot, v)], slot := p.slot + 1))
      else if c + 1 < |p.blocks| then
        Some(p.(blocks := p.blocks[c + 1 := InsertedOrSame(p.blocks[c + 1], 0, v)], current := Some(c + 1), slot := 1))
      else
        None
  }

  /** `add_and_push` as written: `new_block`, then `insert` at slot 0, and
      `current_slot` is left at 0. */
  function AddedAndPushedAsWritten<T>(cap: nat, p: Pool2State<T>, v: T): (r: Pool2State<T>)
    requires Shape(cap, p)
    ensures Shape(cap, r) && |r.blocks| == |p.blocks| + 1 && r.slot == 0
    ensures r.current == Some(|p.blocks|) && r.marked == p.marked && r.markedSlot == p.markedSlot
    ensures cap >= 1 ==> r.blocks[|p.blocks|].slots[0] == Some(v)
  {
    var q := NewBlock2(cap, p);
    q.(blocks := q.blocks[|p.blocks| := InsertedOrSame(q.blocks[|p.blocks|], 0, v)])
  }

  /** `push` as written. */
  function Pool2PushedAsWritten<T>(cap: nat, p: Pool2State<T>, v: T): (r: Pool2State<T>)
    requires Shape(cap, p)
    ensures Shape(cap, r)
  {
    match PushedInPlace(cap, p, v)
    case Some(r) => r
    case None => AddedAndPushedAsWritten(cap, p, v)
  }

  /** `add_and_push` corrected: the cursor moves past the inserted value, as
      in the other two arms of `push`. */
  function AddedAndPushed2<T>(cap: nat, p: Pool2State<T>, v: T): (r: Pool2State<T>)
    requires Shape(cap, p)
    ensures Shape(cap, r) && |r.blocks| == |p.blocks| + 1 && r.slot == 1
    ensures r.current == Some(|p.blocks|) && r.marked == p.marked && r.markedSlot == p.markedSlot
  {
    AddedAndPushedAsWritten(cap, p, v).(slot := 1)
  }

  /** `push` with the corrected `add_and_push`. */
  function Pool2Pushed<T>(cap: nat, p: Pool2State<T>, v: T): (r: Pool2State<T>)
    requires Shape(cap, p)
    ensures Shape(cap, r) && r.current.Some?
    ensures r.marked == p.marked && r.markedSlot == p.markedSlot
    ensures Pool2Inv(cap, p) ==> Pool2Inv(cap, r)
  {
    match PushedInPlace(cap, p, v)
    case Some(r) => r
    case None => AddedAndPushed2(cap, p, v)
  }

  /** Repeated corrected `push`. */
  function Pool2PushAll<T>(cap: nat, p: Pool2State<T>, xs: seq<T>): (r: Pool2State<T>)
    requires Shape(cap, p)
    ensures Shape(cap, r) && r.marked == p.marked && r.markedSlot == p.markedSlot
    ensures Pool2Inv(cap, p) ==> Pool2Inv(cap, r)
    decreases |xs|
  {
    if xs == [] then p else Pool2PushAll(cap, Pool2Pushed(cap, p, xs[0]), xs[1..])
  }

  /** `mark`: the cursor is saved; nothing else changes. */
  function Pool2Marked<T>(cap: nat, p: Pool2State<T>): (r: Pool2State<T>)
    requires Shape(cap, p)
    ensures Shape(cap, r) && (Pool2Inv(cap, p) ==> Pool2Inv(cap, r) && Written(cap, r) == Written(cap, p))
    ensures r.blocks == p.blocks && r.current == p.current && r.slot == p.slot
    ensures r.marked == p.current && r.markedSlot == Some(p.slot)
  {
    p.(marked := p.current, markedSlot := Some(p.slot))
  }

  /** `rewind_to_front`: the cursor goes to slot 0 of the head block (no
      block for an empty chain); the blocks keep their slots. */
  function Pool2RewoundToFront<T>(cap: nat, p: Pool2State<T>): (r: Pool2State<T>)
    requires Shape(cap, p)
    ensures Shape(cap, r) && (Pool2Inv(cap, p) ==> Pool2Inv(cap, r) && Written(cap, r) == [])
    ensures r.blocks == p.blocks && r.marked == p.marked && r.markedSlot == p.markedSlot
    ensures r.current == (if p.blocks == [] then None else Some(0)) && r.slot == 0
  {
    p.(current := if p.blocks == [] then None else Some(0), slot := 0)
  }

  /** `rewind_to_mark`: the cursor goes back to the saved one.  The source
      unwraps `marked_slot`, so it panics when the pool was never marked. */
  function Pool2RewoundToMark<T>(cap: nat, p: Pool2State<T>): (r: Pool2State<T>)
    requires Shape(cap, p) && p.markedSlot.Some?
    ensures Shape(cap, r) && (Pool2Inv(cap, p) ==> Pool2Inv(cap, r))
    ensures r.blocks == p.blocks && r.marked == p.marked && r.markedSlot == p.markedSlot
    ensures r.current == p.marked && r.slot == p.markedSlot.value
  {
    p.(current := p.marked, slot := p.markedSlot.value)
  }

  // ---------------------------------------------------------------------------
  // Slots of a run of blocks.

  lemma FlatSlotsSnoc<T>(bs: seq<BlockState<T>>, c: nat)
    requires c < |bs|
    ensures FlatSlots(bs[..c + 1]) == FlatSlots(bs[..c]) + bs[c].slots
  {
    assert bs[..c + 1][..c] == bs[..c];
  }

  /** Runs with the same slots block by block have the same slots. */
  lemma FlatSlotsSame<T>(bs: seq<BlockState<T>>, cs: seq<BlockState<T>>)
    requires |bs| == |cs| && forall i :: 0 <= i < |bs| ==> bs[i].slots == cs[i].slots
    ensures FlatSlots(bs) == FlatSlots(cs)
    decreases |bs|
  {
    if bs != [] {
      FlatSlotsSame(bs[..|bs| - 1], cs[..|cs| - 1]);
    }
  }

  // ---------------------------------------------------------------------------
  // Push.

  /** The corrected `push` appends the value to what the pool has written,
      provided the cursor is on a block or the chain is empty (see
      `EmptyMarkRewindAppendsBlock` for the remaining case). */
  lemma PushAppendsWritten<T>(cap: nat, p: Pool2State<T>, v: T)
    requires Pool2Inv(cap, p) && (p.current.Some? || p.blocks == [])
    ensures Written(cap, Pool2Pushed(cap, p, v)) == Written(cap, p) + [Some(v)]
  {
    match p.current
    case None =>
      assert Pool2Pushed(cap, p, v).blocks[..0] == [];
    case Some(c) =>
      if p.slot < cap {
        PushHereAppendsWritten(cap, p, v, c);
      } else {
        FlatSlotsSnoc(p.blocks, c);
        assert p.blocks[c].slots[..p.slot] == p.blocks[c].slots;
        PushOnAppendsWritten(cap, p, v, c);
      }
  }

  /** The first arm of `push` appends the value to what was written. */
  lemma PushHereAppendsWritten<T>(cap: nat, p: Pool2State<T>, v: T, c: nat)
    requires Pool2Inv(cap, p) && p.current == Some(c) && p.slot < cap
    ensures Written(cap, Pool2Pushed(cap, p, v)) == Written(cap, p) + [Some(v)]
  {
    var r := Pool2Pushed(cap, p, v);
    assert r.blocks[..c] == p.blocks[..c];
    assert r.blocks[c].slots[..p.slot + 1] == p.blocks[c].slots[..p.slot] + [Some(v)];
  }

  /** The other arms of `push`, from a full current block `c`, append the
      value to what was written: the first slot of the next block or of a
      new one. */
  lemma PushOnAppendsWritten<T>(cap: nat, p: Pool2State<T>, v: T, c: nat)
    requires Pool2Inv(cap, p) && p.current == Some(c) && p.slot == cap
    requires Written(cap, p) == FlatSlots(p.blocks[..c + 1])
    ensures Written(cap, Pool2Pushed(cap, p, v)) == Written(cap, p) + [Some(v)]
  {
    var r := Pool2Pushed(cap, p, v);
    assert r.current == Some(c + 1) && r.slot == 1;
    assert r.blocks[..c + 1] == p.blocks[..c + 1];
    assert r.blocks[c + 1].slots[..1] == [Some(v)];
  }

  /** Repeated corrected `push` appends every value, in order. */
  lemma {:induction false} PushAllAppendsWritten<T>(cap: nat, p: Pool2State<T>, xs: seq<T>)
    requires Pool2Inv(cap, p) && (p.current.Some? || p.blocks == [])
    ensures Written(cap, Pool2PushAll(cap, p, xs)) == Written(cap, p) + Somes(xs)
    decreases |xs|
  {
    if xs == [] {
      assert Written(cap, p) + Somes(xs) == Written(cap, p);
    } else {
      var q := Pool2Pushed(cap, p, xs[0]);
      PushAppendsWritten(cap, p, xs[0]);
      PushAllAppendsWritten(cap, q, xs[1..]);
      AppendSomes(Written(cap, p), xs);
    }
  }

  /** As written, `push` into a new block moves the cursor over nothing:
      what the pool has written does not grow. */
  lemma AsWrittenNewBlockLosesValue<T>(cap: nat, p: Pool2State<T>, v: T)
    requires Pool2Inv(cap, p) && p.current == Some(|p.blocks| - 1) && p.slot == cap
    ensures Written(cap, Pool2PushedAsWritten(cap, p, v)) == Written(cap, p)
  {
    var r := Pool2PushedAsWritten(cap, p, v);
    var c := |p.blocks| - 1;
    FlatSlotsSnoc(p.blocks, c);
    assert p.blocks[..c + 1] == p.blocks;
    assert r.blocks[..c + 1] == p.blocks;
    assert p.blocks[c].slots[..p.slot] == p.blocks[c].slots;
  }

  /** As written, with `CAP = 4`: `push(1)` then `push(2)` on a new pool
      writes both values into slot 0 of the first block, so 1 is lost and
      only 2 has been written.  The corrected `push` writes `[1, 2]`. */
  lemma AsWrittenSecondPushOverwrites()
    ensures var p := Pool2PushedAsWritten(4, Pool2PushedAsWritten(4, NewPool2<int>(), 1), 2);
            Written(4, p) == [Some(2)] && p.blocks[0].slots[0] == Some(2)
    ensures Written(4, Pool2Pushed(4, Pool2Pushed(4, NewPool2<int>(), 1), 2)) == [Some(1), Some(2)]
  {
    var p1 := Pool2PushedAsWritten(4, NewPool2<int>(), 1);
    assert p1.current == Some(0) && p1.slot == 0 && |p1.blocks| == 1;
    var p2 := Pool2PushedAsWritten(4, p1, 2);
    assert p2.blocks[..0] == [] && p2.slot == 1;
    PushAppendsWritten(4, NewPool2<int>(), 1);
    PushAppendsWritten(4, Pool2Pushed(4, NewPool2<int>(), 1), 2);
  }

  /** `iter` yields the blocks, and since no `Pool2` operation moves a
      block's `next_slot`, iterating every block yields nothing, whatever
      was pushed. */
  lemma IterYieldsNothing<T>(cap: nat, p: Pool2State<T>)
    requires Shape(cap, p)
    ensures Pools.AllWellFormed(p.blocks) && Pools.Flatten(p.blocks) == []
  {
    Pools.FlattenAllEmpty(p.blocks);
  }

  // ---------------------------------------------------------------------------
  // Mark and rewind.

  /** What pushes after a `mark` leave alone: the slots before the saved
      cursor, and the saved cursor itself; the cursor stays at or after it. */
  ghost predicate KeepsMark2<T>(cap: nat, q: Pool2State<T>, r: Pool2State<T>)
  {
    && Pool2Inv(cap, q) && Pool2Inv(cap, r)
    && r.marked == q.marked && r.markedSlot == q.markedSlot && q.markedSlot.Some?
    && |q.blocks| <= |r.blocks|
    && (q.marked.Some? ==>
          var m := q.marked.value;
          var s := q.markedSlot.value;
          && (forall i :: 0 <= i < m ==> r.blocks[i].slots == q.blocks[i].slots)
          && r.blocks[m].slots[..s] == q.blocks[m].slots[..s]
          && r.current.Some? && (m < r.current.value || (m == r.current.value && s <= r.slot)))
  }

  /** A corrected `push` writes at or after the cursor, so it keeps the
      mark. */
  lemma PushKeepsMark2<T>(cap: nat, q: Pool2State<T>, r: Pool2State<T>, v: T)
    requires KeepsMark2(cap, q, r)
    ensures KeepsMark2(cap, q, Pool2Pushed(cap, r, v))
  {
    var r' := Pool2Pushed(cap, r, v);
    if q.marked.Some? {
      var m := q.marked.value;
      var s := q.markedSlot.value;
      var c := r.current.value;
      if r.slot < cap && c == m {
        assert r'.blocks[m].slots[..s] == r.blocks[m].slots[..s];
      }
    }
  }

  lemma {:induction false} PushAllKeepsMark2<T>(cap: nat, q: Pool2State<T>, r: Pool2State<T>, xs: seq<T>)
    requires KeepsMark2(cap, q, r)
    ensures KeepsMark2(cap, q, Pool2PushAll(cap, r, xs))
    decreases |xs|
  {
    if xs != [] {
      PushKeepsMark2(cap, q, r, xs[0]);
      PushAllKeepsMark2(cap, q, Pool2Pushed(cap, r, xs[0]), xs[1..]);
    }
  }

  /** `mark`, any number of corrected pushes, `rewind_to_mark`: the pool has
      written exactly what it had written at the mark, and pushing again
      appends after it. */
  lemma MarkPushRewind2<T>(cap: nat, p: Pool2State<T>, xs: seq<T>)
    requires Pool2Inv(cap, p) && p.current.Some?
    ensures var q := Pool2Marked(cap, p);
            var r := Pool2RewoundToMark(cap, Pool2PushAll(cap, q, xs));
            Written(cap, r) == Written(cap, p) && r.current.Some?
  {
    var q := Pool2Marked(cap, p);
    assert KeepsMark2(cap, q, q);
    PushAllKeepsMark2(cap, q, q, xs);
    var r0 := Pool2PushAll(cap, q, xs);
    var r := Pool2RewoundToMark(cap, r0);
    var m := p.current.value;
    assert r.blocks[..m] == r0.blocks[..m];
    FlatSlotsSame(r0.blocks[..m], p.blocks[..m]);
  }

  /** A rewind to a mark taken on an empty pool leaves no current block, so
      the next push appends a block at the back of the chain instead of
      reusing the head: with `CAP = 4`, `mark`, `push(1)`,
      `rewind_to_mark`, `push(2)` leaves two blocks, 1 still in the first
      and 2 in the second. */
  lemma EmptyMarkRewindAppendsBlock()
    ensures var p := Pool2PushAll(4, Pool2Marked(4, NewPool2<int>()), [1]);
            var r := Pool2Pushed(4, Pool2RewoundToMark(4, p), 2);
            |r.blocks| == 2 && r.blocks[0].slots[0] == Some(1) && r.blocks[1].slots[0] == Some(2)
  {
    var p0 := Pool2Marked(4, NewPool2<int>());
    assert [1][1..] == [];
    var p := Pool2PushAll(4, p0, [1]);
    assert p == Pool2Pushed(4, p0, 1);
    assert |p.blocks| == 1 && p.blocks[0].slots[0] == Some(1);
  }

  /** Slots a push can still use without growing the chain: the rest of the
      current block and every block after it; none without a current
      block. */
  function Room2<T>(cap: nat, p: Pool2State<T>): nat
    requires Pool2Inv(cap, p)
  {
    match p.current
    case None => 0
    case Some(c) => (cap - p.slot) + Blocks(|p.blocks| - c - 1, cap)
  }

  /** Reuse before grow for the corrected `push`: a block is appended only
      when no slot is left from the cursor on; otherwise one slot is used. */
  lemma PushGrowsOnlyWhenFull2<T>(cap: nat, p: Pool2State<T>, v: T)
    requires Pool2Inv(cap, p)
    ensures var r := Pool2Pushed(cap, p, v);
            && Pool2Inv(cap, r)
            && (Room2(cap, p) == 0 ==> |r.blocks| == |p.blocks| + 1 && Room2(cap, r) == cap - 1)
            && (Room2(cap, p) > 0 ==> |r.blocks| == |p.blocks| && Room2(cap, r) == Room2(cap, p) - 1)
            && |r.blocks| >= |p.blocks|
            && Room2(cap, r) + 1 == Room2(cap, p) + Blocks(|r.blocks| - |p.blocks|, cap)
  {
    var r := Pool2Pushed(cap, p, v);
    match p.current
    case None =>
    case Some(c) =>
      if p.slot < cap {
        assert r.blocks == p.blocks[c := r.blocks[c]] && r.current == p.current && r.slot == p.slot + 1;
      } else if c + 1 < |p.blocks| {
        assert r.current == Some(c + 1) && r.slot == 1 && |r.blocks| == |p.blocks|;
      } else {
        assert Room2(cap, p) == 0;
      }
  }

  /** Corrected pushes that fit in the room append no block. */
  lemma {:induction false} PushAllReusesBlocks2<T>(cap: nat, p: Pool2State<T>, xs: seq<T>)
    requires Pool2Inv(cap, p) && |xs| <= Room2(cap, p)
    ensures |Pool2PushAll(cap, p, xs).blocks| == |p.blocks|
    decreases |xs|
  {
    if xs != [] {
      PushGrowsOnlyWhenFull2(cap, p, xs[0]);
      PushAllReusesBlocks2(cap, Pool2Pushed(cap, p, xs[0]), xs[1..]);
    }
  }

  /** The slots before the cursor: every block before the current one and
      the slots of the current one below `current_slot`. */
  function Cursor2<T>(cap: nat, p: Pool2State<T>): nat
    requires Pool2Inv(cap, p)
  {
    match p.current
    case None => 0
    case Some(c) => Blocks(c, cap) + p.slot
  }

  /** With a current block, the slots before the cursor and the room after
      it make up the whole chain. */
  lemma CursorAndRoom2<T>(cap: nat, p: Pool2State<T>)
    requires Pool2Inv(cap, p) && p.current.Some?
    ensures Cursor2(cap, p) + Room2(cap, p) == Blocks(|p.blocks|, cap)
  {
    var c := p.current.value;
    BlocksAdd(c + 1, |p.blocks| - c - 1, cap);
  }

  /** With a current block, every corrected push advances the cursor by
      exactly one slot. */
  lemma PushAdvancesCursor2<T>(cap: nat, p: Pool2State<T>, v: T)
    requires Pool2Inv(cap, p) && p.current.Some?
    ensures Cursor2(cap, Pool2Pushed(cap, p, v)) == Cursor2(cap, p) + 1
  {
    var r := Pool2Pushed(cap, p, v);
    var c := p.current.value;
    if p.slot < cap {
      assert r.current == p.current && r.slot == p.slot + 1;
    } else {
      assert r.current == Some(c + 1) && r.slot == 1;
    }
  }

  /** `n` corrected pushes from a current block advance the cursor by `n`
      slots. */
  lemma {:induction false} PushAllAdvancesCursor2<T>(cap: nat, p: Pool2State<T>, xs: seq<T>)
    requires Pool2Inv(cap, p) && p.current.Some?
    ensures Cursor2(cap, Pool2PushAll(cap, p, xs)) == Cursor2(cap, p) + |xs|
    ensures Pool2PushAll(cap, p, xs).current.Some?
    decreases |xs|
  {
    if xs != [] {
      PushAdvancesCursor2(cap, p, xs[0]);
      PushAllAdvancesCursor2(cap, Pool2Pushed(cap, p, xs[0]), xs[1..]);
    }
  }

  /** For a mark taken on a block, `rewind_to_mark` puts the cursor back
      where the mark was taken and keeps every block, so each slot pushed
      since the mark is room again. */
  lemma RewindFreesPushed2<T>(cap: nat, p: Pool2State<T>, xs: seq<T>)
    requires Pool2Inv(cap, p) && p.current.Some?
    ensures var s := Pool2PushAll(cap, Pool2Marked(cap, p), xs);
            Room2(cap, Pool2RewoundToMark(cap, s)) == Room2(cap, s) + |xs|
  {
    var q := Pool2Marked(cap, p);
    var s := Pool2PushAll(cap, q, xs);
    var r := Pool2RewoundToMark(cap, s);
    PushAllAdvancesCursor2(cap, q, xs);
    assert Cursor2(cap, r) == Cursor2(cap, q);
    CursorAndRoom2(cap, s);
    CursorAndRoom2(cap, r);
  }

  /** Reuse after `rewind_to_mark`, for a mark taken on a block: pushing no
      more values than were discarded appends no block.  (For a mark taken
      on an empty pool this fails: see `EmptyMarkRewindAppendsBlock`.) */
  lemma MarkPushRewindReuses2<T>(cap: nat, p: Pool2State<T>, xs: seq<T>, ys: seq<T>)
    requires Pool2Inv(cap, p) && p.current.Some? && |ys| <= |xs|
    ensures var s := Pool2PushAll(cap, Pool2Marked(cap, p), xs);
            |Pool2PushAll(cap, Pool2RewoundToMark(cap, s), ys).blocks| == |s.blocks|
  {
    var s := Pool2PushAll(cap, Pool2Marked(cap, p), xs);
    RewindFreesPushed2(cap, p, xs);
    PushAllReusesBlocks2(cap, Pool2RewoundToMark(cap, s), ys);
  }

  /** After `rewind_to_front` on a non-empty chain, the next push writes
      slot 0 of the head block and the chain does not grow. */
  lemma RewindToFrontReusesHead<T>(cap: nat, p: Pool2State<T>, v: T)
    requires Pool2Inv(cap, p) && p.blocks != []
    ensures var r := Pool2Pushed(cap, Pool2RewoundToFront(cap, p), v);
            |r.blocks| == |p.blocks| && r.current == Some(0) && r.blocks[0].slots[0] == Some(v)
            && Written(cap, r) == [Some(v)]
  {
    var q := Pool2RewoundToFront(cap, p);
    PushAppendsWritten(cap, q, v);
  }

  // ---------------------------------------------------------------------------
  // The pool object.

  /** The `Pool2` object: the chain of blocks (each block stored in its
      node), the current and marked blocks as handles into the chain, and
      the current and marked slot indices. */
  class Pool2<T> {
    const cap: nat
    var data: LinkedLists.LinkedList<BlockState<T>>
    var markedBlock: Option<nat>
    var currentBlock: Option<nat>
    var currentSlot: nat
    var markedSlot: Option<nat>

    /** The pool's value: the blocks in chain order and the cursor. */
    ghost function Model(): Pool2State<T>
      reads this, data
      requires data.Valid()
    {
      Pool2State(data.Elements(), currentBlock, markedBlock, currentSlot, markedSlot)
    }

    /** The chain was only ever pushed at the back, so handle `i` is the
        `i`-th block; the blocks are untouched and the handles in the chain. */
    ghost predicate Valid()
      reads this, data
    {
      Pools.InOrder(data) && Shape(cap, Model())
    }

    /** `Pool2::new`. */
    constructor (cap: nat)
      ensures Valid() && fresh(data) && this.cap == cap && Model() == NewPool2()
    {
      this.cap := cap;
      data := new LinkedLists.LinkedList();
      markedBlock := None;
      currentBlock := None;
      currentSlot := 0;
      markedSlot := None;
    }

    /** `new_block`. */
    method NewBlock()
      requires Valid()
      modifies this, data
      ensures Valid() && data == old(data)
      ensures Model() == NewBlock2(cap, old(Model()))
    {
      ghost var before := Model();
      var tail := Pools.PushBackInChain(data, Empty(cap));
      currentBlock := Some(tail);
      currentSlot := 0;
      assert Model() == NewBlock2(cap, before);
    }

    /** `insert(slot, v)` on block `b` through its node, with the cursor
        left just after the written slot. */
    method InsertAt(b: nat, slot: nat, v: T)
      requires Valid() && b < |data.Order|
      modifies this, data
      ensures Valid() && data == old(data)
      ensures Model() == InsertedAt(cap, old(Model()), b, slot, v)
    {
      ghost var r := InsertedAt(cap, Model(), b, slot, v);
      assert data.Order[b] == b;
      var x := InsertedOrSame(data.Data(b), slot, v);
      Pools.SetInChain(data, b, x);
      currentBlock := Some(b);
      currentSlot := slot + 1;
      assert data.Elements() == r.blocks;
    }

    /** `add_and_push`, corrected: `new_block`, `insert` at slot 0, and the
        cursor moves past the value. */
    method AddAndPush(v: T)
      requires Valid()
      modifies this, data
      ensures Valid() && data == old(data)
      ensures Model() == AddedAndPushed2(cap, old(Model()), v)
    {
      ghost var before := Model();
      NewBlock();
      InsertAt(currentBlock.value, currentSlot, v);
      assert Model() == AddedAndPushed2(cap, before, v);
    }

    /** `push`, with the corrected `add_and_push`. */
    method Push(v: T)
      requires Valid()
      modifies this, data
      ensures Valid() && data == old(data)
      ensures Model() == Pool2Pushed(cap, old(Model()), v)
    {
      ghost var before := Model();
      match currentBlock {
        case None =>
          AddAndPush(v);
        case Some(c) =>
          if currentSlot < cap {
            assert Pool2Pushed(cap, before, v)
                == before.(blocks := before.blocks[c := InsertedOrSame(before.blocks[c], before.slot, v)],
                           current := Some(c), slot := before.slot + 1);
            InsertAt(c, currentSlot, v);
          } else {
            var next := Pools.NextInChain(data, c);
            if next.Some? {
              var n := next.value;
              assert Pool2Pushed(cap, before, v)
                  == before.(blocks := before.blocks[n := InsertedOrSame(before.blocks[n], 0, v)],
                             current := Some(n), slot := 1);
              InsertAt(n, 0, v);
            } else {
              AddAndPush(v);
            }
          }
      }
    }

    /** `mark`. */
    method Mark()
      requires Valid()
      modifies this
      ensures Valid() && Model() == Pool2Marked(cap, old(Model()))
    {
      markedBlock := currentBlock;
      markedSlot := Some(currentSlot);
    }

    /** `rewind_to_front`. */
    method RewindToFront()
      requires Valid()
      modifies this
      ensures Valid() && Model() == Pool2RewoundToFront(cap, old(Model()))
    {
      currentBlock := data.HeadPtr();
      currentSlot := 0;
      assert currentBlock.Some? ==> data.Order[0] == 0;
    }

    /** `rewind_to_mark`; the source panics when the pool was never marked. */
    method RewindToMark()
      requires Valid() && markedSlot.Some?
      modifies this
      ensures Valid() && Model() == Pool2RewoundToMark(cap, old(Model()))
    {
      currentBlock := markedBlock;
      currentSlot := markedSlot.value;
    }

    /** `iter`: the blocks in chain order, none of which yields a value. */
    method Iter() returns (blocks: seq<BlockState<T>>)
      requires Valid()
      ensures blocks == Model().blocks
      ensures Pools.AllWellFormed(blocks) && Pools.Flatten(blocks) == []
    {
      blocks := data.Iter();
      IterYieldsNothing(cap, Model());
    }
  }
}
