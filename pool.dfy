/// `Pool<T, CAP>` of src/pool.rs (copied verbatim in src/all.rs): a chain of
/// `DataBlock`s in a `LinkedList`, the block that receives pushes
/// (`current_block`) and the block marked last (`marked_block`).  Marks are
/// delegated to the blocks: the marked block remembers its own fill count.
///
/// The chain only ever grows at the back, so a block's handle is its position
/// in the chain; `PoolState` is the pool's value with the blocks in chain
/// order, and the functions below say what each operation does to it.
module Pools {
  import opened Common
  import opened DataBlocks
  import LinkedLists

  datatype PoolState<T> = PoolState(blocks: seq<BlockState<T>>, current: Option<nat>, marked: Option<nat>)

  /** Every block is a well-formed block of capacity `cap`; there is a current
      block exactly when there are blocks; and every block after the current
      one is empty, which is why the source's `unwrap`s on a push into the
      next block never fail. */
  ghost predicate PoolInv<T>(cap: nat, p: PoolState<T>)
  {
    && (forall i :: 0 <= i < |p.blocks| ==> WellFormed(p.blocks[i]) && |p.blocks[i].slots| == cap)
    && (p.current.None? <==> p.blocks == [])
    && (p.current.Some? ==> p.current.value < |p.blocks|)
    && (p.marked.Some? ==> p.marked.value < |p.blocks|)
    && (forall i :: 0 <= i < |p.blocks| && p.current.Some? && p.current.value < i ==> p.blocks[i].nextSlot == 0)
  }

  ghost predicate AllWellFormed<T>(bs: seq<BlockState<T>>)
  {
    forall i :: 0 <= i < |bs| ==> WellFormed(bs[i])
  }

  /** What the blocks hold, in chain order and slot order. */
  function Flatten<T>(bs: seq<BlockState<T>>): seq<T>
    requires AllWellFormed(bs)
  {
    if bs == [] then [] else Flatten(bs[..|bs| - 1]) + Occupied(bs[|bs| - 1])
  }

  /** The pool's contents: what iterating every block of the chain yields. */
  function Contents<T>(cap: nat, p: PoolState<T>): seq<T>
    requires PoolInv(cap, p)
  {
    Flatten(p.blocks)
  }

  /** The value stored at an address, if that address is occupied. */
  function At<T>(cap: nat, p: PoolState<T>, a: Address): Option<T>
    requires PoolInv(cap, p)
  {
    if a.block < |p.blocks| && a.slot < p.blocks[a.block].nextSlot then p.blocks[a.block].slots[a.slot] else None
  }

  /** Free slots left in a run of blocks. */
  function TotalRoom<T>(bs: seq<BlockState<T>>): nat
    requires AllWellFormed(bs)
  {
    if bs == [] then 0 else Room(bs[0]) + TotalRoom(bs[1..])
  }

  /** Free slots a push can still use without growing the chain: the rest of
      the current block and every block after it. */
  function Capacity<T>(cap: nat, p: PoolState<T>): nat
    requires PoolInv(cap, p)
  {
    match p.current
    case None => 0
    case Some(c) => TotalRoom(p.blocks[c..])
  }

  /** `Pool::new`: no blocks, no current block, no mark. */
  function NewPool<T>(): (p: PoolState<T>)
    ensures forall cap: nat :: PoolInv(cap, p) && Contents(cap, p) == [] && Capacity(cap, p) == 0
  {
    PoolState([], None, None)
  }

  /** `new_block` followed by the `try_push` of `add_and_push`: a fresh block
      holding `v` at the back of the chain becomes current. */
  function AddedAndPushed<T>(cap: nat, p: PoolState<T>, v: T): (r: PoolState<T>)
    requires PoolInv(cap, p) && cap >= 1
    requires p.current.None? || p.current.value == |p.blocks| - 1
    ensures PoolInv(cap, r)
    ensures |r.blocks| == |p.blocks| + 1 && r.blocks[..|p.blocks|] == p.blocks && Occupied(r.blocks[|p.blocks|]) == [v]
    ensures r.current == Some(|p.blocks|) && r.marked == p.marked
  {
    PoolState(p.blocks + [Pushed(Empty(cap), v).value], Some(|p.blocks|), p.marked)
  }

  /** `push`: into the current block if it has room; otherwise into the next
      block if one exists (which becomes current); otherwise into a new block
      appended to the chain.  `CAP >= 1` is needed, or the `unwrap` of the
      push into a fresh block panics. */
  function PoolPushed<T>(cap: nat, p: PoolState<T>, v: T): (r: PoolState<T>)
    requires PoolInv(cap, p) && cap >= 1
    ensures PoolInv(cap, r) && r.marked == p.marked
  {
    match p.current
    case None => AddedAndPushed(cap, p, v)
    case Some(c) =>
      match Pushed(p.blocks[c], v)
      case Some(b) => p.(blocks := p.blocks[c := b])
      case None =>
        if c + 1 < |p.blocks| then
          PoolState(p.blocks[c + 1 := Pushed(p.blocks[c + 1], v).value], Some(c + 1), p.marked)
        else
          AddedAndPushed(cap, p, v)
  }

  /** `mark`: the current block becomes the marked one and records its fill
      count; on an empty pool the mark is cleared and no block changes. */
  function PoolMarked<T>(cap: nat, p: PoolState<T>): (r: PoolState<T>)
    requires PoolInv(cap, p)
    ensures PoolInv(cap, r) && r.marked == p.current && r.current == p.current
    ensures Contents(cap, r) == Contents(cap, p)
    ensures |r.blocks| == |p.blocks|
    ensures forall i :: 0 <= i < |p.blocks| && Some(i) != p.current ==> r.blocks[i] == p.blocks[i]
    ensures p.current.Some? ==> r.blocks[p.current.value] == WithMark(p.blocks[p.current.value])
  {
    match p.current
    case None => p.(marked := None)
    case Some(c) =>
      var r := PoolState(p.blocks[c := WithMark(p.blocks[c])], p.current, p.current);
      FlattenSameOccupied(p.blocks, r.blocks);
      r
  }

  /** `rewind_to_front`: every block is emptied and loses its mark; the
      current and marked blocks stay where they are. */
  function PoolRewoundToFront<T>(cap: nat, p: PoolState<T>): (r: PoolState<T>)
    requires PoolInv(cap, p)
    ensures PoolInv(cap, r) && r.current == p.current && r.marked == p.marked
    ensures |r.blocks| == |p.blocks|
    ensures forall i :: 0 <= i < |p.blocks| ==> r.blocks[i] == RewoundToFront(p.blocks[i])
    ensures Contents(cap, r) == []
  {
    var r := p.(blocks := seq(|p.blocks|, i requires 0 <= i < |p.blocks| && WellFormed(p.blocks[i]) => RewoundToFront(p.blocks[i])));
    FlattenAllEmpty(r.blocks);
    r
  }

  /** `rewind_to_mark`: without a mark nothing changes; otherwise the marked
      block goes back to its own mark, every later block is emptied and the
      marked block becomes current.  Earlier blocks are untouched. */
  function PoolRewoundToMark<T>(cap: nat, p: PoolState<T>): (r: PoolState<T>)
    requires PoolInv(cap, p)
    ensures PoolInv(cap, r) && r.marked == p.marked && |r.blocks| == |p.blocks|
    ensures p.marked.None? ==> r == p
    ensures p.marked.Some? ==>
              var m := p.marked.value;
              && r.current == p.marked
              && r.blocks[..m] == p.blocks[..m]
              && r.blocks[m] == RewoundToMark(p.blocks[m])
              && forall i :: m < i < |p.blocks| ==> r.blocks[i] == RewoundToFront(p.blocks[i])
  {
    match p.marked
    case None => p
    case Some(m) =>
      var bs := seq(|p.blocks|, i requires 0 <= i < |p.blocks| && WellFormed(p.blocks[i]) =>
                  if i < m then p.blocks[i] else if i == m then RewoundToMark(p.blocks[i]) else RewoundToFront(p.blocks[i]));
      assert bs[..m] == p.blocks[..m];
      PoolState(bs, Some(m), Some(m))
  }

  /** Repeated `push`. */
  function PoolPushAll<T>(cap: nat, p: PoolState<T>, xs: seq<T>): (r: PoolState<T>)
    requires PoolInv(cap, p) && cap >= 1
    ensures PoolInv(cap, r) && r.marked == p.marked
    decreases |xs|
  {
    if xs == [] then p else PoolPushAll(cap, PoolPushed(cap, p, xs[0]), xs[1..])
  }

  // ---------------------------------------------------------------------------
  // Flattening.

  lemma FlattenSameOccupied<T>(bs: seq<BlockState<T>>, cs: seq<BlockState<T>>)
    requires AllWellFormed(bs) && AllWellFormed(cs) && |bs| == |cs|
    requires forall i :: 0 <= i < |bs| ==> Occupied(bs[i]) == Occupied(cs[i])
    ensures Flatten(bs) == Flatten(cs)
    decreases |bs|
  {
    if bs != [] {
      FlattenSameOccupied(bs[..|bs| - 1], cs[..|cs| - 1]);
    }
  }

  lemma FlattenAllEmpty<T>(bs: seq<BlockState<T>>)
    requires AllWellFormed(bs)
    requires forall i :: 0 <= i < |bs| ==> bs[i].nextSlot == 0
    ensures Flatten(bs) == []
    decreases |bs|
  {
    if bs != [] {
      FlattenAllEmpty(bs[..|bs| - 1]);
    }
  }

  /** When every block after `c` is empty, the contents are those of the
      blocks before `c` followed by block `c`'s. */
  lemma {:induction false} FlattenSplit<T>(bs: seq<BlockState<T>>, c: nat)
    requires AllWellFormed(bs) && c < |bs|
    requires forall i :: c < i < |bs| ==> bs[i].nextSlot == 0
    ensures Flatten(bs) == Flatten(bs[..c]) + Occupied(bs[c])
    decreases |bs|
  {
    var init := bs[..|bs| - 1];
    if c < |bs| - 1 {
      assert init[..c] == bs[..c] && init[c] == bs[c];
      FlattenSplit(init, c);
    } else {
      assert init == bs[..c];
    }
  }

  /** Blocks before `c` are unchanged by a change at `c` or later. */
  lemma FlattenPrefix<T>(bs: seq<BlockState<T>>, cs: seq<BlockState<T>>, c: nat)
    requires AllWellFormed(bs) && AllWellFormed(cs) && c <= |bs| && c <= |cs|
    requires bs[..c] == cs[..c]
    ensures Flatten(bs[..c]) == Flatten(cs[..c])
  {
  }

  // ---------------------------------------------------------------------------
  // Push.

  /** A new block holding `v` appends `v` to the contents. */
  lemma AddAndPushAppends<T>(cap: nat, p: PoolState<T>, v: T)
    requires PoolInv(cap, p) && cap >= 1
    requires p.current.None? || p.current.value == |p.blocks| - 1
    ensures Contents(cap, AddedAndPushed(cap, p, v)) == Contents(cap, p) + [v]
  {
    var r := AddedAndPushed(cap, p, v);
    assert r.blocks[..|r.blocks| - 1] == p.blocks;
  }

  /** A push into the current block `c` appends `v` to the contents. */
  lemma PushHereAppends<T>(cap: nat, p: PoolState<T>, v: T, c: nat)
    requires PoolInv(cap, p) && p.current == Some(c) && Pushed(p.blocks[c], v).Some?
    ensures Contents(cap, p.(blocks := p.blocks[c := Pushed(p.blocks[c], v).value])) == Contents(cap, p) + [v]
  {
    var r := p.(blocks := p.blocks[c := Pushed(p.blocks[c], v).value]);
    FlattenSplit(p.blocks, c);
    assert r.blocks[..c] == p.blocks[..c];
    FlattenSplit(r.blocks, c);
  }

  /** A push into the block after a full current block `c` appends `v` to
      the contents. */
  lemma PushNextAppends<T>(cap: nat, p: PoolState<T>, v: T, c: nat)
    requires PoolInv(cap, p) && cap >= 1 && p.current == Some(c) && c + 1 < |p.blocks|
    requires Pushed(p.blocks[c], v).None?
    ensures Contents(cap, PoolState(p.blocks[c + 1 := Pushed(p.blocks[c + 1], v).value], Some(c + 1), p.marked)) == Contents(cap, p) + [v]
  {
    var r := PoolState(p.blocks[c + 1 := Pushed(p.blocks[c + 1], v).value], Some(c + 1), p.marked);
    FlattenSplit(p.blocks, c);
    assert r.blocks[..c + 1] == p.blocks[..c + 1];
    assert r.blocks[..c + 1][..c] == p.blocks[..c];
    FlattenSplit(r.blocks, c + 1);
    FlattenSplit(r.blocks[..c + 1], c);
  }

  /** `push` appends the value to the pool's contents. */
  lemma PushAppends<T>(cap: nat, p: PoolState<T>, v: T)
    requires PoolInv(cap, p) && cap >= 1
    ensures Contents(cap, PoolPushed(cap, p, v)) == Contents(cap, p) + [v]
  {
    match p.current
    case None =>
      AddAndPushAppends(cap, p, v);
    case Some(c) =>
      if Pushed(p.blocks[c], v).Some? {
        PushHereAppends(cap, p, v, c);
      } else if c + 1 < |p.blocks| {
        PushNextAppends(cap, p, v, c);
      } else {
        AddAndPushAppends(cap, p, v);
      }
  }

  /** Pointer stability: every occupied address keeps its value across a
      push, and exactly one address becomes occupied, holding the value. */
  lemma PushKeepsAddresses<T>(cap: nat, p: PoolState<T>, v: T)
    requires PoolInv(cap, p) && cap >= 1
    ensures forall a :: At(cap, p, a).Some? ==> At(cap, PoolPushed(cap, p, v), a) == At(cap, p, a)
    ensures var r := PoolPushed(cap, p, v);
            exists a :: && At(cap, p, a).None? && At(cap, r, a) == Some(v)
                        && forall b :: At(cap, p, b).None? && At(cap, r, b).Some? ==> b == a
  {
    var r := PoolPushed(cap, p, v);
    var c := r.current.value;
    var a := Address(c, r.blocks[c].nextSlot - 1);
    assert At(cap, p, a).None? && At(cap, r, a) == Some(v);
    assert forall b :: At(cap, p, b).None? && At(cap, r, b).Some? ==> b == a;
  }

  /** The free slots from block `i` on: block `i`'s and those after it. */
  lemma TotalRoomFrom<T>(bs: seq<BlockState<T>>, i: nat)
    requires AllWellFormed(bs) && i < |bs|
    ensures TotalRoom(bs[i..]) == Room(bs[i]) + TotalRoom(bs[i + 1..])
  {
    assert bs[i..][1..] == bs[i + 1..];
  }

  /** A fresh block after the last one leaves `cap - 1` free slots. */
  lemma AddAndPushCapacity<T>(cap: nat, p: PoolState<T>, v: T)
    requires PoolInv(cap, p) && cap >= 1
    requires p.current.None? || p.current.value == |p.blocks| - 1
    ensures Capacity(cap, AddedAndPushed(cap, p, v)) == cap - 1
  {
    var r := AddedAndPushed(cap, p, v);
    TotalRoomFrom(r.blocks, |p.blocks|);
    assert r.blocks[|p.blocks| + 1..] == [];
    assert Room(r.blocks[|p.blocks|]) == cap - 1;
  }

  /** Reuse before grow: a push appends a block only when the pool has no
      free slot left in the current block or after it; otherwise the chain
      keeps its length and one free slot is used up. */
  lemma PushGrowsOnlyWhenFull<T>(cap: nat, p: PoolState<T>, v: T)
    requires PoolInv(cap, p) && cap >= 1
    ensures var r := PoolPushed(cap, p, v);
            && (Capacity(cap, p) == 0 ==> |r.blocks| == |p.blocks| + 1 && Capacity(cap, r) == cap - 1)
            && (Capacity(cap, p) > 0 ==> |r.blocks| == |p.blocks| && Capacity(cap, r) == Capacity(cap, p) - 1)
  {
    var r := PoolPushed(cap, p, v);
    match p.current
    case None =>
      AddAndPushCapacity(cap, p, v);
    case Some(c) =>
      TotalRoomFrom(p.blocks, c);
      match Pushed(p.blocks[c], v)
      case Some(b) =>
        TotalRoomFrom(r.blocks, c);
        assert r.blocks[c + 1..] == p.blocks[c + 1..];
      case None =>
        if c + 1 < |p.blocks| {
          TotalRoomFrom(r.blocks, c + 1);
          TotalRoomFrom(p.blocks, c + 1);
          assert r.blocks[c + 2..] == p.blocks[c + 2..];
        } else {
          assert p.blocks[c + 1..] == [];
          AddAndPushCapacity(cap, p, v);
        }
  }

  /** Pushing no more values than the free capacity never grows the chain. */
  lemma {:induction false} PushAllReusesBlocks<T>(cap: nat, p: PoolState<T>, xs: seq<T>)
    requires PoolInv(cap, p) && cap >= 1 && |xs| <= Capacity(cap, p)
    ensures |PoolPushAll(cap, p, xs).blocks| == |p.blocks|
    ensures Capacity(cap, PoolPushAll(cap, p, xs)) == Capacity(cap, p) - |xs|
    decreases |xs|
  {
    if xs != [] {
      PushGrowsOnlyWhenFull(cap, p, xs[0]);
      PushAllReusesBlocks(cap, PoolPushed(cap, p, xs[0]), xs[1..]);
    }
  }

  /** Repeated `push` appends every value, in order. */
  lemma {:induction false} PushAllAppends<T>(cap: nat, p: PoolState<T>, xs: seq<T>)
    requires PoolInv(cap, p) && cap >= 1
    ensures Contents(cap, PoolPushAll(cap, p, xs)) == Contents(cap, p) + xs
    decreases |xs|
  {
    if xs != [] {
      var q := PoolPushed(cap, p, xs[0]);
      assert PoolPushAll(cap, p, xs) == PoolPushAll(cap, q, xs[1..]);
      PushAppends(cap, p, xs[0]);
      PushAllAppends(cap, q, xs[1..]);
      AppendFirst(Contents(cap, p), xs);
    }
  }

  // ---------------------------------------------------------------------------
  // Mark and rewind.

  /** What pushes after a `mark` at block `m` (with fill count `k`) leave
      alone: the chain up to `m`, the block's mark and its first `k` slots. */
  ghost predicate KeepsMark<T>(cap: nat, q: PoolState<T>, r: PoolState<T>)
    requires PoolInv(cap, q) && PoolInv(cap, r)
  {
    && q.marked.Some? && r.marked == q.marked
    && var m := q.marked.value;
       var k := q.blocks[m].nextSlot;
       && q.blocks[m].markedSlot == Some(k)
       && m < |r.blocks| && r.current.value >= m
       && r.blocks[..m] == q.blocks[..m]
       && r.blocks[m].markedSlot == Some(k)
       && r.blocks[m].nextSlot >= k
       && r.blocks[m].slots[..k] == q.blocks[m].slots[..k]
  }

  lemma PushKeepsMark<T>(cap: nat, q: PoolState<T>, r: PoolState<T>, v: T)
    requires PoolInv(cap, q) && PoolInv(cap, r) && cap >= 1 && KeepsMark(cap, q, r)
    ensures KeepsMark(cap, q, PoolPushed(cap, r, v))
  {
    var m := q.marked.value;
    var k := q.blocks[m].nextSlot;
    var s := PoolPushed(cap, r, v);
    var c := r.current.value;
    if Pushed(r.blocks[c], v).Some? {
      assert s.blocks[..m] == r.blocks[..m];
      if c == m {
        assert s.blocks[m].slots[..k] == r.blocks[m].slots[..k];
      }
    } else if c + 1 < |r.blocks| {
      assert s.blocks[..m] == r.blocks[..m];
    } else {
      assert s.blocks[..m] == r.blocks[..m];
    }
  }

  lemma {:induction false} PushAllKeepsMark<T>(cap: nat, q: PoolState<T>, r: PoolState<T>, xs: seq<T>)
    requires PoolInv(cap, q) && PoolInv(cap, r) && cap >= 1 && KeepsMark(cap, q, r)
    ensures KeepsMark(cap, q, PoolPushAll(cap, r, xs))
    decreases |xs|
  {
    if xs != [] {
      PushKeepsMark(cap, q, r, xs[0]);
      PushAllKeepsMark(cap, q, PoolPushed(cap, r, xs[0]), xs[1..]);
    }
  }

  /** `mark`, any pushes, `rewind_to_mark`: the pool holds what it held when
      it was marked, and the marked block is current again. */
  lemma MarkPushRewind<T>(cap: nat, p: PoolState<T>, xs: seq<T>)
    requires PoolInv(cap, p) && cap >= 1 && p.current.Some?
    ensures var r := PoolRewoundToMark(cap, PoolPushAll(cap, PoolMarked(cap, p), xs));
            Contents(cap, r) == Contents(cap, p) && r.current == p.current
  {
    var q := PoolMarked(cap, p);
    var m := p.current.value;
    var k := p.blocks[m].nextSlot;
    PushAllKeepsMark(cap, q, q, xs);
    var s := PoolPushAll(cap, q, xs);
    var r := PoolRewoundToMark(cap, s);
    FlattenSplit(r.blocks, m);
    FlattenSplit(q.blocks, m);
    assert Occupied(r.blocks[m]) == Occupied(q.blocks[m]) by {
      assert r.blocks[m].nextSlot == k;
      forall i | 0 <= i < k
        ensures r.blocks[m].slots[i] == q.blocks[m].slots[i]
      {
        assert r.blocks[m].slots[i] == s.blocks[m].slots[..k][i];
      }
    }
  }

  /** A mark taken on an empty pool records no block, so the
      `rewind_to_mark` after it changes nothing: every value pushed after
      the mark is still there. */
  lemma MarkOnEmptyPoolKeepsPushes<T>(cap: nat, p: PoolState<T>, xs: seq<T>)
    requires PoolInv(cap, p) && cap >= 1 && p.current.None?
    ensures var r := PoolRewoundToMark(cap, PoolPushAll(cap, PoolMarked(cap, p), xs));
            Contents(cap, r) == Contents(cap, p) + xs && r.marked.None?
  {
    var q := PoolMarked(cap, p);
    PushAllAppends(cap, q, xs);
  }

  /** The slots before the cursor: every block before the current one and
      the filled part of the current one. */
  function Cursor<T>(cap: nat, p: PoolState<T>): nat
    requires PoolInv(cap, p)
  {
    match p.current
    case None => 0
    case Some(c) => Blocks(c, cap) + p.blocks[c].nextSlot
  }

  /** The slots before the cursor and the free capacity after it make up the
      whole chain. */
  lemma CursorAndCapacity<T>(cap: nat, p: PoolState<T>)
    requires PoolInv(cap, p)
    ensures Cursor(cap, p) + Capacity(cap, p) == Blocks(|p.blocks|, cap)
  {
    if p.current.Some? {
      var c := p.current.value;
      TotalRoomFrom(p.blocks, c);
      TotalRoomOfEmpty(cap, p.blocks[c + 1..]);
      BlocksAdd(c + 1, |p.blocks| - c - 1, cap);
    }
  }

  /** Every push advances the cursor by exactly one slot, whichever of the
      three branches of `push` it takes. */
  lemma PushAdvancesCursor<T>(cap: nat, p: PoolState<T>, v: T)
    requires PoolInv(cap, p) && cap >= 1
    ensures Cursor(cap, PoolPushed(cap, p, v)) == Cursor(cap, p) + 1
  {
    match p.current
    case None =>
    case Some(c) =>
      if Pushed(p.blocks[c], v).None? {
        assert p.blocks[c].nextSlot == cap;
      }
  }

  /** `n` pushes advance the cursor by `n` slots. */
  lemma {:induction false} PushAllAdvancesCursor<T>(cap: nat, p: PoolState<T>, xs: seq<T>)
    requires PoolInv(cap, p) && cap >= 1
    ensures Cursor(cap, PoolPushAll(cap, p, xs)) == Cursor(cap, p) + |xs|
    decreases |xs|
  {
    if xs != [] {
      PushAdvancesCursor(cap, p, xs[0]);
      PushAllAdvancesCursor(cap, PoolPushed(cap, p, xs[0]), xs[1..]);
    }
  }

  /** `rewind_to_mark` puts the cursor back where the mark was taken and
      keeps every block, so each slot pushed since the mark is free again. */
  lemma RewindFreesPushed<T>(cap: nat, p: PoolState<T>, xs: seq<T>)
    requires PoolInv(cap, p) && cap >= 1 && p.current.Some?
    ensures var s := PoolPushAll(cap, PoolMarked(cap, p), xs);
            Capacity(cap, PoolRewoundToMark(cap, s)) == Capacity(cap, s) + |xs|
  {
    var q := PoolMarked(cap, p);
    var s := PoolPushAll(cap, q, xs);
    var r := PoolRewoundToMark(cap, s);
    PushAllKeepsMark(cap, q, q, xs);
    PushAllAdvancesCursor(cap, q, xs);
    var m := q.current.value;
    assert r.blocks[m].nextSlot == q.blocks[m].nextSlot;
    assert Cursor(cap, r) == Cursor(cap, q);
    CursorAndCapacity(cap, s);
    CursorAndCapacity(cap, r);
  }

  /** Reuse after `rewind_to_mark`: pushing no more values than were
      discarded appends no block. */
  lemma MarkPushRewindReuses<T>(cap: nat, p: PoolState<T>, xs: seq<T>, ys: seq<T>)
    requires PoolInv(cap, p) && cap >= 1 && p.current.Some? && |ys| <= |xs|
    ensures var s := PoolPushAll(cap, PoolMarked(cap, p), xs);
            |PoolPushAll(cap, PoolRewoundToMark(cap, s), ys).blocks| == |s.blocks|
  {
    var s := PoolPushAll(cap, PoolMarked(cap, p), xs);
    RewindFreesPushed(cap, p, xs);
    PushAllReusesBlocks(cap, PoolRewoundToMark(cap, s), ys);
  }

  /** Rewinding to the mark keeps every address before the mark: those
      values are not lost, only the ones pushed after the mark are. */
  lemma RewindToMarkKeepsEarlierAddresses<T>(cap: nat, p: PoolState<T>)
    requires PoolInv(cap, p) && p.marked.Some?
    requires p.blocks[p.marked.value].markedSlot.Some?
    ensures var m := p.marked.value;
            var k := p.blocks[m].markedSlot.value;
            forall a: Address :: a.block < m || (a.block == m && a.slot < k) ==>
              At(cap, PoolRewoundToMark(cap, p), a) == At(cap, p, a)
  {
    var m := p.marked.value;
    var r := PoolRewoundToMark(cap, p);
    forall i | 0 <= i < m
      ensures r.blocks[i] == p.blocks[i]
    {
      assert r.blocks[..m][i] == p.blocks[..m][i];
    }
  }

  /** A run of empty blocks of capacity `cap` has `cap` free slots each. */
  lemma {:induction false} TotalRoomOfEmpty<T>(cap: nat, bs: seq<BlockState<T>>)
    requires forall i :: 0 <= i < |bs| ==> WellFormed(bs[i]) && |bs[i].slots| == cap && bs[i].nextSlot == 0
    ensures TotalRoom(bs) == Blocks(|bs|, cap)
  {
    if bs != [] {
      TotalRoomOfEmpty(cap, bs[1..]);
    }
  }

  /** After `rewind_to_front` the pool is empty, but the current block is not
      moved back: the free capacity is that of the current block and the ones
      after it, and the blocks before it are not reused until a mark brings
      the cursor back. */
  lemma RewindToFrontKeepsCurrent<T>(cap: nat, p: PoolState<T>)
    requires PoolInv(cap, p) && p.current.Some?
    ensures var r := PoolRewoundToFront(cap, p);
            && Contents(cap, r) == [] && r.current == p.current
            && Capacity(cap, r) == Blocks(|p.blocks| - p.current.value, cap)
  {
    var r := PoolRewoundToFront(cap, p);
    TotalRoomOfEmpty(cap, r.blocks[p.current.value..]);
  }

  /** The pool test with `CAP == 4`: push 1, 2, 3; mark; push 4, 5;
      `rewind_to_mark`; push 6, 7.  The chain then holds `[1, 2, 3, 6]` and
      `[7]` and no third block was allocated. */
  lemma MarkAndRewindScenario()
    ensures var p0 := PoolPushAll(4, NewPool<int>(), [1, 2, 3]);
            var p1 := PoolPushAll(4, PoolMarked(4, p0), [4, 5]);
            var p2 := PoolPushAll(4, PoolRewoundToMark(4, p1), [6, 7]);
            && |p2.blocks| == 2
            && Occupied(p2.blocks[0]) == [1, 2, 3, 6]
            && Occupied(p2.blocks[1]) == [7]
  {
    var p0 := PoolPushAll(4, NewPool<int>(), [1, 2, 3]);
    ScenarioFirstPushes();
    var p1 := PoolPushAll(4, PoolMarked(4, p0), [4, 5]);
    ScenarioAfterMark(p0);
    ScenarioAfterRewind(p1);
  }

  lemma ScenarioFirstPushes()
    ensures var p0 := PoolPushAll(4, NewPool<int>(), [1, 2, 3]);
            && |p0.blocks| == 1 && p0.current == Some(0) && p0.marked == None
            && Occupied(p0.blocks[0]) == [1, 2, 3] && p0.blocks[0].markedSlot == None
  {
    var a := PoolPushed(4, NewPool<int>(), 1);
    assert Occupied(a.blocks[0]) == [1];
    var b := PoolPushed(4, a, 2);
    var c := PoolPushed(4, b, 3);
    assert [1, 2, 3][1..] == [2, 3] && [2, 3][1..] == [3] && [3][1..] == [];
    assert PoolPushAll(4, NewPool<int>(), [1, 2, 3]) == c;
  }

  lemma ScenarioAfterMark(p0: PoolState<int>)
    requires PoolInv(4, p0) && |p0.blocks| == 1 && p0.current == Some(0) && p0.marked == None
    requires Occupied(p0.blocks[0]) == [1, 2, 3]
    ensures var p1 := PoolPushAll(4, PoolMarked(4, p0), [4, 5]);
            && |p1.blocks| == 2 && p1.current == Some(1) && p1.marked == Some(0)
            && Occupied(p1.blocks[0]) == [1, 2, 3, 4] && p1.blocks[0].markedSlot == Some(3)
  {
    var q := PoolMarked(4, p0);
    var a := PoolPushed(4, q, 4);
    var b := PoolPushed(4, a, 5);
    assert [4, 5][1..] == [5] && [5][1..] == [];
    assert PoolPushAll(4, q, [4, 5]) == b;
  }

  lemma ScenarioAfterRewind(p1: PoolState<int>)
    requires PoolInv(4, p1) && |p1.blocks| == 2 && p1.current == Some(1) && p1.marked == Some(0)
    requires Occupied(p1.blocks[0]) == [1, 2, 3, 4] && p1.blocks[0].markedSlot == Some(3)
    ensures var p2 := PoolPushAll(4, PoolRewoundToMark(4, p1), [6, 7]);
            && |p2.blocks| == 2
            && Occupied(p2.blocks[0]) == [1, 2, 3, 6]
            && Occupied(p2.blocks[1]) == [7]
  {
    var r := PoolRewoundToMark(4, p1);
    assert Occupied(r.blocks[0]) == [1, 2, 3] && r.blocks[1].nextSlot == 0 && r.current == Some(0);
    var a := PoolPushed(4, r, 6);
    assert Occupied(a.blocks[0]) == [1, 2, 3, 6] && a.current == Some(0);
    var b := PoolPushed(4, a, 7);
    assert b.current == Some(1) && Occupied(b.blocks[1]) == [7];
    assert [6, 7][1..] == [7] && [7][1..] == [];
    assert PoolPushAll(4, r, [6, 7]) == b;
  }

  /** The blocks after the first `i` have been rewound to the front: the
      state of `rewind_to_front`'s loop after `i` iterations. */
  function FrontRewoundUpTo<T>(bs: seq<BlockState<T>>, i: nat): (r: seq<BlockState<T>>)
    requires AllWellFormed(bs)
    ensures |r| == |bs|
  {
    seq(|bs|, j requires 0 <= j < |bs| => if j < i then RewoundToFront(bs[j]) else bs[j])
  }

  lemma FrontRewoundStep<T>(bs: seq<BlockState<T>>, i: nat)
    requires AllWellFormed(bs) && i < |bs|
    ensures FrontRewoundUpTo(bs, i)[i := RewoundToFront(bs[i])] == FrontRewoundUpTo(bs, i + 1)
  {
  }

  /** The blocks `m + 1 .. k` have been rewound to the front: the state
      of `rewind_to_mark`'s loop. */
  function FrontRewoundAfter<T>(bs: seq<BlockState<T>>, m: nat, k: nat): (r: seq<BlockState<T>>)
    requires AllWellFormed(bs)
    ensures |r| == |bs|
  {
    seq(|bs|, j requires 0 <= j < |bs| => if m < j < k then RewoundToFront(bs[j]) else bs[j])
  }

  lemma FrontRewoundAfterStep<T>(bs: seq<BlockState<T>>, m: nat, k: nat)
    requires AllWellFormed(bs) && m < k < |bs|
    ensures FrontRewoundAfter(bs, m, k)[k := RewoundToFront(bs[k])] == FrontRewoundAfter(bs, m, k + 1)
  {
  }

  /** `rewind_to_mark` is the marked block's own rewind followed by the
      loop over the later blocks. */
  lemma RewindToMarkByLoop<T>(cap: nat, p: PoolState<T>)
    requires PoolInv(cap, p) && p.marked.Some?
    ensures var m := p.marked.value;
            AllWellFormed(p.blocks[m := RewoundToMark(p.blocks[m])]) &&
            FrontRewoundAfter(p.blocks[m := RewoundToMark(p.blocks[m])], m, |p.blocks|) == PoolRewoundToMark(cap, p).blocks
  {
  }

  lemma UpdatedAt<U>(xs: seq<U>, ys: seq<U>, h: nat, e: U)
    requires h < |xs| == |ys|
    requires forall i :: 0 <= i < |xs| ==> ys[i] == if i == h then e else xs[i]
    ensures ys == xs[h := e]
  {
  }

  /** A chain that was only ever pushed at the back: handle `i` is the
      `i`-th node. */
  ghost predicate InOrder<U>(list: LinkedLists.LinkedList<U>)
    reads list
  {
    list.Valid() && forall i :: 0 <= i < |list.Order| ==> list.Order[i] == i
  }

  /** The node after node `b` (`Node::next_ptr`): the next block of the
      chain, if any. */
  function NextInChain<U>(list: LinkedLists.LinkedList<U>, b: nat): (r: Option<nat>)
    reads list
    requires InOrder(list) && b < |list.Order|
    ensures r == if b + 1 < |list.Order| then Some(b + 1) else None
  {
    assert list.Order[b] == b;
    assert b + 1 < |list.Order| ==> list.Order[b + 1] == b + 1;
    list.NextPtr(b)
  }

  /** `push_back` of a new block followed by `tail_ptr`: the block is
      appended to the chain and its handle is its position. */
  method PushBackInChain<U>(list: LinkedLists.LinkedList<U>, x: U) returns (tail: nat)
    requires InOrder(list)
    modifies list
    ensures InOrder(list) && list.Elements() == old(list.Elements()) + [x]
    ensures tail == |old(list.Elements())|
  {
    list.PushBack(x);
    tail := list.TailPtr().value;
  }

  /** A block operation applied in place through node `b` (`Node::data`
      used for writing): only the `b`-th element changes. */
  method SetInChain<U>(list: LinkedLists.LinkedList<U>, b: nat, x: U)
    requires InOrder(list) && b < |list.Order|
    modifies list
    ensures InOrder(list) && list.Order == old(list.Order)
    ensures list.Elements() == old(list.Elements())[b := x]
  {
    ghost var before := list.Elements();
    list.SetData(b, x);
    ghost var after := list.Elements();
    forall i | 0 <= i < |before|
      ensures after[i] == if i == b then x else before[i]
    {
      assert list.Order[i] == i;
    }
    UpdatedAt(before, after, b, x);
  }

  // ---------------------------------------------------------------------------
  // The pool object.

  /** The pool object: the chain of blocks (each block stored in its node),
      the current block and the marked block, as handles into the chain. */
  class Pool<T> {
    const cap: nat
    var data: LinkedLists.LinkedList<BlockState<T>>
    var markedBlock: Option<nat>
    var currentBlock: Option<nat>

    /** The pool's value: the blocks in chain order. */
    ghost function Model(): PoolState<T>
      reads this, data
      requires data.Valid()
    {
      PoolState(data.Elements(), currentBlock, markedBlock)
    }

    /** The chain was only ever pushed at the back, so handle `i` is the
        `i`-th block; and the pool invariant holds. */
    ghost predicate Valid()
      reads this, data
    {
      && InOrder(data)
      && PoolInv(cap, Model())
    }

    /** `Pool::new`. */
    constructor (cap: nat)
      ensures Valid() && fresh(data) && this.cap == cap && Model() == NewPool()
    {
      this.cap := cap;
      data := new LinkedLists.LinkedList();
      markedBlock := None;
      currentBlock := None;
    }

    /** The block stored in node `b` (`Node::data`), which is the `b`-th
        block of the chain. */
    function BlockAt(b: nat): (r: BlockState<T>)
      reads this, data
      requires Valid() && b < |data.Order|
      ensures r == Model().blocks[b] && WellFormed(r) && |r.slots| == cap
    {
      assert data.Order[b] == b;
      data.Data(b)
    }

    /** Store `x` as the `b`-th block and `current` as the current block,
        when the result is a well-formed pool state. */
    method ReplaceBlock(b: nat, x: BlockState<T>, current: Option<nat>)
      requires Valid() && b < |data.Order|
      requires PoolInv(cap, PoolState(Model().blocks[b := x], current, markedBlock))
      modifies this, data
      ensures Valid() && data == old(data)
      ensures Model() == PoolState(old(Model()).blocks[b := x], current, old(markedBlock))
    {
      SetInChain(data, b, x);
      currentBlock := current;
    }

    /** `new_block` and then the `try_push` of `add_and_push`. */
    method AddAndPush(v: T)
      requires Valid() && cap >= 1
      requires currentBlock.None? || currentBlock.value == |data.Order| - 1
      modifies this, data
      ensures Valid() && data == old(data)
      ensures Model() == AddedAndPushed(cap, old(Model()), v)
    {
      ghost var before := Model();
      var c := PushBackInChain(data, Empty(cap));
      currentBlock := Some(c);
      assert data.Order[c] == c;
      var blk := data.Data(c);
      assert blk == Empty(cap);
      SetInChain(data, c, Pushed(blk, v).value);
      assert data.Elements() == before.blocks + [Pushed(Empty(cap), v).value];
      assert Model() == AddedAndPushed(cap, before, v);
    }

    /** `push`: the current block's `try_push`, then the next block's, then a
        new block. */
    method Push(v: T)
      requires Valid() && cap >= 1
      modifies this, data
      ensures Valid() && data == old(data)
      ensures Model() == PoolPushed(cap, old(Model()), v)
    {
      match currentBlock {
        case None =>
          AddAndPush(v);
        case Some(c) =>
          var pushed := Pushed(BlockAt(c), v);
          if pushed.Some? {
            assert PoolPushed(cap, Model(), v) == PoolState(Model().blocks[c := pushed.value], Some(c), markedBlock);
            ReplaceBlock(c, pushed.value, Some(c));
          } else {
            var next := NextInChain(data, c);
            if next.Some? {
              var n := next.value;
              var pushedNext := Pushed(BlockAt(n), v).value;
              assert PoolPushed(cap, Model(), v) == PoolState(Model().blocks[n := pushedNext], next, markedBlock);
              ReplaceBlock(n, pushedNext, next);
            } else {
              AddAndPush(v);
            }
          }
      }
    }

    /** `mark`: `marked_block := current_block`, then the block's `mark_slot`. */
    method Mark()
      requires Valid()
      modifies this, data
      ensures Valid() && data == old(data)
      ensures Model() == PoolMarked(cap, old(Model()))
    {
      ghost var before := Model();
      match currentBlock {
        case None =>
          markedBlock := currentBlock;
          assert Model() == PoolMarked(cap, before);
        case Some(b) =>
          var marked := WithMark(BlockAt(b));
          markedBlock := currentBlock;
          SetInChain(data, b, marked);
          assert data.Elements() == before.blocks[b := marked];
          assert Model() == PoolMarked(cap, before);
      }
    }

    /** `rewind_to_front` on the block of node `b`, through `Node::data`. */
    method RewindBlockToFront(b: nat)
      requires InOrder(data) && b < |data.Order| && WellFormed(data.Elements()[b])
      modifies data
      ensures InOrder(data) && data.Order == old(data.Order)
      ensures data.Elements() == old(data.Elements())[b := RewoundToFront(old(data.Elements())[b])]
    {
      assert data.Order[b] == b;
      SetInChain(data, b, RewoundToFront(data.Data(b)));
    }

    /** The loop of `rewind_to_front`: `rewind_to_front` on every block of
        the chain, via `iter_mut`. */
    method RewindAllBlocks()
      requires InOrder(data) && AllWellFormed(data.Elements())
      modifies data
      ensures InOrder(data) && data.Order == old(data.Order)
      ensures data.Elements() == FrontRewoundUpTo(old(data.Elements()), |data.Order|)
    {
      ghost var blocks := data.Elements();
      var handles := data.IterMut();
      var i := 0;
      while i < |handles|
        invariant 0 <= i <= |handles| == |blocks|
        invariant InOrder(data) && data.Order == handles
        invariant data.Elements() == FrontRewoundUpTo(blocks, i)
      {
        RewindBlockToFront(handles[i]);
        FrontRewoundStep(blocks, i);
        i := i + 1;
      }
    }

    /** `rewind_to_front`: every block rewound; the current and marked
        blocks stay. */
    method RewindToFront()
      requires Valid()
      modifies this, data
      ensures Valid() && data == old(data)
      ensures Model() == PoolRewoundToFront(cap, old(Model()))
    {
      ghost var before := Model();
      RewindAllBlocks();
      assert data.Elements() == PoolRewoundToFront(cap, before).blocks;
      assert Model() == PoolRewoundToFront(cap, before);
    }

    /** One iteration of the `while let` of `rewind_to_mark`: block `k`
        after the marked block `m` is rewound to the front. */
    method RewindLaterBlock(ghost blocks: seq<BlockState<T>>, m: nat, k: nat)
      requires InOrder(data) && AllWellFormed(blocks) && m < k < |blocks| == |data.Order|
      requires data.Elements() == FrontRewoundAfter(blocks, m, k)
      modifies data
      ensures InOrder(data) && data.Order == old(data.Order)
      ensures data.Elements() == FrontRewoundAfter(blocks, m, k + 1)
    {
      ghost var cur := data.Elements();
      assert cur[k] == blocks[k];
      RewindBlockToFront(k);
      assert data.Elements() == cur[k := RewoundToFront(blocks[k])];
      FrontRewoundAfterStep(blocks, m, k);
    }

    /** The `while let` of `rewind_to_mark`: `rewind_to_front` on every block
        after block `m`.  Following `next_ptr` from the node of block `m`
        visits the blocks `m + 1`, `m + 2`, ... up to the tail (`NextInChain`),
        so the loop counts through those positions. */
    method RewindBlocksAfter(m: nat)
      requires InOrder(data) && AllWellFormed(data.Elements()) && m < |data.Order|
      modifies data
      ensures InOrder(data) && data.Order == old(data.Order)
      ensures data.Elements() == FrontRewoundAfter(old(data.Elements()), m, |data.Order|)
    {
      ghost var blocks := data.Elements();
      ghost var order := data.Order;
      var n := data.Len();
      var block := m;
      while block + 1 < n
        invariant m <= block < n == |blocks|
        invariant InOrder(data) && data.Order == order
        invariant data.Elements() == FrontRewoundAfter(blocks, m, block + 1)
        decreases n - block
      {
        block := block + 1;
        RewindLaterBlock(blocks, m, block);
      }
    }

    /** The block work of `rewind_to_mark`: the marked block `m` goes back
        to its own mark, then every later block is rewound to the front. */
    method RewindChainToMark(m: nat)
      requires InOrder(data) && AllWellFormed(data.Elements()) && m < |data.Order|
      modifies data
      ensures InOrder(data) && data.Order == old(data.Order)
      ensures var bs := old(data.Elements());
              data.Elements() == FrontRewoundAfter(bs[m := RewoundToMark(bs[m])], m, |bs|)
    {
      ghost var bs := data.Elements();
      assert data.Order[m] == m;
      var rewound := RewoundToMark(data.Data(m));
      SetInChain(data, m, rewound);
      assert data.Elements() == bs[m := RewoundToMark(bs[m])];
      RewindBlocksAfter(m);
    }

    /** `rewind_to_mark`: `rewind_to_mark` on the marked block, then
        `rewind_to_front` on every following block, and the marked block
        becomes current; nothing without a mark. */
    method RewindToMark()
      requires Valid()
      modifies this, data
      ensures Valid() && data == old(data)
      ensures Model() == PoolRewoundToMark(cap, old(Model()))
    {
      ghost var before := Model();
      if markedBlock.Some? {
        var m := markedBlock.value;
        RewindChainToMark(m);
        RewindToMarkByLoop(cap, before);
        currentBlock := markedBlock;
        assert Model() == PoolRewoundToMark(cap, before);
      }
    }

    /** `iter`: the blocks in chain order. */
    method Iter() returns (blocks: seq<BlockState<T>>)
      requires Valid()
      ensures blocks == Model().blocks && Flatten(blocks) == Contents(cap, Model())
    {
      blocks := data.Iter();
    }
  }
}
