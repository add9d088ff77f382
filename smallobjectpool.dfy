/// `SmallObjectPool<T, CAP>` of src/smallobjectpool.rs: a chain of
/// `ArrayLike` blocks and a write cursor made of raw pointers: the current
/// and last blocks, the next free slot (`next_space`) and the end of the
/// current block (`last_space`), plus a saved `(marked_block, marked_space)`.
/// The chain is a sequence of blocks (handle `i` is the `i`-th block: it
/// only grows at the back) and a pointer into a block is an offset in
/// `[0, CAP]`, as for `ArrayLike` itself.
///
/// The `PtrBased` impl for `Vec<T>` of the same file is at the end.
module SmallObjectPools {
  import opened Common
  import opened ArrayLikes
  import Cursors

  datatype SopState<T> = SopState(blocks: seq<ArrayLikeState<T>>, current: nat, last: nat,
                                  nextSpace: nat, lastSpace: nat, markedBlock: nat, markedSpace: nat)

  /** The cursor invariant: at least one block, each a `CAP`-slot
      `ArrayLike` whose own cursor the pool never uses; `last_block` is the
      tail; the current and marked blocks are in the chain; `last_space` is
      the end of the current block and both the cursor and the saved
      cursor lie in `[0, CAP]`.  `CAP >= 1`: with `CAP = 0` every push
      writes past the end of a fresh block. */
  ghost predicate SopInv<T>(cap: nat, p: SopState<T>)
  {
    && cap >= 1 && |p.blocks| >= 1
    && (forall i :: 0 <= i < |p.blocks| ==> |p.blocks[i].data| == cap && p.blocks[i].current == None)
    && p.last == |p.blocks| - 1
    && p.current <= p.last && p.markedBlock <= p.last
    && p.lastSpace == End(cap) && p.nextSpace <= cap && p.markedSpace <= cap
  }

  /** Every slot of a run of blocks, in chain order and slot order. */
  function FlatData<T>(bs: seq<ArrayLikeState<T>>): seq<Option<T>>
  {
    if bs == [] then [] else FlatData(bs[..|bs| - 1]) + bs[|bs| - 1].data
  }

  /** What the pool has handed out: every slot before the cursor, that is
      all slots of the blocks before the current one and the current
      block's slots before `next_space`. */
  function Written<T>(cap: nat, p: SopState<T>): seq<Option<T>>
    requires SopInv(cap, p)
  {
    FlatData(p.blocks[..p.current]) + p.blocks[p.current].data[..p.nextSpace]
  }

  /** The value at an address, `None` when the slot was never written. */
  function At<T>(cap: nat, p: SopState<T>, a: Address): Option<T>
    requires SopInv(cap, p)
  {
    if a.block < |p.blocks| && a.slot < cap then p.blocks[a.block].data[a.slot] else None
  }

  /** Slots a push can still use before the chain grows: the rest of the
      current block and every block after it. */
  function Room<T>(cap: nat, p: SopState<T>): nat
    requires SopInv(cap, p)
  {
    (p.last - p.current) * cap + (p.lastSpace - p.nextSpace)
  }

  /** `new` followed by `init`: one block, current, last and marked; the
      cursor and the saved cursor at its `begin`, `last_space` at its
      `end`. */
  function NewSop<T>(cap: nat): (p: SopState<T>)
    requires cap >= 1
    ensures SopInv(cap, p) && |p.blocks| == 1 && Written(cap, p) == [] && Room(cap, p) == cap
  {
    var p := SopState([ArrayLikes.New(cap)], 0, 0, Begin(), End(cap), 0, Begin());
    assert p.blocks[..0] == [];
    p
  }

  /** `new_block`: a fresh block at the back becomes both last and current,
      with the cursor at its `begin`. */
  function SopNewBlock<T>(cap: nat, p: SopState<T>): (r: SopState<T>)
    requires SopInv(cap, p)
    ensures SopInv(cap, r)
    ensures r.blocks == p.blocks + [ArrayLikes.New(cap)] && r.current == r.last == |p.blocks|
    ensures r.nextSpace == 0 && r.markedBlock == p.markedBlock && r.markedSpace == p.markedSpace
  {
    p.(blocks := p.blocks + [ArrayLikes.New(cap)], last := |p.blocks|, current := |p.blocks|,
       nextSpace := Begin(), lastSpace := End(cap))
  }

  /** `next_block`: the following block when the current one is not the
      last, otherwise a new block; either way the cursor goes to its
      `begin`. */
  function SopNextBlock<T>(cap: nat, p: SopState<T>): (r: SopState<T>)
    requires SopInv(cap, p)
    ensures SopInv(cap, r) && r.current == p.current + 1 && r.nextSpace == 0
    ensures |r.blocks| == if p.current == p.last then |p.blocks| + 1 else |p.blocks|
    ensures r.blocks[..|p.blocks|] == p.blocks
    ensures r.markedBlock == p.markedBlock && r.markedSpace == p.markedSpace
  {
    if p.current == p.last then SopNewBlock(cap, p)
    else p.(current := p.current + 1, nextSpace := Begin(), lastSpace := End(cap))
  }

  /** `rewind`: the cursor goes to the `begin` of the head block; the chain,
      `last_block` and the saved cursor stay. */
  function SopRewound<T>(cap: nat, p: SopState<T>): (r: SopState<T>)
    requires SopInv(cap, p)
    ensures SopInv(cap, r) && r.blocks == p.blocks && r.current == 0 && r.nextSpace == 0
    ensures r.last == p.last && r.markedBlock == p.markedBlock && r.markedSpace == p.markedSpace
    ensures Written(cap, r) == [] && Room(cap, r) == |p.blocks| * cap
  {
    var r := p.(current := 0, nextSpace := Begin(), lastSpace := End(cap));
    assert r.blocks[..0] == [];
    r
  }

  /** `mark`: the cursor is saved; nothing else changes. */
  function SopMarked<T>(cap: nat, p: SopState<T>): (r: SopState<T>)
    requires SopInv(cap, p)
    ensures SopInv(cap, r) && r.markedBlock == p.current && r.markedSpace == p.nextSpace
    ensures r.blocks == p.blocks && r.current == p.current && r.last == p.last
    ensures r.nextSpace == p.nextSpace && r.lastSpace == p.lastSpace
  {
    p.(markedBlock := p.current, markedSpace := p.nextSpace)
  }

  /** The cursor move shared by `push` and `emplace_back`: `next_block` when
      the cursor is at `last_space`; then the reserved address is the
      cursor, and the cursor moves on by the block's `next`. */
  function SopReserved<T>(cap: nat, p: SopState<T>): (r: (SopState<T>, Address))
    requires SopInv(cap, p)
    ensures SopInv(cap, r.0) && r.0.nextSpace >= 1 && r.1 == Address(r.0.current, r.0.nextSpace - 1)
    ensures r.1.slot < cap
    ensures r.0.markedBlock == p.markedBlock && r.0.markedSpace == p.markedSpace
  {
    var q := if p.nextSpace == p.lastSpace then SopNextBlock(cap, p) else p;
    (q.(nextSpace := Next(cap, q.nextSpace).value), Address(q.current, q.nextSpace))
  }

  /** `emplace_back`: reserve the slot at the cursor without writing it. */
  function SopEmplacedBack<T>(cap: nat, p: SopState<T>): (r: (SopState<T>, Address))
    requires SopInv(cap, p)
    ensures SopInv(cap, r.0) && r.1.block == r.0.current && r.1.slot < cap
    ensures |r.0.blocks| >= |p.blocks| && r.0.blocks[..|p.blocks|] == p.blocks
    ensures forall i :: |p.blocks| <= i < |r.0.blocks| ==> r.0.blocks[i] == ArrayLikes.New(cap)
  {
    SopReserved(cap, p)
  }

  /** `push`: reserve the slot as `emplace_back` does and write the value
      through the pointer. */
  function SopPushed<T>(cap: nat, p: SopState<T>, v: T): (r: SopState<T>)
    requires SopInv(cap, p)
    ensures SopInv(cap, r)
    ensures r.markedBlock == p.markedBlock && r.markedSpace == p.markedSpace
  {
    var (q, a) := SopReserved(cap, p);
    q.(blocks := q.blocks[a.block := Inserted(q.blocks[a.block], a.slot, v).value])
  }

  /** Repeated `push`. */
  function SopPushAll<T>(cap: nat, p: SopState<T>, xs: seq<T>): (r: SopState<T>)
    requires SopInv(cap, p)
    ensures SopInv(cap, r)
    decreases |xs|
  {
    if xs == [] then p else SopPushAll(cap, SopPushed(cap, p, xs[0]), xs[1..])
  }

  /** `emplace_back_multi::<N>`: when fewer than `N` slots are left before
      `last_space` (counted by `distance`), move to the next block; the
      reserved run starts at the cursor, which moves on by `N`.  `N <= CAP`
      is required: otherwise the cursor leaves the block and a later
      `distance` never reaches `last_space`. */
  function SopEmplacedBackMulti<T>(cap: nat, p: SopState<T>, n: nat): (r: (SopState<T>, Address))
    requires SopInv(cap, p) && n <= cap
    ensures SopInv(cap, r.0)
  {
    var q := if p.lastSpace - p.nextSpace < n then SopNextBlock(cap, p) else p;
    (q.(nextSpace := q.nextSpace + n), Address(q.current, q.nextSpace))
  }

  // ---------------------------------------------------------------------------
  // Flattening.

  lemma FlatDataSnoc<T>(bs: seq<ArrayLikeState<T>>, c: nat)
    requires c < |bs|
    ensures FlatData(bs[..c + 1]) == FlatData(bs[..c]) + bs[c].data
  {
    assert bs[..c + 1][..c] == bs[..c];
  }

  // ---------------------------------------------------------------------------
  // Push and reservations.

  /** `push` appends the value to what the pool has handed out. */
  lemma PushAppendsWritten<T>(cap: nat, p: SopState<T>, v: T)
    requires SopInv(cap, p)
    ensures Written(cap, SopPushed(cap, p, v)) == Written(cap, p) + [Some(v)]
  {
    var r := SopPushed(cap, p, v);
    var c := p.current;
    if p.nextSpace == p.lastSpace {
      FlatDataSnoc(p.blocks, c);
      assert p.blocks[c].data[..p.nextSpace] == p.blocks[c].data;
      assert r.blocks[..c + 1] == p.blocks[..c + 1];
      assert r.blocks[c + 1].data[..1] == [Some(v)];
    } else {
      assert r.blocks[..c] == p.blocks[..c];
      assert r.blocks[c].data[..p.nextSpace + 1] == p.blocks[c].data[..p.nextSpace] + [Some(v)];
    }
  }

  /** Repeated `push` appends every value, in order. */
  lemma {:induction false} PushAllAppendsWritten<T>(cap: nat, p: SopState<T>, xs: seq<T>)
    requires SopInv(cap, p)
    ensures Written(cap, SopPushAll(cap, p, xs)) == Written(cap, p) + Somes(xs)
    decreases |xs|
  {
    if xs == [] {
      assert Written(cap, p) + Somes(xs) == Written(cap, p);
    } else {
      var q := SopPushed(cap, p, xs[0]);
      PushAppendsWritten(cap, p, xs[0]);
      PushAllAppendsWritten(cap, q, xs[1..]);
      AppendSomes(Written(cap, p), xs);
    }
  }

  /** Pointer stability: a push writes the value at the reserved address
      and changes no other slot of the chain. */
  lemma PushKeepsAddresses<T>(cap: nat, p: SopState<T>, v: T)
    requires SopInv(cap, p)
    ensures var a := SopReserved(cap, p).1;
            && At(cap, SopPushed(cap, p, v), a) == Some(v)
            && forall b :: b != a ==> At(cap, SopPushed(cap, p, v), b) == At(cap, p, b)
  {
  }

  /** `emplace_back` moves the cursor exactly as `push` does and reserves the
      address `push` writes; `push` is `emplace_back` followed by a write. */
  lemma EmplaceBackIsPushWithoutWrite<T>(cap: nat, p: SopState<T>, v: T)
    requires SopInv(cap, p)
    ensures var (q, a) := SopEmplacedBack(cap, p);
            var r := SopPushed(cap, p, v);
            && r.current == q.current && r.last == q.last && r.nextSpace == q.nextSpace && r.lastSpace == q.lastSpace
            && r.blocks == q.blocks[a.block := Inserted(q.blocks[a.block], a.slot, v).value]
  {
  }

  /** Reservations never span two blocks: the `N` slots handed out by
      `emplace_back_multi::<N>` lie inside one block, start at or after the
      old cursor, and the cursor ends right after them. */
  lemma MultiReservationInOneBlock<T>(cap: nat, p: SopState<T>, n: nat)
    requires SopInv(cap, p) && n <= cap
    ensures var (q, a) := SopEmplacedBackMulti(cap, p, n);
            && a.block == q.current && a.slot + n <= cap && q.nextSpace == a.slot + n
            && (a.block == p.current ==> a.slot == p.nextSpace)
            && (a.block != p.current ==> a.block == p.current + 1 && a.slot == 0)
            && q.blocks[..|p.blocks|] == p.blocks
  {
  }

  /** Reuse before grow: while there is room a push keeps the chain's
      length and uses up one slot of room; only a push with no room left
      appends a block, which leaves `CAP - 1` slots. */
  lemma PushUsesRoom<T>(cap: nat, p: SopState<T>, v: T)
    requires SopInv(cap, p)
    ensures var r := SopPushed(cap, p, v);
            && (Room(cap, p) > 0 ==> |r.blocks| == |p.blocks| && Room(cap, r) == Room(cap, p) - 1)
            && (Room(cap, p) == 0 ==> |r.blocks| == |p.blocks| + 1 && Room(cap, r) == cap - 1)
  {
    var r := SopPushed(cap, p, v);
    if p.nextSpace == p.lastSpace && p.current < p.last {
      assert (p.last - p.current) * cap == (p.last - (p.current + 1)) * cap + cap;
    }
  }

  /** Pushing no more values than the room never grows the chain. */
  lemma {:induction false} PushAllWithinRoom<T>(cap: nat, p: SopState<T>, xs: seq<T>)
    requires SopInv(cap, p) && |xs| <= Room(cap, p)
    ensures |SopPushAll(cap, p, xs).blocks| == |p.blocks|
    ensures Room(cap, SopPushAll(cap, p, xs)) == Room(cap, p) - |xs|
    decreases |xs|
  {
    if xs != [] {
      PushUsesRoom(cap, p, xs[0]);
      PushAllWithinRoom(cap, SopPushed(cap, p, xs[0]), xs[1..]);
    }
  }

  /** After `rewind`, as many values as the chain holds go into the
      existing blocks. */
  lemma RewindReusesBlocks<T>(cap: nat, p: SopState<T>, xs: seq<T>)
    requires SopInv(cap, p) && |xs| <= |p.blocks| * cap
    ensures |SopPushAll(cap, SopRewound(cap, p), xs).blocks| == |p.blocks|
  {
    PushAllWithinRoom(cap, SopRewound(cap, p), xs);
  }

  /** Pushing more values than the room, but no more than one block's
      worth more, appends exactly one block. */
  lemma {:induction false} PushAllPastRoom<T>(cap: nat, p: SopState<T>, xs: seq<T>)
    requires SopInv(cap, p) && Room(cap, p) < |xs| <= Room(cap, p) + cap
    ensures |SopPushAll(cap, p, xs).blocks| == |p.blocks| + 1
    decreases |xs|
  {
    PushUsesRoom(cap, p, xs[0]);
    var q := SopPushed(cap, p, xs[0]);
    if Room(cap, p) > 0 {
      PushAllPastRoom(cap, q, xs[1..]);
    } else {
      PushAllWithinRoom(cap, q, xs[1..]);
    }
  }

  /** `2 * CAP` pushes into a new pool fill exactly two blocks. */
  lemma FillTwoBlocks<T>(cap: nat, xs: seq<T>)
    requires cap >= 1 && |xs| == 2 * cap
    ensures |SopPushAll(cap, NewSop<T>(cap), xs).blocks| == 2
  {
    PushAllPastRoom(cap, NewSop<T>(cap), xs);
  }

  /** The pool tests (there with `CAP = 4` and 8 pushes): after `2 * CAP`
      pushes into a new pool and a `rewind`, `2 * CAP` more pushes reuse
      the two blocks and allocate no third one. */
  lemma TwoBlocksRewindTwoBlocks<T>(cap: nat, xs: seq<T>, ys: seq<T>)
    requires cap >= 1 && |xs| == 2 * cap && |ys| == 2 * cap
    ensures var p := SopPushAll(cap, NewSop<T>(cap), xs);
            && |p.blocks| == 2
            && |SopPushAll(cap, SopRewound(cap, p), ys).blocks| == 2
  {
    FillTwoBlocks(cap, xs);
    RewindReusesBlocks(cap, SopPushAll(cap, NewSop<T>(cap), xs), ys);
  }

  // ---------------------------------------------------------------------------
  // The pool object.

  /** The pool object: the chain of blocks and the cursor fields. */
  class SmallObjectPool<T> {
    const cap: nat
    var blocks: seq<ArrayLikeState<T>>
    var currentBlock: nat
    var lastBlock: nat
    var nextSpace: nat
    var lastSpace: nat
    var markedBlock: nat
    var markedSpace: nat

    ghost function Model(): SopState<T>
      reads this
    {
      SopState(blocks, currentBlock, lastBlock, nextSpace, lastSpace, markedBlock, markedSpace)
    }

    ghost predicate Valid()
      reads this
    {
      SopInv(cap, Model())
    }

    /** `new`: one block pushed, then `init`. */
    constructor (cap: nat)
      requires cap >= 1
      ensures Valid() && this.cap == cap && Model() == NewSop(cap)
    {
      this.cap := cap;
      blocks := [ArrayLikes.New(cap)];
      currentBlock := 0;
      markedBlock := 0;
      lastBlock := 0;
      nextSpace := Begin();
      lastSpace := End(cap);
      markedSpace := nextSpace;
    }

    /** `new_block`. */
    method NewBlock()
      requires Valid()
      modifies this
      ensures Valid() && Model() == SopNewBlock(cap, old(Model()))
    {
      blocks := blocks + [ArrayLikes.New(cap)];
      lastBlock := |blocks| - 1;
      currentBlock := lastBlock;
      nextSpace := Begin();
      lastSpace := End(cap);
    }

    /** `next_block`. */
    method NextBlock()
      requires Valid()
      modifies this
      ensures Valid() && Model() == SopNextBlock(cap, old(Model()))
    {
      if currentBlock == lastBlock {
        NewBlock();
      } else {
        currentBlock := currentBlock + 1;
        nextSpace := Begin();
        lastSpace := End(cap);
      }
    }

    /** `rewind`. */
    method Rewind()
      requires Valid()
      modifies this
      ensures Valid() && Model() == SopRewound(cap, old(Model()))
    {
      currentBlock := 0;
      nextSpace := Begin();
      lastSpace := End(cap);
    }

    /** `mark`. */
    method Mark()
      requires Valid()
      modifies this
      ensures Valid() && Model() == SopMarked(cap, old(Model()))
    {
      markedBlock := currentBlock;
      markedSpace := nextSpace;
    }

    /** `emplace_back`: the reserved address. */
    method EmplaceBack() returns (a: Address)
      requires Valid()
      modifies this
      ensures Valid() && (Model(), a) == SopEmplacedBack(cap, old(Model()))
    {
      if nextSpace == lastSpace {
        NextBlock();
      }
      a := Address(currentBlock, nextSpace);
      nextSpace := Next(cap, nextSpace).value;
    }

    /** `push`: `emplace_back`'s cursor move, then the write through the
        pointer. */
    method Push(v: T)
      requires Valid()
      modifies this
      ensures Valid() && Model() == SopPushed(cap, old(Model()), v)
    {
      if nextSpace == lastSpace {
        NextBlock();
      }
      blocks := blocks[currentBlock := Inserted(blocks[currentBlock], nextSpace, v).value];
      nextSpace := Next(cap, nextSpace).value;
    }

    /** `distance(next_space, last_space)` over the block's `next`: the
        slots left in the current block. */
    method SpaceLeft() returns (left: nat)
      requires Valid()
      ensures left == lastSpace - nextSpace
      ensures left == 0 <==> nextSpace == cap
    {
      var c := cap;
      var next := (p: int) => Next(c, p);
      Cursors.OffsetDistance(next, nextSpace, lastSpace);
      left := Cursors.Distance(next, nextSpace, lastSpace, lastSpace - nextSpace);
      Cursors.LeastStepsUnique(next, nextSpace, lastSpace, left, lastSpace - nextSpace);
    }

    /** `emplace_back_multi::<N>`. */
    method EmplaceBackMulti(n: nat) returns (a: Address)
      requires Valid() && n <= cap
      modifies this
      ensures Valid() && (Model(), a) == SopEmplacedBackMulti(cap, old(Model()), n)
    {
      var left := SpaceLeft();
      if left < n {
        NextBlock();
      }
      a := Address(currentBlock, nextSpace);
      nextSpace := nextSpace + n;
    }
  }

  // ---------------------------------------------------------------------------
  // `PtrBased` for `Vec<T>`: positions are offsets into the vector.

  /** `begin`: the first element, `None` for an empty vector. */
  function VecBegin(len: nat): (r: Option<int>)
    ensures r.None? <==> len == 0
    ensures r.Some? ==> r.value == 0
  {
    if len == 0 then None else Some(0)
  }

  /** `end`: one past the last element, `None` for an empty vector. */
  function VecEnd(len: nat): (r: Option<int>)
    ensures r.None? <==> len == 0
    ensures r.Some? ==> r.value == len
  {
    if len == 0 then None else Some(len)
  }

  /** `next`: `None` at `end`, otherwise one further.  It unwraps `end`, so
      the vector must not be empty. */
  function VecNext(len: nat, p: int): (r: Option<int>)
    requires len > 0
    ensures r.None? <==> p == len
    ensures r.Some? ==> r.value == p + 1
  {
    if p == VecEnd(len).value then None else Some(p + 1)
  }

  /** `prev`: `None` at `begin`, otherwise one back.  It unwraps `begin`, so
      the vector must not be empty. */
  function VecPrev(len: nat, p: int): (r: Option<int>)
    requires len > 0
    ensures r.None? <==> p == 0
    ensures r.Some? ==> r.value == p - 1
  {
    if p == VecBegin(len).value then None else Some(p - 1)
  }

  /** `distance(begin, end)` on a non-empty vector is its length. */
  method VecBeginToEnd(len: nat) returns (count: nat)
    requires len > 0
    ensures count == len
  {
    var next := (p: int) => VecNext(len, p);
    Cursors.OffsetDistance(next, 0, len);
    count := Cursors.Distance(next, VecBegin(len).value, VecEnd(len).value, len);
    Cursors.LeastStepsUnique(next, 0, len, count, len);
  }
}
