/// `LinkedList2<T>` of src/linkedlist2.rs: a doubly linked list of boxed
/// `Node2`s that keeps only `start` and `end` (no length) and exposes the
/// `PtrBased` cursor protocol over its nodes.  `Node2` has the same fields as
/// `Node` of src/linkedlist.rs (`next`, `prev`, the payload), so the arena,
/// the link invariant and the push rewiring of `LinkedLists` are reused.
/// `next` and `prev` compare node addresses, so each node also carries the
/// address the allocator gave it (`addr[h]` for handle `h`).
module LinkedLists2 {
  import opened Common
  import opened Cursors
  import opened LinkedLists

  /** `PtrBased::next`: `None` when the node's address is at or above `end`'s
      (`ptr >= end`), otherwise the node's `next` link.  A handle outside the
      arena has no node. */
  function NextIn<T>(nodes: seq<Node<T>>, addr: seq<int>, end: nat, p: nat): Option<nat>
    requires |addr| == |nodes| && end < |nodes|
  {
    if p >= |nodes| || addr[p] >= addr[end] then None else nodes[p].next
  }

  /** `PtrBased::prev` as written: `None` when the node's address is at or
      below `end`'s (`ptr <= end`, against `end` rather than `start`),
      otherwise the node's `prev` link. */
  function PrevIn<T>(nodes: seq<Node<T>>, addr: seq<int>, end: nat, p: nat): Option<nat>
    requires |addr| == |nodes| && end < |nodes|
  {
    if p >= |nodes| || addr[p] <= addr[end] then None else nodes[p].prev
  }

  /** `prev` as evidently intended: the comparison is against `start`, so it
      stops only at the first node. */
  function PrevFromStart<T>(nodes: seq<Node<T>>, addr: seq<int>, start: nat, p: nat): Option<nat>
    requires |addr| == |nodes| && start < |nodes|
  {
    if p >= |nodes| || addr[p] <= addr[start] then None else nodes[p].prev
  }

  /** Every node before `end` lies at a lower address than `end`: the one
      address order under which the source's `next` walks the whole list
      (src/linkedlist2.rs:133-143 relies on it for a `push_back` list). */
  ghost predicate EndIsHighest(addr: seq<int>, order: seq<nat>)
    requires forall i :: 0 <= i < |order| ==> order[i] < |addr|
  {
    forall i :: 0 <= i < |order| - 1 ==> addr[order[i]] < addr[order[|order| - 1]]
  }

  /** Every node after `start` lies at a higher address than `start`. */
  ghost predicate StartIsLowest(addr: seq<int>, order: seq<nat>)
    requires forall i :: 0 <= i < |order| ==> order[i] < |addr|
  {
    forall i :: 0 < i < |order| ==> addr[order[0]] < addr[order[i]]
  }

  /** `next` on a linked list steps one position along the list order when
      the node lies below `end`, and returns `None` at `end` and at every
      node at or above `end`'s address. */
  lemma NextAlongOrder<T>(nodes: seq<Node<T>>, addr: seq<int>, order: seq<nat>, i: nat)
    requires Linked(nodes, order) && |addr| == |nodes| && i < |order|
    ensures NextIn(nodes, addr, order[|order| - 1], order[i])
         == if i + 1 < |order| && addr[order[i]] < addr[order[|order| - 1]] then Some(order[i + 1]) else None
  {
    if i + 1 < |order| {
      assert nodes[order[i]].next == Some(order[i + 1]);
    }
  }

  /** `prev` on a linked list steps one position back only from a node that
      is not `start` and lies above `end`'s address; everywhere else it is
      `None`. */
  lemma PrevAlongOrder<T>(nodes: seq<Node<T>>, addr: seq<int>, order: seq<nat>, i: nat)
    requires Linked(nodes, order) && |addr| == |nodes| && i < |order|
    ensures PrevIn(nodes, addr, order[|order| - 1], order[i])
         == if 0 < i && addr[order[i]] > addr[order[|order| - 1]] then Some(order[i - 1]) else None
  {
    if 0 < i {
      assert nodes[order[i]].prev == Some(order[i - 1]);
    }
  }

  /** Whenever `next` can walk from `begin` to `end`, `prev` as written
      returns `None` on every node of the list: no node lies above `end`. */
  lemma PrevNeverSteps<T>(nodes: seq<Node<T>>, addr: seq<int>, order: seq<nat>)
    requires Linked(nodes, order) && |addr| == |nodes| && EndIsHighest(addr, order)
    ensures forall i :: 0 <= i < |order| ==> PrevIn(nodes, addr, order[|order| - 1], order[i]) == None
  {
    forall i | 0 <= i < |order|
      ensures PrevIn(nodes, addr, order[|order| - 1], order[i]) == None
    {
      PrevAlongOrder(nodes, addr, order, i);
    }
  }

  /** The corrected `prev` steps one position back from every node but
      `start`, when the nodes after `start` lie above it. */
  lemma PrevFromStartAlongOrder<T>(nodes: seq<Node<T>>, addr: seq<int>, order: seq<nat>, i: nat)
    requires Linked(nodes, order) && |addr| == |nodes| && StartIsLowest(addr, order) && i < |order|
    ensures PrevFromStart(nodes, addr, order[0], order[i]) == if 0 < i then Some(order[i - 1]) else None
  {
    if 0 < i {
      assert nodes[order[i]].prev == Some(order[i - 1]);
    }
  }

  /** The list `push_back(1), push_back(2), push_back(3)` of the source's
      `test_next`, with addresses growing in allocation order: as written,
      `prev` of the middle node is `None`, while the corrected `prev` gives the
      first node. */
  lemma PrevOfMiddleNode()
    ensures var nodes := [Node(Some(1), None, 1), Node(Some(2), Some(0), 2), Node(None, Some(1), 3)];
            var addr := [10, 20, 30];
            && Linked(nodes, [0, 1, 2])
            && PrevIn(nodes, addr, 2, 1) == None
            && PrevFromStart(nodes, addr, 0, 1) == Some(0)
  {
    var nodes := [Node(Some(1), None, 1), Node(Some(2), Some(0), 2), Node(None, Some(1), 3)];
    assert Linked(nodes, [0, 1, 2]);
  }

  /** With every node below `end`, walking `k` steps of `next` from `begin`
      reaches the `k`-th node. */
  lemma {:induction false} WalkFollowsOrder<T>(next: nat -> Option<nat>, nodes: seq<Node<T>>, addr: seq<int>, order: seq<nat>, k: nat)
    requires Linked(nodes, order) && |addr| == |nodes| && k < |order|
    requires EndIsHighest(addr, order)
    requires forall p :: next(p) == NextIn(nodes, addr, order[|order| - 1], p)
    ensures Walk(next, order[0], k) == Some(order[k])
  {
    if k > 0 {
      WalkFollowsOrder(next, nodes, addr, order, k - 1);
      NextAlongOrder(nodes, addr, order, k - 1);
    }
  }

  /** Whatever the addresses, `k` steps of `next` from `begin` either reach
      the `k`-th node or have already returned `None`. */
  lemma {:induction false} WalkOnOrderOrNone<T>(next: nat -> Option<nat>, nodes: seq<Node<T>>, addr: seq<int>, order: seq<nat>, k: nat)
    requires Linked(nodes, order) && |addr| == |nodes| && k < |order|
    requires forall p :: next(p) == NextIn(nodes, addr, order[|order| - 1], p)
    ensures Walk(next, order[0], k) == Some(order[k]) || Walk(next, order[0], k) == None
  {
    if k > 0 {
      WalkOnOrderOrNone(next, nodes, addr, order, k - 1);
      NextAlongOrder(nodes, addr, order, k - 1);
    }
  }

  /** With every node below `end`, `end` is reached from `begin` in exactly
      `len - 1` steps and never before, and one more step leaves the list:
      `distance(begin, end)` is the number of nodes minus one. */
  lemma BeginToEnd<T>(next: nat -> Option<nat>, nodes: seq<Node<T>>, addr: seq<int>, order: seq<nat>)
    requires Linked(nodes, order) && |addr| == |nodes| && order != []
    requires EndIsHighest(addr, order)
    requires forall p :: next(p) == NextIn(nodes, addr, order[|order| - 1], p)
    ensures LeastSteps(next, order[0], order[|order| - 1], |order| - 1)
    ensures Walk(next, order[0], |order|) == None
  {
    var last := order[|order| - 1];
    WalkFollowsOrder(next, nodes, addr, order, |order| - 1);
    forall k | 0 <= k < |order| - 1
      ensures Walk(next, order[0], k) != Some(last)
    {
      WalkFollowsOrder(next, nodes, addr, order, k);
    }
  }

  /** The converse: when some node before `end` lies at or above `end`'s
      address (as in a `push_front` list whose addresses grow with
      allocation), no number of `next` steps from `begin` reaches `end`, so
      `distance(begin, end)` panics on its `unwrap`. */
  lemma BeginNeverReachesEnd<T>(next: nat -> Option<nat>, nodes: seq<Node<T>>, addr: seq<int>, order: seq<nat>, i: nat)
    requires Linked(nodes, order) && |addr| == |nodes| && i < |order| - 1
    requires addr[order[i]] >= addr[order[|order| - 1]]
    requires forall p :: next(p) == NextIn(nodes, addr, order[|order| - 1], p)
    ensures forall k: nat :: Walk(next, order[0], k) != Some(order[|order| - 1])
  {
    var last := order[|order| - 1];
    WalkOnOrderOrNone(next, nodes, addr, order, i);
    NextAlongOrder(nodes, addr, order, i);
    assert Walk(next, order[0], i + 1) == None;
    forall k: nat ensures Walk(next, order[0], k) != Some(last) {
      if k <= i {
        WalkOnOrderOrNone(next, nodes, addr, order, k);
      } else {
        WalkStaysNone(next, order[0], i + 1, k);
      }
    }
  }
  class LinkedList2<T> {
    var nodes: seq<Node<T>>
    /** The address the allocator gave each node, by handle. */
    var addrs: seq<int>
    var start: Option<nat>
    var end: Option<nat>
    /** The handles from `start` to `end`. */
    ghost var Order: seq<nat>

    ghost predicate Valid()
      reads this
    {
      Linked(nodes, Order) && |addrs| == |nodes| && start == First(Order) && end == Last(Order)
    }

    /** The payloads from `start` to `end`. */
    ghost function Elements(): seq<T>
      reads this
      requires Valid()
    {
      ElementsOf(nodes, Order)
    }

    /** `LinkedList2::new`: `start` and `end` both `None`. */
    constructor ()
      ensures Valid() && Elements() == []
      ensures start == None && end == None
    {
      nodes, addrs := [], [];
      start, end := None, None;
      Order := [];
    }

    /** `Node2::inner`: the payload of node `h`, the list's element at the
        position of `h`. */
    function Inner(h: nat): (r: T)
      reads this
      requires Valid() && h < |nodes|
      ensures forall i :: 0 <= i < |Order| && Order[i] == h ==> r == Elements()[i]
    {
      nodes[h].element
    }

    /** `begin`: the first node, `None` for an empty list. */
    function Begin(): (r: Option<nat>)
      reads this
      requires Valid()
      ensures r.None? <==> Elements() == []
      ensures r.Some? ==> r.value < |nodes| && nodes[r.value].element == Elements()[0]
    {
      start
    }

    /** `end`: the last node, `None` for an empty list. */
    function End(): (r: Option<nat>)
      reads this
      requires Valid()
      ensures r.None? <==> Elements() == []
      ensures r.Some? ==> r.value < |nodes| && nodes[r.value].element == Elements()[|Elements()| - 1]
    {
      end
    }

    /** `next(ptr)`: the following node for a node below `end`'s address,
        `None` at `end` and at or above its address.  (The source unwraps
        `end`, so the list is not empty.) */
    function Next(ptr: nat): (r: Option<nat>)
      reads this
      requires Valid() && ptr < |nodes|
      ensures forall i :: 0 <= i < |Order| && Order[i] == ptr ==>
                r == if i + 1 < |Order| && addrs[ptr] < addrs[end.value] then Some(Order[i + 1]) else None
    {
      assert |Order| > 0;
      var r := NextIn(nodes, addrs, end.value, ptr);
      assert forall i :: 0 <= i < |Order| && Order[i] == ptr ==>
        r == if i + 1 < |Order| && addrs[ptr] < addrs[end.value] then Some(Order[i + 1]) else None
      by {
        forall i | 0 <= i < |Order| && Order[i] == ptr {
          NextAlongOrder(nodes, addrs, Order, i);
        }
      }
      r
    }

    /** `prev(ptr)` as written: the preceding node only for a node other than
        `start` lying above `end`'s address, so `None` on every node of a
        list whose `end` is at its highest address. */
    function Prev(ptr: nat): (r: Option<nat>)
      reads this
      requires Valid() && ptr < |nodes|
      ensures forall i :: 0 <= i < |Order| && Order[i] == ptr ==>
                r == if 0 < i && addrs[ptr] > addrs[end.value] then Some(Order[i - 1]) else None
      ensures EndIsHighest(addrs, Order) && ptr in Order ==> r == None
    {
      assert |Order| > 0;
      var r := PrevIn(nodes, addrs, end.value, ptr);
      assert forall i :: 0 <= i < |Order| && Order[i] == ptr ==>
        r == if 0 < i && addrs[ptr] > addrs[end.value] then Some(Order[i - 1]) else None
      by {
        forall i | 0 <= i < |Order| && Order[i] == ptr {
          PrevAlongOrder(nodes, addrs, Order, i);
        }
      }
      r
    }

    /** `distance(begin, end)` through the default `PtrBased::distance` loop:
        one less than the number of nodes.  The loop's `unwrap` succeeds
        exactly when every node before `end` lies below it
        (`BeginToEnd`, `BeginNeverReachesEnd`). */
    method BeginToEndDistance() returns (count: nat)
      requires Valid() && start.Some? && EndIsHighest(addrs, Order)
      ensures count == |Elements()| - 1
    {
      var e := end.value;
      var ns, ad := nodes, addrs;
      var next := (p: nat) => NextIn(ns, ad, e, p);
      BeginToEnd(next, ns, ad, Order);
      count := Distance(next, start.value, e, |Order| - 1);
      LeastStepsUnique(next, Order[0], e, count, |Order| - 1);
    }

    /** `push_back`: the new node, at the address `address` the allocator
        gave it, follows `end` in both directions and becomes `end`; on an
        empty list it is also `start`. */
    method PushBack(data: T, address: int)
      requires Valid()
      modifies this
      ensures Valid()
      ensures nodes == PushedBack(old(nodes), old(end), data)
      ensures addrs == old(addrs) + [address]
      ensures Order == old(Order) + [|old(nodes)|]
      ensures Elements() == old(Elements()) + [data]
      ensures end == Some(|old(nodes)|)
      ensures start == if old(start).None? then end else old(start)
      ensures forall k :: 0 <= k < |old(nodes)| ==> nodes[k].element == old(nodes[k].element)
    {
      PushBackLinks(nodes, Order, data);
      var node := |nodes|;
      nodes := PushedBack(nodes, end, data);
      addrs := addrs + [address];
      if end.None? {
        start := Some(node);
      }
      end := Some(node);
      Order := Order + [node];
    }

    /** `push_front`: the new node, at the address `address` the allocator
        gave it, precedes `start` in both directions and becomes `start`; on
        an empty list it is also `end`. */
    method PushFront(data: T, address: int)
      requires Valid()
      modifies this
      ensures Valid()
      ensures nodes == PushedFront(old(nodes), old(start), data)
      ensures addrs == old(addrs) + [address]
      ensures Order == [|old(nodes)|] + old(Order)
      ensures Elements() == [data] + old(Elements())
      ensures start == Some(|old(nodes)|)
      ensures end == if old(end).None? then start else old(end)
      ensures forall k :: 0 <= k < |old(nodes)| ==> nodes[k].element == old(nodes[k].element)
    {
      PushFrontLinks(nodes, Order, data);
      var node := |nodes|;
      nodes := PushedFront(nodes, start, data);
      addrs := addrs + [address];
      if start.None? {
        end := Some(node);
      }
      start := Some(node);
      Order := [node] + Order;
    }
  }

  /** The list tests: after `push_back` of 1, 2, 3 at addresses that put the
      third node highest (which `test_next` relies on), `begin` holds 1,
      `end` holds 3, walking `next` from `begin` visits 2 and then 3, and
      `prev` of the middle node is `None`. */
  method PushThreeAndWalk(a1: int, a2: int, a3: int) returns (first: int, last: int, second: int, third: int, back: Option<nat>)
    requires a1 < a3 && a2 < a3
    ensures first == 1 && last == 3 && second == 2 && third == 3 && back == None
  {
    var list := new LinkedList2<int>();
    list.PushBack(1, a1);
    list.PushBack(2, a2);
    list.PushBack(3, a3);
    assert list.Order == [0, 1, 2] && list.Elements() == [1, 2, 3];
    var b := list.Begin();
    var e := list.End();
    first := list.Inner(b.value);
    last := list.Inner(e.value);
    var n := list.Next(b.value);
    second := list.Inner(n.value);
    back := list.Prev(n.value);
    n := list.Next(n.value);
    third := list.Inner(n.value);
  }

  /** `push_front` of 1 and then 2, with the second node allocated at an
      address no lower than the first: `next(begin)` is `None`, so a walk
      from `begin` never reaches `end`. */
  method PushFrontThenNext(a1: int, a2: int) returns (n: Option<nat>)
    requires a1 <= a2
    ensures n == None
  {
    var list := new LinkedList2<int>();
    list.PushFront(1, a1);
    list.PushFront(2, a2);
    assert list.Order == [1, 0];
    var b := list.Begin();
    n := list.Next(b.value);
  }
}
