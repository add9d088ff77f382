/// The intrusive doubly linked list `LinkedList<T>` of src/linkedlist.rs
/// (copied verbatim in src/all.rs).  Each node is allocated on its own and
/// never moves; here the nodes live in an arena `nodes` and a node's address
/// is its index there (its handle), so `next`/`prev` links are handles.
/// Pushing appends to the arena and rewires links; nothing is ever removed.
module LinkedLists {
  import opened Common

  /** `Node<T>`: links to the neighbours and the element, stored inline. */
  datatype Node<T> = Node(next: Option<nat>, prev: Option<nat>, element: T)

  /** `Node::new`: an unlinked node. */
  function NewNode<T>(element: T): (n: Node<T>)
    ensures n.next == None && n.prev == None && n.element == element
  {
    Node(None, None, element)
  }

  function First(order: seq<nat>): Option<nat>
  {
    if order == [] then None else Some(order[0])
  }

  function Last(order: seq<nat>): Option<nat>
  {
    if order == [] then None else Some(order[|order| - 1])
  }

  /** `order` lists the handles of the arena head to tail, the head and tail
      handles occur once each, and every node's `next` and `prev` point at its
      neighbours in that order (`None` past either end). */
  ghost predicate Linked<T>(nodes: seq<Node<T>>, order: seq<nat>)
  {
    && |order| == |nodes|
    && (forall i :: 0 <= i < |order| ==> order[i] < |nodes|)
    && (forall i :: 0 < i < |order| ==> order[i] != order[0])
    && (forall i :: 0 <= i < |order| - 1 ==> order[i] != order[|order| - 1])
    && (forall i {:trigger nodes[order[i]]} :: 0 <= i < |order| - 1 ==> nodes[order[i]].next == Some(order[i + 1]))
    && (forall i {:trigger nodes[order[i]]} :: 0 < i < |order| ==> nodes[order[i]].prev == Some(order[i - 1]))
    && (order != [] ==> nodes[order[0]].prev == None && nodes[order[|order| - 1]].next == None)
  }

  /** The elements in list order. */
  function ElementsOf<T>(nodes: seq<Node<T>>, order: seq<nat>): (r: seq<T>)
    requires forall i :: 0 <= i < |order| ==> order[i] < |nodes|
    ensures |r| == |order|
  {
    seq(|order|, i requires 0 <= i < |order| => nodes[order[i]].element)
  }

  /** The arena after `push_back`: a new node at handle `|nodes|` whose `prev`
      is the old tail, and the old tail's `next` pointing at it. */
  function PushedBack<T>(nodes: seq<Node<T>>, tail: Option<nat>, element: T): seq<Node<T>>
    requires tail.Some? ==> tail.value < |nodes|
  {
    var grown := nodes + [Node(None, tail, element)];
    match tail
    case None => grown
    case Some(t) => grown[t := grown[t].(next := Some(|nodes|))]
  }

  /** The arena after `push_front`: a new node at handle `|nodes|` whose `next`
      is the old head, and the old head's `prev` pointing at it. */
  function PushedFront<T>(nodes: seq<Node<T>>, head: Option<nat>, element: T): seq<Node<T>>
    requires head.Some? ==> head.value < |nodes|
  {
    var grown := nodes + [Node(head, None, element)];
    match head
    case None => grown
    case Some(h) => grown[h := grown[h].(prev := Some(|nodes|))]
  }

  /** `push_back` keeps the list well linked with the new handle last, adds
      the element at the end, and leaves every existing node's element and
      `prev` link alone (nodes never move). */
  lemma PushBackLinks<T>(nodes: seq<Node<T>>, order: seq<nat>, element: T)
    requires Linked(nodes, order)
    ensures Last(order).Some? ==> Last(order).value < |nodes|
    ensures var nodes' := PushedBack(nodes, Last(order), element);
            && Linked(nodes', order + [|nodes|])
            && ElementsOf(nodes', order + [|nodes|]) == ElementsOf(nodes, order) + [element]
            && |nodes'| == |nodes| + 1
            && forall k :: 0 <= k < |nodes| ==> nodes'[k].element == nodes[k].element && nodes'[k].prev == nodes[k].prev
  {
    var nodes' := PushedBack(nodes, Last(order), element);
    PushedBackAt(nodes, Last(order), element);
    BackLinked(nodes, nodes', order, element);
    ElementsAppend(nodes, nodes', order, element);
  }

  /** The link structure after `push_back`, for any arena that agrees with
      the old one except at the new node and the old tail. */
  lemma BackLinked<T>(nodes: seq<Node<T>>, nodes': seq<Node<T>>, order: seq<nat>, element: T)
    requires Linked(nodes, order)
    requires |nodes'| == |nodes| + 1 && nodes'[|nodes|] == Node(None, Last(order), element)
    requires forall k :: 0 <= k < |nodes| && Some(k) != Last(order) ==> nodes'[k] == nodes[k]
    requires order != [] ==> nodes'[order[|order| - 1]] == nodes[order[|order| - 1]].(next := Some(|nodes|))
    ensures Linked(nodes', order + [|nodes|])
  {
    var n := |nodes|;
    var order' := order + [n];
    forall i | 0 <= i < |order'|
      ensures order'[i] < |nodes'|
      ensures i < |order| ==> order'[i] == order[i]
    {
    }
    forall i | 0 <= i < |order'| - 1
      ensures nodes'[order'[i]].next == Some(order'[i + 1])
    {
      if i + 1 == |order| {
        assert nodes'[order[i]].next == Some(n);
      } else {
        assert order[i] != order[|order| - 1];
        assert nodes'[order[i]] == nodes[order[i]];
      }
    }
    forall i | 0 < i < |order'|
      ensures nodes'[order'[i]].prev == Some(order'[i - 1])
    {
      if i < |order| {
        assert nodes'[order[i]].prev == nodes[order[i]].prev;
      }
    }
    forall i | 0 < i < |order'|
      ensures order'[i] != order'[0]
    {
      if i < |order| {
        assert order[i] != order[0];
      }
    }
    forall i | 0 <= i < |order'| - 1
      ensures order'[i] != order'[|order'| - 1]
    {
    }
  }

  /** Appending a handle whose node holds `element`, in an arena whose old
      nodes keep their elements, appends `element` to the elements. */
  lemma ElementsAppend<T>(nodes: seq<Node<T>>, nodes': seq<Node<T>>, order: seq<nat>, element: T)
    requires forall i :: 0 <= i < |order| ==> order[i] < |nodes|
    requires |nodes'| == |nodes| + 1 && nodes'[|nodes|].element == element
    requires forall k :: 0 <= k < |nodes| ==> nodes'[k].element == nodes[k].element
    ensures ElementsOf(nodes', order + [|nodes|]) == ElementsOf(nodes, order) + [element]
  {
    var order' := order + [|nodes|];
    var l := ElementsOf(nodes', order');
    var r := ElementsOf(nodes, order) + [element];
    forall i | 0 <= i < |l|
      ensures l[i] == r[i]
    {
      if i < |order| {
        assert order'[i] == order[i];
      }
    }
  }

  lemma PushedBackAt<T>(nodes: seq<Node<T>>, tail: Option<nat>, element: T)
    requires tail.Some? ==> tail.value < |nodes|
    ensures var nodes' := PushedBack(nodes, tail, element);
            && |nodes'| == |nodes| + 1
            && nodes'[|nodes|] == Node(None, tail, element)
            && (forall k :: 0 <= k < |nodes| && Some(k) != tail ==> nodes'[k] == nodes[k])
            && (tail.Some? ==> nodes'[tail.value] == nodes[tail.value].(next := Some(|nodes|)))
  {
  }

  /** `push_front` keeps the list well linked with the new handle first, adds
      the element at the front, and leaves every existing node's element and
      `next` link alone. */
  lemma PushFrontLinks<T>(nodes: seq<Node<T>>, order: seq<nat>, element: T)
    requires Linked(nodes, order)
    ensures First(order).Some? ==> First(order).value < |nodes|
    ensures var nodes' := PushedFront(nodes, First(order), element);
            && Linked(nodes', [|nodes|] + order)
            && ElementsOf(nodes', [|nodes|] + order) == [element] + ElementsOf(nodes, order)
            && |nodes'| == |nodes| + 1
            && forall k :: 0 <= k < |nodes| ==> nodes'[k].element == nodes[k].element && nodes'[k].next == nodes[k].next
  {
    var nodes' := PushedFront(nodes, First(order), element);
    PushedFrontAt(nodes, First(order), element);
    FrontLinked(nodes, nodes', order, element);
    ElementsPrepend(nodes, nodes', order, element);
  }

  /** The link structure after `push_front`, for any arena that agrees with
      the old one except at the new node and the old head. */
  lemma FrontLinked<T>(nodes: seq<Node<T>>, nodes': seq<Node<T>>, order: seq<nat>, element: T)
    requires Linked(nodes, order)
    requires |nodes'| == |nodes| + 1 && nodes'[|nodes|] == Node(First(order), None, element)
    requires forall k :: 0 <= k < |nodes| && Some(k) != First(order) ==> nodes'[k] == nodes[k]
    requires order != [] ==> nodes'[order[0]] == nodes[order[0]].(prev := Some(|nodes|))
    ensures Linked(nodes', [|nodes|] + order)
  {
    FrontOrder(nodes, nodes', order, element);
    FrontNexts(nodes, nodes', order, element);
    FrontPrevs(nodes, nodes', order, element);
    var order' := [|nodes|] + order;
    assert nodes'[order'[0]].prev == None;
    if order != [] {
      var t := order[|order| - 1];
      assert order'[|order'| - 1] == t;
      if |order| == 1 {
        assert nodes'[t] == nodes[t].(prev := Some(|nodes|));
      } else {
        assert t != order[0];
        assert nodes'[t] == nodes[t];
      }
    }
  }

  /** After `push_front` the handles are in range and the ends are unique. */
  lemma FrontOrder<T>(nodes: seq<Node<T>>, nodes': seq<Node<T>>, order: seq<nat>, element: T)
    requires Linked(nodes, order)
    requires |nodes'| == |nodes| + 1 && nodes'[|nodes|] == Node(First(order), None, element)
    requires forall k :: 0 <= k < |nodes| && Some(k) != First(order) ==> nodes'[k] == nodes[k]
    requires order != [] ==> nodes'[order[0]] == nodes[order[0]].(prev := Some(|nodes|))
    ensures var order' := [|nodes|] + order;
            && (forall i :: 0 <= i < |order'| ==> order'[i] < |nodes'|)
            && (forall i :: 0 < i < |order'| ==> order'[i] != order'[0])
            && (forall i :: 0 <= i < |order'| - 1 ==> order'[i] != order'[|order'| - 1])
  {
    var order' := [|nodes|] + order;
    forall i | 0 <= i < |order'|
      ensures order'[i] < |nodes'|
    {
      if 0 < i {
        assert order'[i] == order[i - 1];
      }
    }
    forall i | 0 < i < |order'|
      ensures order'[i] != order'[0]
    {
      assert order'[i] == order[i - 1];
    }
    forall i | 0 <= i < |order'| - 1
      ensures order'[i] != order'[|order'| - 1]
    {
      assert order'[|order'| - 1] == order[|order| - 1];
      if 0 < i {
        assert order'[i] == order[i - 1];
      }
    }
  }

  /** After `push_front` each node's `next` is its successor. */
  lemma FrontNexts<T>(nodes: seq<Node<T>>, nodes': seq<Node<T>>, order: seq<nat>, element: T)
    requires Linked(nodes, order)
    requires |nodes'| == |nodes| + 1 && nodes'[|nodes|] == Node(First(order), None, element)
    requires forall k :: 0 <= k < |nodes| && Some(k) != First(order) ==> nodes'[k] == nodes[k]
    requires order != [] ==> nodes'[order[0]] == nodes[order[0]].(prev := Some(|nodes|))
    ensures var order' := [|nodes|] + order;
            forall i {:trigger nodes'[order'[i]]} :: 0 <= i < |order'| - 1 ==> nodes'[order'[i]].next == Some(order'[i + 1])
  {
    var order' := [|nodes|] + order;
    forall i | 0 <= i < |order'| - 1
      ensures nodes'[order'[i]].next == Some(order'[i + 1])
    {
      assert order'[i + 1] == order[i];
      if 0 < i {
        assert order'[i] == order[i - 1];
        assert nodes'[order[i - 1]].next == nodes[order[i - 1]].next;
      }
    }
  }

  /** After `push_front` each node's `prev` is its predecessor. */
  lemma FrontPrevs<T>(nodes: seq<Node<T>>, nodes': seq<Node<T>>, order: seq<nat>, element: T)
    requires Linked(nodes, order)
    requires |nodes'| == |nodes| + 1 && nodes'[|nodes|] == Node(First(order), None, element)
    requires forall k :: 0 <= k < |nodes| && Some(k) != First(order) ==> nodes'[k] == nodes[k]
    requires order != [] ==> nodes'[order[0]] == nodes[order[0]].(prev := Some(|nodes|))
    ensures var order' := [|nodes|] + order;
            forall i {:trigger nodes'[order'[i]]} :: 0 < i < |order'| ==> nodes'[order'[i]].prev == Some(order'[i - 1])
  {
    var order' := [|nodes|] + order;
    forall i | 0 < i < |order'|
      ensures nodes'[order'[i]].prev == Some(order'[i - 1])
    {
      assert order'[i] == order[i - 1];
      if 1 < i {
        assert order'[i - 1] == order[i - 2];
        assert order[i - 1] != order[0];
        assert nodes'[order[i - 1]] == nodes[order[i - 1]];
      }
    }
  }


  lemma PushedFrontAt<T>(nodes: seq<Node<T>>, head: Option<nat>, element: T)
    requires head.Some? ==> head.value < |nodes|
    ensures var nodes' := PushedFront(nodes, head, element);
            && |nodes'| == |nodes| + 1
            && nodes'[|nodes|] == Node(head, None, element)
            && (forall k :: 0 <= k < |nodes| && Some(k) != head ==> nodes'[k] == nodes[k])
            && (head.Some? ==> nodes'[head.value] == nodes[head.value].(prev := Some(|nodes|)))
  {
  }

  /** Prepending a handle whose node holds `element`, in an arena whose old
      nodes keep their elements, prepends `element` to the elements. */
  lemma ElementsPrepend<T>(nodes: seq<Node<T>>, nodes': seq<Node<T>>, order: seq<nat>, element: T)
    requires forall i :: 0 <= i < |order| ==> order[i] < |nodes|
    requires |nodes'| == |nodes| + 1 && nodes'[|nodes|].element == element
    requires forall k :: 0 <= k < |nodes| ==> nodes'[k].element == nodes[k].element
    ensures ElementsOf(nodes', [|nodes|] + order) == [element] + ElementsOf(nodes, order)
  {
    var order' := [|nodes|] + order;
    var l := ElementsOf(nodes', order');
    var r := [element] + ElementsOf(nodes, order);
    forall i | 0 <= i < |l|
      ensures l[i] == r[i]
    {
      if i > 0 {
        assert order'[i] == order[i - 1];
      }
    }
  }

  /** Rewriting one node's element keeps every link. */
  lemma SetElementLinks<T>(nodes: seq<Node<T>>, order: seq<nat>, h: nat, element: T)
    requires Linked(nodes, order) && h < |nodes|
    ensures Linked(nodes[h := nodes[h].(element := element)], order)
  {
    var nodes' := nodes[h := nodes[h].(element := element)];
    forall i | 0 <= i < |order|
      ensures nodes'[order[i]].next == nodes[order[i]].next && nodes'[order[i]].prev == nodes[order[i]].prev
    {
    }
  }

  /** The list object: the arena of boxed nodes, `head`, `tail` and `len`. */
  class LinkedList<T> {
    var nodes: seq<Node<T>>
    var head: Option<nat>
    var tail: Option<nat>
    var len: nat
    /** The handles from head to tail. */
    ghost var Order: seq<nat>

    ghost predicate Valid()
      reads this
    {
      && Linked(nodes, Order)
      && head == First(Order) && tail == Last(Order) && len == |Order|
    }

    /** The elements from head to tail. */
    ghost function Elements(): seq<T>
      reads this
      requires Valid()
    {
      ElementsOf(nodes, Order)
    }

    /** `LinkedList::new()`: no nodes, no head or tail, `len == 0`. */
    constructor ()
      ensures Valid() && nodes == [] && Order == [] && Elements() == []
      ensures head == None && tail == None && len == 0
    {
      nodes := [];
      head, tail, len := None, None, 0;
      Order := [];
    }

    /** `len`: the number of elements. */
    function Len(): (r: nat)
      reads this
      requires Valid()
      ensures r == |Elements()|
    {
      len
    }

    /** `is_empty`. */
    function IsEmpty(): (r: bool)
      reads this
      requires Valid()
      ensures r <==> Elements() == []
    {
      len == 0
    }

    /** `head_ptr`: the handle of the first node. */
    function HeadPtr(): (r: Option<nat>)
      reads this
      requires Valid()
      ensures r.None? <==> Elements() == []
      ensures r.Some? ==> r.value < |nodes| && nodes[r.value].element == Elements()[0] && nodes[r.value].prev == None
    {
      head
    }

    /** `tail_ptr`: the handle of the last node. */
    function TailPtr(): (r: Option<nat>)
      reads this
      requires Valid()
      ensures r.None? <==> Elements() == []
      ensures r.Some? ==> r.value < |nodes| && nodes[r.value].element == Elements()[|Elements()| - 1] && nodes[r.value].next == None
    {
      tail
    }

    /** `mut_head`: the first node itself. */
    function MutHead(): (r: Option<Node<T>>)
      reads this
      requires Valid()
      ensures r.None? <==> Elements() == []
      ensures r.Some? ==> r.value.element == Elements()[0]
    {
      if head.Some? then Some(nodes[head.value]) else None
    }

    /** `mut_tail`: the last node itself. */
    function MutTail(): (r: Option<Node<T>>)
      reads this
      requires Valid()
      ensures r.None? <==> Elements() == []
      ensures r.Some? ==> r.value.element == Elements()[|Elements()| - 1]
    {
      if tail.Some? then Some(nodes[tail.value]) else None
    }

    /** `Node::next_ptr` (and `Node::next`, which follows it) of the node at
        handle `h`: the handle after it in list order, `None` at the tail. */
    function NextPtr(h: nat): (r: Option<nat>)
      reads this
      requires Valid() && h < |nodes|
      ensures forall i :: 0 <= i < |Order| && Order[i] == h ==>
                r == if i + 1 < |Order| then Some(Order[i + 1]) else None
    {
      nodes[h].next
    }

    /** `Node::prev_ptr` (and `Node::prev`): the handle before `h` in list
        order, `None` at the head. */
    function PrevPtr(h: nat): (r: Option<nat>)
      reads this
      requires Valid() && h < |nodes|
      ensures forall i :: 0 <= i < |Order| && Order[i] == h ==>
                r == if 0 < i then Some(Order[i - 1]) else None
    {
      nodes[h].prev
    }

    /** `Node::data` used for reading: the element at handle `h`, which is
        the list's element at the position of `h`. */
    function Data(h: nat): (r: T)
      reads this
      requires Valid() && h < |nodes|
      ensures forall i :: 0 <= i < |Order| && Order[i] == h ==> r == Elements()[i]
    {
      nodes[h].element
    }

    /** `push_front` (with `push_front_node`): box a new node and link it in
        before the head. */
    method PushFront(element: T)
      requires Valid()
      modifies this
      ensures Valid()
      ensures nodes == PushedFront(old(nodes), old(head), element)
      ensures Order == [|old(nodes)|] + old(Order)
      ensures Elements() == [element] + old(Elements())
      ensures head == Some(|old(nodes)|) && len == old(len) + 1
      ensures tail == if old(tail).None? then head else old(tail)
      ensures forall k :: 0 <= k < |old(nodes)| ==> nodes[k].element == old(nodes[k].element)
    {
      PushFrontLinks(nodes, Order, element);
      var node := |nodes|;
      nodes := PushedFront(nodes, head, element);
      if head.None? {
        tail := Some(node);
      }
      head := Some(node);
      len := len + 1;
      Order := [node] + Order;
    }

    /** `push_back` (with `push_back_node`): box a new node and link it in
        after the tail. */
    method PushBack(element: T)
      requires Valid()
      modifies this
      ensures Valid()
      ensures nodes == PushedBack(old(nodes), old(tail), element)
      ensures Order == old(Order) + [|old(nodes)|]
      ensures Elements() == old(Elements()) + [element]
      ensures tail == Some(|old(nodes)|) && len == old(len) + 1
      ensures head == if old(head).None? then tail else old(head)
      ensures forall k :: 0 <= k < |old(nodes)| ==> nodes[k].element == old(nodes[k].element)
    {
      PushBackLinks(nodes, Order, element);
      var node := |nodes|;
      nodes := PushedBack(nodes, tail, element);
      if tail.None? {
        head := Some(node);
      }
      tail := Some(node);
      len := len + 1;
      Order := Order + [node];
    }

    /** `Node::data` used for writing: replace the element stored in node `h`;
        no link changes. */
    method SetData(h: nat, element: T)
      requires Valid() && h < |nodes|
      modifies this
      ensures Valid() && Order == old(Order)
      ensures nodes == old(nodes)[h := old(nodes)[h].(element := element)]
      ensures head == old(head) && tail == old(tail) && len == old(len)
      ensures |Elements()| == |old(Elements())|
      ensures forall i :: 0 <= i < |Order| ==> Elements()[i] == if Order[i] == h then element else old(Elements())[i]
    {
      SetElementLinks(nodes, Order, h, element);
      nodes := nodes[h := nodes[h].(element := element)];
    }

    /** `iter`: start at the head and follow `next`, counting `len` down to 0;
        yields exactly the elements from head to tail. */
    method Iter() returns (xs: seq<T>)
      requires Valid()
      ensures xs == Elements()
    {
      xs := [];
      var next := head;
      var remaining: nat := len;
      while remaining > 0
        invariant Valid() && remaining <= len
        invariant |xs| == len - remaining
        invariant forall k :: 0 <= k < |xs| ==> xs[k] == nodes[Order[k]].element
        invariant next == if remaining > 0 then Some(Order[len - remaining]) else None
      {
        var node := nodes[next.value];
        xs := xs + [node.element];
        next := node.next;
        remaining := remaining - 1;
      }
    }

    /** `iter_mut`: the same walk; yields the handles of the nodes whose
        elements it lends out, in the same order as `iter`. */
    method IterMut() returns (handles: seq<nat>)
      requires Valid()
      ensures handles == Order
      ensures forall i :: 0 <= i < |handles| ==> handles[i] < |nodes| && nodes[handles[i]].element == Elements()[i]
    {
      handles := [];
      var next := head;
      var remaining: nat := len;
      while remaining > 0
        invariant Valid() && remaining <= len
        invariant handles == Order[..len - remaining]
        invariant next == if remaining > 0 then Some(Order[len - remaining]) else None
      {
        var node := nodes[next.value];
        assert Order[..len - remaining + 1] == Order[..len - remaining] + [next.value];
        handles := handles + [next.value];
        next := node.next;
        remaining := remaining - 1;
      }
    }
  }

  /** The list test: `push_back` of `vs`, one by one, then `iter`, yields `vs`. */
  method PushBackThenIter<T>(vs: seq<T>) returns (xs: seq<T>)
    ensures xs == vs
  {
    var list := new LinkedList<T>();
    var i := 0;
    while i < |vs|
      invariant 0 <= i <= |vs|
      invariant list.Valid() && list.Elements() == vs[..i]
    {
      list.PushBack(vs[i]);
      TakeOneMore(vs, i);
      i := i + 1;
    }
    assert vs[..i] == vs;
    xs := list.Iter();
  }
}
