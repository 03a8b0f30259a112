/** The intrusive circular doubly linked list of cutils. A list is a head node that is in its own
    ring; `ring` names the nodes from the head on, so the items are `ring[1..]`. */
module List {

  class ListNode {
    var next: ListNode?
    var prev: ListNode?
  }

  function Succ(i: nat, n: nat): nat { if i + 1 == n then 0 else i + 1 }

  ghost predicate Distinct(ring: seq<ListNode>) {
    forall i, j :: 0 <= i < j < |ring| ==> ring[i] != ring[j]
  }

  /** Following `next` walks the ring once round, and `prev` undoes each step. */
  ghost predicate Ring(ring: seq<ListNode>)
    reads ring
  {
    && ring != [] && Distinct(ring)
    && (forall i :: 0 <= i < |ring| ==> ring[i].next == ring[Succ(i, |ring|)])
    && (forall i :: 0 <= i < |ring| ==> ring[Succ(i, |ring|)].prev == ring[i])
  }

  /** The items that stay when those in `doomed` are removed. */
  function Kept<T(==)>(s: seq<T>, doomed: set<T>): (r: seq<T>)
    ensures forall i :: 0 <= i < |r| ==> r[i] in s && r[i] !in doomed
    ensures forall i :: 0 <= i < |s| && s[i] !in doomed ==> s[i] in r
  {
    if s == [] then []
    else
      var last := s[|s| - 1];
      Kept(s[..|s| - 1], doomed) + (if last in doomed then [] else [last])
  }

  /** Neighbours undo each other: the well-formedness a caller sees at one node. */
  lemma Neighbours(ring: seq<ListNode>, k: nat)
    requires Ring(ring) && k < |ring|
    ensures var node := ring[k];
            && node.next != null && node.next in ring && node.next.prev == node
            && node.prev != null && node.prev in ring && node.prev.next == node
  {
    if k == 0 {
      assert Succ(|ring| - 1, |ring|) == 0;
    } else {
      assert Succ(k - 1, |ring|) == k;
    }
  }

  method ListInit(node: ListNode)
    modifies node
    ensures Ring([node])
  {
    node.next := node;
    node.prev := node;
  }

  method ListAddTail(head: ListNode, item: ListNode, ghost ring: seq<ListNode>)
    requires Ring(ring) && ring[0] == head && item !in ring
    modifies item, head, head.prev
    ensures Ring(ring + [item])
  {
    ghost var n := |ring|;
    assert Succ(n - 1, n) == 0;
    assert head.prev == ring[n - 1];
    item.next := head;
    item.prev := head.prev;
    head.prev.next := item;
    head.prev := item;
  }

  method ListAddHead(head: ListNode, item: ListNode, ghost ring: seq<ListNode>)
    requires Ring(ring) && ring[0] == head && item !in ring
    modifies item, head, head.next
    ensures Ring([head, item] + ring[1..])
  {
    ghost var n := |ring|;
    ghost var all := [head, item] + ring[1..];
    assert head.next == ring[Succ(0, n)];
    item.next := head.next;
    item.prev := head;
    head.next.prev := item;
    head.next := item;
  }

  /** The removed node keeps its own links, which list_for_each_safe does not rely on. */
  method ListRemove(item: ListNode, ghost ring: seq<ListNode>, ghost k: nat)
    requires Ring(ring) && 0 < k < |ring| && ring[k] == item
    requires item.next != null && item.prev != null
    modifies item.next, item.prev
    ensures Ring(ring[..k] + ring[k + 1..])
    ensures item.next == old(item.next) && item.prev == old(item.prev)
  {
    ghost var n := |ring|;
    assert item.next == ring[Succ(k, n)];
    assert Succ(k - 1, n) == k;
    assert item.prev == ring[k - 1];
    item.next.prev := item.prev;
    item.prev.next := item.next;
    ghost var rest := ring[..k] + ring[k + 1..];
    forall i | 0 <= i < |rest|
      ensures rest[i].next == rest[Succ(i, |rest|)] && rest[Succ(i, |rest|)].prev == rest[i]
    {
      var j := if i < k then i else i + 1;
      assert rest[i] == ring[j] && old(ring[j].next) == ring[Succ(j, n)];
      assert i != k - 1 ==> rest[Succ(i, |rest|)] == ring[Succ(j, n)];
      assert i == k - 1 ==> rest[Succ(i, |rest|)] == ring[Succ(k, n)];
    }
  }

  /** list_for_each visits the items in order. */
  method ListForEach(list: ListNode, ghost ring: seq<ListNode>) returns (visited: seq<ListNode>)
    requires Ring(ring) && ring[0] == list
    ensures visited == ring[1..]
  {
    visited := [];
    ghost var i := Succ(0, |ring|);
    var node := list.next;
    while node != list
      invariant 0 <= i < |ring| && node == ring[i]
      invariant visited == if i == 0 then ring[1..] else ring[1..i]
      decreases if i == 0 then 0 else |ring| - i
    {
      visited := visited + [node];
      i := Succ(i, |ring|);
      node := node.next;
    }
  }

  /** list_for_each_reverse visits them backwards. */
  method ListForEachReverse(list: ListNode, ghost ring: seq<ListNode>) returns (visited: seq<ListNode>)
    requires Ring(ring) && ring[0] == list
    ensures |visited| == |ring| - 1
    ensures forall k :: 0 <= k < |visited| ==> visited[k] == ring[|ring| - 1 - k]
  {
    visited := [];
    ghost var i := |ring| - 1;
    assert Succ(i, |ring|) == 0;
    var node := list.prev;
    while node != list
      invariant 0 <= i < |ring| && node == ring[i]
      invariant |visited| == |ring| - 1 - i
      invariant forall k :: 0 <= k < |visited| ==> visited[k] == ring[|ring| - 1 - k]
      decreases i
    {
      visited := visited + [node];
      i := i - 1;
      assert Succ(i, |ring|) == i + 1;
      node := node.prev;
    }
  }

  /** The ring while item i is visited: those kept so far, then those not yet visited. */
  ghost function Remaining(list: ListNode, items: seq<ListNode>, doomed: set<ListNode>, i: nat): (cur: seq<ListNode>)
    requires i <= |items|
  {
    [list] + Kept(items[..i], doomed) + items[i..]
  }

  lemma RemainingStep(list: ListNode, items: seq<ListNode>, doomed: set<ListNode>, i: nat)
    requires i < |items|
    ensures var cur, k := Remaining(list, items, doomed, i), 1 + |Kept(items[..i], doomed)|;
            && k < |cur| && cur[k] == items[i]
            && cur[Succ(k, |cur|)] == (if i + 1 < |items| then items[i + 1] else list)
            && Remaining(list, items, doomed, i + 1) == if items[i] in doomed then cur[..k] + cur[k + 1..] else cur
  {
    assert items[..i + 1][..i] == items[..i];
    var kept := Kept(items[..i], doomed);
    assert items[i..] == [items[i]] + items[i + 1..];
    var cur := Remaining(list, items, doomed, i);
    assert cur[..1 + |kept|] == [list] + kept;
    assert cur[2 + |kept|..] == items[i + 1..];
  }

  lemma RemainingInRing(list: ListNode, items: seq<ListNode>, doomed: set<ListNode>, i: nat, j: nat)
    requires i <= |items| && j < |Remaining(list, items, doomed, i)|
    ensures Remaining(list, items, doomed, i)[j] in [list] + items
  {
  }

  /** The node about to be visited, or the head at the end, and its links. */
  lemma CurrentNode(list: ListNode, items: seq<ListNode>, doomed: set<ListNode>, i: nat)
    requires i <= |items| && Ring(Remaining(list, items, doomed, i))
    ensures var node := if i < |items| then items[i] else list;
            && node.next != null
            && (i < |items| ==> node.next == if i + 1 < |items| then items[i + 1] else list)
  {
    var cur := Remaining(list, items, doomed, i);
    if i < |items| {
      RemainingStep(list, items, doomed, i);
      Neighbours(cur, 1 + |Kept(items[..i], doomed)|);
    } else {
      Neighbours(cur, 0);
    }
  }

  /** The body of a safe iteration: remove the current item or leave it. */
  method RemoveIfDoomed(node: ListNode, doomed: set<ListNode>, ghost cur: seq<ListNode>, ghost k: nat)
    requires Ring(cur) && 0 < k < |cur| && cur[k] == node
    modifies cur
    ensures Ring(if node in doomed then cur[..k] + cur[k + 1..] else cur)
  {
    Neighbours(cur, k);
    if node in doomed {
      ListRemove(node, cur, k);
    }
  }

  lemma TakeOneMore(items: seq<ListNode>, i: nat)
    requires i < |items|
    ensures items[..i] + [items[i]] == items[..i + 1]
  {
  }

  lemma RemainingAtEnd(list: ListNode, items: seq<ListNode>, doomed: set<ListNode>)
    ensures items[..|items|] == items
    ensures Remaining(list, items, doomed, |items|) == [list] + Kept(items, doomed)
    ensures Remaining(list, items, doomed, 0) == [list] + items
  {
    assert items[..|items|] == items;
  }

  /** One turn of list_for_each_safe: the body, then the step to the node saved before it. */
  method SafeTurn(list: ListNode, doomed: set<ListNode>, node: ListNode, n: ListNode,
                  ghost items: seq<ListNode>, ghost i: nat)
    returns (node': ListNode, n': ListNode)
    requires i < |items| && Ring(Remaining(list, items, doomed, i))
    requires node == items[i] && n == node.next
    modifies [list] + items
    ensures Ring(Remaining(list, items, doomed, i + 1))
    ensures node' == (if i + 1 < |items| then items[i + 1] else list) && n' == node'.next
  {
    ghost var cur, k := Remaining(list, items, doomed, i), 1 + |Kept(items[..i], doomed)|;
    RemainingStep(list, items, doomed, i);
    CurrentNode(list, items, doomed, i);
    forall j | 0 <= j < |cur|
      ensures cur[j] in [list] + items
    {
      RemainingInRing(list, items, doomed, i, j);
    }
    RemoveIfDoomed(node, doomed, cur, k);
    node' := n;
    CurrentNode(list, items, doomed, i + 1);
    n' := node'.next;
  }

  /** list_for_each_safe visits every item exactly once, in order, although its body removes the
      current item whenever that is in `doomed`. */
  method ListForEachSafe(list: ListNode, doomed: set<ListNode>, ghost ring: seq<ListNode>)
    returns (visited: seq<ListNode>)
    requires Ring(ring) && ring[0] == list
    modifies ring
    ensures visited == ring[1..]
    ensures Ring([list] + Kept(ring[1..], doomed))
  {
    visited := [];
    ghost var items := ring[1..];
    assert ring == [list] + items;
    RemainingAtEnd(list, items, doomed);
    assert list !in items;
    ghost var i := 0;
    Neighbours(ring, 0);
    var node: ListNode := list.next;
    CurrentNode(list, items, doomed, 0);
    var n: ListNode := node.next;
    while node != list
      invariant i <= |items| && visited == items[..i]
      invariant Ring(Remaining(list, items, doomed, i))
      invariant node == (if i < |items| then items[i] else list) && n == node.next
      decreases |items| - i
    {
      TakeOneMore(items, i);
      visited := visited + [node];
      node, n := SafeTurn(list, doomed, node, n, items, i);
      i := i + 1;
    }
    RemainingAtEnd(list, items, doomed);
  }

  // ----- Any sequence of operations

  datatype Op =
    | AddHead(item: ListNode)
    | AddTail(item: ListNode)
    | Remove(item: ListNode)

  /** Where an item is, or the length when it is not there. */
  function Position(items: seq<ListNode>, x: ListNode): (p: nat)
    ensures p <= |items|
    ensures if x in items then p < |items| && items[p] == x else p == |items|
  {
    if items == [] || items[0] == x then 0 else 1 + Position(items[1..], x)
  }

  /** An operation on the items as a sequence. */
  function Applied(items: seq<ListNode>, op: Op): seq<ListNode> {
    match op
    case AddHead(item) => [item] + items
    case AddTail(item) => items + [item]
    case Remove(item) =>
      var p := Position(items, item);
      if p < |items| then items[..p] + items[p + 1..] else items
  }

  function AppliedAll(items: seq<ListNode>, ops: seq<Op>): seq<ListNode>
    decreases |ops|
  {
    if ops == [] then items else AppliedAll(Applied(items, ops[0]), ops[1..])
  }

  /** Only a node outside the list may be added, and only one of its items removed. */
  ghost predicate Legal(head: ListNode, items: seq<ListNode>, op: Op) {
    if op.Remove? then op.item in items else op.item != head && op.item !in items
  }

  ghost predicate AllLegal(head: ListNode, items: seq<ListNode>, ops: seq<Op>)
    decreases |ops|
  {
    ops == [] || (Legal(head, items, ops[0]) && AllLegal(head, Applied(items, ops[0]), ops[1..]))
  }

  /** The nodes that the operations may touch. */
  ghost function Footprint(head: ListNode, items: seq<ListNode>, ops: seq<Op>): (nodes: set<ListNode>)
    ensures head in nodes && (forall x :: x in items ==> x in nodes)
    ensures forall i :: 0 <= i < |ops| ==> ops[i].item in nodes
  {
    {head} + (set x | x in items) + (set i | 0 <= i < |ops| :: ops[i].item)
  }

  lemma HeadAndRest(head: ListNode, items: seq<ListNode>, k: nat)
    requires k < |items|
    ensures var ring := [head] + items;
            ring[k + 1] == items[k] && ring[..k + 1] + ring[k + 2..] == [head] + (items[..k] + items[k + 1..])
  {
  }

  method RemoveItem(head: ListNode, item: ListNode, ghost items: seq<ListNode>)
    requires Ring([head] + items) && item in items
    modifies [head] + items
    ensures Ring([head] + Applied(items, Remove(item)))
  {
    ghost var k := Position(items, item);
    HeadAndRest(head, items, k);
    Neighbours([head] + items, k + 1);
    ListRemove(item, [head] + items, k + 1);
  }

  method AddItem(head: ListNode, op: Op, ghost items: seq<ListNode>)
    requires Ring([head] + items) && Legal(head, items, op) && !op.Remove?
    modifies [head] + items, op.item
    ensures Ring([head] + Applied(items, op))
  {
    ghost var ring := [head] + items;
    Neighbours(ring, 0);
    if op.AddHead? {
      assert [head, op.item] + ring[1..] == [head] + Applied(items, op);
      ListAddHead(head, op.item, ring);
    } else {
      assert ring + [op.item] == [head] + Applied(items, op);
      ListAddTail(head, op.item, ring);
    }
  }

  method Apply(head: ListNode, op: Op, ghost items: seq<ListNode>)
    requires Ring([head] + items) && Legal(head, items, op)
    modifies [head] + items, op.item
    ensures Ring([head] + Applied(items, op))
  {
    if op.Remove? {
      RemoveItem(head, op.item, items);
    } else {
      AddItem(head, op, items);
    }
  }

  /** After any legal sequence of operations, the ring is the one that the same operations on a sequence
      give: next and prev stay inverse, and the items are in that order. */
  method ApplyAll(head: ListNode, ops: seq<Op>, ghost items: seq<ListNode>)
    requires Ring([head] + items) && AllLegal(head, items, ops)
    modifies Footprint(head, items, ops)
    ensures Ring([head] + AppliedAll(items, ops))
  {
    ghost var cur := items;
    ghost var nodes := Footprint(head, items, ops);
    for i := 0 to |ops|
      invariant Ring([head] + cur) && AllLegal(head, cur, ops[i..])
      invariant AppliedAll(cur, ops[i..]) == AppliedAll(items, ops)
      invariant forall x :: x in cur ==> x in nodes
    {
      assert ops[i..][1..] == ops[i + 1..];
      Apply(head, ops[i], cur);
      cur := Applied(cur, ops[i]);
    }
  }
}
