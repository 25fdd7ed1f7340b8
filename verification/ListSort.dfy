// The intrusive circular list of src/infra/infra_list.h and the bubble sort over it in
// src/infra/infra_mem_stats.c.  The sequence of the nodes, the head first, is the list.
module ListSort {

  // A link inside of a module record; `used` is that record's bytes_max_in_use.
  class Node {
    var prev: Node?
    var next: Node?
    const used: int

    constructor (used: int)
      ensures this.used == used && prev == null && next == null
    {
      this.used, prev, next := used, null, null;
    }
  }

  predicate Distinct(r: seq<Node>) {
    forall i, j :: 0 <= i < j < |r| ==> r[i] != r[j]
  }

  function After(r: seq<Node>, i: nat): (a: nat)
    requires i < |r|
    ensures a < |r|
  {
    if i + 1 == |r| then 0 else i + 1
  }

  ghost predicate Linked(r: seq<Node>, i: nat)
    requires i < |r|
    reads r
  {
    r[i].next == r[After(r, i)] && r[After(r, i)].prev == r[i]
  }

  // The nodes of r form a circle in this order.
  ghost predicate Ring(r: seq<Node>)
    reads r
  {
    |r| > 0 && Distinct(r) && forall i :: 0 <= i < |r| ==> Linked(r, i)
  }

  predicate In(r: seq<Node>, nodes: set<Node>) {
    forall i :: 0 <= i < |r| ==> r[i] in nodes
  }

  function Insert(r: seq<Node>, i: nat, node: Node): (q: seq<Node>)
    requires i < |r|
    ensures |q| == |r| + 1
  {
    r[..i + 1] + [node] + r[i + 1..]
  }

  function Remove(r: seq<Node>, i: nat): (q: seq<Node>)
    requires i < |r|
    ensures |q| == |r| - 1
  {
    r[..i] + r[i + 1..]
  }

  // Two neighbours of the longer circle: neighbours of the old one, or the new node and one of its own.
  lemma InsertPair(r: seq<Node>, i: nat, node: Node, k: nat)
    requires Distinct(r) && i < |r| && node !in r && k <= |r|
    ensures var q := Insert(r, i, node);
            && Distinct(q)
            && if k == i then q[k] == r[i] && q[After(q, k)] == node
               else if k == i + 1 then q[k] == node && q[After(q, k)] == r[After(r, i)]
               else
                 var j := if k < i then k else k - 1;
                 q[k] == r[j] != r[i] && q[After(q, k)] == r[After(r, j)] != r[After(r, i)]
  {}

  // dlist_add: the node comes behind the element that is called queue.
  method Add(node: Node, queue: Node, ghost r: seq<Node>, ghost i: nat, ghost nodes: set<Node>)
    requires Ring(r) && i < |r| && queue == r[i] && node !in r && In(r, nodes) && node in nodes
    modifies nodes
    ensures Ring(Insert(r, i, node)) && In(Insert(r, i, node), nodes)
  {
    assert In(Insert(r, i, node), nodes);
    hide Insert, Distinct, After;
    assert Linked(r, i);
    var prev, next := queue, queue.next;
    node.next := next;
    node.prev := prev;
    prev.next := node;
    next.prev := node;
    ghost var q := Insert(r, i, node);
    InsertPair(r, i, node, 0);
    forall k | 0 <= k < |q| ensures Linked(q, k) {
      InsertPair(r, i, node, k);
      if k != i && k != i + 1 {
        var j := if k < i then k else k - 1;
        assert old(Linked(r, j));
      }
    }
  }

  // dlist_init: a circle of its own.
  method Init(node: Node)
    modifies node
    ensures Ring([node])
  {
    node.next := node;
    node.prev := node;
  }

  // dlist_add_tail: the node comes in front of the head, at the end of the list.
  method AddTail(node: Node, queue: Node, ghost r: seq<Node>, ghost nodes: set<Node>)
    requires Ring(r) && queue == r[0] && node !in r && In(r, nodes) && node in nodes
    modifies nodes
    ensures Ring(r + [node])
  {
    ghost var i := |r| - 1;
    assert Linked(r, i) && r[..i + 1] == r && r[i + 1..] == [];
    assert Insert(r, i, node) == r + [node];
    Add(node, queue.prev, r, i, nodes);
  }

  function Before(r: seq<Node>, i: nat): (p: nat)
    requires i < |r|
    ensures p < |r| && After(r, p) == i
  {
    if i == 0 then |r| - 1 else i - 1
  }

  // Two neighbours of the shorter circle: neighbours of the old one, or the two of the node that left.
  lemma RemovePair(r: seq<Node>, i: nat, k: nat)
    requires Distinct(r) && i < |r| && k + 1 < |r|
    ensures var q := Remove(r, i); var j := if k < i then k else k + 1;
            && Distinct(q) && r[i] !in q
            && q[k] == r[j]
            && if j == Before(r, i) then q[After(q, k)] == r[After(r, i)]
               else q[After(q, k)] == r[After(r, j)] != r[After(r, i)] && r[j] != r[Before(r, i)]
  {}

  // dlist_del: the neighbours are linked to each other.
  method Del(node: Node, ghost r: seq<Node>, ghost i: nat, ghost nodes: set<Node>)
    requires Ring(r) && i < |r| && node == r[i] && |r| > 1 && In(r, nodes)
    modifies nodes
    ensures Ring(Remove(r, i)) && node !in Remove(r, i) && In(Remove(r, i), nodes)
  {
    assert In(Remove(r, i), nodes);
    hide Remove, Distinct, Before, After;
    ghost var p := Before(r, i);
    assert Linked(r, p) && Linked(r, i);
    var prev, next := node.prev, node.next;
    prev.next := next;
    next.prev := prev;
    ghost var q := Remove(r, i);
    RemovePair(r, i, 0);
    forall k | 0 <= k < |q| ensures Linked(q, k) {
      RemovePair(r, i, k);
      var j := if k < i then k else k + 1;
      assert old(Linked(r, j));
    }
  }

  // ---------- the sort (src/infra/infra_mem_stats.c:61-115) ----------

  function Swapped(r: seq<Node>, i: nat): seq<Node>
    requires i + 1 < |r|
  {
    r[i := r[i + 1]][i + 1 := r[i]]
  }

  // The six steps of the swap, for a and b in the places i and i + 1 of r.
  lemma SwapSteps(r: seq<Node>, i: nat, temp: Node)
    requires i + 1 < |r|
    ensures var a, b := r[i], r[i + 1];
            var r1 := Insert(r, i + 1, temp);
            var r2 := Remove(r1, i + 1);
            var r3 := Insert(r2, i, b);
            var r4 := Remove(r3, i);
            var r5 := Insert(r4, i + 1, a);
            && r1[i + 1] == b && r2[i] == a && r3[i] == a && r4[i + 1] == temp && r5[i + 1] == temp
            && Remove(r5, i + 1) == Swapped(r, i)
  {
    var a, b := r[i], r[i + 1];
    var front, back := r[..i], r[i + 2..];
    assert r[..i + 2] == front + [a, b];
    assert Insert(r, i + 1, temp) == front + [a, b, temp] + back;
    RemoveMiddle(front, [a], b, [temp], back);
    InsertMiddle(front, [a], b, [temp], back);
    RemoveMiddle(front, [], a, [b, temp], back);
    InsertMiddle(front, [b, temp], a, [], back);
    RemoveMiddle(front, [b], temp, [a], back);
    assert [a] + [b] + [temp] == [a, b, temp] && [a] + [temp] == [a, temp] && [] + [a] + [b, temp] == [a, b, temp];
    assert [b, temp] + [a] + [] == [b, temp, a] && [b] + [temp] + [a] == [b, temp, a];
    assert [] + [b, temp] == [b, temp] + [] == [b, temp] && [b] + [a] == [b, a];
    assert front + [b, a] + back == Swapped(r, i);
  }

  lemma RemoveMiddle(front: seq<Node>, s: seq<Node>, x: Node, t: seq<Node>, back: seq<Node>)
    ensures Remove(front + (s + [x] + t) + back, |front| + |s|) == front + (s + t) + back
  {}

  lemma InsertMiddle(front: seq<Node>, s: seq<Node>, x: Node, t: seq<Node>, back: seq<Node>)
    requires |front| + |s| > 0
    ensures Insert(front + (s + t) + back, |front| + |s| - 1, x) == front + (s + [x] + t) + back
  {}

  // A link of its own keeps the place while the two neighbours change theirs.
  method Swap(a: Node, b: Node, ghost r: seq<Node>, ghost i: nat, ghost nodes: set<Node>)
    requires Ring(r) && i + 1 < |r| && a == r[i] && b == r[i + 1] && In(r, nodes)
    modifies nodes
    ensures Ring(Swapped(r, i)) && In(Swapped(r, i), nodes)
  {
    assert In(Swapped(r, i), nodes);
    var temp := new Node(0);
    ghost var all := nodes + {temp};
    assert In(r, all) && temp !in r;
    hide Ring, Insert, Remove, Swapped, In;
    SwapSteps(r, i, temp);
    Add(temp, b, r, i + 1, all);
    ghost var q := Insert(r, i + 1, temp);
    Del(b, q, i + 1, all);
    q := Remove(q, i + 1);
    Add(b, a, q, i, all);
    q := Insert(q, i, b);
    Del(a, q, i, all);
    q := Remove(q, i);
    Add(a, temp, q, i + 1, all);
    q := Insert(q, i + 1, a);
    Del(temp, q, i + 1, all);
  }

  // true to swap
  predicate UsedLess(a: Node, b: Node) {
    a.used < b.used
  }

  // No node behind place e has more than a node in front of it.
  predicate SortedBehind(r: seq<Node>, e: nat) {
    forall j, k :: 1 <= j < k < |r| && e < k ==> r[j].used >= r[k].used
  }

  // x stands in front of y.
  predicate InFront(r: seq<Node>, x: Node, y: Node) {
    exists i, j :: 0 <= i < j < |r| && r[i] == x && r[j] == y
  }

  // Nodes with the same use keep the order that they have in r0.
  ghost predicate Stable(r0: seq<Node>, r: seq<Node>) {
    forall i, j :: 1 <= i < j < |r| && r[i].used == r[j].used ==> InFront(r0, r[i], r[j])
  }

  lemma SwapKeeps(r0: seq<Node>, r: seq<Node>, s: nat, e: nat)
    requires 1 <= s < e < |r| && SortedBehind(r, e) && Stable(r0, r) && UsedLess(r[s], r[s + 1])
    ensures SortedBehind(Swapped(r, s), e) && Stable(r0, Swapped(r, s))
    ensures multiset(Swapped(r, s)) == multiset(r)
  {
    hide InFront;
    var q := Swapped(r, s);
    forall i, j | 1 <= i < j < |q| && q[i].used == q[j].used ensures InFront(r0, q[i], q[j]) {
      var x := if i == s then s + 1 else if i == s + 1 then s else i;
      var y := if j == s then s + 1 else if j == s + 1 then s else j;
      assert q[i] == r[x] && q[j] == r[y];
    }
  }

  // The node in place s has no more than any node in front of it.
  predicate LeastSoFar(r: seq<Node>, s: nat)
    requires s < |r|
  {
    forall j :: 1 <= j < s ==> r[j].used >= r[s].used
  }

  lemma LeastIsLast(r: seq<Node>, e: nat)
    requires 1 <= e < |r| && SortedBehind(r, e) && LeastSoFar(r, e)
    ensures SortedBehind(r, e - 1)
  {}

  // One turn of a pass: compares the node in place s with the next one, and swaps them if it has less.
  // A swap leaves `start` in its place, and moves `end` back to place e if its node has gone.
  method Turn(start0: Node, end0: Node, ghost r0: seq<Node>, ghost s: nat, ghost e: nat, ghost origin: seq<Node>, ghost nodes: set<Node>)
    returns (start: Node, end: Node, ghost r: seq<Node>)
    requires Ring(r0) && 1 <= s < e < |r0| && start0 == r0[s] && end0 == r0[e] && In(r0, nodes)
    requires SortedBehind(r0, e) && Stable(origin, r0) && LeastSoFar(r0, s)
    modifies nodes
    ensures Ring(r) && |r| == |r0| && r[0] == r0[0] && start == r[s + 1] && end == r[e] && In(r, nodes)
    ensures multiset(r) == multiset(r0) && SortedBehind(r, e) && Stable(origin, r) && LeastSoFar(r, s + 1)
  {
    hide Distinct, SortedBehind, Stable, In;
    start, end, r := start0, end0, r0;
    assert Linked(r, s);
    if UsedLess(start, start.next) {
      SwapKeeps(origin, r, s, e);
      Swap(start, start.next, r, s, nodes);
      r := Swapped(r, s);
      assert Linked(r, s);
      start := start.prev;
      Places(r, s, e);
      Places(r0, s + 1, e);
      if start == end {
        end := end.next;
      }
    }
    assert Linked(r, s);
    start := start.next;
  }

  // The bubble sort: `end` is the place up to which a pass goes, and follows the place when the node in
  // it is swapped away.
  method Sort(head: Node, ghost r0: seq<Node>, ghost nodes: set<Node>) returns (ghost r: seq<Node>)
    requires Ring(r0) && r0[0] == head && In(r0, nodes)
    modifies nodes
    ensures Ring(r) && r[0] == head && multiset(r) == multiset(r0)
    ensures SortedBehind(r, 0) && Stable(r0, r)
  {
    hide Distinct, SortedBehind, Stable, In;
    r := r0;
    ghost var e: nat := |r| - 1;
    StartsSorted(r);
    assert Linked(r, e);
    var end := head.prev;
    while end != head
      invariant |r| == |r0| && e < |r| && end == r[e] && r[0] == head && In(r, nodes)
      invariant Ring(r) && multiset(r) == multiset(r0) && SortedBehind(r, e) && Stable(r0, r)
      decreases e
    {
      r, end := Pass(head, r, e, end, r0, nodes);
      e := e - 1;
    }
    Places(r, e, 0);
  }

  lemma StartsSorted(r: seq<Node>)
    requires |r| > 0
    ensures SortedBehind(r, |r| - 1) && Stable(r, r)
  {}

  lemma Places(r: seq<Node>, s: nat, e: nat)
    requires Distinct(r) && s < |r| && e < |r|
    ensures r[s] == r[e] <==> s == e
  {}

  // One pass over the list, from its first node to the node called last.
  method Pass(head: Node, ghost r0: seq<Node>, ghost e: nat, last: Node, ghost origin: seq<Node>, ghost nodes: set<Node>)
    returns (ghost r: seq<Node>, end: Node)
    requires Ring(r0) && r0[0] == head && 1 <= e < |r0| && last == r0[e] && In(r0, nodes)
    requires SortedBehind(r0, e) && Stable(origin, r0)
    modifies nodes
    ensures Ring(r) && |r| == |r0| && r[0] == head && end == r[e - 1] && In(r, nodes)
    ensures multiset(r) == multiset(r0) && SortedBehind(r, e - 1) && Stable(origin, r)
  {
    hide Distinct, SortedBehind, Stable, In;
    r, end := r0, last;
    assert Linked(r, 0);
    var start := head.next;
    ghost var s: nat := 1;
    while start != head
      invariant |r| == |r0| && 1 <= s <= e && start == r[s] && end == r[e] && r[0] == head && In(r, nodes)
      invariant Ring(r) && multiset(r) == multiset(r0) && SortedBehind(r, e) && Stable(origin, r)
      invariant LeastSoFar(r, s)
      decreases e - s
    {
      if start == end {
        break;
      }
      Places(r, s, e);
      start, end, r := Turn(start, end, r, s, e, origin, nodes);
      s := s + 1;
    }
    Places(r, s, 0);
    Places(r, s, e);
    LeastIsLast(r, e);
    assert Linked(r, e - 1);
    end := end.prev;
  }
}
