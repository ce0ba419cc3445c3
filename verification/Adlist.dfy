/** The doubly linked list of adlist.c. */
module Adlist {
  import opened Hiding
  import opened Sequences

  class Node {
    var prev: Node?
    var next: Node?
    const value: int

    constructor (v: int)
      ensures value == v && prev == null && next == null
    {
      value := v;
      prev, next := null, null;
    }
  }

  ghost function Values(nodes: seq<Node>): seq<int> {
    seq(|nodes|, i requires 0 <= i < |nodes| => nodes[i].value)
  }

  ghost predicate AllDistinct(nodes: seq<Node>) {
    forall u: nat :: Unfold(Links, u) ==> Distinct(nodes)
  }

  ghost function FirstOr(nodes: seq<Node>, n: Node?): Node? {
    if nodes == [] then n else nodes[0]
  }

  ghost function LastOr(nodes: seq<Node>, p: Node?): Node? {
    if nodes == [] then p else nodes[|nodes| - 1]
  }

  ghost predicate Linked(nodes: seq<Node>, i: nat, p: Node?, n: Node?)
    requires i < |nodes|
    reads nodes
  {
    nodes[i].prev == LastOr(nodes[..i], p) && nodes[i].next == FirstOr(nodes[i + 1..], n)
  }

  /** Part of a list: every node points to its neighbours, the ends to `p` and `n`. */
  ghost predicate Seg(nodes: seq<Node>, p: Node?, n: Node?)
    reads nodes
  {
    forall u: nat :: Unfold(Links, u) ==> forall i :: 0 <= i < |nodes| ==> Linked(nodes, i, p, n)
  }

  lemma SegSplit(a: seq<Node>, b: seq<Node>, p: Node?, n: Node?)
    requires Seg(a + b, p, n)
    ensures Seg(a, p, FirstOr(b, n)) && Seg(b, LastOr(a, p), n)
  {
    assert Unfold(Links, 0);
    var c := a + b;
    forall i | 0 <= i < |a|
      ensures Linked(a, i, p, FirstOr(b, n))
    {
      assert Linked(c, i, p, n);
      assert c[..i] == a[..i] && c[i + 1..] == a[i + 1..] + b;
    }
    forall i | 0 <= i < |b|
      ensures Linked(b, i, LastOr(a, p), n)
    {
      assert Linked(c, |a| + i, p, n);
      assert c[..|a| + i] == a + b[..i] && c[|a| + i + 1..] == b[i + 1..];
    }
  }

  lemma SegJoin(a: seq<Node>, b: seq<Node>, p: Node?, n: Node?)
    requires Seg(a, p, FirstOr(b, n)) && Seg(b, LastOr(a, p), n)
    ensures Seg(a + b, p, n)
  {
    assert Unfold(Links, 0);
    var c := a + b;
    forall i | 0 <= i < |c|
      ensures Linked(c, i, p, n)
    {
      if i < |a| {
        assert Linked(a, i, p, FirstOr(b, n));
        assert c[..i] == a[..i] && c[i + 1..] == a[i + 1..] + b;
      } else {
        assert Linked(b, i - |a|, LastOr(a, p), n);
        assert c[..i] == a + b[..i - |a|] && c[i + 1..] == b[i - |a| + 1..];
      }
    }
  }

  lemma SegOne(x: Node, p: Node?, n: Node?)
    requires x.prev == p && x.next == n
    ensures Seg([x], p, n)
  {
  }

  lemma SegAt(nodes: seq<Node>, i: nat, p: Node?, n: Node?)
    requires Seg(nodes, p, n) && i < |nodes|
    ensures Linked(nodes, i, p, n)
  {
    assert Unfold(Links, 0);
  }

  lemma DistinctParts(a: seq<Node>, b: seq<Node>)
    requires AllDistinct(a + b)
    ensures AllDistinct(a) && AllDistinct(b) && forall x :: x in a ==> x !in b
  {
    assert Unfold(Links, 0);
    var c := a + b;
    assert forall i :: 0 <= i < |a| ==> a[i] == c[i];
    assert forall i :: 0 <= i < |b| ==> b[i] == c[|a| + i];
  }

  lemma DistinctJoin(a: seq<Node>, b: seq<Node>)
    requires AllDistinct(a) && AllDistinct(b) && forall x :: x in a ==> x !in b
    ensures AllDistinct(a + b)
  {
    assert Unfold(Links, 0);
    forall i, j | 0 <= i < j < |a + b|
      ensures (a + b)[i] != (a + b)[j]
    {
      assert i < |a| <= j ==> a[i] in a && b[j - |a|] in b;
    }
  }

  lemma DistinctOne(x: Node)
    ensures AllDistinct([x])
  {
  }

  ghost function Prevs(a: seq<Node>): map<Node, Node?>
    reads a
  {
    map x | x in a :: x.prev
  }

  ghost function Nexts(a: seq<Node>): map<Node, Node?>
    reads a
  {
    map x | x in a :: x.next
  }

  /** The pointers of a part, as they were: `prevs` and `nexts`. */
  ghost predicate WasLinked(a: seq<Node>, i: nat, prevs: map<Node, Node?>, nexts: map<Node, Node?>, p: Node?, n: Node?)
    requires i < |a|
  {
    && a[i] in prevs && prevs[a[i]] == LastOr(a[..i], p)
    && a[i] in nexts && nexts[a[i]] == FirstOr(a[i + 1..], n)
  }

  ghost predicate Was(a: seq<Node>, prevs: map<Node, Node?>, nexts: map<Node, Node?>, p: Node?, n: Node?) {
    forall u: nat :: Unfold(Links, u) ==> forall i :: 0 <= i < |a| ==> WasLinked(a, i, prevs, nexts, p, n)
  }

  lemma Remember(a: seq<Node>, all: seq<Node>, p: Node?, n: Node?)
    requires Seg(a, p, n) && forall x :: x in a ==> x in all
    ensures Was(a, Prevs(all), Nexts(all), p, n)
  {
    assert Unfold(Links, 0);
    forall i | 0 <= i < |a|
      ensures WasLinked(a, i, Prevs(all), Nexts(all), p, n)
    {
      assert Linked(a, i, p, n) && a[i] in a;
    }
  }

  /** Only the outer pointers of a part changed. */
  lemma Relink(a: seq<Node>, prevs: map<Node, Node?>, nexts: map<Node, Node?>, p: Node?, n: Node?, p1: Node?, n1: Node?)
    requires AllDistinct(a) && Was(a, prevs, nexts, p, n)
    requires forall x :: x in a ==> x in prevs && (x.prev == prevs[x] || x == a[0])
    requires forall x :: x in a ==> x in nexts && (x.next == nexts[x] || x == a[|a| - 1])
    requires a != [] ==> (a[0].prev == p1 || (p == p1 && a[0].prev == prevs[a[0]]))
    requires a != [] ==> var z := a[|a| - 1]; z.next == n1 || (n == n1 && z.next == nexts[z])
    ensures Seg(a, p1, n1)
  {
    assert Unfold(Links, 0);
    forall i | 0 <= i < |a|
      ensures Linked(a, i, p1, n1)
    {
      assert a[i] in a && WasLinked(a, i, prevs, nexts, p, n);
    }
  }

  class List {
    var head: Node?
    var tail: Node?
    var len: nat
    ghost var nodes: seq<Node>

    ghost predicate Valid()
      reads this, nodes
    {
      && len == |nodes| && AllDistinct(nodes) && Seg(nodes, null, null)
      && head == FirstOr(nodes, null) && tail == LastOr(nodes, null)
    }

    ghost function Contents(): seq<int>
      reads this
    {
      Values(nodes)
    }

    constructor ()
      ensures Valid() && Contents() == [] && nodes == []
    {
      head, tail, len, nodes := null, null, 0, [];
    }

    method LinkHead(node: Node)
      requires Valid() && node !in nodes
      modifies `head, `tail, node, nodes
      ensures Seg([node] + nodes, null, null) && head == node && tail == LastOr([node] + nodes, null)
    {
      ghost var prevs, nexts := Prevs(nodes), Nexts(nodes);
      Remember(nodes, nodes, null, null);
      if len == 0 {
        head, tail := node, node;
        node.prev, node.next := null, null;
      } else {
        node.prev := null;
        node.next := head;
        head.prev := node;
        head := node;
      }
      Relink(nodes, prevs, nexts, null, null, node, null);
      SegOne(node, null, FirstOr(nodes, null));
      SegJoin([node], nodes, null, null);
    }

    method AddNodeHead(value: int)
      requires Valid()
      modifies this, nodes
      ensures Valid() && Contents() == [value] + old(Contents())
      ensures |nodes| == |old(nodes)| + 1 && fresh(nodes[0]) && nodes[1..] == old(nodes)
    {
      var node := new Node(value);
      LinkHead(node);
      DistinctOne(node);
      DistinctJoin([node], nodes);
      nodes := [node] + nodes;
      len := len + 1;
    }

    method LinkTail(node: Node)
      requires Valid() && node !in nodes
      modifies `head, `tail, node, nodes
      ensures Seg(nodes + [node], null, null) && head == FirstOr(nodes + [node], null) && tail == node
    {
      ghost var prevs, nexts := Prevs(nodes), Nexts(nodes);
      Remember(nodes, nodes, null, null);
      if len == 0 {
        head, tail := node, node;
        node.prev, node.next := null, null;
      } else {
        node.prev := tail;
        node.next := null;
        tail.next := node;
        tail := node;
      }
      Relink(nodes, prevs, nexts, null, null, null, node);
      SegOne(node, LastOr(nodes, null), null);
      SegJoin(nodes, [node], null, null);
    }

    method AddNodeTail(value: int)
      requires Valid()
      modifies this, nodes
      ensures Valid() && Contents() == old(Contents()) + [value]
      ensures |nodes| == |old(nodes)| + 1 && fresh(nodes[|old(nodes)|]) && nodes[..|old(nodes)|] == old(nodes)
    {
      var node := new Node(value);
      LinkTail(node);
      DistinctOne(node);
      DistinctJoin(nodes, [node]);
      nodes := nodes + [node];
      len := len + 1;
    }

    /** Set the pointers of a new node next to `oldNode`, that is between the parts `a` and `b`. */
    method PointToNeighbours(node: Node, oldNode: Node, after: bool, ghost a: seq<Node>, ghost b: seq<Node>)
      requires Valid() && node !in nodes && nodes == a + b
      requires if after then a != [] && oldNode == a[|a| - 1] else b != [] && oldNode == b[0]
      modifies `head, `tail, node
      ensures node.prev == LastOr(a, null) && node.next == FirstOr(b, null)
      ensures head == FirstOr(a + [node] + b, null) && tail == LastOr(a + [node] + b, null)
    {
      TwoParts(nodes, a, b);
      assert oldNode in a + b;
      assert forall x :: x in a ==> x in nodes;
      if after {
        node.prev := oldNode;
        node.next := oldNode.next;
        if tail == oldNode {
          tail := node;
        }
      } else {
        node.next := oldNode;
        node.prev := oldNode.prev;
        if head == oldNode {
          head := node;
        }
      }
      assert b != [] ==> LastOr(nodes, null) == b[|b| - 1] && b[|b| - 1] in b;
      assert a != [] ==> a[0] in a && a[|a| - 1] in a;
    }

    /** Link a node whose own pointers are set. */
    method LinkBetween(node: Node, ghost a: seq<Node>, ghost b: seq<Node>)
      requires AllDistinct(a + b) && Seg(a + b, null, null) && node !in a && node !in b
      requires node.prev == LastOr(a, null) && node.next == FirstOr(b, null)
      modifies a, b
      ensures Seg(a + [node] + b, null, null)
    {
      ghost var prevs, nexts := Prevs(a + b), Nexts(a + b);
      TwoParts(a + b, a, b);
      if node.prev != null {
        node.prev.next := node;
      }
      if node.next != null {
        node.next.prev := node;
      }
      Relink(a, prevs, nexts, null, FirstOr(b, null), null, node);
      Relink(b, prevs, nexts, LastOr(a, null), null, node, null);
      SegOne(node, LastOr(a, null), FirstOr(b, null));
      SegJoin(a, [node], null, FirstOr(b, null));
      SegJoin(a + [node], b, null, null);
    }

    /** The new node goes to position `i + 1` if `after`, to `i` otherwise. */
    method InsertNode(oldNode: Node, value: int, after: bool, ghost i: nat)
      requires Valid() && i < |nodes| && nodes[i] == oldNode
      modifies this, nodes
      ensures Valid()
      ensures var k := if after then i + 1 else i;
              Contents() == old(Contents())[..k] + [value] + old(Contents())[k..]
    {
      ghost var k := if after then i + 1 else i;
      ghost var a, b := nodes[..k], nodes[k..];
      assert nodes == a + b;
      ValuesInsert(a, b, value);
      assert forall n :: n in a || n in b ==> n in nodes;
      InsertBetween(oldNode, value, after, a, b);
    }

    method InsertBetween(oldNode: Node, value: int, after: bool, ghost a: seq<Node>, ghost b: seq<Node>)
      requires Valid() && nodes == a + b
      requires if after then a != [] && oldNode == a[|a| - 1] else b != [] && oldNode == b[0]
      modifies this, a, b
      ensures Valid() && Contents() == Values(a) + [value] + Values(b)
    {
      var node := new Node(value);
      DistinctInsert(a, b, node);
      PointToNeighbours(node, oldNode, after, a, b);
      LinkBetween(node, a, b);
      nodes := a + [node] + b;
      len := len + 1;
      assert Values(a + [node] + b) == Values(a) + [value] + Values(b);
    }

    /** The pointers that pass over a node: its neighbours, or the ends of the list. */
    method Bypass(node: Node, ghost a: seq<Node>, ghost b: seq<Node>)
      requires Valid() && nodes == a + [node] + b
      modifies `head, `tail, a, b
      ensures Seg(a + b, null, null) && head == FirstOr(a + b, null) && tail == LastOr(a + b, null)
    {
      ghost var prevs, nexts := Prevs(nodes), Nexts(nodes);
      Around(nodes, node, a, b);
      if node.prev != null {
        node.prev.next := node.next;
      } else {
        head := node.next;
      }
      if node.next != null {
        node.next.prev := node.prev;
      } else {
        tail := node.prev;
      }
      Relink(a, prevs, nexts, null, node, null, FirstOr(b, null));
      Relink(b, prevs, nexts, node, null, LastOr(a, null), null);
      SegJoin(a, b, null, null);
    }

    method DelNode(node: Node, ghost i: nat)
      requires Valid() && i < |nodes| && nodes[i] == node
      modifies this, nodes
      ensures Valid() && nodes == old(nodes)[..i] + old(nodes)[i + 1..]
      ensures Contents() == old(Contents())[..i] + old(Contents())[i + 1..]
    {
      ghost var a, b := nodes[..i], nodes[i + 1..];
      assert nodes == a + [node] + b;
      Apart(nodes, node, a, b);
      Bypass(node, a, b);
      nodes := a + b;
      len := len - 1;
    }

    /** Move the tail to the head, for at least two nodes. */
    method MoveTail(last: Node, ghost a: seq<Node>)
      requires Valid() && a != [] && nodes == a + [last] && tail == last
      modifies `head, `tail, last, a
      ensures Seg([last] + a, null, null) && head == last && tail == LastOr([last] + a, null)
    {
      ghost var prevs, nexts := Prevs(nodes), Nexts(nodes);
      assert nodes == a + [last] + [];
      Around(nodes, last, a, []);
      tail := last.prev;
      tail.next := null;
      head.prev := last;
      last.prev := null;
      last.next := head;
      head := last;
      Relink(a, prevs, nexts, null, last, last, null);
      SegOne(last, null, a[0]);
      SegJoin([last], a, null, null);
    }

    method Rotate()
      requires Valid()
      modifies this, nodes
      ensures Valid()
      ensures var c, n := old(Contents()), |old(Contents())|;
              Contents() == if n <= 1 then c else [c[n - 1]] + c[..n - 1]
    {
      var last := tail;
      if len <= 1 {
        return;
      }
      ghost var a := nodes[..|nodes| - 1];
      assert nodes == a + [last];
      DistinctParts(a, [last]);
      MoveTail(last, a);
      DistinctOne(last);
      DistinctJoin([last], a);
      nodes := [last] + a;
    }

    /** The last node of one part and the first of another point to each other. */
    static method LinkParts(last: Node?, first: Node?, ghost a: seq<Node>, ghost b: seq<Node>)
      requires Seg(a, null, null) && Seg(b, null, null)
      requires AllDistinct(a) && AllDistinct(b) && forall n :: n in a ==> n !in b
      requires last == LastOr(a, null) && first == FirstOr(b, null)
      modifies a, b
      ensures Seg(a + b, null, null)
    {
      ghost var prevs, nexts := Prevs(a + b), Nexts(a + b);
      Remember(a, a + b, null, null);
      Remember(b, a + b, null, null);
      if first != null {
        first.prev := last;
      }
      if last != null {
        last.next := first;
      }
      Relink(a, prevs, nexts, null, null, null, first);
      Relink(b, prevs, nexts, null, null, last, null);
      SegJoin(a, b, null, null);
    }

    /** The other list is left empty. */
    method Join(o: List)
      requires Valid() && o.Valid() && o != this && forall n :: n in nodes ==> n !in o.nodes
      modifies this, nodes, o, o.nodes
      ensures Valid() && o.Valid()
      ensures Contents() == old(Contents()) + old(o.Contents()) && o.Contents() == []
    {
      ghost var a, b := nodes, o.nodes;
      DistinctJoin(a, b);
      JoinEnds(a, b);
      LinkParts(tail, o.head, a, b);
      TakeOver(o);
      SegEmpty();
    }

    method TakeOver(o: List)
      requires o != this
      modifies this, o
      ensures head == (if old(tail) == null then old(o.head) else old(head))
      ensures tail == (if old(o.tail) != null then old(o.tail) else old(tail))
      ensures len == old(len) + old(o.len) && nodes == old(nodes) + old(o.nodes)
      ensures o.head == null && o.tail == null && o.len == 0 && o.nodes == []
    {
      if tail == null {
        head := o.head;
      }
      if o.tail != null {
        tail := o.tail;
      }
      len := len + o.len;
      nodes := nodes + o.nodes;
      o.head, o.tail, o.len, o.nodes := null, null, 0, [];
    }

    method Index(index: int) returns (n: Node?)
      requires Valid()
      ensures var k := if index < 0 then len + index else index;
              n == if 0 <= k < len then nodes[k] else null
    {
      if index < 0 {
        var left := (-index) - 1;
        n := tail;
        ghost var k: int := len - 1;
        while left > 0 && n != null
          invariant 0 <= left && k - left == len + index && -1 <= k < len && n == (if k < 0 then null else nodes[k])
        {
          SegAt(nodes, k, null, null);
          left := left - 1;
          n := n.prev;
          k := k - 1;
        }
      } else {
        var left := index;
        n := head;
        ghost var k: int := 0;
        while left > 0 && n != null
          invariant 0 <= left && k + left == index && 0 <= k <= len && n == (if k < len then nodes[k] else null)
        {
          SegAt(nodes, k, null, null);
          left := left - 1;
          n := n.next;
          k := k + 1;
        }
      }
    }
  }

  // ---- iterators ----

  class Iter {
    var next: Node?
    var forward: bool

    /** Between positions `pos - 1` and `pos` of the list. */
    ghost predicate At(list: List, pos: nat)
      reads this, list
    {
      && pos <= |list.nodes|
      && next == if forward then FirstOr(list.nodes[pos..], null) else LastOr(list.nodes[..pos], null)
    }

    /** listRewind and listRewindTail. */
    constructor (list: List, fromHead: bool)
      requires list.Valid()
      ensures forward == fromHead && At(list, if fromHead then 0 else |list.nodes|)
    {
      next := if fromHead then list.head else list.tail;
      forward := fromHead;
    }

    /** listNext: the next node in the direction of the iterator, which has already moved past
        it, so that deleting the returned node does no harm. */
    method Next(ghost list: List, ghost pos: nat) returns (current: Node?)
      requires list.Valid() && At(list, pos)
      modifies this
      ensures forward == old(forward)
      ensures forward && pos < |list.nodes| ==> current == list.nodes[pos] && At(list, pos + 1)
      ensures !forward && pos > 0 ==> current == list.nodes[pos - 1] && At(list, pos - 1)
      ensures (if forward then pos == |list.nodes| else pos == 0) ==> current == null && At(list, pos)
    {
      current := next;
      if current != null {
        SegAt(list.nodes, if forward then pos else pos - 1, null, null);
        if forward {
          next := current.next;
        } else {
          next := current.prev;
        }
      }
    }
  }

  /** The elements of `s` that are not to be dropped. */
  function Kept(s: seq<int>, drop: int -> bool): seq<int> {
    if s == [] then [] else (if drop(s[0]) then [] else [s[0]]) + Kept(s[1..], drop)
  }

  lemma {:induction false} KeptSplit(s: seq<int>, t: seq<int>, drop: int -> bool)
    ensures Kept(s + t, drop) == Kept(s, drop) + Kept(t, drop)
    decreases |s|
  {
    if s == [] {
      assert s + t == t;
    } else {
      assert (s + t)[1..] == s[1..] + t;
      KeptSplit(s[1..], t, drop);
    }
  }

  lemma KeptOne(x: int, drop: int -> bool)
    ensures Kept([x], drop) == if drop(x) then [] else [x]
  {
    assert [x][1..] == [];
  }

  ghost predicate Within(nodes: seq<Node>, all: seq<Node>) {
    forall i :: 0 <= i < |nodes| ==> nodes[i] in all
  }

  /** What was visited and what is to come make up the original list; what was passed is what
      was kept. */
  ghost predicate Visited(visited: seq<int>, contents: seq<int>, pos: nat, all: seq<int>, drop: int -> bool) {
    pos <= |contents| && visited + contents[pos..] == all && contents[..pos] == Kept(visited, drop)
  }

  lemma Unvisited(visited: seq<int>, before: seq<int>, pos: nat)
    requires pos < |before|
    ensures visited + before[pos..] == visited + [before[pos]] + before[pos + 1..]
  {
    assert before[pos..] == [before[pos]] + before[pos + 1..];
  }

  lemma CutOut(before: seq<int>, pos: nat)
    requires pos < |before|
    ensures var after := before[..pos] + before[pos + 1..];
            after[pos..] == before[pos + 1..] && after[..pos] == before[..pos]
    ensures before[..pos + 1] == before[..pos] + [before[pos]]
  {
  }

  lemma VisitNext(visited: seq<int>, before: seq<int>, pos: nat, all: seq<int>, drop: int -> bool)
    requires Visited(visited, before, pos, all, drop) && pos < |before|
    ensures var x := before[pos];
            if drop(x) then Visited(visited + [x], before[..pos] + before[pos + 1..], pos, all, drop)
            else Visited(visited + [x], before, pos + 1, all, drop)
  {
    var x := before[pos];
    KeptSplit(visited, [x], drop);
    KeptOne(x, drop);
    Unvisited(visited, before, pos);
    CutOut(before, pos);
  }

  /** Deleting the current node while iterating visits every element of the original list once,
      in order, and leaves the others. */
  method DeleteWhileIterating(list: List, drop: int -> bool) returns (visited: seq<int>)
    requires list.Valid()
    modifies list, list.nodes
    ensures list.Valid() && visited == old(list.Contents()) && list.Contents() == Kept(old(list.Contents()), drop)
  {
    visited := [];
    var iter := new Iter(list, true);
    ghost var pos: nat := 0;
    var more := true;
    while more
      invariant list.Valid() && iter.forward && iter.At(list, pos) && fresh(iter)
      invariant Within(list.nodes, old(list.nodes))
      invariant Visited(visited, list.Contents(), pos, old(list.Contents()), drop)
      invariant !more ==> pos == |list.nodes|
      decreases |list.nodes| - pos, more
    {
      more, pos, visited := VisitOne(list, iter, drop, pos, visited, old(list.Contents()));
    }
  }

  method VisitOne(list: List, iter: Iter, drop: int -> bool, ghost pos: nat, visited: seq<int>, ghost all: seq<int>)
    returns (more: bool, ghost now: nat, seen: seq<int>)
    requires list.Valid() && iter.forward && iter.At(list, pos)
    requires Visited(visited, list.Contents(), pos, all, drop)
    modifies iter, list, list.nodes
    ensures list.Valid() && iter.forward && iter.At(list, now) && Within(list.nodes, old(list.nodes))
    ensures Visited(seen, list.Contents(), now, all, drop)
    ensures more == (pos < |old(list.nodes)|)
    ensures if more then |list.nodes| - now < |old(list.nodes)| - pos else now == pos && list.nodes == old(list.nodes)
  {
    now, seen := pos, visited;
    var node := iter.Next(list, pos);
    more := node != null;
    if more {
      VisitNext(visited, list.Contents(), pos, all, drop);
      seen := visited + [node.value];
      if drop(node.value) {
        DropCurrent(list, iter, node, pos);
      } else {
        now := pos + 1;
      }
    }
  }

  /** Deleting the node before an iterator moves the iterator with the rest of the list. */
  method DropCurrent(list: List, iter: Iter, node: Node, ghost pos: nat)
    requires list.Valid() && iter.forward && pos < |list.nodes| && list.nodes[pos] == node && iter.At(list, pos + 1)
    modifies list, list.nodes
    ensures list.Valid() && iter.At(list, pos)
    ensures Within(list.nodes, old(list.nodes)) && |list.nodes| < |old(list.nodes)|
    ensures list.Contents() == old(list.Contents())[..pos] + old(list.Contents())[pos + 1..]
  {
    list.DelNode(node, pos);
    assert list.nodes[pos..] == old(list.nodes)[pos + 1..];
  }

  ghost function NodeAt(nodes: seq<Node>, i: nat): Node? {
    if i < |nodes| then nodes[i] else null
  }

  /** listSearchKey: the first node with the key. */
  method SearchKey(list: List, key: int) returns (node: Node?, ghost i: nat)
    requires list.Valid()
    ensures node == null ==> key !in list.Contents()
    ensures node != null ==>
              i < |list.nodes| && node == list.nodes[i] && node.value == key && key !in list.Contents()[..i]
  {
    i := 0;
    var iter := new Iter(list, true);
    node := iter.Next(list, i);
    while node != null
      invariant i <= |list.nodes| && iter.forward && fresh(iter) && key !in list.Contents()[..i]
      invariant node == NodeAt(list.nodes, i) && (node != null ==> iter.At(list, i + 1))
      decreases |list.nodes| - i
    {
      if node.value == key {
        return;
      }
      CutOut(list.Contents(), i);
      i := i + 1;
      node := iter.Next(list, i);
    }
    assert list.Contents()[..i] == list.Contents();
  }

  /** Copy one value; the original list does not change. */
  method CopyOne(orig: List, copy: List, iter: Iter, node: Node, ghost i: nat) returns (next: Node?)
    requires orig.Valid() && copy.Valid() && orig != copy && i < |orig.nodes| && node == orig.nodes[i]
    requires forall n :: n in orig.nodes ==> n !in copy.nodes
    requires iter.forward && iter.At(orig, i + 1)
    modifies copy, copy.nodes, iter
    ensures orig.Valid() && copy.Valid() && copy.Contents() == old(copy.Contents()) + [node.value]
    ensures |copy.nodes| == |old(copy.nodes)| + 1 && fresh(copy.nodes[|old(copy.nodes)|])
    ensures copy.nodes[..|old(copy.nodes)|] == old(copy.nodes)
    ensures iter.forward && next == NodeAt(orig.nodes, i + 1) && (next != null ==> iter.At(orig, i + 2))
  {
    ghost var prevs, nexts := Prevs(orig.nodes), Nexts(orig.nodes);
    Remember(orig.nodes, orig.nodes, null, null);
    copy.AddNodeTail(node.value);
    Relink(orig.nodes, prevs, nexts, null, null, null, null);
    next := iter.Next(orig, i + 1);
  }

  /** listDup, when neither the copying of a value nor an allocation fails. */
  method Dup(orig: List) returns (copy: List)
    requires orig.Valid()
    ensures copy.Valid() && fresh(copy) && copy.Contents() == orig.Contents()
    ensures orig.Valid() && forall i :: 0 <= i < |copy.nodes| ==> fresh(copy.nodes[i])
  {
    copy := new List();
    var iter := new Iter(orig, true);
    ghost var i: nat := 0;
    var node := iter.Next(orig, i);
    while node != null
      invariant orig.Valid() && i <= |orig.nodes| && iter.forward && fresh(iter)
      invariant copy.Valid() && fresh(copy) && copy.Contents() == orig.Contents()[..i]
      invariant forall j :: 0 <= j < |copy.nodes| ==> fresh(copy.nodes[j])
      invariant node == NodeAt(orig.nodes, i) && (node != null ==> iter.At(orig, i + 1))
      decreases |orig.nodes| - i
    {
      assert forall n :: n in orig.nodes ==> !fresh(n);
      CutOut(orig.Contents(), i);
      node := CopyOne(orig, copy, iter, node, i);
      i := i + 1;
    }
    assert orig.Contents()[..i] == orig.Contents();
  }

  lemma ValuesInsert(a: seq<Node>, b: seq<Node>, value: int)
    ensures var s := Values(a + b); s[..|a|] + [value] + s[|a|..] == Values(a) + [value] + Values(b)
  {
    var s := Values(a + b);
    assert s[..|a|] == Values(a) && s[|a|..] == Values(b);
  }

  lemma JoinEnds(a: seq<Node>, b: seq<Node>)
    ensures FirstOr(a + b, null) == if LastOr(a, null) == null then FirstOr(b, null) else FirstOr(a, null)
    ensures LastOr(a + b, null) == if LastOr(b, null) != null then LastOr(b, null) else LastOr(a, null)
    ensures Values(a + b) == Values(a) + Values(b) && Values([]) == []
  {
  }

  lemma SegEmpty()
    ensures Seg([], null, null) && AllDistinct([])
  {
  }

  lemma DistinctInsert(a: seq<Node>, b: seq<Node>, node: Node)
    requires AllDistinct(a + b) && node !in a && node !in b
    ensures AllDistinct(a + [node] + b)
  {
    DistinctParts(a, b);
    DistinctOne(node);
    DistinctJoin(a, [node]);
    DistinctJoin(a + [node], b);
  }

  lemma TwoParts(nodes: seq<Node>, a: seq<Node>, b: seq<Node>)
    requires AllDistinct(nodes) && Seg(nodes, null, null) && nodes == a + b
    ensures Was(a, Prevs(nodes), Nexts(nodes), null, FirstOr(b, null))
    ensures Was(b, Prevs(nodes), Nexts(nodes), LastOr(a, null), null)
    ensures AllDistinct(a) && AllDistinct(b) && forall x :: x in a ==> x !in b
    ensures a != [] ==> a[|a| - 1].next == FirstOr(b, null)
    ensures b != [] ==> b[0].prev == LastOr(a, null)
  {
    DistinctParts(a, b);
    SegSplit(a, b, null, null);
    if a != [] {
      SegAt(a, |a| - 1, null, FirstOr(b, null));
    }
    if b != [] {
      SegAt(b, 0, LastOr(a, null), null);
    }
    Remember(a, nodes, null, FirstOr(b, null));
    Remember(b, nodes, LastOr(a, null), null);
  }

  lemma Apart(nodes: seq<Node>, node: Node, a: seq<Node>, b: seq<Node>)
    requires AllDistinct(nodes) && nodes == a + [node] + b
    ensures AllDistinct(a) && AllDistinct(b) && AllDistinct(a + b) && node !in a && node !in b
    ensures forall x :: x in a ==> x !in b
  {
    assert nodes == a + ([node] + b);
    DistinctParts(a, [node] + b);
    DistinctParts([node], b);
    assert node in [node] + b && node in [node];
    assert forall x :: x in b ==> x in [node] + b;
    DistinctJoin(a, b);
  }

  /** A node in the middle: the parts before and after it, and its own pointers. */
  lemma Around(nodes: seq<Node>, node: Node, a: seq<Node>, b: seq<Node>)
    requires AllDistinct(nodes) && Seg(nodes, null, null) && nodes == a + [node] + b
    ensures node.prev == LastOr(a, null) && node.next == FirstOr(b, null)
    ensures Was(a, Prevs(nodes), Nexts(nodes), null, node) && Was(b, Prevs(nodes), Nexts(nodes), node, null)
    ensures AllDistinct(a) && AllDistinct(b) && node !in a && node !in b && forall x :: x in a ==> x !in b
  {
    Apart(nodes, node, a, b);
    assert nodes == a + ([node] + b);
    SegSplit(a, [node] + b, null, null);
    SegAt(nodes, |a|, null, null);
    assert nodes[..|a|] == a && nodes[|a| + 1..] == b;
    SegSplit([node], b, LastOr(a, null), null);
    Remember(a, nodes, null, node);
    Remember(b, nodes, node, null);
  }
}
