/**
 The slot table of cluster.c: which node each hash slot is bound to, mirrored by a
 bitmap and a counter in every node, and the rules that rebind slots.

 Nodes are entries of the `nodes` dictionary and are named, not pointed to.
*/
module SlotTable {
  import opened Hiding
  import opened Options
  import opened SlotBitmap
  import ClusterNode

  const SLOTS: nat := ClusterNode.CLUSTER_SLOTS

  type NodeId = ClusterNode.NodeId
  type Owners = o: seq<Option<NodeId>> | |o| == SLOTS witness seq(SLOTS, _ => None)

  datatype Node = Node(slots: Bitmap, numslots: int, configEpoch: nat)

  function Owned(owner: Owners, n: NodeId): set<nat> {
    set j: nat | j < SLOTS && owner[j] == Some(n)
  }

  /** The slots a bitmap claims. */
  function Claimed(b: Bitmap): set<nat>
    requires 8 * |b| == SLOTS
  {
    set j: nat | j < SLOTS && TestBit(b, j)
  }

  /** Node `n` has bit `j` set exactly when slot `j` is bound to it, and counts its bits. */
  ghost predicate Mirrors(owner: Owners, n: NodeId, node: Node) {
    && 8 * |node.slots| == SLOTS
    && Claimed(node.slots) == Owned(owner, n)
    && node.numslots == |Owned(owner, n)|
  }

  ghost predicate Consistent(owner: Owners, nodes: map<NodeId, Node>) {
    && (forall j: nat :: j < SLOTS && owner[j].Some? ==> owner[j].value in nodes)
    && (forall n :: n in nodes ==> Mirrors(owner, n, nodes[n]))
  }

  /** Consistency as the loops carry it: it is unfolded only where `Unfold` is mentioned. */
  ghost predicate Hidden(owner: Owners, nodes: map<NodeId, Node>) {
    forall u: nat :: Unfold(Consistency, u) ==> Consistent(owner, nodes)
  }

  function Epochs(nodes: map<NodeId, Node>): map<NodeId, nat> {
    map n | n in nodes :: nodes[n].configEpoch
  }

  // ---- one slot at a time ----

  function SetSlotBit(node: Node, j: nat): Node
    requires j < 8 * |node.slots|
  {
    var numslots := if TestBit(node.slots, j) then node.numslots else node.numslots + 1;
    node.(slots := SetBit(node.slots, j), numslots := numslots)
  }

  function ClearSlotBit(node: Node, j: nat): Node
    requires j < 8 * |node.slots|
  {
    var numslots := if TestBit(node.slots, j) then node.numslots - 1 else node.numslots;
    node.(slots := ClearBit(node.slots, j), numslots := numslots)
  }

  lemma ClaimedAfter(b: Bitmap, j: nat)
    requires 8 * |b| == SLOTS && j < SLOTS
    ensures Claimed(SetBit(b, j)) == Claimed(b) + {j}
    ensures Claimed(ClearBit(b, j)) == Claimed(b) - {j}
  {
    forall k: nat | k < SLOTS
      ensures k in Claimed(SetBit(b, j)) <==> k == j || k in Claimed(b)
      ensures k in Claimed(ClearBit(b, j)) <==> k != j && k in Claimed(b)
    {
      SetClear(b, j, k);
    }
  }

  lemma OwnedAfter(owner: Owners, j: nat, n: NodeId, o: Option<NodeId>)
    requires j < SLOTS
    ensures Owned(owner[j := o], n) == if o == Some(n) then Owned(owner, n) + {j} else Owned(owner, n) - {j}
  {
  }

  lemma BindKeepsMirror(owner: Owners, n: NodeId, node: Node, j: nat, m: NodeId)
    requires j < SLOTS && owner[j] == None && Mirrors(owner, n, node)
    ensures Mirrors(owner[j := Some(m)], n, if n == m then SetSlotBit(node, j) else node)
  {
    OwnedAfter(owner, j, n, Some(m));
    ClaimedAfter(node.slots, j);
    assert j !in Owned(owner, n);
  }

  lemma FreeKeepsMirror(owner: Owners, n: NodeId, node: Node, j: nat)
    requires j < SLOTS && owner[j].Some? && Mirrors(owner, n, node)
    ensures Mirrors(owner[j := None], n, if Some(n) == owner[j] then ClearSlotBit(node, j) else node)
  {
    OwnedAfter(owner, j, n, None);
    ClaimedAfter(node.slots, j);
    assert j in Owned(owner, n) <==> j in Claimed(node.slots);
  }

  lemma BindKeepsConsistency(owner: Owners, nodes: map<NodeId, Node>, n: NodeId, j: nat)
    requires j < SLOTS && n in nodes && owner[j] == None && Hidden(owner, nodes)
    ensures 8 * |nodes[n].slots| == SLOTS
    ensures var nodes' := nodes[n := SetSlotBit(nodes[n], j)];
            Hidden(owner[j := Some(n)], nodes') && Epochs(nodes') == Epochs(nodes)
  {
    assert Unfold(Consistency, 0);
    forall m | m in nodes ensures Mirrors(owner[j := Some(n)], m, nodes[n := SetSlotBit(nodes[n], j)][m]) {
      BindKeepsMirror(owner, m, nodes[m], j, n);
    }
  }

  lemma OwnerHasBit(owner: Owners, n: NodeId, node: Node, j: nat)
    requires j < SLOTS && owner[j] == Some(n) && Mirrors(owner, n, node)
    ensures TestBit(node.slots, j)
  {
    assert j in Owned(owner, n) && j in Claimed(node.slots);
  }

  /** The owner of a slot has its bit set. */
  lemma FreeKeepsConsistency(owner: Owners, nodes: map<NodeId, Node>, n: NodeId, j: nat)
    requires j < SLOTS && owner[j] == Some(n) && Hidden(owner, nodes)
    ensures n in nodes && 8 * |nodes[n].slots| == SLOTS && TestBit(nodes[n].slots, j)
    ensures var nodes' := nodes[n := ClearSlotBit(nodes[n], j)];
            Hidden(owner[j := None], nodes') && Epochs(nodes') == Epochs(nodes)
  {
    assert Unfold(Consistency, 0) && Mirrors(owner, n, nodes[n]);
    OwnerHasBit(owner, n, nodes[n], j);
    forall m | m in nodes ensures Mirrors(owner[j := None], m, nodes[n := ClearSlotBit(nodes[n], j)][m]) {
      FreeKeepsMirror(owner, m, nodes[m], j);
    }
  }

  lemma EpochKeepsConsistency(owner: Owners, nodes: map<NodeId, Node>, n: NodeId, epoch: nat)
    requires n in nodes && Hidden(owner, nodes)
    ensures var nodes' := nodes[n := nodes[n].(configEpoch := epoch)];
            Hidden(owner, nodes') && Epochs(nodes') == Epochs(nodes)[n := epoch]
  {
    assert Unfold(Consistency, 0);
    forall m | m in nodes ensures Mirrors(owner, m, nodes[n := nodes[n].(configEpoch := epoch)][m]) {
      assert Mirrors(owner, m, nodes[m]);
    }
  }

  lemma FreshIsConsistent(owner: Owners, me: NodeId)
    requires forall j :: 0 <= j < SLOTS ==> owner[j] == None
    ensures Hidden(owner, map[me := Node(seq(SLOTS / 8, _ => 0), 0, 0)])
  {
    assert Owned(owner, me) == {};
    assert Claimed(seq(SLOTS / 8, _ => 0)) == {};
  }

  /** A new node has no slots. */
  lemma AddKeepsConsistency(owner: Owners, nodes: map<NodeId, Node>, n: NodeId)
    requires Hidden(owner, nodes) && n !in nodes
    ensures Hidden(owner, nodes[n := Node(seq(SLOTS / 8, _ => 0), 0, 0)])
  {
    assert Unfold(Consistency, 0);
    assert Owned(owner, n) == {};
    assert Claimed(seq(SLOTS / 8, _ => 0)) == {};
    assert forall m :: m in nodes ==> Mirrors(owner, m, nodes[m]);
  }

  lemma RemoveKeepsConsistency(owner: Owners, nodes: map<NodeId, Node>, n: NodeId)
    requires Hidden(owner, nodes) && n in nodes && forall j :: 0 <= j < SLOTS ==> owner[j] != Some(n)
    ensures Hidden(owner, nodes - {n}) && Epochs(nodes - {n}) == Epochs(nodes) - {n}
  {
    assert Unfold(Consistency, 0);
    var rest := nodes - {n};
    forall m | m in rest
      ensures Mirrors(owner, m, rest[m])
    {
      assert Mirrors(owner, m, nodes[m]);
    }
    forall j: nat | j < SLOTS && owner[j].Some?
      ensures owner[j].value in rest
    {
      assert owner[j] != Some(n);
    }
    EpochsWithout(nodes, n);
  }

  lemma EpochsWithout(nodes: map<NodeId, Node>, n: NodeId)
    ensures Epochs(nodes - {n}) == Epochs(nodes) - {n}
  {
  }

  /** A bitmap claims what the node owns exactly when it is the node's own. */
  lemma SameClaim(owner: Owners, nodes: map<NodeId, Node>, n: NodeId, b: Bitmap)
    requires Hidden(owner, nodes) && n in nodes && 8 * |b| == SLOTS
    ensures nodes[n].slots == b <==> Claimed(b) == Owned(owner, n)
  {
    assert Unfold(Consistency, 0) && Mirrors(owner, n, nodes[n]);
    var own := nodes[n].slots;
    if Claimed(b) == Owned(owner, n) {
      forall j | 0 <= j < SLOTS
        ensures TestBit(own, j) == TestBit(b, j)
      {
        assert j in Claimed(own) <==> j in Claimed(b);
      }
      EqualBits(own, b);
    }
  }

  /** No two nodes claim the same slot, and every node counts the slots it claims. */
  lemma BitmapsPartition(owner: Owners, nodes: map<NodeId, Node>, n: NodeId, m: NodeId)
    requires Consistent(owner, nodes) && n in nodes && m in nodes
    ensures n != m ==> Claimed(nodes[n].slots) !! Claimed(nodes[m].slots)
    ensures nodes[n].numslots == |Claimed(nodes[n].slots)|
  {
    assert Mirrors(owner, n, nodes[n]) && Mirrors(owner, m, nodes[m]);
  }

  // ---- rebinding by claims ----

  /** What the claim (sender, epoch) does to one slot it covers. */
  function RebindSlot(o: Option<NodeId>, epochs: map<NodeId, nat>, importing: bool, sender: NodeId,
                      epoch: nat): Option<NodeId>
    requires o.Some? ==> o.value in epochs
  {
    if o == Some(sender) || importing then o
    else if o.None? || epochs[o.value] < epoch then Some(sender)
    else o
  }

  datatype Table = Table(owner: Owners, epochs: map<NodeId, nat>, importing: set<nat>) {
    ghost predicate Valid() {
      forall j: nat :: j < SLOTS && owner[j].Some? ==> owner[j].value in epochs
    }
  }

  function Rebind(t: Table, sender: NodeId, epoch: nat, claim: set<nat>): (r: Table)
    requires t.Valid() && sender in t.epochs
    ensures r.Valid() && r.epochs == t.epochs && r.importing == t.importing
  {
    t.(owner := seq(SLOTS, j requires 0 <= j < SLOTS =>
      if j in claim then RebindSlot(t.owner[j], t.epochs, j in t.importing, sender, epoch) else t.owner[j]))
  }

  /** `target` is what the claim makes of the table. */
  ghost predicate Goal(t: Table, sender: NodeId, epoch: nat, claimed: Bitmap, target: Owners) {
    forall u: nat :: Unfold(Scans, u) ==>
      && t.Valid() && sender in t.epochs && 8 * |claimed| == SLOTS
      && target == Rebind(t, sender, epoch, Claimed(claimed)).owner
  }

  lemma RebindDone(v: Table, t: Table, sender: NodeId, epoch: nat, claim: set<nat>)
    requires t.Valid() && sender in t.epochs && v.epochs == t.epochs && v.importing == t.importing
    requires v.owner == Rebind(t, sender, epoch, claim).owner
    ensures v == Rebind(t, sender, epoch, claim)
  {
  }

  lemma RebindAt(t: Table, sender: NodeId, epoch: nat, claim: set<nat>, j: nat)
    requires t.Valid() && sender in t.epochs && j < SLOTS
    ensures Rebind(t, sender, epoch, claim).owner[j] ==
              if j in claim then RebindSlot(t.owner[j], t.epochs, j in t.importing, sender, epoch) else t.owner[j]
  {
  }

  /** Line 1709: a newer configEpoch of the sender is recorded. */
  function Learn(t: Table, sender: NodeId, epoch: nat): (r: Table)
    requires t.Valid() && sender in t.epochs
    ensures r.Valid()
  {
    if epoch > t.epochs[sender] then t.(epochs := t.epochs[sender := epoch]) else t
  }

  /** A sender that already owns exactly the slots it claims takes nothing. */
  lemma NothingToRebind(t: Table, sender: NodeId, epoch: nat, claim: set<nat>)
    requires t.Valid() && sender in t.epochs
    requires claim == Owned(t.owner, sender)
    ensures Rebind(t, sender, epoch, claim) == t
  {
    var r := Rebind(t, sender, epoch, claim);
    assert forall j :: 0 <= j < SLOTS ==> r.owner[j] == t.owner[j];
    assert r.owner == t.owner;
  }

  /** Every slot of `from` goes to `to`. */
  function Moved(owner: Owners, from: NodeId, to: Option<NodeId>): Owners {
    seq(SLOTS, j requires 0 <= j < SLOTS => if owner[j] == Some(from) then to else owner[j])
  }

  function Drop(o: Option<NodeId>, n: NodeId): Option<NodeId> {
    if o == Some(n) then None else o
  }

  function Elements(s: seq<nat>): set<nat> {
    set x | x in s
  }

  /** The first `j` slots that `n` had and has no longer. */
  function Lost(before: Owners, after: Owners, n: NodeId, j: nat): set<nat>
    requires j <= SLOTS
  {
    set k: nat | k < j && before[k] == Some(n) && after[k] != Some(n)
  }

  lemma NothingLost(owner: Owners, n: NodeId, m: NodeId)
    ensures Lost(owner, owner, n, SLOTS) == {} == Lost(owner, owner, m, SLOTS)
  {
  }

  /** What the scan of the first `j` slots has found: whether `curmaster` lost a slot, and
      which of the slots `me` lost hold keys. */
  ghost predicate Found(before: Owners, after: Owners, curmaster: NodeId, me: NodeId, keys: set<nat>, j: nat,
                        newmaster: bool, dirty: seq<nat>)
    requires j <= SLOTS
  {
    && newmaster == (Lost(before, after, curmaster, j) != {})
    && Elements(dirty) == Lost(before, after, me, j) * keys
  }

  lemma FoundStep(before: Owners, after: Owners, curmaster: NodeId, me: NodeId, keys: set<nat>, j: nat, newmaster: bool,
                  dirty: seq<nat>)
    requires j < SLOTS && Found(before, after, curmaster, me, keys, j, newmaster, dirty)
    ensures var taken := after[j] != before[j];
            Found(before, after, curmaster, me, keys, j + 1,
                  newmaster || (taken && before[j] == Some(curmaster)),
                  if taken && before[j] == Some(me) && j in keys then dirty + [j] else dirty)
  {
    assert Elements(dirty + [j]) == Elements(dirty) + {j};
    LostStep(before, after, curmaster, j);
    LostStep(before, after, me, j);
  }

  lemma LostStep(before: Owners, after: Owners, n: NodeId, j: nat)
    requires j < SLOTS
    ensures Lost(before, after, n, j + 1) ==
              Lost(before, after, n, j) + if before[j] == Some(n) && after[j] != Some(n) then {j} else {}
  {
  }

  /** Argument `i` is a slot, not yet named, that is assigned (to delete) or free (to add). */
  ghost predicate ArgOk(args: seq<int>, owner: Owners, del: bool, i: nat)
    requires i < |args|
  {
    0 <= args[i] < SLOTS && owner[args[i]].Some? == del && args[i] !in args[..i]
  }

  ghost predicate Acceptable(args: seq<int>, owner: Owners, del: bool) {
    forall i :: 0 <= i < |args| ==> ArgOk(args, owner, del, i)
  }

  lemma AcceptableAt(args: seq<int>, owner: Owners, del: bool, j: nat)
    requires Acceptable(args, owner, del) && j in args && j < SLOTS
    ensures owner[j].Some? == del
  {
    var i :| 0 <= i < |args| && args[i] == j;
    assert ArgOk(args, owner, del, i);
  }

  function Assigned(owner: Owners, args: seq<int>, o: Option<NodeId>): Owners {
    seq(SLOTS, j requires 0 <= j < SLOTS => if j in args then o else owner[j])
  }

  /** ADDSLOTS can be undone: DELSLOTS of the same slots is accepted then, and gives the old table. */
  lemma AddThenDelete(owner: Owners, args: seq<int>, me: NodeId)
    requires Acceptable(args, owner, false)
    ensures var added := Assigned(owner, args, Some(me));
            && Acceptable(args, added, true) && Assigned(added, args, None) == owner
            && Owned(added, me) == Owned(owner, me) + (set j | 0 <= j < SLOTS && j in args)
  {
    var added := Assigned(owner, args, Some(me));
    forall i | 0 <= i < |args| ensures ArgOk(args, added, true, i) {
      assert ArgOk(args, owner, false, i);
    }
    forall j: nat | j < SLOTS ensures Assigned(added, args, None)[j] == owner[j] {
      if j in args {
        var i :| 0 <= i < |args| && args[i] == j;
        assert ArgOk(args, owner, false, i);
      }
    }
    assert Assigned(added, args, None) == owner;
  }

  /** Moving all slots of a node leaves it none, and the other gets exactly those. */
  lemma MovedAll(owner: Owners, from: NodeId, to: NodeId, other: NodeId)
    requires from != to && other != from && other != to
    ensures var moved := Moved(owner, from, Some(to));
            && Owned(moved, from) == {} && Owned(moved, to) == Owned(owner, to) + Owned(owner, from)
            && Owned(moved, other) == Owned(owner, other)
    ensures var freed := Moved(owner, from, None);
            Owned(freed, from) == {} && Owned(freed, other) == Owned(owner, other)
  {
  }

  /** Progress of a loop over the slots: the first `j` slots are done. */
  ghost predicate Done(now: seq<Option<NodeId>>, target: Owners, before: Owners, j: nat) {
    forall u: nat :: Unfold(Scans, u) ==> j <= SLOTS && now == target[..j] + before[j..]
  }

  lemma NoneDone(before: Owners, target: Owners)
    ensures Done(before, target, before, 0)
  {
    assert target[..0] + before[0..] == before;
  }

  lemma NextDone(now: seq<Option<NodeId>>, target: Owners, before: Owners, j: nat)
    requires Done(now, target, before, j) && j < SLOTS && |now| == SLOTS
    ensures now[j] == before[j]
    ensures Done(now[j := target[j]], target, before, j + 1)
    ensures target[j] == before[j] ==> Done(now, target, before, j + 1)
  {
    assert Unfold(Scans, 0);
    assert now[j := target[j]] == target[..j + 1] + before[j + 1..];
    assert target[j] == before[j] ==> now[j := target[j]] == now;
  }

  lemma AllDone(now: seq<Option<NodeId>>, target: Owners, before: Owners)
    requires Done(now, target, before, SLOTS)
    ensures now == target
  {
    assert Unfold(Scans, 0);
  }

  class Cluster {
    const myself: NodeId
    const slots: array<Option<NodeId>>
    const importing: array<Option<NodeId>>
    const migrating: array<Option<NodeId>>
    var nodes: map<NodeId, Node>
    var currentEpoch: nat

    ghost predicate Shape() {
      && slots.Length == importing.Length == migrating.Length == SLOTS
      && slots != importing && slots != migrating && importing != migrating
    }

    ghost predicate Valid()
      reads this, slots
    {
      Shape() && myself in nodes && Hidden(slots[..], nodes)
    }

    ghost function Importing(): set<nat>
      requires Shape()
      reads importing
    {
      set j: nat | j < SLOTS && importing[j].Some?
    }

    ghost function Value(): (t: Table)
      requires Valid()
      reads this, slots, importing
      ensures t.Valid()
    {
      assert Unfold(Consistency, 0);
      Table(slots[..], Epochs(nodes), Importing())
    }

    constructor (me: NodeId)
      ensures Valid() && myself == me && nodes.Keys == {me} && currentEpoch == 0
      ensures slots[..] == importing[..] == migrating[..] == seq(SLOTS, _ => None)
    {
      myself := me;
      slots := new Option<NodeId>[SLOTS](_ => None);
      importing := new Option<NodeId>[SLOTS](_ => None);
      migrating := new Option<NodeId>[SLOTS](_ => None);
      nodes, currentEpoch := map[me := Node(seq(SLOTS / 8, _ => 0), 0, 0)], 0;
      new;
      FreshIsConsistent(slots[..], me);
    }

    /** createClusterNode and clusterAddNode: a new node is known, without slots. */
    method AddNode(n: NodeId) returns (ok: bool)
      requires Valid()
      modifies this`nodes
      ensures Valid() && ok == (n !in old(nodes))
      ensures nodes.Keys == old(nodes.Keys) + {n}
      ensures Epochs(nodes) == if ok then old(Epochs(nodes))[n := 0] else old(Epochs(nodes))
    {
      ok := n !in nodes;
      if ok {
        AddKeepsConsistency(slots[..], nodes, n);
        nodes := nodes[n := Node(seq(SLOTS / 8, _ => 0), 0, 0)];
      }
    }

    method AddSlot(n: NodeId, j: nat) returns (ok: bool)
      requires Valid() && n in nodes && j < SLOTS
      modifies this`nodes, slots
      ensures Valid() && Epochs(nodes) == old(Epochs(nodes)) && nodes.Keys == old(nodes.Keys)
      ensures ok <==> old(slots[j]) == None
      ensures slots[..] == if ok then old(slots[..])[j := Some(n)] else old(slots[..])
    {
      if slots[j].Some? {
        return false;
      }
      BindKeepsConsistency(slots[..], nodes, n, j);
      nodes := nodes[n := SetSlotBit(nodes[n], j)];
      slots[j] := Some(n);
      ok := true;
    }

    /** The assertion of clusterDelSlot, that the owner had the bit set, always holds. */
    method DelSlot(j: nat) returns (ok: bool)
      requires Valid() && j < SLOTS
      modifies this`nodes, slots
      ensures Valid() && Epochs(nodes) == old(Epochs(nodes)) && nodes.Keys == old(nodes.Keys)
      ensures ok <==> old(slots[j]).Some?
      ensures slots[..] == old(slots[..])[j := None]
    {
      if slots[j].None? {
        assert slots[..] == slots[..][j := None];
        return false;
      }
      var n := slots[j].value;
      FreeKeepsConsistency(slots[..], nodes, n, j);
      var wasSet := TestBit(nodes[n].slots, j);
      assert wasSet;
      nodes := nodes[n := ClearSlotBit(nodes[n], j)];
      slots[j] := None;
      ok := true;
    }

    method GetSlotBit(n: NodeId, j: nat) returns (bit: bool)
      requires Valid() && n in nodes && j < SLOTS
      ensures bit <==> slots[j] == Some(n)
    {
      assert Unfold(Consistency, 0) && Mirrors(slots[..], n, nodes[n]);
      bit := TestBit(nodes[n].slots, j);
      assert j in Claimed(nodes[n].slots) <==> j in Owned(slots[..], n);
    }

    method DelNodeSlots(n: NodeId) returns (deleted: nat)
      requires Valid() && n in nodes
      modifies this`nodes, slots
      ensures Valid() && Epochs(nodes) == old(Epochs(nodes)) && nodes.Keys == old(nodes.Keys)
      ensures slots[..] == Moved(old(slots[..]), n, None)
      ensures deleted == |Owned(old(slots[..]), n)|
    {
      ghost var before: Owners := slots[..];
      ghost var target := Moved(before, n, None);
      NoneDone(before, target);
      deleted := 0;
      for j := 0 to SLOTS
        invariant Valid() && Epochs(nodes) == old(Epochs(nodes)) && nodes.Keys == old(nodes.Keys)
        invariant Done(slots[..], target, before, j)
        invariant deleted + |Owned(slots[..], n)| == |Owned(before, n)|
      {
        NextDone(slots[..], target, before, j);
        var bit := FreeSlotOf(n, j);
        deleted := if bit then deleted + 1 else deleted;
      }
      AllDone(slots[..], target, before);
      assert Owned(target, n) == {};
    }

    method FreeSlotOf(n: NodeId, j: nat) returns (bit: bool)
      requires Valid() && n in nodes && j < SLOTS
      modifies this`nodes, slots
      ensures Valid() && Epochs(nodes) == old(Epochs(nodes)) && nodes.Keys == old(nodes.Keys)
      ensures slots[..] == old(slots[..])[j := Drop(old(slots[j]), n)]
      ensures |Owned(old(slots[..]), n)| == |Owned(slots[..], n)| + if bit then 1 else 0
    {
      bit := GetSlotBit(n, j);
      if bit {
        OwnedAfter(slots[..], j, n, None);
        assert j in Owned(slots[..], n);
        var _ := DelSlot(j);
      }
    }

    /** Forgetting a node frees its slots and its migrations. */
    method DelNode(n: NodeId)
      requires Valid() && n in nodes && n != myself
      modifies this`nodes, slots, importing, migrating
      ensures Valid() && Epochs(nodes) == old(Epochs(nodes)) - {n}
      ensures slots[..] == Moved(old(slots[..]), n, None)
      ensures importing[..] == Moved(old(importing[..]), n, None)
      ensures migrating[..] == Moved(old(migrating[..]), n, None)
    {
      ForgetSlots(n);
      Unlink(n);
    }

    method ForgetSlots(n: NodeId)
      requires Valid() && n in nodes
      modifies this`nodes, slots, importing, migrating
      ensures Valid() && Epochs(nodes) == old(Epochs(nodes)) && nodes.Keys == old(nodes.Keys)
      ensures slots[..] == Moved(old(slots[..]), n, None)
      ensures importing[..] == Moved(old(importing[..]), n, None)
      ensures migrating[..] == Moved(old(migrating[..]), n, None)
    {
      ghost var s0: Owners, i0: Owners, m0: Owners := slots[..], importing[..], migrating[..];
      ghost var s1, i1, m1 := Moved(s0, n, None), Moved(i0, n, None), Moved(m0, n, None);
      NoneDone(s0, s1);
      NoneDone(i0, i1);
      NoneDone(m0, m1);
      for j := 0 to SLOTS
        invariant Valid() && Epochs(nodes) == old(Epochs(nodes)) && nodes.Keys == old(nodes.Keys)
        invariant Done(slots[..], s1, s0, j) && Done(importing[..], i1, i0, j) && Done(migrating[..], m1, m0, j)
      {
        NextDone(slots[..], s1, s0, j);
        NextDone(importing[..], i1, i0, j);
        NextDone(migrating[..], m1, m0, j);
        ForgetAt(n, j);
      }
      AllDone(slots[..], s1, s0);
      AllDone(importing[..], i1, i0);
      AllDone(migrating[..], m1, m0);
    }

    method ForgetAt(n: NodeId, j: nat)
      requires Valid() && n in nodes && j < SLOTS
      modifies this`nodes, slots, importing, migrating
      ensures Valid() && Epochs(nodes) == old(Epochs(nodes)) && nodes.Keys == old(nodes.Keys)
      ensures slots[..] == old(slots[..])[j := Drop(old(slots[j]), n)]
      ensures importing[..] == old(importing[..])[j := Drop(old(importing[j]), n)]
      ensures migrating[..] == old(migrating[..])[j := Drop(old(migrating[j]), n)]
    {
      if importing[j] == Some(n) {
        importing[j] := None;
      }
      if migrating[j] == Some(n) {
        migrating[j] := None;
      }
      if slots[j] == Some(n) {
        var _ := DelSlot(j);
      }
    }

    method Unlink(n: NodeId)
      requires Valid() && n in nodes && n != myself && forall j :: 0 <= j < SLOTS ==> slots[j] != Some(n)
      modifies this`nodes
      ensures Valid() && nodes == old(nodes) - {n} && Epochs(nodes) == old(Epochs(nodes)) - {n}
    {
      RemoveKeepsConsistency(slots[..], nodes, n);
      nodes := nodes - {n};
    }

    /** Rebind one slot, as in lines 1583-1584, 2921-2922 and 4412-4413. */
    method SetSlotNode(j: nat, n: NodeId)
      requires Valid() && n in nodes && j < SLOTS
      modifies this`nodes, slots
      ensures Valid() && Epochs(nodes) == old(Epochs(nodes)) && nodes.Keys == old(nodes.Keys)
      ensures slots[..] == old(slots[..])[j := Some(n)]
    {
      var _ := DelSlot(j);
      var _ := AddSlot(n, j);
    }

    /** CLUSTER SETSLOT NODE. `holdsKeys` says whether keys of the slot are here. A slot with keys
        is never given away; the end of an import is announced with a new epoch, unless this
        node has the greatest one already. */
    method AssignSlot(j: nat, n: NodeId, holdsKeys: bool) returns (ok: bool)
      requires Valid() && j < SLOTS
      modifies this`nodes, this`currentEpoch, slots, importing, migrating
      ensures Valid() && nodes.Keys == old(nodes.Keys)
      ensures ok <==> n in nodes && (old(slots[j]) == Some(myself) && n != myself ==> !holdsKeys)
      ensures !ok ==> nodes == old(nodes) && slots[..] == old(slots[..])
      ensures !ok ==> importing[..] == old(importing[..]) && migrating[..] == old(migrating[..])
      ensures ok ==> slots[..] == old(slots[..])[j := Some(n)]
      ensures ok ==> migrating[..] == if holdsKeys then old(migrating[..]) else old(migrating[..])[j := None]
      ensures ok ==> importing[..] == if n != myself then old(importing[..]) else old(importing[..])[j := None]
      ensures EpochsAre(ok && n == myself && old(importing[j]).Some?, old(Epochs(nodes)), old(currentEpoch))
      ensures ok && n == myself && old(importing[j]).Some? ==> HasGreatestEpoch(old(Epochs(nodes)), old(currentEpoch))
    {
      ok := false;
      if n !in nodes {
        return;
      }
      if slots[j] == Some(myself) && n != myself {
        if holdsKeys {
          return;
        }
      }
      if !holdsKeys && migrating[j].Some? {
        migrating[j] := None;
      }
      assert !holdsKeys ==> migrating[..] == old(migrating[..])[j := None];
      EndImport(j, n);
      SetSlotNode(j, n);
      ok := true;
    }

    /** The epochs are those before, with a bump if `ends`. */
    ghost predicate EpochsAre(ends: bool, before: map<NodeId, nat>, current: nat)
      requires myself in before
      reads this
    {
      if ends && ClusterNode.Bumps(before[myself], before, current)
      then currentEpoch == current + 1 && Epochs(nodes) == before[myself := current + 1]
      else currentEpoch == current && Epochs(nodes) == before
    }

    /** This node's epoch is not zero and at least every one that was covered by the current epoch
        before, and the current one now. */
    ghost predicate HasGreatestEpoch(before: map<NodeId, nat>, current: nat)
      requires myself in nodes
      reads this
    {
      && 0 < nodes[myself].configEpoch && currentEpoch <= nodes[myself].configEpoch
      && forall n :: n in nodes && n in before && before[n] <= current ==>
           nodes[n].configEpoch <= nodes[myself].configEpoch
    }

    method EndImport(j: nat, n: NodeId)
      requires Valid() && j < SLOTS
      modifies this`nodes, this`currentEpoch, importing
      ensures Valid() && nodes.Keys == old(nodes.Keys)
      ensures importing[..] == if n != myself then old(importing[..]) else old(importing[..])[j := None]
      ensures EpochsAre(n == myself && old(importing[j]).Some?, old(Epochs(nodes)), old(currentEpoch))
      ensures n == myself && old(importing[j]).Some? ==> HasGreatestEpoch(old(Epochs(nodes)), old(currentEpoch))
    {
      if n == myself && importing[j].Some? {
        if ClusterNode.Bumps(nodes[myself].configEpoch, Epochs(nodes), currentEpoch) {
          currentEpoch := currentEpoch + 1;
          EpochKeepsConsistency(slots[..], nodes, myself, currentEpoch);
          nodes := nodes[myself := nodes[myself].(configEpoch := currentEpoch)];
        }
        importing[j] := None;
      }
    }

    /** clusterFailoverReplaceYourMaster: a promoted replica owns all its master owned. */
    method ReplaceMaster(master: NodeId)
      requires Valid() && master in nodes && master != myself
      modifies this`nodes, slots
      ensures Valid() && Epochs(nodes) == old(Epochs(nodes)) && nodes.Keys == old(nodes.Keys)
      ensures slots[..] == Moved(old(slots[..]), master, Some(myself))
    {
      ghost var before: Owners := slots[..];
      ghost var target := Moved(before, master, Some(myself));
      NoneDone(before, target);
      for j := 0 to SLOTS
        invariant Valid() && Epochs(nodes) == old(Epochs(nodes)) && nodes.Keys == old(nodes.Keys)
        invariant Done(slots[..], target, before, j)
      {
        NextDone(slots[..], target, before, j);
        TakeFrom(master, j);
      }
      AllDone(slots[..], target, before);
    }

    method TakeFrom(master: NodeId, j: nat)
      requires Valid() && master in nodes && j < SLOTS
      modifies this`nodes, slots
      ensures Valid() && Epochs(nodes) == old(Epochs(nodes)) && nodes.Keys == old(nodes.Keys)
      ensures slots[..] == old(slots[..])[j := if old(slots[j]) == Some(master) then Some(myself) else old(slots[j])]
    {
      var bit := GetSlotBit(master, j);
      if bit {
        SetSlotNode(j, myself);
      }
    }

    /** Only the slots differ from the table `t`. */
    ghost predicate SameTable(t: Table)
      requires Shape()
      reads this, slots, importing
    {
      Epochs(nodes) == t.epochs && nodes.Keys == t.epochs.Keys && Importing() == t.importing
    }

    method ClaimSlot(sender: NodeId, epoch: nat, claimed: Bitmap, j: nat, ghost t: Table) returns (taken: bool)
      requires Valid() && sender in nodes && j < SLOTS && 8 * |claimed| == SLOTS
      requires t.Valid() && SameTable(t) && slots[j] == t.owner[j]
      modifies this`nodes, slots
      ensures Valid() && SameTable(t)
      ensures slots[..] == old(slots[..])[j := Rebind(t, sender, epoch, Claimed(claimed)).owner[j]]
      ensures taken <==> Rebind(t, sender, epoch, Claimed(claimed)).owner[j] != t.owner[j]
    {
      taken := false;
      RebindAt(t, sender, epoch, Claimed(claimed), j);
      if !TestBit(claimed, j) {
      } else if slots[j] == Some(sender) {
      } else if importing[j].Some? {
      } else if slots[j].None? || nodes[slots[j].value].configEpoch < epoch {
        SetSlotNode(j, sender);
        taken := true;
      }
    }

    /** CLUSTER ADDSLOTS and DELSLOTS: all the slots or none, and the assertion on the result
        of each slot never fails. */
    method AddDelSlots(args: seq<int>, del: bool) returns (ok: bool)
      requires Valid()
      modifies this`nodes, slots, importing
      ensures Valid() && Epochs(nodes) == old(Epochs(nodes)) && nodes.Keys == old(nodes.Keys)
      ensures ok <==> Acceptable(args, old(slots[..]), del)
      ensures !ok ==> slots[..] == old(slots[..]) && importing[..] == old(importing[..])
      ensures ok ==> slots[..] == Assigned(old(slots[..]), args, if del then None else Some(myself))
      ensures ok ==> importing[..] == Assigned(old(importing[..]), args, None)
    {
      ok := CheckArgs(args, del);
      if !ok {
        return;
      }
      ghost var s0: Owners, i0: Owners := slots[..], importing[..];
      ghost var o := if del then None else Some(myself);
      ghost var s1, i1 := Assigned(s0, args, o), Assigned(i0, args, None);
      NoneDone(s0, s1);
      NoneDone(i0, i1);
      for j := 0 to SLOTS
        invariant Valid() && Epochs(nodes) == old(Epochs(nodes)) && nodes.Keys == old(nodes.Keys)
        invariant Done(slots[..], s1, s0, j) && Done(importing[..], i1, i0, j)
      {
        NextDone(slots[..], s1, s0, j);
        NextDone(importing[..], i1, i0, j);
        if j in args {
          AcceptableAt(args, s0, del, j);
        }
        AddDelSlot(args, del, j);
      }
      AllDone(slots[..], s1, s0);
      AllDone(importing[..], i1, i0);
    }

    /** The body of the loop over the slots. */
    method AddDelSlot(args: seq<int>, del: bool, j: nat)
      requires Valid() && j < SLOTS && (j in args ==> slots[j].Some? == del)
      modifies this`nodes, slots, importing
      ensures Valid() && Epochs(nodes) == old(Epochs(nodes)) && nodes.Keys == old(nodes.Keys)
      ensures j !in args ==> slots[..] == old(slots[..]) && importing[..] == old(importing[..])
      ensures j in args ==> slots[..] == old(slots[..])[j := if del then None else Some(myself)]
      ensures j in args ==> importing[..] == old(importing[..])[j := None]
    {
      if j in args {
        if importing[j].Some? {
          importing[j] := None;
        }
        assert importing[..] == old(importing[..])[j := None];
        var retval;
        if del {
          retval := DelSlot(j);
        } else {
          retval := AddSlot(myself, j);
        }
        assert retval;
      }
    }

    method CheckArgs(args: seq<int>, del: bool) returns (ok: bool)
      requires Valid()
      ensures ok <==> Acceptable(args, slots[..], del)
    {
      var marked: set<int> := {};
      for i := 0 to |args|
        invariant forall k :: 0 <= k < i ==> ArgOk(args, slots[..], del, k)
        invariant forall x :: x in marked <==> x in args[..i]
      {
        if args[i] < 0 || args[i] >= SLOTS {
          assert !ArgOk(args, slots[..], del, i);
          return false;
        }
        if del != slots[args[i]].Some? {
          assert !ArgOk(args, slots[..], del, i);
          return false;
        }
        if args[i] in marked {
          assert !ArgOk(args, slots[..], del, i);
          return false;
        }
        marked := marked + {args[i]};
      }
      ok := true;
    }

    /** clusterUpdateSlotsConfigWith. `keys` are the slots that hold keys here and `curmaster`
        is this node or the master it replicates. `demoted` says that a slot was taken from
        curmaster and it has none left; `dirty` are the lost slots that still hold keys. */
    method UpdateSlotsConfigWith(sender: NodeId, epoch: nat, claimed: Bitmap, curmaster: NodeId, keys: set<nat>)
      returns (demoted: bool, dirty: seq<nat>)
      requires Valid() && sender in nodes && curmaster in nodes && 8 * |claimed| == SLOTS
      modifies this`nodes, slots
      ensures Valid()
      ensures sender == myself ==> Value() == old(Value()) && !demoted && dirty == []
      ensures sender != myself ==> Value() == Rebind(old(Value()), sender, epoch, Claimed(claimed))
      ensures demoted <==> Lost(old(slots[..]), slots[..], curmaster, SLOTS) != {} && Owned(slots[..], curmaster) == {}
      ensures Elements(dirty) == Lost(old(slots[..]), slots[..], myself, SLOTS) * keys
    {
      if sender == myself {
        return false, [];
      }
      var newmaster;
      newmaster, dirty := ScanSlots(sender, epoch, claimed, curmaster, keys);
      assert Unfold(Consistency, 0) && Mirrors(slots[..], curmaster, nodes[curmaster]);
      demoted := newmaster && nodes[curmaster].numslots == 0;
    }

    method ScanSlots(sender: NodeId, epoch: nat, claimed: Bitmap, curmaster: NodeId, keys: set<nat>)
      returns (newmaster: bool, dirty: seq<nat>)
      requires Valid() && sender in nodes && 8 * |claimed| == SLOTS
      modifies this`nodes, slots
      ensures Valid() && nodes.Keys == old(nodes.Keys)
      ensures Value() == Rebind(old(Value()), sender, epoch, Claimed(claimed))
      ensures Found(old(slots[..]), slots[..], curmaster, myself, keys, SLOTS, newmaster, dirty)
    {
      ghost var t := Value();
      ghost var target := Rebind(t, sender, epoch, Claimed(claimed)).owner;
      StartScan(t, target, curmaster, keys);
      newmaster, dirty := ScanLoop(sender, epoch, claimed, curmaster, keys, t, target);
      assert Unfold(Scans, 0);
      AllDone(slots[..], target, t.owner);
      RebindDone(Value(), t, sender, epoch, Claimed(claimed));
    }

    /** The first `j` slots are scanned: they are as in `target`, the others as in `t`. */
    ghost predicate Scanned(t: Table, target: Owners, curmaster: NodeId, keys: set<nat>, j: nat, newmaster: bool,
                            dirty: seq<nat>)
      requires j <= SLOTS && Shape()
      reads this, slots, importing
    {
      forall u: nat :: Unfold(Scans, u) ==>
        && SameTable(t) && Done(slots[..], target, t.owner, j)
        && Found(t.owner, target, curmaster, myself, keys, j, newmaster, dirty)
    }

    lemma StartScan(t: Table, target: Owners, curmaster: NodeId, keys: set<nat>)
      requires Valid() && t == Value()
      ensures Scanned(t, target, curmaster, keys, 0, false, [])
    {
      NoneDone(t.owner, target);
    }

    method ScanLoop(sender: NodeId, epoch: nat, claimed: Bitmap, curmaster: NodeId, keys: set<nat>,
                    ghost t: Table, ghost target: Owners)
      returns (newmaster: bool, dirty: seq<nat>)
      requires Valid() && sender in nodes && 8 * |claimed| == SLOTS && Goal(t, sender, epoch, claimed, target)
      requires Scanned(t, target, curmaster, keys, 0, false, [])
      modifies this`nodes, slots
      ensures Valid() && Scanned(t, target, curmaster, keys, SLOTS, newmaster, dirty)
    {
      newmaster, dirty := false, [];
      for j := 0 to SLOTS
        invariant Valid() && sender in nodes && Scanned(t, target, curmaster, keys, j, newmaster, dirty)
      {
        newmaster, dirty := ScanSlot(sender, epoch, claimed, curmaster, keys, j, newmaster, dirty, t, target);
      }
    }

    method ScanSlot(sender: NodeId, epoch: nat, claimed: Bitmap, curmaster: NodeId, keys: set<nat>, j: nat,
                    newmaster: bool, dirty: seq<nat>, ghost t: Table, ghost target: Owners)
      returns (newmaster': bool, dirty': seq<nat>)
      requires Valid() && sender in nodes && j < SLOTS
      requires 8 * |claimed| == SLOTS && Goal(t, sender, epoch, claimed, target)
      requires Scanned(t, target, curmaster, keys, j, newmaster, dirty)
      modifies this`nodes, slots
      ensures Valid() && sender in nodes && Scanned(t, target, curmaster, keys, j + 1, newmaster', dirty')
    {
      assert Unfold(Scans, 0);
      NextDone(slots[..], target, t.owner, j);
      FoundStep(t.owner, target, curmaster, myself, keys, j, newmaster, dirty);
      var was := slots[j];
      var taken := ClaimSlot(sender, epoch, claimed, j, t);
      dirty' := if taken && was == Some(myself) && j in keys then dirty + [j] else dirty;
      newmaster' := newmaster || (taken && was == Some(curmaster));
    }

    /** The slots part of a PING or PONG from a master (lines 1709-1713 and 1931-1943). The
        update is skipped exactly when the sender owns what it claims, and is never needed then. */
    method ProcessClaim(sender: NodeId, epoch: nat, claimed: Bitmap, curmaster: NodeId, keys: set<nat>)
      returns (demoted: bool, dirty: seq<nat>, ghost skipped: bool)
      requires Valid() && sender in nodes && sender != myself && curmaster in nodes && 8 * |claimed| == SLOTS
      modifies this`nodes, slots
      ensures Valid()
      ensures Value() == Rebind(Learn(old(Value()), sender, epoch), sender, epoch, Claimed(claimed))
      ensures nodes.Keys == old(nodes.Keys) && EpochsRaised(old(Epochs(nodes)), sender, epoch)
      ensures demoted <==> Lost(old(slots[..]), slots[..], curmaster, SLOTS) != {} && Owned(slots[..], curmaster) == {}
      ensures Elements(dirty) == Lost(old(slots[..]), slots[..], myself, SLOTS) * keys
      ensures skipped <==> Claimed(claimed) == Owned(old(slots[..]), sender)
    {
      LearnEpoch(sender, epoch);
      var same := nodes[sender].slots == claimed;
      skipped := same;
      SameClaim(slots[..], nodes, sender, claimed);
      if same {
        NothingToRebind(Value(), sender, epoch, Claimed(claimed));
        NothingLost(slots[..], curmaster, myself);
        return false, [], skipped;
      }
      demoted, dirty := UpdateSlotsConfigWith(sender, epoch, claimed, curmaster, keys);
    }

    /** No epoch is lower than before; the sender's is the greater of its old one and `epoch`, the
        others are the old ones. */
    ghost predicate EpochsRaised(before: map<NodeId, nat>, sender: NodeId, epoch: nat)
      reads this
    {
      && nodes.Keys == before.Keys && sender in nodes
      && (forall n :: n in nodes ==> nodes[n].configEpoch >= before[n])
      && (forall n :: n in nodes && n != sender ==> nodes[n].configEpoch == before[n])
      && nodes[sender].configEpoch >= epoch
      && nodes[sender].configEpoch in {before[sender], epoch}
    }

    method LearnEpoch(sender: NodeId, epoch: nat)
      requires Valid() && sender in nodes
      modifies this`nodes
      ensures Valid() && nodes.Keys == old(nodes.Keys) && Value() == Learn(old(Value()), sender, epoch)
      ensures EpochsRaised(old(Epochs(nodes)), sender, epoch)
    {
      if epoch > nodes[sender].configEpoch {
        EpochKeepsConsistency(slots[..], nodes, sender, epoch);
        nodes := nodes[sender := nodes[sender].(configEpoch := epoch)];
      }
    }
  }
}
