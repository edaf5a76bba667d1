/** Whole calls and whole runs on the ring. */
module RingRuns {
  import opened RingSpec
  import opened RingOwnership
  import opened RingRemoval

  ghost predicate Virtual(replicas: map<string, nat>, key: string) {
    exists n, i: nat :: n in replicas && i < replicas[n] && key == RawKey(n, i)
  }

  /** The ring holds exactly the virtual nodes of its physical nodes, of which each has at least one,
      and every recorded key is at its owner. */
  ghost predicate Good(h: Hash, st: RingState) {
    && SlotsOk(h, st.slots) && Owned(h, st)
    && (forall k :: OnRing(h, st.slots, k) <==> Virtual(st.replicas, k))
    && (forall n :: n in st.replicas ==> 0 < st.replicas[n])
  }

  // ------------------------------------------------------------ adding a node

  ghost predicate Among(node: string, i: nat, count: nat, key: string) {
    exists j: nat :: i <= j < count && key == RawKey(node, j)
  }

  ghost predicate Ready(h: Hash, slots: Slots, node: string, i: nat, count: nat) {
    forall k :: Among(node, i, count, k) ==> !OnRing(h, slots, k)
  }

  lemma {:induction false} AddFromKeeps(c: Config, st: RingState, node: string, i: nat, count: nat)
    requires c.migrating && SlotsOk(c.hash, st.slots) && Owned(c.hash, st) && Ready(c.hash, st.slots, node, i, count)
    ensures var st1 := AddFrom(c, st, node, i, count);
            && SlotsOk(c.hash, st1.slots) && Owned(c.hash, st1)
            && Tracked(st1) == Tracked(st) && st1.replicas == st.replicas
            && (forall k :: OnRing(c.hash, st1.slots, k) <==> OnRing(c.hash, st.slots, k) || Among(node, i, count, k))
    decreases count - i
  {
    if i < count {
      hide SlotsOk, Owned, AddVirtual, Tracked, OnRing;
      var key, mid := RawKey(node, i), AddVirtual(c, st, node, i);
      assert Among(node, i, count, key);
      AddVirtualKeeps(c, st, node, i);
      forall k | Among(node, i + 1, count, k) ensures Among(node, i, count, k) && k != key {
        var j: nat :| i + 1 <= j < count && k == RawKey(node, j);
        if k == key { RawKeyInjective(node, i, node, j); }
      }
      AddFromKeeps(c, mid, node, i + 1, count);
      forall k ensures Among(node, i, count, k) <==> k == key || Among(node, i + 1, count, k) {}
    }
  }

  /** Adding a node fails exactly when it is there already; otherwise every key follows its owner. */
  lemma AddNodeKeeps(c: Config, st: RingState, node: string, weight: int)
    requires c.migrating && 0 < c.replicas && Good(c.hash, st)
    ensures var out := AddNode(c, st, node, weight);
            && (out.Done? <==> node !in st.replicas)
            && (out.Done? ==>
                  && Good(c.hash, out.state) && Tracked(out.state) == Tracked(st)
                  && out.state.replicas == st.replicas[node := ValidWeight(weight) * c.replicas])
  {
    var count := ValidWeight(weight) * c.replicas;
    assert count > 0;
    if node !in st.replicas {
      var st0 := st.(replicas := st.replicas[node := count]);
      forall k | Among(node, 0, count, k) ensures !OnRing(c.hash, st.slots, k) {
        FreshVirtual(st.replicas, node, 0, count, k);
      }
      assert Owned(c.hash, st0) && Tracked(st0) == Tracked(st) by { SameOwned(c.hash, st, st0); }
      AddFromKeeps(c, st0, node, 0, count);
      var st1 := AddFrom(c, st0, node, 0, count);
      forall k ensures OnRing(c.hash, st1.slots, k) <==> Virtual(st0.replicas, k) {
        VirtualMore(st.replicas, node, count, k);
      }
    }
  }

  /** How many virtual nodes a weight gives: weights below 1 count as 1, weights above 10 as 10. */
  ghost predicate Copies(weight: int, replicas: nat, count: int) {
    && (1 <= weight <= 10 ==> count == weight * replicas)
    && (weight < 1 ==> count == replicas) && (weight > 10 ==> count == 10 * replicas)
  }

  /** After a node is added, the virtual nodes on the ring that belong to it are its first copies, as many as the
      weight says, each at the hash of its raw key. */
  lemma VirtualNodesByWeight(c: Config, st: RingState, node: string, weight: int, count: nat, k: string)
    requires c.migrating && 0 < c.replicas && Good(c.hash, st) && node !in st.replicas && Copies(weight, c.replicas, count)
    ensures var out := AddNode(c, st, node, weight);
            && out.Done? && out.state.replicas == st.replicas[node := count]
            && (OnRing(c.hash, out.state.slots, k) && NodeOf(k) == node <==> exists i: nat :: i < count && k == RawKey(node, i))
            && (NodeOf(k) != node ==> (OnRing(c.hash, out.state.slots, k) <==> OnRing(c.hash, st.slots, k)))
  {
    AddNodeKeeps(c, st, node, weight);
    var out := AddNode(c, st, node, weight).state;
    hide AddNode, RawKey, NodeOf, OnRing;
    assert OnRing(c.hash, out.slots, k) <==> Virtual(st.replicas[node := count], k);
    VirtualMore(st.replicas, node, count, k);
    if Virtual(st.replicas, k) {
      var n, i: nat :| n in st.replicas && i < st.replicas[n] && k == RawKey(n, i);
      NodeOfRawKey(n, i);
    }
    if i: nat :| i < count && k == RawKey(node, i) { NodeOfRawKey(node, i); }
  }

  /** Without a migrator a node gets the same virtual nodes, and no record moves. */
  lemma AddWithoutMigrator(c: Config, st: RingState, node: string, weight: int)
    requires !c.migrating && node !in st.replicas
    ensures var out, moved := AddNode(c, st, node, weight), AddNode(c.(migrating := true), st, node, weight);
            && out.Done? && moved.Done? && out.state.slots == moved.state.slots && out.state.replicas == moved.state.replicas
            && out.state.data == st.data
  {
    var count := ValidWeight(weight) * c.replicas;
    var st0 := st.(replicas := st.replicas[node := count]);
    AddFromWithout(c, st0, st0, node, 0, count);
  }

  lemma {:induction false} AddFromWithout(c: Config, st: RingState, st1: RingState, node: string, i: nat, count: nat)
    requires !c.migrating && st.slots == st1.slots && st.replicas == st1.replicas
    ensures var out, moved := AddFrom(c, st, node, i, count), AddFrom(c.(migrating := true), st1, node, i, count);
            out.slots == moved.slots && out.replicas == moved.replicas && out.data == st.data
    decreases count - i
  {
    if i < count {
      AddVirtualWithout(c, st, st1, node, i);
      hide AddVirtual;
      AddFromWithout(c, AddVirtual(c, st, node, i), AddVirtual(c.(migrating := true), st1, node, i), node, i + 1, count);
    }
  }

  lemma AddVirtualWithout(c: Config, st: RingState, st1: RingState, node: string, i: nat)
    requires !c.migrating && st.slots == st1.slots && st.replicas == st1.replicas
    ensures var out, moved := AddVirtual(c, st, node, i), AddVirtual(c.(migrating := true), st1, node, i);
            out.slots == moved.slots && out.replicas == moved.replicas && out.data == st.data
  {
    hide MigrateIn, RawKey;
    MigrateInSlots(c.hash, Add(st1, c.hash(RawKey(node, i)), RawKey(node, i)), c.hash(RawKey(node, i)), node);
  }

  lemma MigrateInSlots(h: Hash, st: RingState, s: Score, node: string)
    ensures MigrateIn(h, st, s, node).slots == st.slots && MigrateIn(h, st, s, node).replicas == st.replicas
  {
    hide KeysOnArc, Floor, Ceiling, NodeOf;
  }

  lemma SameOwned(h: Hash, st: RingState, st1: RingState)
    requires st1.slots == st.slots && st1.data == st.data
    ensures Owned(h, st) ==> Owned(h, st1)
    ensures Tracked(st1) == Tracked(st)
  {
    SameData(st, st1);
    assert forall n, d :: Recorded(st, n, d) <==> Recorded(st1, n, d);
  }

  lemma FreshVirtual(replicas: map<string, nat>, node: string, i: nat, count: nat, k: string)
    requires Among(node, i, count, k) && node !in replicas
    ensures !Virtual(replicas, k)
  {
    var j: nat :| i <= j < count && k == RawKey(node, j);
    if Virtual(replicas, k) {
      var n, l: nat :| n in replicas && l < replicas[n] && k == RawKey(n, l);
      RawKeyInjective(node, j, n, l);
    }
  }

  lemma VirtualMore(replicas: map<string, nat>, node: string, count: nat, k: string)
    requires node !in replicas
    ensures Virtual(replicas[node := count], k) <==> Virtual(replicas, k) || Among(node, 0, count, k)
  {
    var more := replicas[node := count];
    if Virtual(more, k) {
      var n, l: nat :| n in more && l < more[n] && k == RawKey(n, l);
      assert if n == node then Among(node, 0, count, k) else n in replicas && l < replicas[n];
    }
    if Virtual(replicas, k) {
      var n, l: nat :| n in replicas && l < replicas[n] && k == RawKey(n, l);
      assert n in more && l < more[n];
    }
    if Among(node, 0, count, k) {
      var l: nat :| 0 <= l < count && k == RawKey(node, l);
      assert node in more && l < more[node];
    }
  }

  // ------------------------------------------------------------ removing a node

  /** The virtual nodes of `node` still on the ring are those from i on. */
  ghost predicate Remaining(h: Hash, slots: Slots, node: string, i: nat, count: nat) {
    forall k :: OnRing(h, slots, k) && NodeOf(k) == node <==> Among(node, i, count, k)
  }

  ghost predicate Going(h: Hash, st: RingState, node: string, i: nat, count: nat) {
    && SlotsOk(h, st.slots) && Leaving(h, st, node, Strip(st.slots, node))
    && Remaining(h, st.slots, node, i, count) && NamesTold(h, st.slots) && NoClash(h, st.slots, node)
  }

  ghost predicate SameOthers(h: Hash, slots: Slots, slots1: Slots, node: string) {
    && Strip(slots1, node) == Strip(slots, node)
    && (forall k :: NodeOf(k) != node ==> (OnRing(h, slots1, k) <==> OnRing(h, slots, k)))
  }

  lemma GoingStep(h: Hash, st: RingState, st1: RingState, node: string, i: nat, count: nat)
    requires i < count && Going(h, st, node, i, count) && StepKept(h, st, st1, node, RawKey(node, i))
    ensures Going(h, st1, node, i + 1, count) && SameOthers(h, st.slots, st1.slots, node)
    ensures st1.replicas == st.replicas && Tracked(st1) == Tracked(st)
  {
    hide SlotsOk, Leaving, Tracked, OnRing, NodeOf, RawKey, Strip;
    var key := RawKey(node, i);
    NodeOfRawKey(node, i);
    forall k ensures OnRing(h, st1.slots, k) && NodeOf(k) == node <==> Among(node, i + 1, count, k) {
      assert Among(node, i, count, k) <==> k == key || Among(node, i + 1, count, k);
      if Among(node, i + 1, count, key) {
        var j: nat :| i + 1 <= j < count && key == RawKey(node, j);
        RawKeyInjective(node, i, node, j);
      }
    }
  }

  lemma SameOthersSelf(h: Hash, a: Slots, node: string)
    ensures SameOthers(h, a, a, node)
  {
  }

  lemma SameOthersTwice(h: Hash, a: Slots, b: Slots, c: Slots, node: string)
    requires SameOthers(h, a, b, node)
    ensures Strip(b, node) == Strip(a, node) && (SameOthers(h, b, c, node) ==> SameOthers(h, a, c, node))
  {
    hide Strip, OnRing, NodeOf;
  }

  lemma GoingFirst(h: Hash, st: RingState, node: string, i: nat, count: nat)
    requires i < count && Going(h, st, node, i, count)
    ensures Leaves(h, st, RawKey(node, i)) && NodeOf(RawKey(node, i)) == node
    ensures NamesTold(h, st.slots) && NoClash(h, st.slots, node)
  {
    NodeOfRawKey(node, i);
    assert Among(node, i, count, RawKey(node, i));
    hide RawKey, NodeOf;
  }

  lemma {:induction false} RemoveFromKeeps(c: Config, st: RingState, node: string, i: nat, count: nat)
    requires c.migrating && i <= count && Going(c.hash, st, node, i, count)
    ensures var out := RemoveFrom(c, st, node, i, count);
            && (out.Failed? ==> Strip(st.slots, node).Keys == {} && DataOf(st, node) != {})
            && (out.Done? ==>
                  && Going(c.hash, out.state, node, count, count)
                  && Tracked(out.state) == Tracked(st) && out.state.replicas == st.replicas
                  && SameOthers(c.hash, st.slots, out.state.slots, node))
    decreases count - i
  {
    hide Going, StepKept, SameOthers, Leaves, Strip, Tracked, RemoveVirtual, DataOf, NamesTold, NoClash, RawKey, NodeOf;
    SameOthersSelf(c.hash, st.slots, node);
    if i < count {
      var out := RemoveVirtual(c, st, node, i);
      GoingFirst(c.hash, st, node, i, count);
      RemoveVirtualKeeps(c, st, node, i);
      if out.Done? {
        GoingStep(c.hash, st, out.state, node, i, count);
        RemoveVirtualShrinks(c, st, node, i);
        RemoveFromKeeps(c, out.state, node, i + 1, count);
        SameOthersTwice(c.hash, st.slots, out.state.slots, RemoveFrom(c, out.state, node, i + 1, count).state.slots, node);
      }
    }
  }

  /** With none of its virtual nodes left, the ring is the one the removal was to end in. */
  lemma GoneIsStrip(h: Hash, slots: Slots, node: string)
    requires SlotsOk(h, slots) && forall k :: OnRing(h, slots, k) ==> NodeOf(k) != node
    ensures Strip(slots, node) == slots
  {
    hide NodeOf;
    forall s | s in slots ensures Others(slots[s], node) == slots[s] && slots[s] != [] {
      assert SlotOk(h, slots, s);
      forall k | k in slots[s] ensures NodeOf(k) != node { assert OnRing(h, slots, k); }
      OthersAll(slots[s], node);
    }
  }

  lemma {:induction false} OthersAll(nodes: seq<string>, node: string)
    requires forall k :: k in nodes ==> NodeOf(k) != node
    ensures Others(nodes, node) == nodes
  {
    if nodes != [] { OthersAll(nodes[1..], node); }
  }

  lemma GoneOwned(h: Hash, st: RingState, node: string, count: nat)
    requires Going(h, st, node, count, count)
    ensures Owned(h, st)
  {
    hide NodeOf;
    forall k | OnRing(h, st.slots, k) ensures NodeOf(k) != node { assert !Among(node, count, count, k); }
    GoneIsStrip(h, st.slots, node);
    forall m, d | Recorded(st, m, d) ensures st.slots.Keys != {} && m == Owner(h, st.slots, d) {
      OwnerOnRing(h, st.slots, d);
    }
  }

  lemma OwnerOnRing(h: Hash, slots: Slots, d: string)
    requires SlotsOk(h, slots) && slots.Keys != {}
    ensures exists k :: OnRing(h, slots, k) && Owner(h, slots, d) == NodeOf(k)
  {
    OwnerAt(h, slots, d);
    var s := Ceiling(slots.Keys, h(d));
    assert SlotOk(h, slots, s);
    assert OnRing(h, slots, slots[s][0]);
  }

  // ------------------------------------------------------------ names

  /** No node is named like a virtual node of another, and the empty name is not used beside others. */
  ghost predicate SafeNames(names: iset<string>) {
    && (forall n, m, i: nat :: n in names && m in names ==> m != RawKey(n, i))
    && (forall n :: "" in names && n in names ==> n == "")
  }

  ghost function Nodes(st: RingState): iset<string> {
    iset n | n in st.replicas
  }

  lemma OnRingNode(h: Hash, st: RingState, k: string)
    requires Good(h, st) && OnRing(h, st.slots, k)
    ensures NodeOf(k) in st.replicas
  {
    var n, i: nat :| n in st.replicas && i < st.replicas[n] && k == RawKey(n, i);
    NodeOfRawKey(n, i);
  }

  lemma NodeOnRing(h: Hash, st: RingState, n: string, i: nat)
    requires Good(h, st) && n in st.replicas && i < st.replicas[n]
    ensures OnRing(h, st.slots, RawKey(n, i)) && NodeOf(RawKey(n, i)) == n
  {
    NodeOfRawKey(n, i);
    assert Virtual(st.replicas, RawKey(n, i));
  }

  lemma StartGoing(h: Hash, st: RingState, node: string)
    requires Good(h, st) && node in st.replicas && SafeNames(Nodes(st))
    ensures Going(h, st.(replicas := st.replicas - {node}), node, 0, st.replicas[node])
  {
    var st0 := st.(replicas := st.replicas - {node});
    var count := st.replicas[node];
    hide RawKey, NodeOf;
    forall m, d | Recorded(st0, m, d)
      ensures if m == node then st.slots.Keys != {} && Owner(h, st.slots, d) == node
              else Strip(st.slots, node).Keys != {} && Owner(h, Strip(st.slots, node), d) == m
    {
      assert Recorded(st, m, d);
      if m != node { StripOwner(h, st.slots, node, d); }
    }
    assert Leaving(h, st0, node, Strip(st0.slots, node));
    hide SlotsOk, Strip, Leaving;
    forall k ensures OnRing(h, st.slots, k) && NodeOf(k) == node <==> Among(node, 0, count, k) {
      if OnRing(h, st.slots, k) && NodeOf(k) == node {
        var n, i: nat :| n in st.replicas && i < st.replicas[n] && k == RawKey(n, i);
        NodeOfRawKey(n, i);
      }
      if Among(node, 0, count, k) {
        var j: nat :| 0 <= j < count && k == RawKey(node, j);
        NodeOnRing(h, st, node, j);
      }
    }
    forall k | OnRing(h, st.slots, k) ensures NodeOf(k) in Nodes(st) { OnRingNode(h, st, k); }
  }

  /** Others on the ring: exactly when another physical node is there. */
  lemma OthersThere(h: Hash, st: RingState, node: string)
    requires Good(h, st)
    ensures Strip(st.slots, node).Keys == {} <==> forall m :: m in st.replicas ==> m == node
  {
    if m :| m in st.replicas && m != node {
      NodeOnRing(h, st, m, 0);
      var k := RawKey(m, 0);
      assert k in Others(st.slots[h(k)], node);
      assert h(k) in Strip(st.slots, node);
    }
    if Strip(st.slots, node).Keys != {} {
      var s :| s in Strip(st.slots, node);
      var k := Others(st.slots[s], node)[0];
      assert k in Others(st.slots[s], node);
      assert SlotOk(h, st.slots, s) && OnRing(h, st.slots, k);
      OnRingNode(h, st, k);
    }
  }

  /** Removing a node succeeds exactly when it is there and either another node can take its keys or
      it has none; then every key follows its owner and none is lost. */
  lemma RemoveNodeKeeps(c: Config, st: RingState, node: string)
    requires c.migrating && Good(c.hash, st) && SafeNames(Nodes(st))
    ensures var out := RemoveNode(c, st, node);
            && (out.Done? <==> node in st.replicas && ((exists m :: m in st.replicas && m != node) || DataOf(st, node) == {}))
            && (out.Done? ==>
                  && Good(c.hash, out.state) && Tracked(out.state) == Tracked(st)
                  && out.state.replicas == st.replicas - {node})
  {
    if node in st.replicas {
      var st0, count := st.(replicas := st.replicas - {node}), st.replicas[node];
      StartGoing(c.hash, st, node);
      SameOwned(c.hash, st, st0);
      RemoveFromKeeps(c, st0, node, 0, count);
      OthersThere(c.hash, st, node);
      var out := RemoveFrom(c, st0, node, 0, count);
      if out.Done? {
        GoneOwned(c.hash, out.state, node, count);
        RemovedVirtual(c.hash, st, out.state, node);
        LastNodeKeyless(c.hash, st, out.state, node, count);
      }
    }
  }

  lemma RemovedVirtual(h: Hash, st: RingState, st1: RingState, node: string)
    requires Good(h, st) && node in st.replicas && st1.replicas == st.replicas - {node}
    requires Remaining(h, st1.slots, node, st.replicas[node], st.replicas[node])
    requires forall k :: NodeOf(k) != node ==> (OnRing(h, st1.slots, k) <==> OnRing(h, st.slots, k))
    ensures forall k :: OnRing(h, st1.slots, k) <==> Virtual(st1.replicas, k)
  {
    var count := st.replicas[node];
    hide SlotsOk, RawKey, NodeOf, OnRing;
    forall k ensures OnRing(h, st1.slots, k) <==> Virtual(st1.replicas, k) {
      assert !Among(node, count, count, k);
      if OnRing(h, st1.slots, k) {
        assert Virtual(st.replicas, k);
        var n, i: nat :| n in st.replicas && i < st.replicas[n] && k == RawKey(n, i);
        NodeOfRawKey(n, i);
        assert n in st1.replicas && i < st1.replicas[n];
      }
      if Virtual(st1.replicas, k) {
        var n, i: nat :| n in st1.replicas && i < st1.replicas[n] && k == RawKey(n, i);
        NodeOnRing(h, st, n, i);
      }
    }
  }

  lemma LastNodeKeyless(h: Hash, st: RingState, st1: RingState, node: string, count: nat)
    requires Going(h, st1, node, count, count) && Tracked(st1) == Tracked(st) && Strip(st1.slots, node) == Strip(st.slots, node)
    ensures Strip(st.slots, node).Keys == {} ==> DataOf(st, node) == {}
  {
    GoneOwned(h, st1, node, count);
    hide NodeOf;
    forall k | OnRing(h, st1.slots, k) ensures NodeOf(k) != node { assert !Among(node, count, count, k); }
    GoneIsStrip(h, st1.slots, node);
    if d :| d in DataOf(st, node) {
      assert Recorded(st, node, d);
      assert d in Tracked(st1);
      var m :| Recorded(st1, m, d);
    }
  }

  // ------------------------------------------------------------ lookups

  /** A lookup fails exactly on an empty ring; otherwise it records the key, once, where it belongs. */
  lemma GetNodeKeeps(c: Config, st: RingState, key: string)
    requires Good(c.hash, st)
    ensures var out := GetNode(c, st, key);
            && (out.Done? <==> exists n :: n in st.replicas)
            && (out.Done? ==>
                  && Good(c.hash, out.state) && Tracked(out.state) == Tracked(st) + iset{key}
                  && out.state.replicas == st.replicas && out.state.slots == st.slots
                  && Recorded(out.state, Owner(c.hash, st.slots, key), key))
  {
    var h, out := c.hash, GetNode(c, st, key);
    if st.slots.Keys != {} {
      OwnerAt(h, st.slots, key);
      OwnerOnRing(h, st.slots, key);
      var k :| OnRing(h, st.slots, k) && Owner(h, st.slots, key) == NodeOf(k);
      OnRingNode(h, st, k);
      hide Owner, NodeOf, SlotsOk;
      RecordedOnce(st, Owner(h, st.slots, key), key);
    } else if n :| n in st.replicas {
      hide Owner, NodeOf, SlotsOk, Good, AddKeys, Recorded, Tracked;
      NodeOnRing(h, st, n, 0);
    }
  }

  lemma RecordedOnce(st: RingState, n: string, key: string)
    ensures var st1 := AddKeys(st, n, {key});
            && Recorded(st1, n, key) && Tracked(st1) == Tracked(st) + iset{key}
            && (forall m, d :: Recorded(st1, m, d) <==> Recorded(st, m, d) || (m == n && d == key))
  {
    var st1 := AddKeys(st, n, {key});
    assert forall m, d :: Recorded(st1, m, d) <==> Recorded(st, m, d) || (m == n && d == key);
    hide Recorded, AddKeys;
    assert Recorded(st1, n, key);
    forall d ensures d in Tracked(st1) <==> d in Tracked(st) || d == key {}
  }

  // ------------------------------------------------------------ runs

  ghost function Asked(ops: seq<Op>): iset<string> {
    iset op | op in ops && op.GetOp? :: op.key
  }

  ghost predicate Uses(ops: seq<Op>, names: iset<string>) {
    forall op :: op in ops && op.AddOp? ==> op.node in names
  }

  ghost predicate Proper(c: Config) { c.migrating && 0 < c.replicas }

  /** The records and the lookup agree: a key is recorded where it belongs and nowhere else, and
      exactly the keys asked for are recorded. */
  ghost predicate Faithful(c: Config, st: RingState, ops: seq<Op>) {
    && (forall n, d :: Recorded(st, n, d) <==> d in Asked(ops) && st.slots.Keys != {} && n == Owner(c.hash, st.slots, d))
    && (forall d :: d in Asked(ops) ==> st.slots.Keys != {})
  }

  lemma {:induction false} RunKeeps(c: Config, ops: seq<Op>, names: iset<string>)
    requires Proper(c) && SafeNames(names) && Uses(ops, names) && Run(c, ops).Done?
    ensures var st := Run(c, ops).state; Good(c.hash, st) && Tracked(st) == Asked(ops) && Nodes(st) <= names
  {
    if ops == [] {
      assert forall k :: !Virtual(map[], k);
    } else {
      var before, op := ops[..|ops| - 1], ops[|ops| - 1];
      assert ops == before + [op];
      assert Run(c, before).Done?;
      RunKeeps(c, before, names);
      var st := Run(c, before).state;
      hide Good, SafeNames, Tracked, Perform;
      AskedMore(before, op);
      RunMore(c, before, op);
      hide Asked, Run;
      assert op in ops;
      PerformKeeps(c, st, op, names);
    }
  }

  lemma AskedMore(ops: seq<Op>, op: Op)
    ensures Asked(ops + [op]) == Asked(ops) + if op.GetOp? then iset{op.key} else iset{}
  {
    forall d ensures d in Asked(ops + [op]) <==> d in Asked(ops) || (op.GetOp? && d == op.key) {
      if op.GetOp? && d == op.key { assert op in ops + [op]; }
      if d in Asked(ops) { var o :| o in ops && o.GetOp? && o.key == d; assert o in ops + [op]; }
    }
  }

  /** What any successful call keeps. */
  lemma PerformKeeps(c: Config, st: RingState, op: Op, names: iset<string>)
    requires Proper(c) && SafeNames(names) && Good(c.hash, st) && Nodes(st) <= names
    requires (op.AddOp? ==> op.node in names) && Perform(c, st, op).Done?
    ensures var st1 := Perform(c, st, op).state;
            Good(c.hash, st1) && Nodes(st1) <= names && Tracked(st1) == Tracked(st) + if op.GetOp? then iset{op.key} else iset{}
  {
    assert SafeNames(Nodes(st)) by { hide RawKey; }
    hide Good, SafeNames, AddNode, RemoveNode, GetNode, Tracked;
    match op
    case AddOp(node, weight) => AddNodeKeeps(c, st, node, weight);
    case RemoveOp(node) => RemoveNodeKeeps(c, st, node);
    case GetOp(key) => GetNodeKeeps(c, st, key);
  }

  lemma RunMore(c: Config, ops: seq<Op>, op: Op)
    requires Run(c, ops).Done?
    ensures Run(c, ops + [op]) == Perform(c, Run(c, ops).state, op)
  {
    assert (ops + [op])[..|ops|] == ops;
  }

  /** Ownership is conserved: after every run of successful calls each key ever looked up is recorded
      at exactly one node, the one a lookup gives. */
  lemma OwnershipConserved(c: Config, ops: seq<Op>, names: iset<string>)
    requires Proper(c) && SafeNames(names) && Uses(ops, names) && Run(c, ops).Done?
    ensures Faithful(c, Run(c, ops).state, ops)
  {
    RunKeeps(c, ops, names);
    var st := Run(c, ops).state;
    hide Run, Owner, Asked;
    forall d | d in Asked(ops) ensures st.slots.Keys != {} && Recorded(st, Owner(c.hash, st.slots, d), d) {
      assert d in Tracked(st);
      var n :| Recorded(st, n, d);
    }
    forall n, d | Recorded(st, n, d) ensures d in Asked(ops) { assert d in Tracked(st); }
  }

  // ------------------------------------------------------------ what unsafe names do

  /** d is recorded at most at m. */
  ghost predicate OnlyAt(st: RingState, d: string, m: string) {
    forall x :: Recorded(st, x, d) ==> x == m
  }

  lemma {:induction false} ClashLoses(c: Config, st: RingState, node: string, i: nat, count: nat, at: nat, d: string)
    requires i <= count && OnlyAt(st, d, RawKey(node, at))
    requires i <= at < count || d !in Tracked(st)
    requires RemoveFrom(c, st, node, i, count).Done?
    ensures d !in Tracked(RemoveFrom(c, st, node, i, count).state)
    decreases count - i
  {
    if i < count {
      var out := RemoveVirtual(c, st, node, i);
      StillOnlyAt(c, st, node, i, at, d);
      ClashLoses(c, out.state, node, i + 1, count, at, d);
    }
  }

  lemma StillOnlyAt(c: Config, st: RingState, node: string, i: nat, at: nat, d: string)
    requires OnlyAt(st, d, RawKey(node, at)) && RemoveVirtual(c, st, node, i).Done?
    ensures var st1 := RemoveVirtual(c, st, node, i).state;
            OnlyAt(st1, d, RawKey(node, at)) && (i == at || d !in Tracked(st) ==> d !in Tracked(st1))
  {
    var h, key := c.hash, RawKey(node, i);
    var s, st1 := h(key), RemoveVirtual(c, st, node, i).state;
    var mid := if c.migrating then MigrateOut(h, st, s, node).state else st;
    assert |RawKey(node, at)| > |node|;
    assert d !in DataOf(st, node) by { assert d in DataOf(st, node) ==> Recorded(st, node, d); }
    assert forall x :: Recorded(mid, x, d) ==> Recorded(st, x, d) by {
      if s in st.slots && st.slots[s] != [] {
        var keys, to := Handed(h, st, s, node), Receiver(st.slots, s, node);
        assert d !in keys;
        hide Handed, Receiver, NodeOf, RawKey;
        forall x | Recorded(mid, x, d) ensures Recorded(st, x, d) { MoveRecorded(st, node, to, keys, x, d); }
      }
    }
    hide MigrateOut, NodeOf, RawKey;
    assert forall x :: Recorded(st1, x, d) ==> Recorded(mid, x, d) && x != key;
  }

  /** A node without keys of its own leaves without failing. */
  lemma {:induction false} KeylessLeaves(c: Config, st: RingState, node: string, i: nat, count: nat)
    requires i <= count && SlotsOk(c.hash, st.slots) && DataOf(st, node) == {}
    requires forall j: nat :: i <= j < count ==> OnRing(c.hash, st.slots, RawKey(node, j))
    ensures RemoveFrom(c, st, node, i, count).Done?
    decreases count - i
  {
    if i < count {
      var key := RawKey(node, i);
      DropKeyPlaces(c.hash, st.slots, key);
      var out := RemoveVirtual(c, st, node, i);
      assert out.Done? && out.state.slots == DropKey(st.slots, c.hash(key), key);
      forall j: nat | i + 1 <= j < count ensures OnRing(c.hash, out.state.slots, RawKey(node, j)) {
        if RawKey(node, j) == key { RawKeyInjective(node, j, node, i); }
      }
      KeylessLeaves(c, out.state, node, i + 1, count);
    }
  }

  /** A node named like the i-th virtual node of another: a run in which removing that other node
      loses a key. */
  lemma ClashingNames(n: string, i: nat) returns (c: Config, ops: seq<Op>)
    ensures Proper(c) && Uses(ops, iset{n, RawKey(n, i)}) && Run(c, ops).Done? && !Faithful(c, Run(c, ops).state, ops)
  {
    var m := RawKey(n, i);
    var d := RawKey(m, 0);
    assert n != m by { assert |n| < |m|; }
    hide RawKey, NodeOf, Faithful, Run, Asked, Tracked;
    c := Config((x: string) => if NodeOf(x) == m then 0 else 1, i + 1, true);
    ops := [AddOp(n, 1), AddOp(m, 1)] + [GetOp(d)] + [RemoveOp(n)];
    ClashRun(c, n, i, m, d);
    LostNotFaithful(c, Run(c, ops).state, ops, GetOp(d));
  }

  lemma ClashRun(c: Config, n: string, i: nat, m: string, d: string)
    requires Proper(c) && c.replicas == i + 1 && m == RawKey(n, i) && d == RawKey(m, 0) && n != m
    requires forall x :: c.hash(x) == 0 <==> NodeOf(x) == m
    ensures var out := Run(c, [AddOp(n, 1), AddOp(m, 1)] + [GetOp(d)] + [RemoveOp(n)]); out.Done? && d !in Tracked(out.state)
  {
    hide RawKey, NodeOf, Owner, Faithful, Run, GetNode, RemoveNode;
    var adds := [AddOp(n, 1), AddOp(m, 1)];
    var st := TwoNodes(c, n, 1, m, 1);
    FirstSlot(c.hash, st, m);
    hide Good;
    RunMore(c, adds, GetOp(d));
    assert m in st.replicas;
    GetNodeKeeps(c, st, d);
    GetsOnly(c, st, d, n, m);
    RunMore(c, adds + [GetOp(d)], RemoveOp(n));
    ClashingRemoval(c, GetNode(c, st, d).state, n, i, d);
  }

  /** Removing a node without keys loses every key of a node named like one of its virtual nodes. */
  lemma ClashingRemoval(c: Config, st: RingState, n: string, i: nat, d: string)
    requires Good(c.hash, st) && n in st.replicas && i < st.replicas[n] && OnlyAt(st, d, RawKey(n, i)) && DataOf(st, n) == {}
    ensures RemoveNode(c, st, n).Done? && d !in Tracked(RemoveNode(c, st, n).state)
  {
    hide RawKey, NodeOf;
    var st1, count := st.(replicas := st.replicas - {n}), st.replicas[n];
    forall j: nat | 0 <= j < count ensures OnRing(c.hash, st1.slots, RawKey(n, j)) { NodeOnRing(c.hash, st, n, j); }
    KeylessLeaves(c, st1, n, 0, count);
    assert forall x :: Recorded(st1, x, d) <==> Recorded(st, x, d);
    ClashLoses(c, st1, n, 0, count, i, d);
  }

  lemma LostNotFaithful(c: Config, st: RingState, ops: seq<Op>, op: Op)
    requires op in ops && op.GetOp? && op.key !in Tracked(st)
    ensures !Faithful(c, st, ops)
  {
    assert op.key in Asked(ops);
    assert !Recorded(st, Owner(c.hash, st.slots, op.key), op.key);
  }

  lemma TwoNodes(c: Config, n: string, v: int, m: string, w: int) returns (st: RingState)
    requires Proper(c) && n != m
    ensures Run(c, [AddOp(n, v), AddOp(m, w)]) == Done(st) && Good(c.hash, st) && Tracked(st) == iset{}
    ensures st.replicas == map[n := ValidWeight(v) * c.replicas, m := ValidWeight(w) * c.replicas]
  {
    var st0 := RingState(map[], map[], map[]);
    assert forall k :: !Virtual(map[], k);
    assert Run(c, []) == Done(st0) && Good(c.hash, st0) && Tracked(st0) == iset{};
    hide Good, AddNode, Tracked, RawKey, NodeOf;
    RunMore(c, [], AddOp(n, v));
    AddNodeKeeps(c, st0, n, v);
    var st1 := AddNode(c, st0, n, v).state;
    assert [] + [AddOp(n, v)] == [AddOp(n, v)];
    RunMore(c, [AddOp(n, v)], AddOp(m, w));
    AddNodeKeeps(c, st1, m, w);
    assert [AddOp(n, v)] + [AddOp(m, w)] == [AddOp(n, v), AddOp(m, w)];
    st := AddNode(c, st1, m, w).state;
  }

  lemma FirstSlot(h: Hash, st: RingState, m: string)
    requires Good(h, st) && m in st.replicas && forall x :: h(x) == 0 <==> NodeOf(x) == m
    ensures st.slots.Keys != {} && Owner(h, st.slots, RawKey(m, 0)) == m
  {
    NodeOnRing(h, st, m, 0);
    CeilingIs(st.slots.Keys, 0, 0);
    OwnerAt(h, st.slots, RawKey(m, 0));
    assert SlotOk(h, st.slots, 0);
    assert st.slots[0][0] in st.slots[0];
  }

  lemma GetsOnly(c: Config, st: RingState, d: string, n: string, m: string)
    requires Tracked(st) == iset{} && GetNode(c, st, d).Done? && Owner(c.hash, st.slots, d) == m && n != m
    ensures OnlyAt(GetNode(c, st, d).state, d, m) && DataOf(GetNode(c, st, d).state, n) == {}
  {
    hide Owner;
    var st1 := GetNode(c, st, d).state;
    forall x, y | Recorded(st1, x, y) ensures x == m { assert Recorded(st, x, y) ==> y in Tracked(st); }
    forall y ensures y !in DataOf(st1, n) { assert y in DataOf(st1, n) ==> Recorded(st1, n, y); }
  }

  /** Beside a node with the empty name: a run in which removing the other node leaves a key behind. */
  lemma EmptyName(n: string) returns (c: Config, ops: seq<Op>)
    requires n != ""
    ensures Proper(c) && Uses(ops, iset{n, ""}) && Run(c, ops).Done? && !Faithful(c, Run(c, ops).state, ops)
  {
    c := Config((x: string) => 0, 1, true);
    ops := [AddOp(n, 1), AddOp("", 1)] + [GetOp("k")] + [RemoveOp(n)];
    hide RawKey, NodeOf, Run;
    var st := EmptyRun(c, n);
    assert !Faithful(c, st, ops);
  }

  lemma EmptyRun(c: Config, n: string) returns (st: RingState)
    requires c.replicas == 1 && c.migrating && n != "" && forall x :: c.hash(x) == 0
    ensures Run(c, [AddOp(n, 1), AddOp("", 1)] + [GetOp("k")] + [RemoveOp(n)]) == Done(st)
    ensures Recorded(st, n, "k") && st.slots.Keys != {} && Owner(c.hash, st.slots, "k") != n
  {
    var adds := [AddOp(n, 1), AddOp("", 1)];
    var st1, st2 := EmptyAdds(c, n);
    var st3 := EmptyGet(c, n, st2);
    st := EmptyRemove(c, n, st3);
    hide RawKey, NodeOf, AddNode, GetNode, RemoveNode, Owner;
    RunTwo(c, adds[0], adds[1]);
    hide Run;
    RunMore(c, adds, GetOp("k"));
    RunMore(c, adds + [GetOp("k")], RemoveOp(n));
  }

  lemma RunTwo(c: Config, a: Op, b: Op)
    ensures var start := Perform(c, RingState(map[], map[], map[]), a);
            start.Done? ==> Run(c, [a, b]) == Perform(c, start.state, b)
  {
    RunMore(c, [], a);
    assert [] + [a] == [a] && [a] + [b] == [a, b];
    if Run(c, [a]).Done? { RunMore(c, [a], b); }
  }

  lemma EmptyAdds(c: Config, n: string) returns (st1: RingState, st2: RingState)
    requires c.replicas == 1 && c.migrating && n != "" && forall x :: c.hash(x) == 0
    ensures AddNode(c, RingState(map[], map[], map[]), n, 1) == Done(st1) && AddNode(c, st1, "", 1) == Done(st2)
    ensures st2.slots.Keys == {0} && st2.slots[0] == [RawKey(n, 0), RawKey("", 0)] && st2.data == map[]
    ensures n in st2.replicas && st2.replicas[n] == 1
  {
    var a, b := RawKey(n, 0), RawKey("", 0);
    assert a != b by { NodeOfRawKey(n, 0); NodeOfRawKey("", 0); }
    hide RawKey, NodeOf;
    var st0 := RingState(map[], map[], map[]);
    st1 := RingState(map[0 := [a]], map[n := 1], map[]);
    st2 := RingState(st1.slots[0 := [a] + [b]], st1.replicas["" := 1], map[]);
    OnlyScore({0}, 0);
    assert st1.slots.Keys == {0};
    OneMore(c, st0, n, st1);
    OneMore(c, st1, "", st2);
  }

  lemma EmptyGet(c: Config, n: string, st2: RingState) returns (st3: RingState)
    requires forall x :: c.hash(x) == 0
    requires st2.slots.Keys == {0} && st2.slots[0] == [RawKey(n, 0), RawKey("", 0)] && st2.data == map[]
    ensures GetNode(c, st2, "k") == Done(st3) && st3.slots == st2.slots && st3.replicas == st2.replicas
    ensures st3.data == map[n := {"k"}]
  {
    NodeOfRawKey(n, 0);
    hide RawKey, NodeOf;
    st3 := st2.(data := st2.data[n := {} + {"k"}]);
    assert {} + {"k"} == {"k"};
  }

  lemma EmptyRemove(c: Config, n: string, st3: RingState) returns (st4: RingState)
    requires c.migrating && n != "" && forall x :: c.hash(x) == 0
    requires st3.slots.Keys == {0} && st3.slots[0] == [RawKey(n, 0), RawKey("", 0)] && st3.data == map[n := {"k"}]
    requires n in st3.replicas && st3.replicas[n] == 1
    ensures RemoveNode(c, st3, n) == Done(st4)
    ensures Recorded(st4, n, "k") && st4.slots.Keys != {} && Owner(c.hash, st4.slots, "k") != n
  {
    var a, b := RawKey(n, 0), RawKey("", 0);
    NodeOfRawKey(n, 0);
    NodeOfRawKey("", 0);
    assert a != n && a != b;
    hide RawKey, NodeOf;
    st4 := RingState(st3.slots[0 := [b]], st3.replicas - {n}, st3.data - {a});
    var mid := st3.(replicas := st3.replicas - {n});
    OnlyScore({0}, 0);
    assert Without([a, b], a) == [b];
    assert MigrateOut(c.hash, mid, 0, n) == Done(mid);
    assert Rem(mid, 0, a) == Done(st4);
    OneLess(c, st3, n, st4);
    assert st4.slots.Keys == {0};
  }

  lemma OneMore(c: Config, st: RingState, n: string, st1: RingState)
    requires c.replicas == 1 && n !in st.replicas
    requires st1 == AddVirtual(c, st.(replicas := st.replicas[n := 1]), n, 0)
    ensures AddNode(c, st, n, 1) == Done(st1)
  {
    var st0 := st.(replicas := st.replicas[n := 1]);
    assert AddFrom(c, st1, n, 1, 1) == st1;
    assert AddFrom(c, st0, n, 0, 1) == AddFrom(c, AddVirtual(c, st0, n, 0), n, 1, 1);
  }

  lemma OneLess(c: Config, st: RingState, n: string, st1: RingState)
    requires n in st.replicas && st.replicas[n] == 1
    requires RemoveVirtual(c, st.(replicas := st.replicas - {n}), n, 0) == Done(st1)
    ensures RemoveNode(c, st, n) == Done(st1)
  {
    assert RemoveFrom(c, st1, n, 1, 1) == Done(st1);
  }

  /** Exactly the safe sets of names keep ownership: with them every run of successful calls is
      faithful, and with any other set some run is not. */
  lemma OwnershipIffSafeNames(names: iset<string>)
    ensures SafeNames(names) <==>
            forall c, ops | Proper(c) && Uses(ops, names) && Run(c, ops).Done? :: Faithful(c, Run(c, ops).state, ops)
  {
    if SafeNames(names) {
      forall c, ops | Proper(c) && Uses(ops, names) && Run(c, ops).Done? ensures Faithful(c, Run(c, ops).state, ops) {
        OwnershipConserved(c, ops, names);
      }
    } else {
      hide Run, Faithful;
      var c: Config, ops: seq<Op>;
      if n, m, i: nat :| n in names && m in names && m == RawKey(n, i) {
        c, ops := ClashingNames(n, i);
      } else {
        var n :| "" in names && n in names && n != "";
        c, ops := EmptyName(n);
      }
      assert Uses(ops, names);
    }
  }
}
