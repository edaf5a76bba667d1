/** Taking a physical node off the ring, one virtual node at a time. */
module RingRemoval {
  import opened RingSpec
  import opened RingOwnership

  /** The raw keys at a score that belong to other physical nodes, in order. */
  function Others(nodes: seq<string>, node: string): (r: seq<string>)
    ensures forall k :: k in r <==> k in nodes && NodeOf(k) != node
  {
    if nodes == [] then [] else (if NodeOf(nodes[0]) == node then [] else [nodes[0]]) + Others(nodes[1..], node)
  }

  /** The ring as it would be without the node: what the removal ends in. */
  ghost function Strip(slots: Slots, node: string): Slots {
    map s | s in slots && Others(slots[s], node) != [] :: Others(slots[s], node)
  }

  /** Half-way through a removal: a key is still at the leaving node, which still owns it, or it is
      already where it will belong once the node is gone. */
  ghost predicate Leaving(h: Hash, st: RingState, node: string, base: Slots) {
    forall m, d :: Recorded(st, m, d) ==>
      if m == node then st.slots.Keys != {} && Owner(h, st.slots, d) == node
      else base.Keys != {} && Owner(h, base, d) == m
  }

  ghost predicate Distinct(keys: seq<string>) {
    forall i, j :: 0 <= i < j < |keys| ==> keys[i] != keys[j]
  }

  lemma {:induction false} WithoutKey(keys: seq<string>, key: string)
    requires Distinct(keys)
    ensures Distinct(Without(keys, key))
    ensures forall k :: k in Without(keys, key) <==> k in keys && k != key
    ensures key in keys ==> |Without(keys, key)| == |keys| - 1
  {
    if keys != [] {
      var tail := keys[1..];
      assert keys == [keys[0]] + tail && keys[0] !in tail;
      assert Distinct(tail);
      WithoutKey(tail, key);
    }
  }

  lemma {:induction false} OthersWithout(keys: seq<string>, key: string, node: string)
    requires NodeOf(key) == node
    ensures Others(Without(keys, key), node) == Others(keys, node)
  {
    if keys != [] && keys[0] != key {
      OthersWithout(keys[1..], key, node);
      assert Without(keys, key)[1..] == Without(keys[1..], key);
    }
  }

  lemma {:induction false} OthersNone(nodes: seq<string>, node: string)
    requires forall k :: k in nodes ==> NodeOf(k) == node
    ensures Others(nodes, node) == []
  {
    if nodes != [] { OthersNone(nodes[1..], node); }
  }

  lemma DropKeyPlaces(h: Hash, slots: Slots, key: string)
    requires SlotsOk(h, slots) && OnRing(h, slots, key)
    ensures var slots1 := DropKey(slots, h(key), key);
            SlotsOk(h, slots1) && !OnRing(h, slots1, key)
            && (forall k :: k != key ==> (OnRing(h, slots1, k) <==> OnRing(h, slots, k)))
  {
    var s := h(key);
    var slots1 := DropKey(slots, s, key);
    assert SlotOk(h, slots, s);
    WithoutKey(slots[s], key);
    forall t: Score ensures SlotOk(h, slots1, t) {
      assert SlotOk(h, slots, t);
    }
  }

  /** The ring a removal ends in does not change while the node's own virtual nodes leave. */
  lemma StripDrop(h: Hash, slots: Slots, key: string)
    requires OnRing(h, slots, key)
    ensures Strip(DropKey(slots, h(key), key), NodeOf(key)) == Strip(slots, NodeOf(key))
  {
    var s, node := h(key), NodeOf(key);
    hide NodeOf, Others, Without;
    OthersWithout(slots[s], key, node);
    if |slots[s]| == 1 { OthersNone(slots[s], node); }
    var slots1 := DropKey(slots, s, key);
    forall t: Score ensures t in Strip(slots1, node) <==> t in Strip(slots, node) {}
    forall t: Score | t in Strip(slots, node) ensures Strip(slots1, node)[t] == Strip(slots, node)[t] {}
  }

  /** A key whose first virtual node belongs to somebody else keeps its owner to the end. */
  lemma StripOwner(h: Hash, slots: Slots, node: string, d: string)
    requires SlotsOk(h, slots) && slots.Keys != {} && Owner(h, slots, d) != node
    ensures Strip(slots, node).Keys != {} && Owner(h, Strip(slots, node), d) == Owner(h, slots, d)
  {
    var c := Ceiling(slots.Keys, h(d));
    OwnerAt(h, slots, d);
    assert Others(slots[c], node) == [slots[c][0]] + Others(slots[c][1..], node);
    assert c in Strip(slots, node);
    CeilingIs(Strip(slots, node).Keys, h(d), c);
  }

  lemma StripAt(h: Hash, slots: Slots, node: string, d: string, c: Score)
    requires c in slots && Nearest(Strip(slots, node).Keys, h(d), c)
    requires |slots[c]| > 1 && NodeOf(slots[c][0]) == node && NodeOf(slots[c][1]) != node
    ensures Owner(h, Strip(slots, node), d) == NodeOf(slots[c][1])
  {
    hide NodeOf;
    var base := Strip(slots, node);
    CeilingIs(base.Keys, h(d), c);
    var tail := slots[c][1..];
    assert Others(slots[c], node) == Others(tail, node);
    assert Others(tail, node) == [tail[0]] + Others(tail[1..], node);
    hide Others;
    assert c in base && base[c][0] == slots[c][1];
  }

  /** Dropping a raw key: only the arc that ends in its score can change its owner. */
  lemma OwnerAfterDrop(h: Hash, slots: Slots, key: string, d: string)
    requires SlotsOk(h, slots) && OnRing(h, slots, key) && slots.Keys != {h(key)}
    ensures var s := h(key); var slots1 := DropKey(slots, s, key); var T := slots.Keys;
            && slots1.Keys != {}
            && (Ceiling(T, h(d)) != s ==> Owner(h, slots1, d) == Owner(h, slots, d))
            && slots[Ceiling(T, Succ(s))] != []
            && (Ceiling(T, h(d)) == s && |slots[s]| == 1 ==> Owner(h, slots1, d) == NodeOf(slots[Ceiling(T, Succ(s))][0]))
  {
    var s := h(key);
    var T := slots.Keys;
    OnlyScore(T, s);
    assert SlotOk(h, slots, Ceiling(T, Succ(s)));
    CeilingWithout(T, s, h(d));
    OwnerAt(h, slots, d);
    DropKeyPlaces(h, slots, key);
    var slots1 := DropKey(slots, s, key);
    assert slots1.Keys == if |slots[s]| > 1 then T else T - {s};
    OwnerAt(h, slots1, d);
  }

  lemma OwnerAfterDropShared(h: Hash, slots: Slots, key: string, d: string)
    requires SlotsOk(h, slots) && OnRing(h, slots, key) && |slots[h(key)]| > 1
    ensures var s := h(key); var slots1 := DropKey(slots, s, key);
            && slots1.Keys == slots.Keys
            && (Ceiling(slots.Keys, h(d)) != s ==> Owner(h, slots1, d) == Owner(h, slots, d))
            && (Ceiling(slots.Keys, h(d)) == s ==>
                  Owner(h, slots1, d) == NodeOf(if slots[s][0] == key then slots[s][1] else slots[s][0]))
  {
    var s := h(key);
    var slots1 := DropKey(slots, s, key);
    OwnerAt(h, slots, d);
    DropKeyPlaces(h, slots, key);
    OwnerAt(h, slots1, d);
  }

  // ------------------------------------------------------------ one virtual node leaves

  /** The score found by skipping the node's lone scores is the one that inherits the arc. */
  lemma HeirIsNearest(slots: Slots, s: Score, node: string, x: Score)
    requires s in slots && Lone(slots[s], node) && Shared(slots, node) != {} && Ceiling(slots.Keys, x) == s
    ensures var c := Ceiling(Shared(slots, node), Succ(s));
            forall t :: t in Strip(slots, node) ==> Dist(x, c) <= Dist(x, t)
  {
    hide NodeOf;
    var c := Ceiling(Shared(slots, node), Succ(s));
    forall t | t in Strip(slots, node) ensures Dist(x, c) <= Dist(x, t) {
      var o := Others(slots[t], node)[0];
      assert o in slots[t] && NodeOf(o) != node;
      assert t in Shared(slots, node);
      assert c in slots && t in slots;
      assert Dist(x, s) <= Dist(x, t) && Dist(x, s) <= Dist(x, c);
      assert Dist(Succ(s), c) <= Dist(Succ(s), t);
      assert t != s && c != s;
    }
  }

  lemma HeirElsewhere(h: Hash, slots: Slots, s: Score, node: string, d: string)
    requires SlotsOk(h, slots) && s in slots && Lone(slots[s], node) && Ceiling(slots.Keys, h(d)) == s
    requires Heir(slots, s, node) != "" && Heir(slots, s, node) != node
    ensures Strip(slots, node).Keys != {} && Owner(h, Strip(slots, node), d) == Heir(slots, s, node)
  {
    hide NodeOf, SlotsOk;
    var c := Ceiling(Shared(slots, node), Succ(s));
    HeirIsNearest(slots, s, node, h(d));
    var nodes := slots[c];
    if NodeOf(nodes[0]) != node {
      assert Others(nodes, node) == [nodes[0]] + Others(nodes[1..], node);
      assert c in Strip(slots, node);
      CeilingIs(Strip(slots, node).Keys, h(d), c);
    } else {
      assert nodes[1] in nodes && nodes[1] in Others(nodes, node);
      assert c in Strip(slots, node);
      StripAt(h, slots, node, d, c);
    }
  }

  lemma HeirSelf(h: Hash, slots: Slots, key: string, d: string)
    requires SlotsOk(h, slots) && OnRing(h, slots, key) && Lone(slots[h(key)], NodeOf(key))
    requires Ceiling(slots.Keys, h(d)) == h(key) && slots.Keys != {h(key)}
    requires Heir(slots, h(key), NodeOf(key)) == NodeOf(key) && NodeOf(key) != ""
    ensures var slots1 := DropKey(slots, h(key), key); slots1.Keys != {} && Owner(h, slots1, d) == NodeOf(key)
  {
    var s, node := h(key), NodeOf(key);
    hide NodeOf, SlotsOk;
    OwnerAfterDrop(h, slots, key, d);
    var next := Ceiling(slots.Keys, Succ(s));
    if next in Shared(slots, node) {
      CeilingIs(Shared(slots, node), Succ(s), next);
    }
  }

  /** When handing `keys` from the leaving node to `to` is right. */
  ghost predicate RightMove(h: Hash, st: RingState, node: string, to: string, keys: set<string>, slots1: Slots, base: Slots) {
    && keys <= DataOf(st, node)
    && (forall d :: d in keys && to != node ==> base.Keys != {} && Owner(h, base, d) == to)
    && (forall d :: d in DataOf(st, node) && (d !in keys || to == node) ==> slots1.Keys != {} && Owner(h, slots1, d) == node)
  }

  lemma RightMoveKeeps(h: Hash, st: RingState, node: string, to: string, keys: set<string>, slots1: Slots, base: Slots)
    requires Leaving(h, st, node, base) && RightMove(h, st, node, to, keys, slots1, base)
    ensures Leaving(h, MoveKeys(st, node, to, keys).(slots := slots1), node, base)
    ensures Tracked(MoveKeys(st, node, to, keys)) == Tracked(st)
  {
    hide Owner;
    var st1 := MoveKeys(st, node, to, keys);
    MoveTracked(st, node, to, keys);
    forall m, d | Recorded(st1.(slots := slots1), m, d)
      ensures if m == node then slots1.Keys != {} && Owner(h, slots1, d) == node
              else base.Keys != {} && Owner(h, base, d) == m
    {
      assert Recorded(st1, m, d);
      MoveRecorded(st, node, to, keys, m, d);
    }
  }

  lemma StayKeeps(h: Hash, st: RingState, node: string, slots1: Slots, base: Slots)
    requires Leaving(h, st, node, base)
    requires forall d :: d in DataOf(st, node) ==> slots1.Keys != {} && Owner(h, slots1, d) == node
    ensures Leaving(h, st.(slots := slots1), node, base)
  {
    hide Owner;
    forall m, d | Recorded(st.(slots := slots1), m, d)
      ensures if m == node then slots1.Keys != {} && Owner(h, slots1, d) == node
              else base.Keys != {} && Owner(h, base, d) == m
    {
      assert Recorded(st, m, d) && (m == node ==> d in DataOf(st, node));
    }
  }

  ghost predicate Leaves(h: Hash, st: RingState, key: string) {
    SlotsOk(h, st.slots) && OnRing(h, st.slots, key) && Leaving(h, st, NodeOf(key), Strip(st.slots, NodeOf(key)))
  }

  lemma OwnersAtNode(h: Hash, st: RingState, key: string, d: string)
    requires Leaves(h, st, key) && d in DataOf(st, NodeOf(key))
    ensures Owner(h, st.slots, d) == NodeOf(key)
    ensures Ceiling(st.slots.Keys, h(d)) == h(key) ==> NodeOf(st.slots[h(key)][0]) == NodeOf(key)
  {
    assert Recorded(st, NodeOf(key), d);
    OwnerAt(h, st.slots, d);
  }

  /** The leaving virtual node is not the first at its score: nothing has to move. */
  lemma NotFirst(h: Hash, st: RingState, key: string)
    requires Leaves(h, st, key) && NodeOf(st.slots[h(key)][0]) != NodeOf(key)
    ensures Leaving(h, st.(slots := DropKey(st.slots, h(key), key)), NodeOf(key), Strip(st.slots, NodeOf(key)))
  {
    hide Owner, Strip, Leaving, SlotsOk, NodeOf;
    assert st.slots[h(key)][0] != key;
    forall d | d in DataOf(st, NodeOf(key))
      ensures var slots1 := DropKey(st.slots, h(key), key); slots1.Keys != {} && Owner(h, slots1, d) == NodeOf(key)
    {
      OwnersAtNode(h, st, key, d);
      OwnerAfterDropShared(h, st.slots, key, d);
    }
    StayKeeps(h, st, NodeOf(key), DropKey(st.slots, h(key), key), Strip(st.slots, NodeOf(key)));
  }

  /** The keys a removal hands over are those of the arc that ends in the leaving score. */
  lemma HandedKeys(h: Hash, st: RingState, node: string, s: Score, d: string)
    requires s in st.slots && d in DataOf(st, node)
    ensures d in Handed(h, st, s, node) <==> Ceiling(st.slots.Keys, h(d)) == s
  {
    OnlyScore(st.slots.Keys, s);
    if st.slots.Keys != {s} { ArcIsCeiling(st.slots.Keys, s, h(d)); }
  }

  lemma SharedScoreMove(h: Hash, st: RingState, key: string, keys: set<string>)
    requires Leaves(h, st, key) && |st.slots[h(key)]| > 1 && NodeOf(st.slots[h(key)][0]) == NodeOf(key)
    requires keys <= DataOf(st, NodeOf(key))
    requires forall d :: d in DataOf(st, NodeOf(key)) ==> (d in keys <==> Ceiling(st.slots.Keys, h(d)) == h(key))
    ensures RightMove(h, st, NodeOf(key), NodeOf(st.slots[h(key)][1]), keys, DropKey(st.slots, h(key), key), Strip(st.slots, NodeOf(key)))
  {
    var s, node := h(key), NodeOf(key);
    var nodes := st.slots[s];
    var slots1 := DropKey(st.slots, s, key);
    hide Owner, Strip, Leaving, SlotsOk, NodeOf;
    forall d | d in keys && NodeOf(nodes[1]) != node
      ensures var base := Strip(st.slots, node); base.Keys != {} && Owner(h, base, d) == NodeOf(nodes[1])
    {
      SharedScoreHeir(h, st.slots, s, node, d);
    }
    forall d | d in DataOf(st, node) && (d !in keys || NodeOf(nodes[1]) == node)
      ensures slots1.Keys != {} && Owner(h, slots1, d) == node
    {
      OwnersAtNode(h, st, key, d);
      OwnerAfterDropShared(h, st.slots, key, d);
    }
  }

  lemma SharedScoreHeir(h: Hash, slots: Slots, s: Score, node: string, d: string)
    requires s in slots && |slots[s]| > 1 && NodeOf(slots[s][0]) == node && NodeOf(slots[s][1]) != node
    requires Ceiling(slots.Keys, h(d)) == s
    ensures Strip(slots, node).Keys != {} && Owner(h, Strip(slots, node), d) == NodeOf(slots[s][1])
  {
    hide NodeOf;
    assert slots[s][1] in slots[s] && slots[s][1] in Others(slots[s], node);
    assert s in Strip(slots, node);
    StripAt(h, slots, node, d, s);
  }

  lemma LoneScoreMove(h: Hash, st: RingState, key: string, keys: set<string>)
    requires Leaves(h, st, key) && Lone(st.slots[h(key)], NodeOf(key)) && st.slots.Keys != {h(key)}
    requires keys <= DataOf(st, NodeOf(key)) && NodeOf(key) != "" && Heir(st.slots, h(key), NodeOf(key)) != ""
    requires forall d :: d in DataOf(st, NodeOf(key)) ==> (d in keys <==> Ceiling(st.slots.Keys, h(d)) == h(key))
    ensures RightMove(h, st, NodeOf(key), Heir(st.slots, h(key), NodeOf(key)), keys, DropKey(st.slots, h(key), key), Strip(st.slots, NodeOf(key)))
  {
    var s, node := h(key), NodeOf(key);
    var slots1 := DropKey(st.slots, s, key);
    var to := Heir(st.slots, s, node);
    hide Owner, Strip, Leaving, SlotsOk, NodeOf, Heir;
    forall d | d in keys && to != node
      ensures var base := Strip(st.slots, node); base.Keys != {} && Owner(h, base, d) == to
    {
      HeirElsewhere(h, st.slots, s, node, d);
    }
    forall d | d in DataOf(st, node) && (d !in keys || to == node)
      ensures slots1.Keys != {} && Owner(h, slots1, d) == node
    {
      OwnersAtNode(h, st, key, d);
      if d in keys { HeirSelf(h, st.slots, key, d); } else { OwnerAfterDrop(h, st.slots, key, d); }
    }
  }

  lemma HandOverKeeps(h: Hash, st: RingState, key: string)
    requires Leaves(h, st, key) && MigrateOut(h, st, h(key), NodeOf(key)).Done?
    requires NodeOf(key) != "" && (|st.slots[h(key)]| > 1 ==> NodeOf(st.slots[h(key)][1]) != "")
    requires NodeOf(st.slots[h(key)][0]) == NodeOf(key) && DataOf(st, NodeOf(key)) != {}
    ensures var st1 := MigrateOut(h, st, h(key), NodeOf(key)).state;
            && st1.slots == st.slots && st1.replicas == st.replicas && Tracked(st1) == Tracked(st)
            && Leaving(h, st1.(slots := DropKey(st.slots, h(key), key)), NodeOf(key), Strip(st.slots, NodeOf(key)))
  {
    var s, node := h(key), NodeOf(key);
    var nodes, T := st.slots[s], st.slots.Keys;
    var slots1, base := DropKey(st.slots, s, key), Strip(st.slots, node);
    var keys, to := Handed(h, st, s, node), Receiver(st.slots, s, node);
    OnlyScore(T, s);
    hide Owner, Strip, SlotsOk, NodeOf, Heir, DropKey, RightMove, Leaving, Floor, Ceiling, MoveKeys, Tracked;
    assert keys <= DataOf(st, node);
    forall d | d in DataOf(st, node) ensures d in keys <==> Ceiling(T, h(d)) == s { HandedKeys(h, st, node, s, d); }
    if |nodes| > 1 { SharedScoreMove(h, st, key, keys); } else { LoneScoreMove(h, st, key, keys); }
    hide Handed, Receiver;
    RightMoveKeeps(h, st, node, to, keys, slots1, base);
    MoveFrame(st, node, to, keys);
    if keys == {} { NothingKeeps(h, st, node, to, slots1, base); }
  }

  lemma MoveFrame(st: RingState, from: string, to: string, keys: set<string>)
    ensures MoveKeys(st, from, to, keys).slots == st.slots && MoveKeys(st, from, to, keys).replicas == st.replicas
  {
  }

  lemma NothingKeeps(h: Hash, st: RingState, node: string, to: string, slots1: Slots, base: Slots)
    requires Leaving(h, st, node, base) && RightMove(h, st, node, to, {}, slots1, base)
    ensures Leaving(h, st.(slots := slots1), node, base)
  {
    StayKeeps(h, st, node, slots1, base);
  }

  /** The empty name, which the migration takes for "no node", is used by nobody or by everybody. */
  ghost predicate NamesTold(h: Hash, slots: Slots) {
    forall j, k :: OnRing(h, slots, j) && OnRing(h, slots, k) && NodeOf(j) == "" ==> NodeOf(k) == ""
  }

  lemma NamelessKeeps(h: Hash, st: RingState, key: string)
    requires Leaves(h, st, key) && MigrateOut(h, st, h(key), NodeOf(key)).Done?
    requires NamesTold(h, st.slots) && NodeOf(key) == "" && DataOf(st, "") != {}
    ensures MigrateOut(h, st, h(key), "").state == st
    ensures Leaving(h, st.(slots := DropKey(st.slots, h(key), key)), "", Strip(st.slots, ""))
  {
    var s := h(key);
    var nodes, T := st.slots[s], st.slots.Keys;
    var slots1 := DropKey(st.slots, s, key);
    assert SlotOk(h, st.slots, s);
    assert OnRing(h, st.slots, nodes[0]) && (|nodes| > 1 ==> OnRing(h, st.slots, nodes[1]));
    OnlyScore(T, s);
    DropKeyPlaces(h, st.slots, key);
    assert slots1.Keys == if |nodes| > 1 then T else T - {s};
    assert slots1.Keys != {} && MigrateOut(h, st, s, "").state == st by {
      if |nodes| == 1 { NamelessHeir(h, st.slots, s); }
    }
    forall d ensures Owner(h, slots1, d) == "" {
      OwnerAt(h, slots1, d);
      var c := Ceiling(slots1.Keys, h(d));
      assert OnRing(h, slots1, slots1[c][0]) by { assert SlotOk(h, slots1, c); }
      assert OnRing(h, st.slots, slots1[c][0]);
    }
    StayKeeps(h, st, "", slots1, Strip(st.slots, ""));
  }

  lemma NamelessHeir(h: Hash, slots: Slots, s: Score)
    requires SlotsOk(h, slots) && s in slots && NamesTold(h, slots)
    requires slots[s] != [] && OnRing(h, slots, slots[s][0]) && NodeOf(slots[s][0]) == ""
    ensures Heir(slots, s, "") == ""
  {
    if Shared(slots, "") != {} {
      var c := Ceiling(Shared(slots, ""), Succ(s));
      assert SlotOk(h, slots, c);
      assert OnRing(h, slots, slots[c][0]) && (|slots[c]| > 1 ==> OnRing(h, slots, slots[c][1]));
    }
  }

  /** Handing over before a virtual node leaves is right, whichever of its branches it takes. */
  lemma MigrateOutKeeps(h: Hash, st: RingState, key: string)
    requires Leaves(h, st, key) && MigrateOut(h, st, h(key), NodeOf(key)).Done?
    requires NamesTold(h, st.slots)
    ensures var st1 := MigrateOut(h, st, h(key), NodeOf(key)).state;
            && st1.slots == st.slots && st1.replicas == st.replicas && Tracked(st1) == Tracked(st)
            && Leaving(h, st1.(slots := DropKey(st.slots, h(key), key)), NodeOf(key), Strip(st.slots, NodeOf(key)))
  {
    var s, node := h(key), NodeOf(key);
    var nodes := st.slots[s];
    var slots1, base := DropKey(st.slots, s, key), Strip(st.slots, node);
    hide Owner, Strip, NodeOf, Heir, DropKey;
    if NodeOf(nodes[0]) != node {
      NotFirst(h, st, key);
    } else if DataOf(st, node) == {} {
      StayKeeps(h, st, node, slots1, base);
    } else {
      assert SlotOk(h, st.slots, s);
      assert |nodes| > 1 ==> OnRing(h, st.slots, nodes[1]);
      if node == "" { NamelessKeeps(h, st, key); } else { HandOverKeeps(h, st, key); }
    }
  }

  // ------------------------------------------------------------ when handing over fails

  /** The hand-over fails only when there are keys to hand over and nobody else on the ring. */
  lemma MigrateOutFails(h: Hash, st: RingState, key: string)
    requires SlotsOk(h, st.slots) && OnRing(h, st.slots, key) && NamesTold(h, st.slots)
    requires MigrateOut(h, st, h(key), NodeOf(key)).Failed?
    ensures Strip(st.slots, NodeOf(key)).Keys == {} && DataOf(st, NodeOf(key)) != {}
  {
    var s, node, slots := h(key), NodeOf(key), st.slots;
    assert SlotOk(h, slots, s);
    OnlyScore(slots.Keys, s);
    forall t | t in slots ensures Others(slots[t], node) == [] {
      assert SlotOk(h, slots, t);
      if node == "" {
        forall k | k in slots[t] ensures NodeOf(k) == "" { assert OnRing(h, slots, k); }
        OthersNone(slots[t], node);
      } else {
        if slots.Keys != {s} { NoHeir(h, slots, s, key); assert t !in Shared(slots, node); } else { assert t in {s}; }
        assert Lone(slots[t], node);
        OthersNone(slots[t], node);
      }
    }
  }

  lemma NoHeir(h: Hash, slots: Slots, s: Score, key: string)
    requires SlotsOk(h, slots) && s in slots && NamesTold(h, slots) && OnRing(h, slots, key) && NodeOf(key) != ""
    requires Heir(slots, s, NodeOf(key)) == ""
    ensures Shared(slots, NodeOf(key)) == {}
  {
    if Shared(slots, NodeOf(key)) != {} {
      var c := Ceiling(Shared(slots, NodeOf(key)), Succ(s));
      assert SlotOk(h, slots, c);
      assert OnRing(h, slots, slots[c][0]) && (|slots[c]| > 1 ==> OnRing(h, slots, slots[c][1]));
    }
  }

  // ------------------------------------------------------------ one step of a removal

  /** No physical node on the ring bears the name of a virtual node of `node`. */
  ghost predicate NoClash(h: Hash, slots: Slots, node: string) {
    forall k, j: nat :: OnRing(h, slots, k) ==> NodeOf(k) != RawKey(node, j)
  }

  lemma StripOnRing(h: Hash, slots: Slots, node: string, d: string)
    requires SlotsOk(h, slots) && Strip(slots, node).Keys != {}
    ensures exists k :: OnRing(h, slots, k) && Owner(h, Strip(slots, node), d) == NodeOf(k)
  {
    var base := Strip(slots, node);
    var c := Ceiling(base.Keys, h(d));
    assert SlotOk(h, slots, c);
    assert base[c][0] in Others(slots[c], node);
    assert OnRing(h, slots, base[c][0]);
  }

  /** Under NoClash the data keys that removing a virtual node drops are none. */
  lemma NothingDropped(h: Hash, st: RingState, slots: Slots, node: string, i: nat)
    requires SlotsOk(h, slots) && NoClash(h, slots, node) && Leaving(h, st, node, Strip(slots, node))
    ensures var st1 := st.(data := st.data - {RawKey(node, i)});
            Tracked(st1) == Tracked(st) && Leaving(h, st1, node, Strip(slots, node))
  {
    var key := RawKey(node, i);
    var st1 := st.(data := st.data - {key});
    forall m, d ensures Recorded(st1, m, d) <==> Recorded(st, m, d) {
      if Recorded(st, m, d) {
        assert m == node || m == Owner(h, Strip(slots, node), d);
        if m != node { StripOnRing(h, slots, node, d); }
        assert m != key by { assert |key| > |node|; }
      }
    }
  }

  ghost predicate StepKept(h: Hash, st: RingState, st1: RingState, node: string, key: string) {
    && st1.replicas == st.replicas && Tracked(st1) == Tracked(st)
    && SlotsOk(h, st1.slots) && Strip(st1.slots, node) == Strip(st.slots, node)
    && Leaving(h, st1, node, Strip(st1.slots, node))
    && (forall k :: OnRing(h, st1.slots, k) <==> k != key && OnRing(h, st.slots, k))
  }

  lemma RemoveVirtualKeeps(c: Config, st: RingState, node: string, i: nat)
    requires c.migrating && Leaves(c.hash, st, RawKey(node, i)) && NodeOf(RawKey(node, i)) == node
    requires NamesTold(c.hash, st.slots) && NoClash(c.hash, st.slots, node)
    ensures var out := RemoveVirtual(c, st, node, i);
            && (out.Failed? ==> Strip(st.slots, node).Keys == {} && DataOf(st, node) != {})
            && (out.Done? ==> StepKept(c.hash, st, out.state, node, RawKey(node, i)))
  {
    var h, key := c.hash, RawKey(node, i);
    var out := MigrateOut(h, st, h(key), node);
    if out.Failed? {
      MigrateOutFails(h, st, key);
    } else {
      hide NamesTold, MigrateOut, Strip, Leaving, NoClash, NodeOf, Owner;
      MigrateOutKeeps(h, st, key);
      DropKeyPlaces(h, st.slots, key);
      StripDrop(h, st.slots, key);
      var st1 := out.state.(slots := DropKey(st.slots, h(key), key));
      NothingDropped(h, st1, st.slots, node, i);
      assert Tracked(st1) == Tracked(out.state) by { SameData(st1, out.state); }
    }
  }

  lemma SameData(a: RingState, b: RingState)
    requires a.data == b.data
    ensures Tracked(a) == Tracked(b)
  {
    assert forall n, d :: Recorded(a, n, d) <==> Recorded(b, n, d);
  }

  /** The leaving node never gains a key. */
  lemma RemoveVirtualShrinks(c: Config, st: RingState, node: string, i: nat)
    requires RemoveVirtual(c, st, node, i).Done?
    ensures DataOf(RemoveVirtual(c, st, node, i).state, node) <= DataOf(st, node)
  {
    var h, key := c.hash, RawKey(node, i);
    var s := h(key);
    if c.migrating && s in st.slots && st.slots[s] != [] {
      var keys, to := Handed(h, st, s, node), Receiver(st.slots, s, node);
      assert keys <= DataOf(st, node);
      hide Handed, Receiver, NodeOf;
      var st1 := MigrateOut(h, st, s, node).state;
      forall d | d in DataOf(st1, node) ensures d in DataOf(st, node) {
        MoveRecorded(st, node, to, keys, node, d);
        assert Recorded(st1, node, d);
      }
      assert DataOf(Rem(st1, s, key).state, node) <= DataOf(st1, node);
    }
  }
}
