/**
 * The consistent-hash service over the in-memory ring: AddNode, RemoveNode and GetNode with the
 * migrations they trigger, in int32 score arithmetic, computing the operations of RingSpec.
 */
module RingService {
  import opened RingSpec
  import opened RingOwnership
  import opened RingList

  const MAX: Int32 := 0x7fff_ffff

  // ------------------------------------------------------------ arcs in int32 arithmetic

  /** The two wrap-around patterns exclude each other. */
  lemma OneWrap(T: set<Score>, s: Score)
    requires s in T && T != {s}
    ensures !(Floor(T, Pred(s)) > s && Ceiling(T, Succ(s)) < s)
  {
    var last, next := Floor(T, Pred(s)), Ceiling(T, Succ(s));
    assert Dist(Succ(s), next) <= Dist(Succ(s), last);
  }

  /** Walking on from `score`, the next score is further from the start, or is the start again. */
  lemma NextOnCircle(T: set<Score>, start: Score, score: Score)
    requires start in T && score in T
    ensures var next := Ceiling(T, Succ(score));
            && (next == start || Dist(start, score) < Dist(start, next))
            && (forall t :: t in T && Dist(start, score) < Dist(start, t) ==> next != start && Dist(start, next) <= Dist(start, t))
  {
    var next := Ceiling(T, Succ(score));
    assert Dist(Succ(score), next) <= Dist(Succ(score), start);
    forall t | t in T && Dist(start, score) < Dist(start, t) ensures next != start && Dist(start, next) <= Dist(start, t) {
      assert Dist(Succ(score), next) <= Dist(Succ(score), t);
    }
  }

  /** Every score from the start up to here belongs to the node alone. */
  ghost predicate AllLone(slots: Slots, start: Score, score: Score, node: string) {
    forall t :: t in slots && Dist(start, t) <= Dist(start, score) ==> Lone(slots[t], node)
  }

  ghost function Passed(slots: Slots, start: Score, score: Score): set<Score> {
    set t | t in slots && Dist(start, t) < Dist(start, score)
  }

  lemma HeirFound(slots: Slots, start: Score, score: Score, node: string)
    requires start in slots && score in slots && AllLone(slots, start, score, node)
    ensures var next := Ceiling(slots.Keys, Succ(score));
            && (next == start ==> Heir(slots, start, node) == "")
            && (next != start && !Lone(slots[next], node) ==> next in Shared(slots, node) && Ceiling(Shared(slots, node), Succ(start)) == next)
            && (next != start && Lone(slots[next], node) ==> AllLone(slots, start, next, node))
  {
    var T, next := slots.Keys, Ceiling(slots.Keys, Succ(score));
    NextOnCircle(T, start, score);
    if next == start {
      assert forall t :: t in T ==> Lone(slots[t], node);
      assert Shared(slots, node) == {};
    } else if !Lone(slots[next], node) {
      forall t | t in Shared(slots, node) ensures Dist(Succ(start), next) <= Dist(Succ(start), t) {
        assert Dist(start, score) < Dist(start, t);
        assert Dist(start, next) <= Dist(start, t);
      }
      assert next in Shared(slots, node);
      CeilingIs(Shared(slots, node), Succ(start), next);
    }
  }

  /** One step of the walk, in terms of the scores passed so far. */
  lemma WalkStep(slots: Slots, start: Score, score: Score, node: string)
    requires start in slots && score in slots && slots.Keys != {start} && AllLone(slots, start, score, node)
    ensures var next := Ceiling(slots.Keys, Succ(score)); var nodes := slots[next];
            && (next in Passed(slots, start, score) ==> Heir(slots, start, node) == "")
            && (next !in Passed(slots, start, score) ==>
                  if nodes == [] then Heir(slots, start, node) == ""
                  else if NodeOf(nodes[0]) != node then Heir(slots, start, node) == NodeOf(nodes[0])
                  else if |nodes| > 1 then Heir(slots, start, node) == NodeOf(nodes[1])
                  else
                    && AllLone(slots, start, next, node) && Dist(start, score) < Dist(start, next)
                    && Passed(slots, start, next) == Passed(slots, start, score) + {score})
  {
    hide NodeOf;
    var T, next := slots.Keys, Ceiling(slots.Keys, Succ(score));
    HeirFound(slots, start, score, node);
    NextOnCircle(T, start, score);
    OnlyScore(T, start);
    if next in Passed(slots, start, score) {
      assert Dist(start, next) < Dist(start, score);
      assert next == start;
    } else {
      assert score == start ==> next != start;
      assert next != start;
      PassedMore(slots, start, score);
    }
  }

  lemma PassedMore(slots: Slots, start: Score, score: Score)
    requires start in slots && score in slots && Ceiling(slots.Keys, Succ(score)) != start
    ensures Passed(slots, start, Ceiling(slots.Keys, Succ(score))) == Passed(slots, start, score) + {score}
  {
    var next := Ceiling(slots.Keys, Succ(score));
    NextOnCircle(slots.Keys, start, score);
    forall t ensures t in Passed(slots, start, next) <==> t in Passed(slots, start, score) || t == score {
      if t in slots && Dist(start, t) == Dist(start, score) { assert t == score; }
    }
  }

  class ConsistentHash {
    const hashRing: SkiplistHashRing
    const config: Config

    ghost predicate Valid() reads hashRing, hashRing.root, hashRing.at.Values { hashRing.Valid() }

    /** A replica count that is not positive is replaced by 5. */
    constructor (hash: Hash, replicas: int, migrating: bool)
      ensures Valid() && fresh(hashRing) && fresh(hashRing.Repr())
      ensures hashRing.State() == RingState(map[], map[], map[])
      ensures config == Config(hash, if replicas <= 0 then 5 else replicas, migrating)
    {
      hashRing := new SkiplistHashRing();
      config := Config(hash, if replicas <= 0 then 5 else replicas, migrating);
    }

    /** The data keys on the arc from `lastScore` to `virtualScore`, tested after unrolling the circle. */
    method KeysIn(keys: set<string>, last: Score, virtual: Score, shift: bool) returns (found: set<string>)
      requires last != virtual && !(last > virtual && shift)
      ensures found == set d | d in keys && InArc(last, config.hash(d), virtual)
    {
      var patternOne := last > virtual;
      var patternTwo := shift;
      var lastScore: Int32, virtualScore: Int32 := last, virtual;
      if patternOne { lastScore := lastScore - MAX; }
      if patternTwo { virtualScore, lastScore := virtualScore - MAX, lastScore - MAX; }
      found := {};
      var todo := keys;
      while todo != {}
        invariant todo <= keys
        invariant found == set d | d in keys - todo && InArc(last, config.hash(d), virtual)
      {
        var d :| d in todo;
        var dataScore: Int32 := config.hash(d);
        if patternOne && dataScore > lastScore + MAX { dataScore := dataScore - MAX; }
        if patternTwo { dataScore := dataScore - MAX; }
        if !(dataScore <= lastScore || dataScore > virtualScore) { found := found + {d}; }
        todo := todo - {d};
      }
    }

    method DataKeys(node: string) returns (keys: set<string>)
      requires Valid()
      ensures keys == DataOf(hashRing.State(), node)
    {
      keys := if node in hashRing.nodeToDataKey then hashRing.nodeToDataKey[node] else {};
    }

    method Move(from: string, to: string, keys: set<string>)
      requires Valid()
      modifies hashRing`nodeToDataKey
      ensures Valid() && hashRing.State() == MoveKeys(old(hashRing.State()), from, to, keys)
    {
      hashRing.DeleteNodeToDataKeys(from, keys);
      hashRing.AddNodeToDataKeys(to, keys);
    }

    /** Hands the arc before a newly placed virtual node over to its node. */
    method MigrateIn(virtualScore: Score, node: string)
      requires Valid() && virtualScore in hashRing.Slots()
      modifies hashRing`nodeToDataKey
      ensures Valid()
      ensures hashRing.State() == if config.migrating then RingSpec.MigrateIn(config.hash, old(hashRing.State()), virtualScore, node)
                                  else old(hashRing.State())
    {
      if !config.migrating { return; }
      hide ListOk, NodeOf, MoveKeys;
      var moving, from, keys := PlanIn(virtualScore);
      if moving { Move(from, node, keys); }
    }

    /** What has to move to a newly placed virtual node, and from where. */
    method PlanIn(virtualScore: Score) returns (moving: bool, from: string, moved: set<string>)
      requires Valid() && virtualScore in hashRing.Slots()
      ensures forall node :: RingSpec.MigrateIn(config.hash, hashRing.State(), virtualScore, node)
                             == if moving then MoveKeys(hashRing.State(), from, node, moved) else hashRing.State()
    {
      hide ListOk, NodeOf, MoveKeys, KeysOnArc, InArc;
      ghost var st := hashRing.State();
      moving, from, moved := false, "", {};
      OnlyScore(st.slots.Keys, virtualScore);
      var _, nodes := hashRing.Node(virtualScore);
      if |nodes| > 1 { return; }
      var alone, last, next := Around(virtualScore);
      if alone { return; }
      var _, nextNodes := hashRing.Node(next);
      if |nextNodes| == 0 { return; }
      moving, from := true, NodeOf(nextNodes[0]);
      moved := KeysFrom(from, last, virtualScore, next < virtualScore);
    }

    method KeysFrom(from: string, last: Score, virtualScore: Score, shift: bool) returns (moved: set<string>)
      requires Valid() && last != virtualScore && !(last > virtualScore && shift)
      ensures moved == KeysOnArc(config.hash, hashRing.State(), from, last, virtualScore)
    {
      hide ListOk;
      var keys := DataKeys(from);
      moved := KeysIn(keys, last, virtualScore, shift);
    }

    /** The scores before and after one that is on the ring, unless it is the only one. */
    method Around(virtualScore: Score) returns (alone: bool, last: Score, next: Score)
      requires Valid() && virtualScore in hashRing.Slots()
      ensures alone == (hashRing.Slots().Keys == {virtualScore})
      ensures var T := hashRing.Slots().Keys;
              !alone ==> last == Floor(T, Pred(virtualScore)) && next == Ceiling(T, Succ(virtualScore)) &&
                         last != virtualScore && next != virtualScore && !(last > virtualScore && next < virtualScore)
    {
      hide ListOk, Nearest, NearestBehind;
      ghost var T := hashRing.Slots().Keys;
      alone, last, next := true, 0, 0;
      OnlyScore(T, virtualScore);
      var before := hashRing.Floor(Pred(virtualScore));
      if before == -1 || before == virtualScore { return; }
      var after := hashRing.Ceiling(Succ(virtualScore));
      if after == -1 || after == virtualScore { return; }
      OneWrap(T, virtualScore);
      return false, before, after;
    }

    /** Walks on from a score that is the node's alone to the first one that is not. */
    method GetValidNextNode(score: Score, node: string, ranged: set<Score>, ghost start: Score) returns (r: string)
      requires Valid()
      requires var slots := hashRing.Slots();
               && start in slots && score in slots && slots.Keys != {start}
               && AllLone(slots, start, score, node) && ranged == Passed(slots, start, score)
      ensures r == Heir(hashRing.Slots(), start, node)
      decreases CIRCLE - Dist(start, score)
    {
      hide ListOk, NodeOf, Heir, AllLone, Passed;
      ghost var slots := hashRing.Slots();
      var next := hashRing.Ceiling(Succ(score));
      WalkStep(slots, start, score, node);
      if next == -1 || next in ranged { return ""; }
      var _, nextNodes := hashRing.Node(next);
      if |nextNodes| == 0 { return ""; }
      if NodeOf(nextNodes[0]) != node { return NodeOf(nextNodes[0]); }
      if |nextNodes| > 1 { return NodeOf(nextNodes[1]); }
      r := GetValidNextNode(next, node, ranged + {score}, start);
    }

    /** What has to move before a virtual node leaves, and to where. */
    method PlanOut(virtualScore: Score, node: string) returns (ok: bool, moving: bool, to: string, keys: set<string>)
      requires Valid()
      ensures RingSpec.MigrateOut(config.hash, hashRing.State(), virtualScore, node)
              == if !ok then Failed(hashRing.State())
                 else if moving then Done(MoveKeys(hashRing.State(), node, to, keys)) else Done(hashRing.State())
    {
      hide ListOk, NodeOf, MoveKeys, Handed, Receiver;
      ghost var st := hashRing.State();
      ok, moving, to, keys := true, false, "", {};
      var found, nodes := hashRing.Node(virtualScore);
      if !found { ok := false; return; }
      if |nodes| == 0 || NodeOf(nodes[0]) != node { return; }
      var all := DataKeys(node);
      if all == {} { return; }
      var onlyScore;
      onlyScore, keys := ArcKeys(virtualScore, node, all);
      if onlyScore && |nodes| == 1 { ok := false; return; }
      OnlyScore(st.slots.Keys, virtualScore);
      to := ReceiverOf(virtualScore, node, nodes);
      if |nodes| == 1 && to == "" { ok := false; return; }
      moving := to != "" && keys != {};
    }

    /** The node's keys on the arc that ends in the score, all of them if it is the only score. */
    method ArcKeys(virtualScore: Score, node: string, all: set<string>) returns (onlyScore: bool, keys: set<string>)
      requires Valid() && virtualScore in hashRing.Slots() && all == DataOf(hashRing.State(), node)
      ensures onlyScore == (Floor(hashRing.Slots().Keys, Pred(virtualScore)) == virtualScore)
      ensures keys == Handed(config.hash, hashRing.State(), virtualScore, node)
    {
      hide ListOk, NodeOf;
      var last := hashRing.Floor(Pred(virtualScore));
      onlyScore := last == -1 || last == virtualScore;
      if onlyScore { return true, all; }
      keys := KeysIn(all, last, virtualScore, false);
    }

    method ReceiverOf(virtualScore: Score, node: string, nodes: seq<string>) returns (to: string)
      requires Valid() && virtualScore in hashRing.Slots() && nodes == hashRing.Slots()[virtualScore]
      requires nodes != [] && NodeOf(nodes[0]) == node && (|nodes| == 1 ==> hashRing.Slots().Keys != {virtualScore})
      ensures to == Receiver(hashRing.Slots(), virtualScore, node)
    {
      hide ListOk, NodeOf, Heir;
      if |nodes| > 1 { return NodeOf(nodes[1]); }
      StartWalk(hashRing.Slots(), virtualScore, node);
      to := GetValidNextNode(virtualScore, node, {}, virtualScore);
    }

    /** Hands the arc of a leaving virtual node over; fails when there is nobody to take it. */
    method MigrateOut(virtualScore: Score, node: string) returns (ok: bool)
      requires Valid()
      modifies hashRing`nodeToDataKey
      ensures Valid()
      ensures var out := if config.migrating then RingSpec.MigrateOut(config.hash, old(hashRing.State()), virtualScore, node)
                         else Done(old(hashRing.State()));
              hashRing.State() == out.state && ok == out.Done?
    {
      if !config.migrating { return true; }
      hide ListOk, NodeOf, MoveKeys, RingSpec.MigrateOut;
      var moving, to, keys;
      ok, moving, to, keys := PlanOut(virtualScore, node);
      if ok && moving { Move(node, to, keys); }
    }

    /** Adds a physical node with its virtual nodes, whatever levels the skip list rolls for them. */
    method AddNode(node: string, weight: int) returns (ok: bool)
      requires Valid()
      modifies hashRing.Repr()
      ensures Valid() && fresh(hashRing.Repr() - old(hashRing.Repr()))
      ensures var out := RingSpec.AddNode(config, old(hashRing.State()), node, weight);
              hashRing.State() == out.state && ok == out.Done?
    {
      hide ListOk, RingSpec.MigrateIn, RingSpec.Add;
      if node in hashRing.nodeToReplicas { return false; }
      var count := ValidWeight(weight) * config.replicas;
      hashRing.AddNodeToReplica(node, count);
      ghost var goal := AddFrom(config, hashRing.State(), node, 0, count);
      for i := 0 to count
        invariant Valid() && fresh(hashRing.Repr() - old(hashRing.Repr()))
        invariant AddFrom(config, hashRing.State(), node, i, count) == goal
      {
        AddReplica(node, i);
      }
      ok := true;
    }

    method AddReplica(node: string, i: nat)
      requires Valid()
      modifies hashRing.Repr()
      ensures Valid() && fresh(hashRing.Repr() - old(hashRing.Repr()))
      ensures hashRing.State() == AddVirtual(config, old(hashRing.State()), node, i)
    {
      hide ListOk, RingSpec.MigrateIn, RawKey;
      var nodeKey := RawKey(node, i);
      var virtualScore := config.hash(nodeKey);
      var roll: nat := *;
      hashRing.Add(virtualScore, nodeKey, roll);
      MigrateIn(virtualScore, node);
    }

    /** Removes a physical node; on failure it stops where it is. */
    method RemoveNode(node: string) returns (ok: bool)
      requires Valid()
      modifies hashRing.Repr()
      ensures Valid() && hashRing.Repr() <= old(hashRing.Repr())
      ensures var out := RingSpec.RemoveNode(config, old(hashRing.State()), node);
              hashRing.State() == out.state && ok == out.Done?
    {
      hide ListOk, RemoveVirtual;
      if node !in hashRing.nodeToReplicas { return false; }
      var count := hashRing.nodeToReplicas[node];
      hashRing.DeleteNodeToReplica(node);
      ghost var goal := RemoveFrom(config, hashRing.State(), node, 0, count);
      for i := 0 to count
        invariant Valid() && hashRing.Repr() <= old(hashRing.Repr())
        invariant RemoveFrom(config, hashRing.State(), node, i, count) == goal
      {
        ok := RemoveReplica(node, i);
        if !ok { return false; }
      }
      ok := true;
    }

    method RemoveReplica(node: string, i: nat) returns (ok: bool)
      requires Valid()
      modifies hashRing.Repr()
      ensures Valid() && hashRing.Repr() <= old(hashRing.Repr())
      ensures var out := RemoveVirtual(config, old(hashRing.State()), node, i);
              hashRing.State() == out.state && ok == out.Done?
    {
      hide ListOk, RingSpec.MigrateOut, RawKey, RingSpec.Rem;
      var nodeKey := RawKey(node, i);
      var virtualScore := config.hash(nodeKey);
      ok := MigrateOut(virtualScore, node);
      if ok { ok := hashRing.Rem(virtualScore, nodeKey); }
    }

    /** Finds the node that owns a key and records the key there. */
    method GetNode(key: string) returns (ok: bool, node: string)
      requires Valid()
      modifies hashRing`nodeToDataKey
      ensures Valid()
      ensures var st := old(hashRing.State()); var out := RingSpec.GetNode(config, st, key);
              hashRing.State() == out.state && ok == out.Done? && (ok ==> node == Owner(config.hash, st.slots, key))
    {
      hide ListOk, NodeOf, AddKeys;
      ok, node := false, "";
      var ceiling := hashRing.Ceiling(config.hash(key));
      if ceiling == -1 { return; }
      var _, nodes := hashRing.Node(ceiling);
      if |nodes| == 0 { return; }
      ok, node := true, NodeOf(nodes[0]);
      hashRing.AddNodeToDataKeys(node, {key});
    }
  }

  lemma StartWalk(slots: Slots, s: Score, node: string)
    requires s in slots && Lone(slots[s], node)
    ensures AllLone(slots, s, s, node) && Passed(slots, s, s) == {}
  {
    forall t | t in slots && Dist(s, t) <= Dist(s, s) ensures Lone(slots[t], node) { assert t == s; }
  }
}
