/**
 * The tree from Put to level 0: an active memtable, read-only ones waiting to be flushed, and level-0
 * tables. Get looks at the memtables and at level 0 in two separate steps.
 */
module LsmTree {
  import opened LsmBytes
  import opened Options

  /** A value and the number of the Put that wrote it. */
  datatype Version = Version(value: Bytes, put: nat)

  type Layer = map<Bytes, Version>

  datatype Put = Put(key: Bytes, value: Bytes)

  /** `flushed` says that the oldest read-only memtable has its table in level 0 already. */
  datatype Tree = Tree(mem: Layer, readOnly: seq<Layer>, level0: seq<Layer>, flushed: bool, history: seq<Put>)

  datatype Event =
    | PutEvent(key: Bytes, value: Bytes, rotate: bool) // under the write lock, rotation included
    | InsertEvent                                      // the flushed table joins level 0
    | ReclaimEvent                                     // its memtable is dropped

  predicate Enabled(t: Tree, ev: Event) {
    match ev
    case PutEvent(_, _, _) => true
    case InsertEvent => t.readOnly != [] && !t.flushed
    case ReclaimEvent => t.readOnly != [] && t.flushed
  }

  /** Memtables are flushed in the order they were rotated. */
  function Next(t: Tree, ev: Event): Tree
    requires Enabled(t, ev)
  {
    match ev
    case PutEvent(key, value, rotate) =>
      var mem := t.mem[key := Version(value, |t.history|)];
      var t1 := t.(history := t.history + [Put(key, value)]);
      if rotate then t1.(mem := map[], readOnly := t.readOnly + [mem]) else t1.(mem := mem)
    case InsertEvent => t.(level0 := t.level0 + [t.readOnly[0]], flushed := true)
    case ReclaimEvent => t.(readOnly := t.readOnly[1..], flushed := false)
  }

  ghost predicate Run(ts: seq<Tree>, evs: seq<Event>) {
    && |ts| == |evs| + 1 && ts[0] == Tree(map[], [], [], false, [])
    && (forall i :: 0 <= i < |evs| ==> Enabled(ts[i], evs[i]) && ts[i + 1] == Next(ts[i], evs[i]))
  }

  // ------------------------------------------------------------ reading

  /** Newest layer first. */
  function Find(layers: seq<Layer>, key: Bytes): Option<Version> {
    if layers == [] then None
    else
      var newest := layers[|layers| - 1];
      if key in newest then Some(newest[key]) else Find(layers[..|layers| - 1], key)
  }

  function MemHalf(t: Tree, key: Bytes): Option<Version> {
    if key in t.mem then Some(t.mem[key]) else Find(t.readOnly, key)
  }

  /** Get: the memtables at one moment and, if they do not have the key, level 0 at a later one. */
  function Get(atMem: Tree, atLevel0: Tree, key: Bytes): Option<Version> {
    match MemHalf(atMem, key)
    case Some(v) => Some(v)
    case None => Find(atLevel0.level0, key)
  }

  /** The last Put of a key. */
  function LastPut(history: seq<Put>, key: Bytes): Option<Version> {
    if history == [] then None
    else
      var n := |history| - 1;
      if history[n].key == key then Some(Version(history[n].value, n)) else LastPut(history[..n], key)
  }

  // ------------------------------------------------------------ what every state keeps

  /** All layers in the order they were filled; a memtable with its table in level 0 counts once. */
  function Layers(t: Tree): seq<Layer> {
    t.level0 + (if t.flushed && t.readOnly != [] then t.readOnly[1..] else t.readOnly) + [t.mem]
  }

  ghost predicate Ascending(layers: seq<Layer>) {
    forall i, j, k :: 0 <= i < j < |layers| && k in layers[i] && k in layers[j] ==> layers[i][k].put < layers[j][k].put
  }

  ghost predicate Good(t: Tree) {
    && (forall key :: Find(Layers(t), key) == LastPut(t.history, key))
    && Ascending(Layers(t))
    && (forall i, k :: 0 <= i < |Layers(t)| && k in Layers(t)[i] ==> Layers(t)[i][k].put < |t.history|)
    && (t.flushed ==> t.readOnly != [] && t.level0 != [] && t.level0[|t.level0| - 1] == t.readOnly[0])
  }

  lemma {:induction false} FindSplit(a: seq<Layer>, b: seq<Layer>, key: Bytes)
    ensures Find(a + b, key) == if Find(b, key).Some? then Find(b, key) else Find(a, key)
  {
    if b == [] {
      assert a + b == a;
    } else {
      assert (a + b)[..|a + b| - 1] == a + b[..|b| - 1];
      FindSplit(a, b[..|b| - 1], key);
    }
  }

  lemma FindOne(layer: Layer, key: Bytes)
    ensures Find([layer], key) == if key in layer then Some(layer[key]) else None
  {
    assert [layer][..0] == [];
  }

  /** What Find returns stands in one of the layers. */
  lemma {:induction false} FindIn(layers: seq<Layer>, key: Bytes)
    ensures Find(layers, key).Some? ==> exists i :: 0 <= i < |layers| && key in layers[i] && layers[i][key] == Find(layers, key).value
  {
    if layers != [] && key !in layers[|layers| - 1] { FindIn(layers[..|layers| - 1], key); }
  }

  lemma LayersAfter(t: Tree, ev: Event)
    requires Good(t) && Enabled(t, ev)
    ensures ev.InsertEvent? || ev.ReclaimEvent? ==> Layers(Next(t, ev)) == Layers(t)
    ensures ev.PutEvent? ==>
              var n := |Layers(t)| - 1;
              var mem := t.mem[ev.key := Version(ev.value, |t.history|)];
              Layers(Next(t, ev)) == Layers(t)[..n] + if ev.rotate then [mem, map[]] else [mem]
  {
    assert t.flushed ==> t.readOnly != [];
    hide Good;
    match ev
    case PutEvent(key, value, rotate) =>
      var mem := t.mem[key := Version(value, |t.history|)];
      if rotate { RotateLayers(t, mem); }
    case InsertEvent =>
      assert t.readOnly == [t.readOnly[0]] + t.readOnly[1..];
    case ReclaimEvent =>
  }

  lemma RotateLayers(t: Tree, mem: Layer)
    requires t.flushed ==> t.readOnly != []
    ensures Layers(t.(mem := map[], readOnly := t.readOnly + [mem])) == Layers(t)[..|Layers(t)| - 1] + [mem, map[]]
  {
    assert t.flushed ==> (t.readOnly + [mem])[1..] == t.readOnly[1..] + [mem];
  }

  lemma NextGood(t: Tree, ev: Event)
    requires Good(t) && Enabled(t, ev)
    ensures Good(Next(t, ev))
  {
    LayersAfter(t, ev);
    if ev.PutEvent? {
      var t1 := Next(t, ev);
      forall key ensures Find(Layers(t1), key) == LastPut(t1.history, key) { PutFinds(t, ev, key); }
      PutAscends(t, ev);
      hide Layers, Find, LastPut, Ascending;
    } else {
      hide Layers, Find, LastPut, Ascending;
    }
  }

  lemma PutFinds(t: Tree, ev: Event, key: Bytes)
    requires Good(t) && ev.PutEvent?
    ensures Find(Layers(Next(t, ev)), key) == LastPut(Next(t, ev).history, key)
  {
    LayersAfter(t, ev);
    var t1, n := Next(t, ev), |Layers(t)| - 1;
    var before, mem := Layers(t)[..n], t.mem[ev.key := Version(ev.value, |t.history|)];
    assert Layers(t) == before + [t.mem];
    assert t1.history[..|t.history|] == t.history;
    assert Find(before + [t.mem], key) == LastPut(t.history, key);
    assert LastPut(t1.history, key) == if ev.key == key then Some(Version(ev.value, |t.history|)) else LastPut(t.history, key);
    hide Find, Good, Layers, LastPut, Next;
    FindLast(before, t.mem, key);
    FindLast(before, mem, key);
    if ev.rotate {
      assert Layers(t1) == (before + [mem]) + [map[]];
      FindLast(before + [mem], map[], key);
    }
  }

  lemma FindLast(before: seq<Layer>, layer: Layer, key: Bytes)
    ensures Find(before + [layer], key) == if key in layer then Some(layer[key]) else Find(before, key)
  {
    FindSplit(before, [layer], key);
    FindOne(layer, key);
  }

  lemma PutAscends(t: Tree, ev: Event)
    requires Good(t) && ev.PutEvent?
    ensures var t1 := Next(t, ev);
            Ascending(Layers(t1)) && forall i, k :: 0 <= i < |Layers(t1)| && k in Layers(t1)[i] ==> Layers(t1)[i][k].put < |t1.history|
  {
    LayersAfter(t, ev);
    var layers, n := Layers(t), |Layers(t)| - 1;
    var layers1 := Layers(Next(t, ev));
    assert layers[n] == t.mem && |Next(t, ev).history| == |t.history| + 1;
    assert forall i :: 0 <= i < n ==> layers1[i] == layers[i];
    assert layers1[n] == t.mem[ev.key := Version(ev.value, |t.history|)];
    assert forall i :: n < i < |layers1| ==> layers1[i] == map[];
    hide Find, LastPut, Next, Layers;
    StillAscending(layers, layers1, n, ev.key, Version(ev.value, |t.history|), |t.history|);
  }

  /** A version newer than all others may go into the last layer. */
  lemma StillAscending(layers: seq<Layer>, layers1: seq<Layer>, n: nat, key: Bytes, v: Version, bound: nat)
    requires n + 1 == |layers| <= |layers1| && v.put == bound && Ascending(layers)
    requires forall i, k :: 0 <= i < |layers| && k in layers[i] ==> layers[i][k].put < bound
    requires forall i :: 0 <= i < n ==> layers1[i] == layers[i]
    requires layers1[n] == layers[n][key := v] && forall i :: n < i < |layers1| ==> layers1[i] == map[]
    ensures Ascending(layers1) && forall i, k :: 0 <= i < |layers1| && k in layers1[i] ==> layers1[i][k].put < bound + 1
  {
  }

  lemma {:induction false} RunGood(ts: seq<Tree>, evs: seq<Event>, i: nat)
    requires Run(ts, evs) && i < |ts|
    ensures Good(ts[i])
  {
    if i == 0 {
      forall key ensures Find(Layers(ts[0]), key) == None { FindOne(map[], key); assert Layers(ts[0]) == [map[]]; }
    } else {
      RunGood(ts, evs, i - 1);
      NextGood(ts[i - 1], evs[i - 1]);
    }
  }

  // ------------------------------------------------------------ reads over a run

  /** Level 0 and the history only grow. */
  lemma {:induction false} Grows(ts: seq<Tree>, evs: seq<Event>, a: nat, b: nat)
    requires Run(ts, evs) && a <= b < |ts|
    ensures ts[a].level0 <= ts[b].level0 && ts[a].history <= ts[b].history
    decreases b
  {
    if a < b {
      Grows(ts, evs, a, b - 1);
      assert ts[b] == Next(ts[b - 1], evs[b - 1]);
    }
  }

  /** The memtables have the last Put of a key, or level 0 does. */
  lemma MemHalfIsLast(t: Tree, key: Bytes)
    requires Good(t)
    ensures LastPut(t.history, key) == if MemHalf(t, key).Some? then MemHalf(t, key) else Find(t.level0, key)
  {
    var ro := if t.flushed && t.readOnly != [] then t.readOnly[1..] else t.readOnly;
    FindSplit(t.level0 + ro, [t.mem], key);
    FindSplit(t.level0, ro, key);
    FindOne(t.mem, key);
    if t.flushed {
      var n := |t.level0| - 1;
      assert t.readOnly == [t.readOnly[0]] + ro;
      FindSplit([t.readOnly[0]], ro, key);
      FindOne(t.readOnly[0], key);
      assert t.level0 == t.level0[..n] + [t.readOnly[0]];
    }
  }

  lemma {:induction false} LastPutIs(history: seq<Put>, key: Bytes)
    ensures match LastPut(history, key)
            case None => forall p :: 0 <= p < |history| ==> history[p].key != key
            case Some(v) => v.put < |history| && history[v.put] == Put(key, v.value)
                            && forall p :: v.put < p < |history| ==> history[p].key != key
  {
    if history != [] {
      var n := |history| - 1;
      LastPutIs(history[..n], key);
      assert forall p :: 0 <= p < n ==> history[..n][p] == history[p];
    }
  }

  /** A version of a key in any layer was put under that key. */
  ghost predicate Authentic(t: Tree) { AllPut(Layers(t), t.history) }

  ghost predicate AllPut(layers: seq<Layer>, history: seq<Put>) {
    forall i, k :: 0 <= i < |layers| && k in layers[i] ==>
      var v := layers[i][k]; v.put < |history| && history[v.put] == Put(k, v.value)
  }

  lemma {:induction false} RunAuthentic(ts: seq<Tree>, evs: seq<Event>, i: nat)
    requires Run(ts, evs) && i < |ts|
    ensures Authentic(ts[i])
  {
    if i == 0 {
      assert Layers(ts[0]) == [map[]];
    } else {
      RunAuthentic(ts, evs, i - 1);
      RunGood(ts, evs, i - 1);
      hide Good, Authentic, Next;
      NextAuthentic(ts[i - 1], evs[i - 1]);
    }
  }

  lemma NextAuthentic(t: Tree, ev: Event)
    requires Good(t) && Authentic(t) && Enabled(t, ev)
    ensures Authentic(Next(t, ev))
  {
    hide Find, LastPut, Ascending, Good;
    LayersAfter(t, ev);
    var layers, n := Layers(t), |Layers(t)| - 1;
    var layers1 := Layers(Next(t, ev));
    assert layers[n] == t.mem;
    hide Layers;
    if ev.PutEvent? {
      hide AllPut;
      StillPut(layers, layers1, n, t.history, ev.key, ev.value);
    }
  }

  /** The new version in the last layer was put just now. */
  lemma StillPut(layers: seq<Layer>, layers1: seq<Layer>, n: nat, history: seq<Put>, key: Bytes, value: Bytes)
    requires n + 1 == |layers| <= |layers1| && AllPut(layers, history)
    requires var mem := layers[n][key := Version(value, |history|)]; layers1 == layers[..n] + [mem] || layers1 == layers[..n] + [mem, map[]]
    ensures AllPut(layers1, history + [Put(key, value)])
  {
    assert forall i :: 0 <= i < n ==> layers1[i] == layers[i];
  }

  /** Reads: in every run, a Get whose memtable half sees state a and whose level-0 half sees a later state b
      finds the key if any Put of it was finished by a, and what it returns was really put and is at
      least as new as every such Put, whatever was flushed in between. */
  lemma ReadsNothingOlder(ts: seq<Tree>, evs: seq<Event>, a: nat, b: nat, key: Bytes)
    requires Run(ts, evs) && a <= b < |ts|
    ensures match Get(ts[a], ts[b], key)
            case None => forall p :: 0 <= p < |ts[a].history| ==> ts[a].history[p].key != key
            case Some(v) =>
              && v.put < |ts[b].history| && ts[b].history[v.put] == Put(key, v.value)
              && forall p :: v.put < p < |ts[a].history| ==> ts[a].history[p].key != key
  {
    var t, u := ts[a], ts[b];
    RunGood(ts, evs, a);
    RunGood(ts, evs, b);
    RunAuthentic(ts, evs, b);
    Grows(ts, evs, a, b);
    MemHalfIsLast(t, key);
    LastPutIs(t.history, key);
    hide Good, Run, MemHalf, Authentic, LastPut;
    if MemHalf(t, key).None? { NewerInLevel0(t, u, key); }
  }

  /** Level 0 grown by newer tables answers with something at least as new. */
  lemma NewerInLevel0(t: Tree, u: Tree, key: Bytes)
    requires Good(u) && Authentic(u) && t.level0 <= u.level0
    ensures Find(t.level0, key).Some? ==> Find(u.level0, key).Some? && Find(t.level0, key).value.put <= Find(u.level0, key).value.put
    ensures Find(u.level0, key).Some? ==>
              var v := Find(u.level0, key).value; v.put < |u.history| && u.history[v.put] == Put(key, v.value)
  {
    var more := u.level0[|t.level0|..];
    assert u.level0 == t.level0 + more;
    Level0Layers(u);
    hide Find, Good, Layers, LastPut, Ascending;
    FindSplit(t.level0, more, key);
    FindIn(u.level0, key);
    NewerBehind(t.level0, more, key);
  }

  lemma Level0Layers(t: Tree)
    requires Good(t) && Authentic(t)
    ensures Ascending(t.level0) && AllPut(t.level0, t.history)
  {
    assert forall i :: 0 <= i < |t.level0| ==> Layers(t)[i] == t.level0[i];
    assert Ascending(Layers(t));
    hide Good, Layers;
  }

  /** Of two runs of layers the later one has the newer version. */
  lemma NewerBehind(a: seq<Layer>, b: seq<Layer>, key: Bytes)
    requires Ascending(a + b)
    ensures Find(a, key).Some? && Find(b, key).Some? ==> Find(a, key).value.put <= Find(b, key).value.put
  {
    FindIn(a, key);
    FindIn(b, key);
    hide Find;
    if Find(a, key).Some? && Find(b, key).Some? {
      var i :| 0 <= i < |a| && key in a[i] && a[i][key] == Find(a, key).value;
      var j :| 0 <= j < |b| && key in b[j] && b[j][key] == Find(b, key).value;
      assert (a + b)[i] == a[i] && (a + b)[|a| + j] == b[j];
    }
  }
}
