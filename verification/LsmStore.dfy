/**
 * The tree with real tables: level 0 is a list of table files read by index search, filter and block scan.
 * Rotation is decided by the memtable's size. Reads are those of LsmTree as long as lookup works.
 */
module LsmStore {
  import opened LsmBytes
  import opened LsmBlocks
  import opened LsmFilter
  import opened LsmTable
  import opened LsmFile
  import opened LsmWriter
  import opened MemList
  import opened Options
  import T = LsmTree

  datatype Config = Config(hasher: Hasher, m: nat, sstSize: nat)

  datatype Store = Store(mem: T.Layer, readOnly: seq<T.Layer>, level0: seq<Node>, flushed: bool, history: seq<T.Put>)

  datatype Event =
    | PutEvent(key: Bytes, value: Bytes)
    | InsertEvent(node: Node, blocks: seq<seq<KV>>) // a table of the oldest read-only memtable joins level 0
    | ReclaimEvent

  function Values(layer: T.Layer): MemList.Table { map k | k in layer :: layer[k].value }

  /** The memtable has reached its share of the table size. */
  ghost predicate Full(c: Config, layer: T.Layer) { Total(Values(layer)) * 5 / 4 > c.sstSize }

  /** The node is a table of exactly the memtable's pairs. */
  ghost predicate Flushes(c: Config, layer: T.Layer, node: Node, blocks: seq<seq<KV>>) {
    LsmTable.Table(node, blocks, c.hasher, c.m) && Lists(Flatten(blocks), Values(layer))
  }

  ghost predicate Enabled(c: Config, s: Store, ev: Event) {
    match ev
    case PutEvent(_, _) => true
    case InsertEvent(node, blocks) => s.readOnly != [] && !s.flushed && Flushes(c, s.readOnly[0], node, blocks)
    case ReclaimEvent => s.readOnly != [] && s.flushed
  }

  ghost function Next(c: Config, s: Store, ev: Event): Store
    requires Enabled(c, s, ev)
  {
    match ev
    case PutEvent(key, value) =>
      var mem := s.mem[key := T.Version(value, |s.history|)];
      var s1 := s.(history := s.history + [T.Put(key, value)]);
      if Full(c, mem) then s1.(mem := map[], readOnly := s.readOnly + [mem]) else s1.(mem := mem)
    case InsertEvent(node, _) => s.(level0 := s.level0 + [node], flushed := true)
    case ReclaimEvent => s.(readOnly := s.readOnly[1..], flushed := false)
  }

  /** A put goes into the memtable; a memtable whose listing then has more than 4/5 of the table's size in bytes becomes
      read-only, and an empty one takes its place. */
  lemma PutRotates(c: Config, s: Store, key: Bytes, value: Bytes, kvs: seq<KV>)
    requires Lists(kvs, Values(s.mem)[key := value])
    ensures var s' := Next(c, s, PutEvent(key, value));
            && s'.level0 == s.level0 && s'.flushed == s.flushed && s'.history == s.history + [T.Put(key, value)]
            && if 5 * PairBytes(kvs) >= 4 * (c.sstSize + 1)
               then s'.mem == map[] && s'.readOnly == s.readOnly + [s.mem[key := T.Version(value, |s.history|)]]
               else s'.mem == s.mem[key := T.Version(value, |s.history|)] && s'.readOnly == s.readOnly
  {
    assert Values(s.mem[key := T.Version(value, |s.history|)]) == Values(s.mem)[key := value];
    ListedBytes(kvs, Values(s.mem)[key := value]);
  }

  const EMPTY: Store := Store(map[], [], [], false, [])

  ghost predicate Run(c: Config, ss: seq<Store>, evs: seq<Event>) {
    && |ss| == |evs| + 1 && ss[0] == EMPTY
    && (forall i :: 0 <= i < |evs| ==> Enabled(c, ss[i], evs[i]) && ss[i + 1] == Next(c, ss[i], evs[i]))
  }

  // ------------------------------------------------------------ reading

  /** Newest table first. */
  ghost function FindTable(c: Config, nodes: seq<Node>, key: Bytes): Lookup {
    if nodes == [] then NotFound
    else
      match NodeGet(nodes[|nodes| - 1], c.hasher, c.m, key)
      case Found(v) => Found(v)
      case NotFound => FindTable(c, nodes[..|nodes| - 1], key)
      case Failed => Failed
  }

  /** Get: the memtables at one moment and, if they do not have the key, level 0 at a later one. */
  ghost function Get(c: Config, atMem: Store, atLevel0: Store, key: Bytes): Lookup {
    match T.MemHalf(Memory(atMem), key)
    case Some(v) => Found(v.value)
    case None => FindTable(c, atLevel0.level0, key)
  }

  /** What a Get may return: a value really put, at least as new as every Put of the key finished before. */
  ghost predicate Current(before: Store, after: Store, key: Bytes, r: Lookup) {
    match r
    case Failed => false
    case NotFound => forall p :: 0 <= p < |before.history| ==> before.history[p].key != key
    case Found(v) =>
      exists p :: 0 <= p < |after.history| && after.history[p] == T.Put(key, v) &&
                  forall q :: p < q < |before.history| ==> before.history[q].key != key
  }

  // ------------------------------------------------------------ tables as maps

  function Memory(s: Store): T.Tree { T.Tree(s.mem, s.readOnly, [], s.flushed, s.history) }

  /** The table answers like the memtable it was written from. */
  ghost predicate Answers(c: Config, node: Node, layer: T.Layer) {
    forall key :: NodeGet(node, c.hasher, c.m, key) == if key in layer then Found(layer[key].value) else NotFound
  }

  lemma {:induction false} ScanListed(kvs: seq<KV>, key: Bytes, value: Bytes)
    requires Sorted(kvs) && KV(key, value) in kvs
    ensures Scan(kvs, key) == Found(value)
  {
    if kvs[0].key != key {
      assert kvs == [kvs[0]] + kvs[1..];
      ScanListed(kvs[1..], key, value);
    } else {
      var i :| 0 <= i < |kvs| && kvs[i] == KV(key, value);
      if i > 0 { LessTotal(kvs[0].key, kvs[i].key); }
    }
  }

  /** A table with a findable smallest key answers like the map it lists. */
  lemma TableAnswers(c: Config, layer: T.Layer, node: Node, blocks: seq<seq<KV>>)
    requires Flushes(c, layer, node, blocks) && layer != map[] && (blocks != [] && blocks[0] != [] ==> Findable(FirstKey(blocks)))
    ensures Answers(c, node, layer)
  {
    var kvs := Flatten(blocks);
    var k :| k in layer;
    assert KV(k, layer[k].value) in kvs;
    assert blocks != [];
    assert Sorted(kvs);
    hide LsmTable.Table, NodeGet, Scan, Flatten;
    LookupIff(node, blocks, c.hasher, c.m);
    forall key ensures NodeGet(node, c.hasher, c.m, key) == if key in layer then Found(layer[key].value) else NotFound {
      if key in layer {
        assert KV(key, layer[key].value) in kvs;
        ScanListed(kvs, key, layer[key].value);
      } else {
        ScanMisses(kvs, key);
      }
    }
  }

  ghost predicate AllAnswer(c: Config, nodes: seq<Node>, tables: seq<T.Layer>) {
    |nodes| == |tables| && forall i :: 0 <= i < |nodes| ==> Answers(c, nodes[i], tables[i])
  }

  lemma {:induction false} FindTableIs(c: Config, nodes: seq<Node>, tables: seq<T.Layer>, key: Bytes)
    requires AllAnswer(c, nodes, tables)
    ensures FindTable(c, nodes, key) == match T.Find(tables, key) case None => NotFound case Some(v) => Found(v.value)
  {
    hide NodeGet;
    if nodes != [] {
      var n := |nodes| - 1;
      assert Answers(c, nodes[n], tables[n]);
      FindTableIs(c, nodes[..n], tables[..n], key);
    }
  }

  // ------------------------------------------------------------ runs

  /** Every table flushed in the run has a smallest key that lookup finds. */
  ghost predicate SafeFlushes(evs: seq<Event>) {
    forall i :: 0 <= i < |evs| && evs[i].InsertEvent? && evs[i].blocks != [] && evs[i].blocks[0] != [] ==> Findable(FirstKey(evs[i].blocks))
  }

  ghost predicate NonEmpty(layers: seq<T.Layer>) { forall i :: 0 <= i < |layers| ==> layers[i] != map[] }

  ghost function TreeEvent(c: Config, s: Store, ev: Event): T.Event {
    match ev
    case PutEvent(key, value) => T.PutEvent(key, value, Full(c, s.mem[key := T.Version(value, |s.history|)]))
    case InsertEvent(_, _) => T.InsertEvent
    case ReclaimEvent => T.ReclaimEvent
  }

  /** The tree whose level 0 holds the maps the tables were written from. */
  ghost predicate Same(c: Config, s: Store, t: T.Tree) {
    && t == T.Tree(s.mem, s.readOnly, t.level0, s.flushed, s.history)
    && NonEmpty(s.readOnly) && AllAnswer(c, s.level0, t.level0)
  }

  lemma NextSame(c: Config, s: Store, t: T.Tree, ev: Event)
    requires Same(c, s, t) && Enabled(c, s, ev)
    requires ev.InsertEvent? && ev.blocks != [] && ev.blocks[0] != [] ==> Findable(FirstKey(ev.blocks))
    ensures T.Enabled(t, TreeEvent(c, s, ev)) && Same(c, Next(c, s, ev), T.Next(t, TreeEvent(c, s, ev)))
  {
    if ev.InsertEvent? { TableAnswers(c, s.readOnly[0], ev.node, ev.blocks); }
    if ev.PutEvent? {
      var mem := s.mem[ev.key := T.Version(ev.value, |s.history|)];
      assert ev.key in mem;
    }
    hide Answers, Flushes, Full;
  }

  /** Every run with safe flushes is a run of the tree whose tables are maps. */
  lemma {:induction false} Simulates(c: Config, ss: seq<Store>, evs: seq<Event>) returns (ts: seq<T.Tree>, tevs: seq<T.Event>)
    requires Run(c, ss, evs) && SafeFlushes(evs)
    ensures T.Run(ts, tevs) && |ts| == |ss| && forall i :: 0 <= i < |ss| ==> Same(c, ss[i], ts[i])
    decreases |evs|
  {
    if evs == [] {
      ts, tevs := [T.Tree(map[], [], [], false, [])], [];
    } else {
      var n := |evs| - 1;
      assert Run(c, ss[..n + 1], evs[..n]);
      var ts0, tevs0 := Simulates(c, ss[..n + 1], evs[..n]);
      assert Same(c, ss[..n + 1][n], ts0[n]);
      NextSame(c, ss[n], ts0[n], evs[n]);
      var tev := TreeEvent(c, ss[n], evs[n]);
      ts, tevs := ts0 + [T.Next(ts0[n], tev)], tevs0 + [tev];
      hide Same, Next, T.Next, Enabled, T.Enabled;
      forall i | 0 <= i < |ss| ensures Same(c, ss[i], ts[i]) {
        if i <= n { assert ss[..n + 1][i] == ss[i]; }
      }
    }
  }

  /** Reads: in every run whose flushed memtables have findable smallest keys, a Get whose memtable half sees
      state a and whose level-0 half sees a later state b returns something really put and at least as new
      as every Put of the key finished by a, and finds the key if there was one. */
  lemma ReadsNothingOlder(c: Config, ss: seq<Store>, evs: seq<Event>, a: nat, b: nat, key: Bytes)
    requires Run(c, ss, evs) && SafeFlushes(evs) && a <= b < |ss|
    ensures Current(ss[a], ss[b], key, Get(c, ss[a], ss[b], key))
  {
    hide SafeFlushes;
    var ts, tevs := Simulates(c, ss, evs);
    assert Same(c, ss[a], ts[a]) && Same(c, ss[b], ts[b]);
    hide Run;
    T.ReadsNothingOlder(ts, tevs, a, b, key);
    FindTableIs(c, ss[b].level0, ts[b].level0, key);
    hide AllAnswer, FindTable, T.Run;
  }

  // ------------------------------------------------------------ which keys are safe

  /** All Puts of the run are of these keys. */
  ghost predicate Uses(evs: seq<Event>, keys: iset<Bytes>) {
    forall i :: 0 <= i < |evs| && evs[i].PutEvent? ==> evs[i].key in keys
  }

  ghost predicate KeysIn(s: Store, keys: iset<Bytes>) {
    && (forall k :: k in s.mem ==> k in keys)
    && (forall i, k :: 0 <= i < |s.readOnly| && k in s.readOnly[i] ==> k in keys)
  }

  lemma {:induction false} RunKeysIn(c: Config, ss: seq<Store>, evs: seq<Event>, keys: iset<Bytes>, i: nat)
    requires Run(c, ss, evs) && Uses(evs, keys) && i < |ss|
    ensures KeysIn(ss[i], keys)
  {
    if i > 0 {
      RunKeysIn(c, ss, evs, keys, i - 1);
      var s, ev := ss[i - 1], evs[i - 1];
      assert ss[i] == Next(c, s, ev);
      hide Full, Flushes;
    }
  }

  lemma SafeKeysFlushSafely(c: Config, ss: seq<Store>, evs: seq<Event>, keys: iset<Bytes>)
    requires Run(c, ss, evs) && Uses(evs, keys) && forall k :: k in keys ==> Findable(k)
    ensures SafeFlushes(evs)
  {
    forall i | 0 <= i < |evs| && evs[i].InsertEvent? && evs[i].blocks != [] && evs[i].blocks[0] != [] ensures Findable(FirstKey(evs[i].blocks)) {
      RunKeysIn(c, ss, evs, keys, i);
      var blocks := evs[i].blocks;
      assert Enabled(c, ss[i], evs[i]);
      assert Flushes(c, ss[i].readOnly[0], evs[i].node, blocks);
      FlattenLast(blocks);
      var kv := Flatten(blocks)[0];
      assert kv in Flatten(blocks);
      assert kv.key in Values(ss[i].readOnly[0]);
    }
  }

  /** Settings as the store repairs them: a filter of some 32-bit length, a table size that an int can count. */
  predicate Proper(c: Config) { 0 < c.m < 0x1_0000_0000 && 0 < c.sstSize < 0x7fff_ffff_ffff_ffff }

  /** The table file of one pair, with the filter that its key gives. */
  ghost function OneTable(c: Config, kv: KV): Node
    requires 0 < c.m
  {
    var bitmap := HashBits(c.m, [c.hasher(kv.key)]);
    var index := [Index(Separator([], kv.key), 0, 0), BlockIndex([[kv]], 0, kv.key)];
    Node(index, map[0 := bitmap], FileOf(EncodeBlocks([[kv]]), [(0, bitmap)], index))
  }

  lemma OneTableOk(c: Config, kv: KV)
    requires Fits(kv) && 0 < c.m
    ensures LsmTable.Table(OneTable(c, kv), [[kv]], c.hasher, c.m) && Flatten([[kv]]) == [kv]
  {
    var blocks, node := [[kv]], OneTable(c, kv);
    OneBlock(kv);
    hide HashBits, IsFilter, Footer, Encode, EncodeBlocks, Separator, BlockIndex, Flatten, Offset, Hashes, BlocksFit;
    HashIsFilter(c.m, [c.hasher(kv.key)]);
    OneHash(c.hasher, kv);
    assert BlockFiltered(blocks, node.filters, c.hasher, c.m, 0);
    assert EntryOk(node.index, blocks, 0);
  }

  lemma OneBlock(kv: KV)
    requires Fits(kv)
    ensures BlocksFit([[kv]]) && Flatten([[kv]]) == [kv] && Offset([[kv]], 0) == 0
  {
    assert [[kv]][..0] == [];
    assert Flatten([[kv]]) == [] + [kv];
    NoOffset([[kv]]);
  }

  lemma OneHash(hasher: Hasher, kv: KV)
    ensures Hashes(hasher, [kv]) == [hasher(kv.key)]
  {
  }

  /** A value that makes the memtable full by itself. */
  ghost function Big(c: Config): Bytes { seq(c.sstSize + 1, _ => 0 as Byte) }

  /** In every store, a key that is empty or ends in a zero byte: put, rotated, flushed and reclaimed it is gone. */
  lemma LostKey(c: Config, key: Bytes) returns (ss: seq<Store>, evs: seq<Event>)
    requires Proper(c) && !Findable(key) && |key| < 0x8000_0000_0000_0000
    ensures Run(c, ss, evs) && Uses(evs, iset{key}) && |ss| == 4
    ensures !Current(ss[3], ss[3], key, Get(c, ss[3], ss[3], key))
  {
    var kv := KV(key, Big(c));
    OneTableOk(c, kv);
    var node := OneTable(c, kv);
    hide LsmTable.Table, EncodeBlocks, Encode, Get, Current, Findable, OneTable;
    ss, evs := LostRun(c, kv, node);
    FirstLost(c, node, kv);
    NotCurrent(c, ss[3], node, kv);
  }

  lemma LostRun(c: Config, kv: KV, node: Node) returns (ss: seq<Store>, evs: seq<Event>)
    requires |kv.value| > c.sstSize && LsmTable.Table(node, [[kv]], c.hasher, c.m) && Flatten([[kv]]) == [kv]
    ensures Run(c, ss, evs) && Uses(evs, iset{kv.key})
    ensures |ss| == 4 && ss[3] == Store(map[], [], [node], false, [T.Put(kv.key, kv.value)])
  {
    var key, value := kv.key, kv.value;
    var layer: T.Layer, history := map[key := T.Version(value, 0)], [T.Put(key, value)];
    evs := [PutEvent(key, value), InsertEvent(node, [[kv]]), ReclaimEvent];
    assert Full(c, layer) by {
      TotalWithout(Values(layer), key);
      assert Values(layer)[key] == value;
    }
    assert Flushes(c, layer, node, [[kv]]);
    hide LsmTable.Table, Full, Flushes;
    assert EMPTY.mem[key := T.Version(value, 0)] == layer;
    var layers: seq<T.Layer> := [layer];
    assert [] + layers == layers && layers[1..] == [];
    ss := [EMPTY, Store(map[], layers, [], false, history), Store(map[], layers, [node], true, history),
           Store(map[], [], [node], false, history)];
  }

  lemma NotCurrent(c: Config, s: Store, node: Node, kv: KV)
    requires s == Store(map[], [], [node], false, [T.Put(kv.key, kv.value)])
    requires NodeGet(node, c.hasher, c.m, kv.key) == NotFound
    ensures !Current(s, s, kv.key, Get(c, s, s, kv.key))
  {
    hide NodeGet;
    var key := kv.key;
    assert [node][..0] == [];
    assert FindTable(c, [node], key) == FindTable(c, [], key) == NotFound;
    assert T.MemHalf(Memory(s), key) == None;
    assert s.history[0].key == key;
  }

  lemma FirstLost(c: Config, node: Node, kv: KV)
    requires LsmTable.Table(node, [[kv]], c.hasher, c.m) && Flatten([[kv]]) == [kv] && !Findable(kv.key)
    ensures NodeGet(node, c.hasher, c.m, kv.key) == NotFound
  {
    var blocks := [[kv]];
    assert FirstKey(blocks) == kv.key;
    if kv.key == [] {
      EmptyKeyLost(node, blocks, c.hasher, c.m);
    } else {
      FirstSeparator(kv.key);
      FirstKeyLost(node, blocks, c.hasher, c.m);
    }
  }

  /** In every store exactly the findable keys are safe: with them every read of every run is current, and with
      any other key some run loses a Put. */
  lemma ReadsIffFindable(c: Config, keys: iset<Bytes>)
    requires Proper(c) && forall k :: k in keys ==> |k| < 0x8000_0000_0000_0000
    ensures (forall k :: k in keys ==> Findable(k)) <==>
            forall ss, evs, a, b, key | Run(c, ss, evs) && Uses(evs, keys) && 0 <= a <= b < |ss| ::
              Current(ss[a], ss[b], key, Get(c, ss[a], ss[b], key))
  {
    hide Run, Current, Get, Findable, Uses, SafeFlushes;
    if forall k :: k in keys ==> Findable(k) {
      forall ss, evs, a, b, key | Run(c, ss, evs) && Uses(evs, keys) && 0 <= a <= b < |ss|
        ensures Current(ss[a], ss[b], key, Get(c, ss[a], ss[b], key))
      {
        SafeKeysFlushSafely(c, ss, evs, keys);
        ReadsNothingOlder(c, ss, evs, a, b, key);
      }
    } else {
      var k :| k in keys && !Findable(k);
      var ss, evs := LostKey(c, k);
      UsesMore(evs, iset{k}, keys);
    }
  }

  lemma UsesMore(evs: seq<Event>, some: iset<Bytes>, keys: iset<Bytes>)
    requires Uses(evs, some) && some <= keys
    ensures Uses(evs, keys)
  {
  }

  // ------------------------------------------------------------ the flush

  /** Writes all pairs of a memtable to a table, in ascending order. */
  method FlushMemTable(memTable: Skiplist, filter: BloomFilter, blockSize: nat) returns (node: Node, size: nat, ghost blocks: seq<seq<KV>>)
    requires memTable.Valid() && 0 < filter.m < 0x1_0000_0000 && filter.hashedKeys == []
    requires forall k :: k in memTable.Contents() ==> Fits(KV(k, memTable.Contents()[k]))
    modifies filter
    ensures LsmTable.Table(node, blocks, filter.hasher, filter.m) && Lists(Flatten(blocks), old(memTable.Contents()))
    ensures size < TWO56 ==> Open(node.file) == Opened(node.index, node.filters, size)
  {
    hide LsmTable.Table, Open, Lists, Skiplist.Linked, Counted;
    ghost var contents := memTable.Contents();
    var kvs := memTable.All();
    ListedFit(kvs, contents);
    node, size, blocks := WriteTable(kvs, filter, blockSize);
  }

  /** The loop of a flush. */
  method WriteTable(kvs: seq<KV>, filter: BloomFilter, blockSize: nat) returns (node: Node, size: nat, ghost blocks: seq<seq<KV>>)
    requires 0 < filter.m < 0x1_0000_0000 && filter.hashedKeys == [] && forall i :: 0 <= i < |kvs| ==> Fits(kvs[i])
    modifies filter
    ensures LsmTable.Table(node, blocks, filter.hasher, filter.m) && Flatten(blocks) == kvs
    ensures size < TWO56 ==> Open(node.file) == Opened(node.index, node.filters, size)
  {
    hide LsmTable.Table, Open, Flatten, SSTWriter.Data, SSTWriter.Filters, SSTWriter.Entries, SSTWriter.Trailer;
    var writer := new SSTWriter(filter, blockSize);
    for i := 0 to |kvs|
      invariant writer.Valid() && writer.filter == filter && writer.all == kvs[..i]
      invariant fresh(writer) && fresh({writer.dataBlock, writer.filterBlock, writer.indexBlock})
    {
      writer.Append(kvs[i].key, kvs[i].value);
      assert kvs[..i + 1] == kvs[..i] + [kvs[i]];
    }
    assert kvs[..|kvs|] == kvs;
    node, size := writer.Finish();
    blocks := writer.blocks;
  }

  lemma ListedFit(kvs: seq<KV>, t: MemList.Table)
    requires Lists(kvs, t) && forall k :: k in t ==> Fits(KV(k, t[k]))
    ensures forall i :: 0 <= i < |kvs| ==> Fits(kvs[i])
  {
    forall i | 0 <= i < |kvs| ensures Fits(kvs[i]) { assert kvs[i] in kvs; }
  }
}
