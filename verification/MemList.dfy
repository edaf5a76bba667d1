/**
 * The memtable: a skip list of byte-string keys. Whatever heights the nodes are given it stands for a map,
 * lists it in ascending order, and knows its size.
 */
module MemList {
  import opened LsmBytes
  import opened LsmBlocks

  type Table = map<Bytes, Bytes>

  class SkipNode {
    const key: Bytes
    ghost const height: nat
    var value: Bytes
    var nexts: seq<SkipNode?>

    constructor (key: Bytes, value: Bytes, levels: nat)
      ensures this.key == key && this.height == levels && this.value == value && nexts == Nulls(levels)
    {
      this.key, this.height, this.value := key, levels, value;
      nexts := Nulls(levels);
    }
  }

  function Nulls(count: nat): (r: seq<SkipNode?>)
    ensures |r| == count && forall i :: 0 <= i < count ==> r[i] == null
  {
    seq(count, _ => null)
  }

  // ------------------------------------------------------------ order

  /** A place in the list: in front of all keys, or at a key. */
  datatype Place = Front | At(key: Bytes)

  predicate After(from: Place, key: Bytes) { from.Front? || Less(from.key, key) }

  /** Less is a strict total order. */
  lemma Ordered()
    ensures forall a, b, c :: Less(a, b) && Less(b, c) ==> Less(a, c)
    ensures forall a, b :: Less(a, b) ==> a != b && !Less(b, a)
    ensures forall a, b :: !Less(a, b) && !Less(b, a) ==> a == b
  {
    forall a, b, c | Less(a, b) && Less(b, c) ensures Less(a, c) { LessTransitive(a, b, c); }
    forall a, b ensures Less(a, b) ==> a != b && !Less(b, a) { LessTotal(a, b); }
    forall a, b ensures !Less(a, b) && !Less(b, a) ==> a == b { LessTotal(a, b); }
  }

  // ------------------------------------------------------------ levels

  /** The nodes by key. */
  type Index = map<Bytes, SkipNode>

  /** The successors of every node by level, under its place. */
  type Links = map<Place, seq<SkipNode?>>

  /** `next` is the first node after the place that reaches the level, or null if there is none. */
  ghost predicate Link(at: Index, from: Place, level: nat, next: SkipNode?) {
    if next == null then forall k :: k in at && After(from, k) ==> at[k].height <= level
    else
      && next.key in at && at[next.key] == next && After(from, next.key) && level < next.height
      && forall k :: k in at && After(from, k) && Less(k, next.key) ==> at[k].height <= level
  }

  ghost predicate KeysOk(at: Index) {
    forall k :: k in at ==> at[k].key == k && 0 < at[k].height
  }

  ghost predicate LevelOk(at: Index, links: Links, level: nat) {
    forall p :: p in links && level < |links[p]| ==> Link(at, p, level, links[p][level])
  }

  ghost predicate Shaped(at: Index, links: Links) {
    && KeysOk(at)
    && (forall p :: p in links <==> p == Front || (p.At? && p.key in at))
    && (forall k :: k in at ==> |links[At(k)]| == at[k].height)
  }

  /** A skip list: every level complete; the head may have more levels than the nodes need. */
  ghost predicate ListOk(at: Index, links: Links) {
    && Shaped(at, links)
    && (forall k :: k in at ==> at[k].height <= |links[Front]|)
    && (forall l: nat :: l < |links[Front]| ==> LevelOk(at, links, l))
  }

  /** A new node shows up on the links that jump over it on the levels it reaches, and only there. */
  lemma LinkAdded(at: Index, from: Place, level: nat, next: SkipNode?, n: SkipNode)
    requires (forall k :: k in at ==> at[k].key == k) && n.key !in at && Link(at, from, level, next)
    ensures n.height <= level || !After(from, n.key) ==> Link(at[n.key := n], from, level, next)
    ensures level < n.height && After(from, n.key) && next != null && Less(next.key, n.key) ==> Link(at[n.key := n], from, level, next)
    ensures level < n.height && After(from, n.key) && (next == null || Less(n.key, next.key)) ==>
              Link(at[n.key := n], from, level, n) && Link(at[n.key := n], At(n.key), level, next)
  {
    Ordered();
    hide Less;
  }

  lemma LevelAbove(at: Index, links: Links, l: nat, n: SkipNode, nexts: seq<SkipNode?>)
    requires Shaped(at, links) && n.key !in at && |nexts| == n.height <= l && LevelOk(at, links, l)
    ensures LevelOk(at[n.key := n], links[At(n.key) := nexts], l)
  {
    forall p | p in links && l < |links[p]| ensures Link(at[n.key := n], p, l, links[p][l]) {
      LinkAdded(at, p, l, links[p][l], n);
    }
  }

  /** Only the link of the node right before the new key jumps over it. */
  lemma NotPast(at: Index, links: Links, level: nat, n: SkipNode, p: Place, q: Place)
    requires Shaped(at, links) && LevelOk(at, links, level) && n.key !in at
    requires p in links && level < |links[p]| && After(p, n.key) && (links[p][level] != null ==> Less(n.key, links[p][level].key))
    requires q in links && q != p && level < |links[q]| && After(q, n.key)
    ensures links[q][level] != null && Less(links[q][level].key, n.key)
  {
    Ordered();
    hide Less;
    assert Link(at, p, level, links[p][level]) && Link(at, q, level, links[q][level]);
    if q.At? { assert level < at[q.key].height; }
    if p.At? { assert level < at[p.key].height; }
  }

  /** Putting a node behind place p completes one level. */
  lemma LevelSpliced(at: Index, links: Links, level: nat, n: SkipNode, nexts: seq<SkipNode?>, p: Place)
    requires Shaped(at, links) && n.key !in at && level < |nexts| == n.height && LevelOk(at, links, level)
    requires p in links && level < |links[p]| && After(p, n.key)
    requires links[p][level] != null ==> Less(n.key, links[p][level].key)
    ensures LevelOk(at[n.key := n], links[p := links[p][level := n]][At(n.key) := nexts[level := links[p][level]]], level)
  {
    hide Less;
    var at1 := at[n.key := n];
    LinkAdded(at, p, level, links[p][level], n);
    forall q | q in links && q != p && level < |links[q]| ensures Link(at1, q, level, links[q][level]) {
      LinkAdded(at, q, level, links[q][level], n);
      if After(q, n.key) { NotPast(at, links, level, n, p, q); }
    }
  }

  /** A link of one level does not matter to another. */
  lemma OtherLevel(at: Index, links: Links, level: nat, l: nat, p: Place, next: SkipNode?)
    requires l != level && p in links && level < |links[p]|
    ensures LevelOk(at, links[p := links[p][level := next]], l) <==> LevelOk(at, links, l)
  {
    hide Link;
    var links1 := links[p := links[p][level := next]];
    assert forall q :: q in links && l < |links[q]| ==> links1[q][l] == links[q][l];
    assert forall q :: q in links ==> |links1[q]| == |links[q]|;
  }

  // ------------------------------------------------------------ splicing

  ghost predicate LevelWith(at: Index, links: Links, n: SkipNode, nexts: seq<SkipNode?>, level: nat) {
    LevelOk(at[n.key := n], links[At(n.key) := nexts], level)
  }

  /** While a node is spliced in: its levels from `level` up are complete with it, the others without. */
  ghost predicate Half(at: Index, links: Links, n: SkipNode, nexts: seq<SkipNode?>, level: nat) {
    && Shaped(at, links) && n.key !in at && level <= |nexts| == n.height && 0 < n.height <= |links[Front]|
    && (forall k :: k in at ==> at[k].height <= |links[Front]|)
    && (forall l: nat :: l < level ==> LevelOk(at, links, l))
    && (forall l: nat :: level <= l < |links[Front]| ==> LevelWith(at, links, n, nexts, l))
  }

  lemma HalfShape(at: Index, links: Links, n: SkipNode, nexts: seq<SkipNode?>, level: nat)
    requires Half(at, links, n, nexts, level)
    ensures Shaped(at, links) && Front in links && level <= |links[Front]| && level <= |nexts| && n.key !in at && KeysOk(at)
    ensures 0 < level ==> LevelOk(at, links, level - 1)
  {
  }

  lemma HalfStep(at: Index, links: Links, n: SkipNode, nexts: seq<SkipNode?>, level: nat, p: Place)
    requires Half(at, links, n, nexts, level + 1)
    requires p in links && level < |links[p]| && After(p, n.key)
    requires links[p][level] != null ==> Less(n.key, links[p][level].key)
    ensures Half(at, links[p := links[p][level := n]], n, nexts[level := links[p][level]], level)
  {
    hide Link, LevelOk, Less;
    var at1, top := at[n.key := n], |links[Front]|;
    var links1, nexts1 := links[p := links[p][level := n]], nexts[level := links[p][level]];
    assert LevelOk(at, links, level);
    LevelSpliced(at, links, level, n, nexts, p);
    var mid := links[At(n.key) := nexts];
    assert p != At(n.key);
    assert mid[p := mid[p][level := n]][At(n.key) := nexts1] == links1[At(n.key) := nexts1];
    forall l: nat | l < level ensures LevelOk(at, links1, l) { OtherLevel(at, links, level, l, p, n); }
    forall l: nat | level < l < top ensures LevelWith(at, links1, n, nexts1, l) {
      assert LevelWith(at, links, n, nexts, l);
      OtherLevel(at1, mid, level, l, p, n);
      OtherLevel(at1, mid[p := mid[p][level := n]], level, l, At(n.key), links[p][level]);
    }
  }

  lemma HalfDone(at: Index, links: Links, n: SkipNode, nexts: seq<SkipNode?>)
    requires Half(at, links, n, nexts, 0)
    ensures ListOk(at[n.key := n], links[At(n.key) := nexts])
  {
    hide Link, LevelOk;
    var at1, links1 := at[n.key := n], links[At(n.key) := nexts];
    forall l: nat | l < |links1[Front]| ensures LevelOk(at1, links1, l) { assert LevelWith(at, links, n, nexts, l); }
  }

  /** A list whose head is given more empty levels is ready for the splice. */
  lemma HalfStart(at: Index, links: Links, n: SkipNode, nexts: seq<SkipNode?>, more: nat)
    requires ListOk(at, links) && n.key !in at && |nexts| == n.height && 0 < n.height <= |links[Front]| + more
    ensures Half(at, links[Front := links[Front] + Nulls(more)], n, nexts, n.height)
  {
    var links1 := links[Front := links[Front] + Nulls(more)];
    forall l: nat | l < |links1[Front]| ensures LevelOk(at, links1, l) {
      forall p | p in links1 && l < |links1[p]| ensures Link(at, p, l, links1[p][l]) {
        if l < |links[Front]| { assert LevelOk(at, links, l); }
      }
    }
    forall l: nat | n.height <= l < |links1[Front]| ensures LevelWith(at, links1, n, nexts, l) {
      LevelAbove(at, links1, l, n, nexts);
    }
  }

  // ------------------------------------------------------------ size

  /** The bytes of all keys and values. */
  ghost function Total(t: Table): nat {
    if t == map[] then 0
    else
      var k :| k in t;
      |k| + |t[k]| + Total(t - {k})
  }

  lemma {:induction false} TotalWithout(t: Table, k: Bytes)
    requires k in t
    ensures Total(t) == |k| + |t[k]| + Total(t - {k})
    decreases |t|
  {
    var j :| j in t && Total(t) == |j| + |t[j]| + Total(t - {j});
    if j != k {
      TotalWithout(t - {j}, k);
      TotalWithout(t - {k}, j);
      assert t - {j} - {k} == t - {k} - {j};
    }
  }

  lemma TotalPut(t: Table, k: Bytes, v: Bytes)
    ensures Total(t[k := v]) == Total(t) + |v| + (if k in t then 0 else |k|) - (if k in t then |t[k]| else 0)
  {
    TotalWithout(t[k := v], k);
    assert t[k := v] - {k} == t - {k};
    if k in t { TotalWithout(t, k); } else { assert t - {k} == t; }
  }

  /** The counters are right: `size` is the sum of all key and value lengths. */
  ghost predicate Counted(t: Table, size: int, entries: int) {
    size == Total(t) && entries == |t|
  }

  lemma OldPair(t: Table, size: int, entries: int, k: Bytes, v: Bytes)
    requires Counted(t, size, entries) && k in t
    ensures Counted(t[k := v], size + (|v| - |t[k]|), entries)
  {
    TotalPut(t, k, v);
    assert t[k := v].Keys == t.Keys;
    assert |t| == |t.Keys| && |t[k := v]| == |t[k := v].Keys|;
  }

  lemma NewPair(t: Table, size: int, entries: int, k: Bytes, v: Bytes)
    requires Counted(t, size, entries) && k !in t
    ensures Counted(t[k := v], size + (|k| + |v|), entries + 1)
  {
    TotalPut(t, k, v);
  }

  /** The table as a list: every pair of it, keys strictly ascending. */
  ghost predicate Lists(kvs: seq<KV>, t: Table) {
    Sorted(kvs) && (forall kv :: kv in kvs <==> kv.key in t && t[kv.key] == kv.value)
  }

  /** The lengths of all keys and values of a list. */
  function PairBytes(kvs: seq<KV>): nat {
    if kvs == [] then 0 else PairBytes(kvs[..|kvs| - 1]) + |kvs[|kvs| - 1].key| + |kvs[|kvs| - 1].value|
  }

  /** The counters of a memtable are those of its listing. */
  lemma {:induction false} ListedBytes(kvs: seq<KV>, t: Table)
    requires Lists(kvs, t)
    ensures Total(t) == PairBytes(kvs) && |t| == |kvs|
    decreases |kvs|
  {
    if kvs == [] {
      assert forall k :: k in t ==> KV(k, t[k]) in kvs;
      assert t == map[];
    } else {
      var n := |kvs| - 1;
      var kv, rest := kvs[n], t - {kvs[n].key};
      assert kv in kvs;
      forall x ensures x in kvs[..n] <==> x.key in rest && rest[x.key] == x.value {
        if x in kvs[..n] {
          var i :| 0 <= i < n && kvs[i] == x;
          assert x in kvs && Less(kvs[i].key, kv.key);
          LessTotal(x.key, kv.key);
        }
        assert x in kvs ==> x in kvs[..n] || x == kv;
      }
      ListedBytes(kvs[..n], rest);
      TotalWithout(t, kv.key);
      assert t == rest[kv.key := t[kv.key]];
    }
  }

  lemma EmptyOk()
    ensures ListOk(map[], map[Front := []]) && Total(map[]) == 0
  {
  }

  ghost function Places(at: Index): (r: set<Place>)
    ensures forall p :: p in r <==> p == Front || (p.At? && p.key in at)
  {
    {Front} + set k | k in at :: At(k)
  }

  /** The links of a list's head and nodes, and the pairs in the nodes. */
  ghost function LinksIn(head: SkipNode, at: Index): Links reads head, at.Values {
    map p | p in Places(at) :: if p.At? && p.key in at then at[p.key].nexts else head.nexts
  }

  ghost function ContentsIn(at: Index): Table reads at.Values {
    map k | k in at :: at[k].value
  }

  lemma OneNodeMore(head: SkipNode, at: Index, n: SkipNode)
    ensures LinksIn(head, at[n.key := n]) == LinksIn(head, at)[At(n.key) := n.nexts]
    ensures ContentsIn(at[n.key := n]) == ContentsIn(at)[n.key := n.value]
  {
    OneLinkMore(head, at, n);
    hide LinksIn, Places;
    assert ContentsIn(at[n.key := n]) == ContentsIn(at)[n.key := n.value];
  }

  lemma OneLinkMore(head: SkipNode, at: Index, n: SkipNode)
    ensures LinksIn(head, at[n.key := n]) == LinksIn(head, at)[At(n.key) := n.nexts]
  {
    var at1 := at[n.key := n];
    var links, more := LinksIn(head, at), LinksIn(head, at1);
    assert Places(at1) == Places(at) + {At(n.key)};
    assert links.Keys == Places(at) && more.Keys == Places(at1);
    hide Places;
    forall p | p in more && p != At(n.key) ensures p in links && more[p] == links[p] {
      assert p.At? ==> (p.key in at1 <==> p.key in at);
    }
    assert more[At(n.key)] == n.nexts;
    hide LinksIn;
    assert more == links[At(n.key) := n.nexts];
  }

  class Skiplist {
    var head: SkipNode
    var entriesCnt: int
    var size: int
    ghost var at: Index

    ghost function Repr(): set<object> reads this { {this, head} + at.Values }

    ghost function Links(): Links reads this, head, at.Values { LinksIn(head, at) }

    ghost predicate Linked() reads this, head, at.Values {
      head !in at.Values && ListOk(at, Links())
    }

    /** What the memtable stands for. */
    ghost function Contents(): Table reads this, head, at.Values { ContentsIn(at) }

    ghost predicate Valid() reads this, head, at.Values {
      Linked() && Counted(Contents(), size, entriesCnt)
    }

    ghost predicate On(n: SkipNode) reads this {
      n == head || (n.key in at && at[n.key] == n)
    }

    ghost function PlaceOf(n: SkipNode): Place reads this {
      if n == head then Front else At(n.key)
    }

    constructor ()
      ensures Valid() && fresh(Repr()) && Contents() == map[]
    {
      head := new SkipNode([], [], 0);
      entriesCnt, size, at := 0, 0, map[];
      new;
      EmptyOk();
      assert Counted(map[], 0, 0);
      assert Links() == map[Front := []] && Contents() == map[];
    }

    lemma ContentKeys()
      ensures Contents().Keys == at.Keys
    {
    }

    lemma Level(l: nat)
      requires Linked() && l < |head.nexts|
      ensures Shaped(at, Links()) && LevelOk(at, Links(), l) && Link(at, Front, l, head.nexts[l])
    {
      hide Link;
      assert Links()[Front] == head.nexts;
    }

    lemma Shape()
      requires Linked()
      ensures Shaped(at, Links()) && (|head.nexts| == 0 ==> at == map[]) && KeysOk(at)
    {
      hide LevelOk;
      assert Links()[Front] == head.nexts;
    }

    /** Walks one level up to the last node in front of the key. */
    method Walk(from: SkipNode, level: nat, key: Bytes) returns (move: SkipNode)
      requires Shaped(at, Links()) && LevelOk(at, Links(), level)
      requires On(from) && level < |from.nexts| && (PlaceOf(from).At? ==> Less(from.key, key))
      ensures On(move) && level < |move.nexts| && (PlaceOf(move).At? ==> Less(move.key, key))
      ensures Link(at, PlaceOf(move), level, move.nexts[level])
      ensures move.nexts[level] != null ==> !Less(move.nexts[level].key, key)
    {
      move := from;
      assert Links()[PlaceOf(move)] == move.nexts;
      ghost var ahead := AheadOf(at, PlaceOf(move));
      while move.nexts[level] != null && Less(move.nexts[level].key, key)
        invariant On(move) && level < |move.nexts| && (PlaceOf(move).At? ==> Less(move.key, key))
        invariant Link(at, PlaceOf(move), level, move.nexts[level])
        invariant ahead == AheadOf(at, PlaceOf(move))
        decreases ahead
      {
        Ahead(at, PlaceOf(move), move.nexts[level].key);
        move := move.nexts[level];
        assert Links()[PlaceOf(move)] == move.nexts;
        ahead := AheadOf(at, PlaceOf(move));
      }
    }

    /** The node with the key, found on the highest level it reaches. */
    method GetNode(key: Bytes) returns (n: SkipNode?)
      requires Linked()
      ensures if key in at then n == at[key] else n == null
    {
      hide ListOk, Less;
      Shape();
      var move := head;
      for level := |head.nexts| downto 0
        invariant Linked() && On(move) && (PlaceOf(move).At? ==> Less(move.key, key)) && level <= |move.nexts|
        invariant level < |head.nexts| ==> level < |move.nexts| && Link(at, PlaceOf(move), level, move.nexts[level])
        invariant level < |head.nexts| && move.nexts[level] != null ==> Less(key, move.nexts[level].key)
      {
        Level(level);
        move := Walk(move, level, key);
        if move.nexts[level] != null && move.nexts[level].key == key { return move.nexts[level]; }
        if move.nexts[level] != null { LessTotal(key, move.nexts[level].key); }
      }
      if |head.nexts| > 0 { NotOnBottom(at, PlaceOf(move), move.nexts[0], key); }
      n := null;
    }

    /** Stores a pair; `height` is the random height of a new node. */
    method Put(key: Bytes, value: Bytes, height: nat)
      requires Valid() && 0 < height
      modifies Repr()
      ensures Valid() && fresh(Repr() - old(Repr()))
      ensures Contents() == old(Contents())[key := value]
    {
      hide Linked, Counted, Shaped, Less, Contents;
      var node := GetNode(key);
      Shape();
      if node != null {
        Overwrite(node, value);
      } else {
        PutNew(key, value, height);
      }
    }

    /** The key is new: it gets a node of its own. */
    method PutNew(key: Bytes, value: Bytes, height: nat)
      requires Valid() && 0 < height && key !in at
      modifies Repr()
      ensures Valid() && fresh(Repr() - old(Repr()))
      ensures Contents() == old(Contents())[key := value]
    {
      hide Linked, Counted, Shaped, Less, Contents;
      var n := new SkipNode(key, value, height);
      Insert(n);
      OneMoreValue(old(at), key, n);
    }

    method Overwrite(node: SkipNode, value: Bytes)
      requires Valid() && node.key in at && at[node.key] == node
      modifies this`size, this`entriesCnt, node`value
      ensures Valid() && Contents() == old(Contents())[node.key := value] && at == old(at) && head == old(head)
    {
      hide Linked, Counted;
      assert node.key in Contents() && node.value == Contents()[node.key];
      OldPair(Contents(), size, entriesCnt, node.key, value);
      hide Contents;
      var delta := |value| - |node.value|;
      SetValue(node, value);
      Count(delta, 0);
    }

    method SetValue(node: SkipNode, value: Bytes)
      requires Linked() && node.key in at && at[node.key] == node
      modifies node`value
      ensures Linked() && Contents() == old(Contents())[node.key := value]
    {
      hide ListOk, Shaped;
      Shape();
      node.value := value;
      assert Links() == old(Links());
      forall k | k in at && k != node.key ensures at[k].value == old(at[k].value) {}
    }

    method Insert(n: SkipNode)
      requires Valid() && n !in Repr() && n.key !in at && 0 < n.height == |n.nexts|
      modifies this`at, this`size, this`entriesCnt, head`nexts, at.Values`nexts, n`nexts
      ensures Valid() && at == old(at)[n.key := n] && head == old(head)
      ensures Contents() == old(Contents())[n.key := n.value]
    {
      hide Linked, Counted, Contents;
      ContentKeys();
      NewPair(Contents(), size, entriesCnt, n.key, n.value);
      Count(|n.key| + |n.value|, 1);
      LinkIn(n);
    }

    method LinkIn(n: SkipNode)
      requires Linked() && n !in Repr() && n.key !in at && 0 < n.height == |n.nexts|
      modifies this`at, head`nexts, at.Values`nexts, n`nexts
      ensures Linked() && at == old(at)[n.key := n] && head == old(head)
      ensures Contents() == old(Contents())[n.key := n.value]
    {
      hide ListOk, Half;
      ghost var before := Contents();
      Raise(n);
      Splice(n);
      assert Contents() == before;
      Adopt(n);
    }

    method Count(bytes: int, entries: int)
      requires Linked()
      modifies this`size, this`entriesCnt
      ensures Linked() && Contents() == old(Contents()) && size == old(size) + bytes && entriesCnt == old(entriesCnt) + entries
    {
      hide ListOk;
      size := size + bytes;
      entriesCnt := entriesCnt + entries;
      assert Links() == old(Links());
    }

    /** Gives the head enough levels for the new node, and one to spare when it had too few. */
    method Raise(n: SkipNode)
      requires Linked() && n !in Repr() && n.key !in at && 0 < n.height == |n.nexts|
      modifies head`nexts
      ensures Half(at, Links(), n, n.nexts, n.height)
    {
      Shape();
      ghost var links := Links();
      var more := if |head.nexts| < |n.nexts| then |n.nexts| + 1 - |head.nexts| else 0;
      hide ListOk, LevelOk, Link;
      HalfStart(at, links, n, n.nexts, more);
      hide Half;
      GrowHead(more);
    }

    /** More empty levels for the head. */
    method GrowHead(more: nat)
      requires head !in at.Values
      modifies head`nexts
      ensures Links() == old(Links())[Front := old(Links())[Front] + Nulls(more)] && head.nexts == old(head.nexts) + Nulls(more)
    {
      assert Links()[Front] == head.nexts;
      head.nexts := head.nexts + Nulls(more);
    }

    /** Links a new node in on all its levels, from its top level down. */
    method Splice(n: SkipNode)
      requires head !in at.Values && n !in Repr() && Half(at, Links(), n, n.nexts, n.height)
      modifies head`nexts, at.Values`nexts, n`nexts
      ensures Half(at, Links(), n, n.nexts, 0)
    {
      var move := head;
      HalfShape(at, Links(), n, n.nexts, n.height);
      var height := |n.nexts|;
      assert height == n.height;
      hide Half, LevelOk, Link, Shaped;
      for level := height downto 0
        invariant head !in at.Values && n !in Repr()
        invariant Half(at, Links(), n, n.nexts, level)
        invariant On(move) && (PlaceOf(move).At? ==> Less(move.key, n.key)) && level <= |move.nexts|
      {
        move := SpliceLevel(move, level, n);
      }
    }

    /** Finds the node's place on one level and links it in there. */
    method SpliceLevel(from: SkipNode, level: nat, n: SkipNode) returns (move: SkipNode)
      requires head !in at.Values && n !in Repr() && Half(at, Links(), n, n.nexts, level + 1)
      requires On(from) && (PlaceOf(from).At? ==> Less(from.key, n.key)) && level < |from.nexts|
      modifies head`nexts, at.Values`nexts, n`nexts
      ensures Half(at, Links(), n, n.nexts, level)
      ensures On(move) && (PlaceOf(move).At? ==> Less(move.key, n.key)) && level <= |move.nexts|
    {
      hide Half, LevelOk;
      HalfShape(at, Links(), n, n.nexts, level + 1);
      move := Walk(from, level, n.key);
      StrictlyBehind(at, PlaceOf(move), level, move.nexts[level], n);
      hide Link;
      SpliceAt(move, level, n);
    }

    /** Puts the node between `move` and its successor on one level. */
    method SpliceAt(move: SkipNode, level: nat, n: SkipNode)
      requires head !in at.Values && n !in Repr() && On(move) && Half(at, Links(), n, n.nexts, level + 1)
      requires level < |move.nexts| && After(PlaceOf(move), n.key)
      requires move.nexts[level] != null ==> Less(n.key, move.nexts[level].key)
      modifies move`nexts, n`nexts
      ensures Half(at, Links(), n, n.nexts, level) && |move.nexts| == |old(move.nexts)|
    {
      hide LevelOk, Link, Shaped, Less, After;
      ghost var links, nexts, p := Links(), n.nexts, PlaceOf(move);
      HalfShape(at, links, n, n.nexts, level + 1);
      assert links[p] == move.nexts;
      HalfStep(at, links, n, n.nexts, level, p);
      hide Half;
      Relink(move, level, n);
    }

    method Relink(move: SkipNode, level: nat, n: SkipNode)
      requires head !in at.Values && n !in Repr() && On(move) && KeysOk(at) && level < |move.nexts| && level < |n.nexts|
      modifies move`nexts, n`nexts
      ensures Links() == old(Links())[PlaceOf(move) := old(move.nexts)[level := n]]
      ensures n.nexts == old(n.nexts)[level := old(move.nexts)[level]] && move.nexts == old(move.nexts)[level := n]
    {
      n.nexts := n.nexts[level := move.nexts[level]];
      assert Links() == old(Links());
      SetNext(move, level, n);
    }

    method SetNext(move: SkipNode, level: nat, to: SkipNode?)
      requires head !in at.Values && On(move) && KeysOk(at) && level < |move.nexts|
      modifies move`nexts
      ensures move.nexts == old(move.nexts)[level := to] && Links() == old(Links())[PlaceOf(move) := old(move.nexts)[level := to]]
    {
      move.nexts := move.nexts[level := to];
    }

    ghost method Adopt(n: SkipNode)
      requires head !in at.Values && n !in Repr() && Half(at, Links(), n, n.nexts, 0)
      modifies this`at
      ensures Linked() && at == old(at)[n.key := n] && Contents() == old(Contents())[n.key := n.value]
    {
      hide LevelOk, Link, Shaped, KeysOk;
      HalfDone(at, Links(), n, n.nexts);
      hide Half, ListOk;
      Enter(n);
    }

    ghost method Enter(n: SkipNode)
      requires head !in at.Values && n !in Repr()
      modifies this`at
      ensures at == old(at)[n.key := n] && head !in at.Values
      ensures Links() == old(Links())[At(n.key) := n.nexts] && Contents() == old(Contents())[n.key := n.value]
    {
      hide LinksIn, ContentsIn;
      OneMoreValue(at, n.key, n);
      OneNodeMore(head, at, n);
      at := at[n.key := n];
    }

    /** Lists the bottom level. */
    method All() returns (kvs: seq<KV>)
      requires Valid()
      ensures Lists(kvs, Contents())
    {
      hide Total, ListOk, Lists, Shaped, ListedTo, KeysOk, Less, Link, AheadOf;
      Shape();
      kvs := [];
      if |head.nexts| == 0 { NothingListed(); return; }
      Level(0);
      var move := head;
      StartListing(Contents());
      ghost var ahead := AheadOf(at, PlaceOf(move));
      while move.nexts[0] != null
        invariant Linked() && On(move) && 0 < |move.nexts| && Link(at, PlaceOf(move), 0, move.nexts[0])
        invariant ahead == AheadOf(at, PlaceOf(move)) && ListedTo(kvs, Contents(), PlaceOf(move))
        decreases ahead
      {
        kvs, move := ListNext(kvs, move);
        ahead := AheadOf(at, PlaceOf(move));
      }
      Shape();
      AllListed(at, kvs, Contents(), PlaceOf(move));
    }

    method ListNext(kvs: seq<KV>, from: SkipNode) returns (more: seq<KV>, next: SkipNode)
      requires Linked() && On(from) && 0 < |from.nexts| && Link(at, PlaceOf(from), 0, from.nexts[0]) && from.nexts[0] != null
      requires ListedTo(kvs, Contents(), PlaceOf(from))
      ensures On(next) && 0 < |next.nexts| && Link(at, PlaceOf(next), 0, next.nexts[0])
      ensures ListedTo(more, Contents(), PlaceOf(next)) && AheadOf(at, PlaceOf(next)) < AheadOf(at, PlaceOf(from))
    {
      hide ListOk, ListedTo, Shaped, Less, Link;
      var kv;
      kv, next := Step(from);
      ListedOne(at, kvs, Contents(), PlaceOf(from), next);
      Ahead(at, PlaceOf(from), next.key);
      more := kvs + [kv];
    }

    /** One step along the bottom level. */
    method Step(from: SkipNode) returns (kv: KV, next: SkipNode)
      requires Linked() && On(from) && 0 < |from.nexts| && Link(at, PlaceOf(from), 0, from.nexts[0]) && from.nexts[0] != null
      ensures next == from.nexts[0] && kv == KV(next.key, next.value) && On(next) && PlaceOf(next) == At(next.key) && KeysOk(at)
      ensures next.key in at && at[next.key] == next && After(PlaceOf(from), next.key)
      ensures 0 < |next.nexts| && Link(at, PlaceOf(next), 0, next.nexts[0])
    {
      next := from.nexts[0];
      kv := KV(next.key, next.value);
      Shape();
      assert Links()[At(next.key)] == next.nexts;
      assert |head.nexts| > 0 && LevelOk(at, Links(), 0);
    }

    method Get(key: Bytes) returns (found: bool, value: Bytes)
      requires Valid()
      ensures found == (key in Contents()) && (found ==> value == Contents()[key])
    {
      var n := GetNode(key);
      if n == null { return false, []; }
      return true, n.value;
    }
  }

  lemma OneMoreValue(at: Index, key: Bytes, n: SkipNode)
    ensures at[key := n].Values <= at.Values + {n}
  {
  }

  ghost function AheadOf(at: Index, p: Place): set<Bytes> { set k | k in at && After(p, k) }

  lemma NothingListed()
    ensures Lists([], map[])
  {
  }

  lemma StartListing(t: Table)
    ensures ListedTo([], t, Front)
  {
  }

  /** The pairs up to a place, keys strictly ascending. */
  ghost predicate ListedTo(kvs: seq<KV>, t: Table, p: Place) {
    Sorted(kvs) && (forall kv :: kv in kvs <==> kv.key in t && t[kv.key] == kv.value && !After(p, kv.key))
  }

  lemma ListedOne(at: Index, kvs: seq<KV>, t: Table, p: Place, next: SkipNode)
    requires ListedTo(kvs, t, p) && Link(at, p, 0, next) && t.Keys == at.Keys && KeysOk(at)
    requires next.key in t && t[next.key] == next.value
    ensures ListedTo(kvs + [KV(next.key, next.value)], t, At(next.key))
  {
    Ordered();
    hide Less;
    var kv := KV(next.key, next.value);
    var more := kvs + [kv];
    forall i, j | 0 <= i < j < |more| ensures Less(more[i].key, more[j].key) {
      if j == |kvs| { assert more[i] in kvs; }
    }
    forall x ensures x in more <==> x.key in t && t[x.key] == x.value && !After(At(next.key), x.key) {
      assert x in more <==> x in kvs || x == kv;
    }
  }

  lemma AllListed(at: Index, kvs: seq<KV>, t: Table, p: Place)
    requires ListedTo(kvs, t, p) && Link(at, p, 0, null) && t.Keys == at.Keys && KeysOk(at)
    ensures Lists(kvs, t)
  {
    forall k | k in t ensures !After(p, k) { assert k in at; }
  }

  /** A key that is not on the list lies strictly in front of the next node. */
  lemma StrictlyBehind(at: Index, p: Place, level: nat, next: SkipNode?, n: SkipNode)
    requires Link(at, p, level, next) && n.key !in at && (next != null ==> !Less(next.key, n.key))
    ensures next != null ==> Less(n.key, next.key)
  {
    if next != null { LessTotal(n.key, next.key); }
  }

  /** Stepping to a key leaves fewer keys ahead. */
  lemma Ahead(at: Index, from: Place, key: Bytes)
    requires key in at && After(from, key)
    ensures AheadOf(at, At(key)) < AheadOf(at, from)
  {
    var a, b := AheadOf(at, At(key)), AheadOf(at, from);
    Ordered();
    hide Less;
    assert key in b && key !in a;
    assert forall k :: k in a ==> k in b;
  }

  /** On the bottom level no key lies between a place and the next node. */
  lemma NotOnBottom(at: Index, from: Place, next: SkipNode?, key: Bytes)
    requires KeysOk(at) && Link(at, from, 0, next)
    requires After(from, key) && (next != null ==> Less(key, next.key))
    ensures key !in at
  {
  }
}
