/**
 * One bucket of the two-level cache as values. A level is a list of slots, most recently used
 * first; a slot with expireAt 0 is logically deleted and waits at the end to be reused.
 */
module LruSpec {
  const MAX_INT64: int := 0x7fff_ffff_ffff_ffff

  datatype Value = Nil | Value(data: string)

  datatype Item = Item(key: string, value: Value, expireAt: int)

  /** The slots in recency order, how many there may be, the bytes in use, the evictions so far. */
  datatype Level = Level(items: seq<Item>, capacity: nat, bytes: int, evictions: nat)

  predicate Live(it: Item) { it.expireAt > 0 }

  function EntryBytes(key: string, value: Value): nat {
    |key| + if value.Nil? then 0 else |value.data|
  }

  /** The position of a key, or the number of slots if it is in none. */
  function Find(items: seq<Item>, key: string): (i: nat)
    ensures i <= |items|
    ensures i < |items| ==> items[i].key == key
    ensures forall j :: 0 <= j < i ==> items[j].key != key
  {
    if items == [] then 0 else if items[0].key == key then 0 else 1 + Find(items[1..], key)
  }

  function Remove<T>(s: seq<T>, i: nat): (r: seq<T>)
    requires i < |s|
    ensures |r| == |s| - 1
  {
    s[..i] + s[i + 1..]
  }

  function Front<T>(s: seq<T>, i: nat, x: T): seq<T>
    requires i < |s|
  {
    [x] + Remove(s, i)
  }

  function Back<T>(s: seq<T>, i: nat, x: T): seq<T>
    requires i < |s|
  {
    Remove(s, i) + [x]
  }

  function Charge(it: Item): nat { if Live(it) then EntryBytes(it.key, it.value) else 0 }

  /** Stores a key at the front: in its own slot, in a new one, or in the last one when all are used. */
  function Put(c: Level, key: string, value: Value, expireAt: int): Level
    requires 0 < c.capacity
  {
    var it, i := Item(key, value, expireAt), Find(c.items, key);
    var size := EntryBytes(key, value);
    if i < |c.items| then c.(items := Front(c.items, i, it), bytes := c.bytes + size - Charge(c.items[i]))
    else if |c.items| < c.capacity then c.(items := [it] + c.items, bytes := c.bytes + size)
    else
      var tail := c.items[|c.items| - 1];
      c.(items := Front(c.items, |c.items| - 1, it), bytes := c.bytes + size - Charge(tail),
         evictions := c.evictions + if Live(tail) then 1 else 0)
  }

  predicate Has(c: Level, key: string) {
    var i := Find(c.items, key); i < |c.items| && Live(c.items[i])
  }

  function Lookup(c: Level, key: string): Item
    requires Has(c, key)
  {
    c.items[Find(c.items, key)]
  }

  /** Marks the i-th slot deleted, lets go of its value and sends it to the end. */
  function Kill(c: Level, i: nat): Level
    requires i < |c.items|
  {
    var it := c.items[i];
    c.(items := Back(c.items, i, Item(it.key, Nil, 0)), bytes := c.bytes - Charge(it))
  }

  function Drop(c: Level, key: string): Level {
    if Has(c, key) then Kill(c, Find(c.items, key)) else c
  }

  /** The last live slot, or the number of slots if none is live. */
  function Oldest(items: seq<Item>): (i: nat)
    ensures i <= |items|
    ensures i < |items| ==> Live(items[i]) && forall j :: i < j < |items| ==> !Live(items[j])
    ensures i == |items| ==> forall j :: 0 <= j < |items| ==> !Live(items[j])
  {
    if items == [] then 0
    else
      var n := |items| - 1;
      if Live(items[n]) then n
      else
        var i := Oldest(items[..n]);
        assert forall j :: 0 <= j < n ==> items[..n][j] == items[j];
        if i < n then i else n + 1
  }

  predicate AnyLive(c: Level) { Oldest(c.items) < |c.items| }

  function EvictOldest(c: Level): Level
    requires AnyLive(c)
  {
    var i := Oldest(c.items);
    Kill(c, i).(evictions := c.evictions + 1)
  }

  /** Moves a live key to the front. */
  function Touch(c: Level, key: string): Level {
    var i := Find(c.items, key);
    if i < |c.items| then c.(items := Front(c.items, i, c.items[i])) else c
  }

  function LiveCount(items: seq<Item>): nat {
    if items == [] then 0 else LiveCount(items[..|items| - 1]) + if Live(items[|items| - 1]) then 1 else 0
  }

  lemma {:induction false} LiveCountSplit(a: seq<Item>, b: seq<Item>)
    ensures LiveCount(a + b) == LiveCount(a) + LiveCount(b)
  {
    if b == [] {
      assert a + b == a;
    } else {
      LiveCountSplit(a, b[..|b| - 1]);
      assert (a + b)[..|a + b| - 1] == a + b[..|b| - 1];
    }
  }

  /** Evicting makes progress. */
  lemma KillCounts(c: Level, i: nat)
    requires i < |c.items| && Live(c.items[i])
    ensures LiveCount(Kill(c, i).items) == LiveCount(c.items) - 1
  {
    var a, x, b := c.items[..i], [c.items[i]], c.items[i + 1..];
    var dead := [Item(c.items[i].key, Nil, 0)];
    assert c.items == a + (x + b);
    LiveCountSplit(a, x + b);
    LiveCountSplit(x, b);
    LiveCountSplit(a + b, dead);
    LiveCountSplit(a, b);
  }

  // ------------------------------------------------------------ the two levels

  /** New keys go to the first level; a key that is read moves to the second. A budget of 0 is none. */
  datatype Bucket = Bucket(l1: Level, l2: Level, budget: nat)

  function Total(b: Bucket): int { b.l1.bytes + b.l2.bytes }

  function BucketLive(b: Bucket): nat { LiveCount(b.l1.items) + LiveCount(b.l2.items) }

  predicate Evictable(b: Bucket) { AnyLive(b.l1) || AnyLive(b.l2) }

  function Evict(b: Bucket): (r: Bucket)
    requires Evictable(b)
    ensures BucketLive(r) == BucketLive(b) - 1 && r.budget == b.budget
  {
    if AnyLive(b.l1) then KillCounts(b.l1, Oldest(b.l1.items)); b.(l1 := EvictOldest(b.l1))
    else KillCounts(b.l2, Oldest(b.l2.items)); b.(l2 := EvictOldest(b.l2))
  }

  /** Evicts until the bytes fit or nothing is left. */
  function Shrink(b: Bucket): Bucket
    decreases BucketLive(b)
  {
    if Total(b) > b.budget && Evictable(b) then Shrink(Evict(b)) else b
  }

  /** Nanoseconds added the way int64 does it. */
  function WrapInt64(x: int): int {
    (x + 0x8000_0000_0000_0000) % 0x1_0000_0000_0000_0000 - 0x8000_0000_0000_0000
  }

  function Deadline(now: int, expiration: int): int {
    if expiration > 0 then WrapInt64(now + expiration) else MAX_INT64
  }

  datatype Answer = Hit(value: Value) | Miss

  predicate Sized(b: Bucket) { 0 < b.l1.capacity && 0 < b.l2.capacity }

  function Set(b: Bucket, key: string, value: Value, expireAt: int): Bucket
    requires Sized(b)
  {
    var b1 := b.(l1 := Put(b.l1, key, value, expireAt), l2 := Drop(b.l2, key));
    if b.budget > 0 then Shrink(b1) else b1
  }

  function Get(b: Bucket, key: string, now: int): (Bucket, Answer)
    requires Sized(b)
  {
    if Has(b.l1, key) then
      var it := Lookup(b.l1, key);
      var b1 := b.(l1 := Drop(b.l1, key));
      if now >= it.expireAt then (b1.(l2 := Drop(b.l2, key)), Miss)
      else (b1.(l2 := Put(b.l2, key, it.value, it.expireAt)), Hit(it.value))
    else if Has(b.l2, key) then
      var it := Lookup(b.l2, key);
      if now >= it.expireAt then (b.(l2 := Drop(b.l2, key)), Miss)
      else (b.(l2 := Touch(b.l2, key)), Hit(it.value))
    else (b, Miss)
  }

  function Delete(b: Bucket, key: string): (Bucket, bool) {
    (b.(l1 := Drop(b.l1, key), l2 := Drop(b.l2, key)), Has(b.l1, key) || Has(b.l2, key))
  }
}
