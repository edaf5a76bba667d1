/** What every level and every bucket keeps, and what reads return over whole runs. */
module LruProofs {
  import opened LruSpec

  function Sum(items: seq<Item>): nat {
    if items == [] then 0 else Sum(items[..|items| - 1]) + Charge(items[|items| - 1])
  }

  lemma {:induction false} SumSplit(a: seq<Item>, b: seq<Item>)
    ensures Sum(a + b) == Sum(a) + Sum(b)
  {
    if b == [] {
      assert a + b == a;
    } else {
      SumSplit(a, b[..|b| - 1]);
      assert (a + b)[..|a + b| - 1] == a + b[..|b| - 1];
    }
  }

  lemma {:induction false} SumRemove(items: seq<Item>, i: nat)
    requires i < |items|
    ensures Sum(Remove(items, i)) == Sum(items) - Charge(items[i])
  {
    var n, r := |items| - 1, Remove(items, i);
    if i < n {
      SumRemove(items[..n], i);
      assert r[..n - 1] == Remove(items[..n], i) && r[n - 1] == items[n];
    } else {
      assert r == items[..n];
    }
  }

  lemma SumOne(it: Item)
    ensures Sum([it]) == Charge(it)
  {
  }

  ghost predicate DistinctKeys(items: seq<Item>) {
    forall i, j :: 0 <= i < j < |items| ==> items[i].key != items[j].key
  }

  /** All live slots come before all deleted ones. */
  ghost predicate LiveFirst(items: seq<Item>) {
    forall i, j :: 0 <= i < j < |items| && Live(items[j]) ==> Live(items[i])
  }

  ghost predicate Clean(it: Item) { !Live(it) ==> it.value == Nil && it.expireAt == 0 }

  ghost predicate Good(c: Level) {
    && 0 < c.capacity && |c.items| <= c.capacity
    && DistinctKeys(c.items) && LiveFirst(c.items)
    && (forall it :: it in c.items ==> Clean(it))
    && c.bytes == Sum(c.items)
  }

  ghost predicate Holds(c: Level, it: Item) { Live(it) && it in c.items }

  // ------------------------------------------------------------ one level

  /** Members of a list with one element taken out. */
  lemma RemoveMembers(items: seq<Item>, i: nat)
    requires i < |items| && DistinctKeys(items)
    ensures DistinctKeys(Remove(items, i))
    ensures LiveFirst(items) ==> LiveFirst(Remove(items, i))
    ensures forall it :: it in Remove(items, i) <==> it in items && it.key != items[i].key
  {
    var r := Remove(items, i);
    assert forall j :: 0 <= j < |r| ==> r[j] == items[if j < i then j else j + 1];
    forall it ensures it in r <==> it in items && it.key != items[i].key {
      if it in items && it.key != items[i].key {
        var j :| 0 <= j < |items| && items[j] == it;
        assert r[if j < i then j else j - 1] == it;
      }
    }
  }

  lemma FindAt(items: seq<Item>, i: nat)
    requires DistinctKeys(items) && i < |items|
    ensures Find(items, items[i].key) == i
  {
  }

  lemma HasIff(c: Level, it: Item)
    requires DistinctKeys(c.items)
    ensures Holds(c, it) <==> Has(c, it.key) && Lookup(c, it.key) == it
  {
    if it in c.items {
      var i :| 0 <= i < |c.items| && c.items[i] == it;
      FindAt(c.items, i);
    }
  }

  /** Putting `it` where slot i was keeps a level good. */
  lemma FrontGood(c: Level, i: nat, it: Item)
    requires Good(c) && i < |c.items| && Live(it)
    requires it.key == c.items[i].key || forall x :: x in c.items ==> x.key != it.key
    ensures var items := Front(c.items, i, it);
            && DistinctKeys(items) && LiveFirst(items) && (forall x :: x in items ==> Clean(x))
            && Sum(items) == c.bytes + Charge(it) - Charge(c.items[i])
            && (forall x :: x in items <==> x == it || (x in c.items && x.key != c.items[i].key))
  {
    var r := Remove(c.items, i);
    RemoveMembers(c.items, i);
    SumRemove(c.items, i);
    ConsGood(it, r);
    hide Sum, DistinctKeys, LiveFirst, Remove;
    assert forall x :: x in [it] + r <==> x == it || x in r;
  }

  lemma ConsGood(it: Item, r: seq<Item>)
    requires DistinctKeys(r) && LiveFirst(r) && Live(it) && forall x :: x in r ==> x.key != it.key
    ensures DistinctKeys([it] + r) && LiveFirst([it] + r) && Sum([it] + r) == Charge(it) + Sum(r)
  {
    SumSplit([it], r);
    SumOne(it);
  }

  /** After storing `it`: it is held, in front; every other entry stays, except the least recently
      used one when all slots are taken by live entries. */
  ghost predicate Stored(c: Level, c1: Level, it: Item) {
    && c1.capacity == c.capacity && c1.items != [] && c1.items[0] == it
    && (forall x :: Holds(c1, x) ==> x == it || (Holds(c, x) && x.key != it.key))
    && (forall x :: Holds(c, x) && x.key != it.key && !Holds(c1, x) ==>
          |c.items| == c.capacity && LiveCount(c.items) == c.capacity && x == c.items[|c.items| - 1])
  }

  lemma PutGood(c: Level, key: string, value: Value, expireAt: int)
    requires Good(c) && expireAt > 0
    ensures Good(Put(c, key, value, expireAt)) && Stored(c, Put(c, key, value, expireAt), Item(key, value, expireAt))
  {
    var it, i, n := Item(key, value, expireAt), Find(c.items, key), |c.items|;
    assert 0 < c.capacity && n <= c.capacity;
    var c1 := Put(c, key, value, expireAt);
    assert i == n ==> forall x :: x in c.items ==> x.key != key;
    hide Good, Stored, Front;
    if i < n {
      PutAt(c, i, it, c.evictions);
    } else if n < c.capacity {
      PutNew(c, it);
    } else {
      PutAt(c, n - 1, it, c1.evictions);
    }
  }

  lemma PutNew(c: Level, it: Item)
    requires Good(c) && Live(it) && |c.items| < c.capacity && forall x :: x in c.items ==> x.key != it.key
    ensures var c1 := c.(items := [it] + c.items, bytes := c.bytes + EntryBytes(it.key, it.value)); Good(c1) && Stored(c, c1, it)
  {
    ConsGood(it, c.items);
    hide DistinctKeys, LiveFirst, Sum;
    assert forall x :: x in [it] + c.items <==> x == it || x in c.items;
  }

  lemma PutAt(c: Level, i: nat, it: Item, evictions: nat)
    requires Good(c) && Live(it) && i < |c.items|
    requires it.key == c.items[i].key || (|c.items| == c.capacity == i + 1 && forall x :: x in c.items ==> x.key != it.key)
    ensures var c1 := c.(items := Front(c.items, i, it), evictions := evictions,
                         bytes := c.bytes + EntryBytes(it.key, it.value) - Charge(c.items[i]));
            Good(c1) && Stored(c, c1, it)
  {
    FrontGood(c, i, it);
    FrontFirst(c.items, i, it);
    SameKey(c, i);
    if Live(c.items[i]) && i + 1 == |c.items| { AllLive(c.items); }
    hide DistinctKeys, LiveFirst, Sum, Front, LiveCount;
  }

  lemma SameKey(c: Level, i: nat)
    requires DistinctKeys(c.items) && i < |c.items|
    ensures forall x :: Holds(c, x) && x.key == c.items[i].key ==> x == c.items[i] && Live(c.items[i])
  {
  }

  lemma FrontFirst(items: seq<Item>, i: nat, it: Item)
    requires i < |items|
    ensures |Front(items, i, it)| == |items| && Front(items, i, it)[0] == it
  {
  }

  lemma {:induction false} AllLive(items: seq<Item>)
    requires forall i :: 0 <= i < |items| ==> Live(items[i])
    ensures LiveCount(items) == |items|
  {
    if items != [] { AllLive(items[..|items| - 1]); }
  }

  /** Deleting a slot: exactly its entry goes, and the slot moves behind all live ones. */
  lemma KillGood(c: Level, i: nat)
    requires Good(c) && i < |c.items| && Live(c.items[i])
    ensures Good(Kill(c, i)) && (forall x :: Holds(Kill(c, i), x) <==> Holds(c, x) && x.key != c.items[i].key)
    ensures Kill(c, i).bytes == c.bytes - EntryBytes(c.items[i].key, c.items[i].value)
  {
    var r := Remove(c.items, i);
    var dead := Item(c.items[i].key, Nil, 0);
    RemoveMembers(c.items, i);
    SumRemove(c.items, i);
    SumSplit(r, [dead]);
    SumOne(dead);
    forall j | 0 <= j < |r| ensures r[j].key != dead.key { assert r[j] in r; }
  }

  lemma DropGood(c: Level, key: string)
    requires Good(c)
    ensures Good(Drop(c, key)) && Drop(c, key).capacity == c.capacity
    ensures forall x :: Holds(Drop(c, key), x) <==> Holds(c, x) && x.key != key
    ensures Drop(c, key).bytes == c.bytes - if Has(c, key) then EntryBytes(key, Lookup(c, key).value) else 0
  {
    if Has(c, key) { KillGood(c, Find(c.items, key)); }
    forall x | Holds(c, x) ensures x.key == key ==> Has(c, key) { HasIff(c, x); }
  }

  lemma TouchGood(c: Level, key: string)
    requires Good(c) && Has(c, key)
    ensures Good(Touch(c, key)) && Touch(c, key).bytes == c.bytes
    ensures forall x :: Holds(Touch(c, key), x) <==> Holds(c, x)
    ensures Touch(c, key).items[0] == Lookup(c, key)
  {
    var i := Find(c.items, key);
    FrontGood(c, i, c.items[i]);
    forall x | Holds(c, x) ensures x == c.items[i] || x.key != key { HasIff(c, x); }
  }

  /** Evicting takes the live entry that comes last. */
  lemma EvictGood(c: Level)
    requires Good(c) && AnyLive(c)
    ensures var last := c.items[Oldest(c.items)];
            && Good(EvictOldest(c)) && EvictOldest(c).capacity == c.capacity
            && (forall x :: Holds(EvictOldest(c), x) <==> Holds(c, x) && x.key != last.key)
            && EvictOldest(c).bytes == c.bytes - EntryBytes(last.key, last.value)
  {
    KillGood(c, Oldest(c.items));
  }

  lemma {:induction false} NoneLiveSum(items: seq<Item>)
    requires forall i :: 0 <= i < |items| ==> !Live(items[i])
    ensures Sum(items) == 0
  {
    if items != [] { NoneLiveSum(items[..|items| - 1]); }
  }

  // ------------------------------------------------------------ what no deadline breaks

  /** Keys are distinct and slots are not exceeded, whatever is live. */
  ghost predicate Neat(c: Level) { 0 < c.capacity && |c.items| <= c.capacity && DistinctKeys(c.items) }

  lemma FrontNeat(items: seq<Item>, i: nat, it: Item)
    requires DistinctKeys(items) && i < |items|
    requires it.key == items[i].key || forall j :: 0 <= j < |items| ==> items[j].key != it.key
    ensures DistinctKeys(Front(items, i, it)) && |Front(items, i, it)| == |items|
    ensures forall x :: x in Front(items, i, it) <==> x == it || (x in items && x.key != items[i].key)
    ensures Live(it) && LiveFirst(items) ==> LiveFirst(Front(items, i, it))
  {
    var r := Remove(items, i);
    RemoveMembers(items, i);
    forall j | 0 <= j < |r| ensures r[j].key != it.key { assert r[j] in r; }
    hide Remove;
    assert forall x :: x in [it] + r <==> x == it || x in r;
  }

  /** After a put with any deadline, live entries are the new one and old ones of other keys. */
  lemma PutNeat(c: Level, key: string, value: Value, expireAt: int)
    requires Neat(c)
    ensures var c1 := Put(c, key, value, expireAt);
            && Neat(c1) && (expireAt > 0 && LiveFirst(c.items) ==> LiveFirst(c1.items))
            && (forall x :: Holds(c1, x) ==> x == Item(key, value, expireAt) || (Holds(c, x) && x.key != key))
  {
    var it, i, n := Item(key, value, expireAt), Find(c.items, key), |c.items|;
    if i < n {
      FrontNeat(c.items, i, it);
    } else if n < c.capacity {
      assert forall x :: x in [it] + c.items <==> x == it || x in c.items;
    } else {
      FrontNeat(c.items, n - 1, it);
    }
    hide DistinctKeys, LiveFirst, Front;
  }

  lemma KillNeat(c: Level, i: nat)
    requires Neat(c) && i < |c.items|
    ensures Neat(Kill(c, i)) && (LiveFirst(c.items) ==> LiveFirst(Kill(c, i).items))
    ensures forall x :: Holds(Kill(c, i), x) <==> Holds(c, x) && x.key != c.items[i].key
  {
    var r, dead := Remove(c.items, i), Item(c.items[i].key, Nil, 0);
    RemoveMembers(c.items, i);
    forall j | 0 <= j < |r| ensures r[j].key != dead.key { assert r[j] in r; }
    hide Remove;
    assert forall x :: x in r + [dead] <==> x in r || x == dead;
  }

  lemma DropNeat(c: Level, key: string)
    requires Neat(c)
    ensures Neat(Drop(c, key)) && (LiveFirst(c.items) ==> LiveFirst(Drop(c, key).items))
    ensures forall x :: Holds(Drop(c, key), x) <==> Holds(c, x) && x.key != key
  {
    if Has(c, key) { KillNeat(c, Find(c.items, key)); }
    forall x | Holds(c, x) ensures x.key == key ==> Has(c, key) { HasIff(c, x); }
  }

  lemma TouchNeat(c: Level, key: string)
    requires Neat(c) && Has(c, key)
    ensures Neat(Touch(c, key)) && (LiveFirst(c.items) ==> LiveFirst(Touch(c, key).items))
    ensures forall x :: Holds(Touch(c, key), x) <==> Holds(c, x)
  {
    var i := Find(c.items, key);
    FrontNeat(c.items, i, c.items[i]);
    forall x | Holds(c, x) ensures x == c.items[i] || x.key != key { HasIff(c, x); }
  }

  // ------------------------------------------------------------ one bucket

  /** The key of every entry of one level is absent from the other. */
  ghost predicate Apart(b: Bucket) {
    forall x, y :: Holds(b.l1, x) && Holds(b.l2, y) ==> x.key != y.key
  }

  ghost predicate Levels(b: Bucket) { Good(b.l1) && Good(b.l2) && Apart(b) }

  ghost predicate BucketGood(b: Bucket) { Levels(b) && (b.budget > 0 ==> Total(b) <= b.budget) }

  ghost predicate InBucket(b: Bucket, it: Item) { Holds(b.l1, it) || Holds(b.l2, it) }

  /** Nothing is held afterwards that was not held before. */
  ghost predicate Fewer(b: Bucket, b1: Bucket) {
    && (forall x :: Holds(b1.l1, x) ==> Holds(b.l1, x))
    && (forall x :: Holds(b1.l2, x) ==> Holds(b.l2, x))
  }

  /** What every bucket keeps, whatever deadlines were set. */
  ghost predicate NeatBucket(b: Bucket) { Neat(b.l1) && Neat(b.l2) && LiveFirst(b.l2.items) && Apart(b) }

  lemma {:induction false} ShrinkNeat(b: Bucket)
    requires NeatBucket(b)
    ensures NeatBucket(Shrink(b)) && Fewer(b, Shrink(b)) && Shrink(b).budget == b.budget
    decreases BucketLive(b)
  {
    if Total(b) > b.budget && Evictable(b) {
      hide Neat, LiveFirst, Holds, AnyLive, Evict;
      EvictNeat(b);
      ShrinkNeat(Evict(b));
    }
  }

  lemma EvictNeat(b: Bucket)
    requires NeatBucket(b) && Evictable(b)
    ensures NeatBucket(Evict(b)) && Fewer(b, Evict(b))
  {
    hide DistinctKeys, LiveFirst, Kill;
    if AnyLive(b.l1) { KillNeat(b.l1, Oldest(b.l1.items)); } else { KillNeat(b.l2, Oldest(b.l2.items)); }
  }

  lemma SetNeat(b: Bucket, key: string, value: Value, expireAt: int)
    requires NeatBucket(b)
    ensures Sized(b) && NeatBucket(Set(b, key, value, expireAt)) && Set(b, key, value, expireAt).budget == b.budget
    ensures forall x :: InBucket(Set(b, key, value, expireAt), x) ==> x == Item(key, value, expireAt) || (InBucket(b, x) && x.key != key)
  {
    assert Sized(b);
    var mid := b.(l1 := Put(b.l1, key, value, expireAt), l2 := Drop(b.l2, key));
    PutNeat(b.l1, key, value, expireAt);
    DropNeat(b.l2, key);
    hide Neat, LiveFirst, Put, Drop, Holds, Shrink;
    ShrinkNeat(mid);
  }

  lemma GetNeat(b: Bucket, key: string, now: int)
    requires NeatBucket(b)
    ensures Sized(b) && NeatBucket(Get(b, key, now).0) && Get(b, key, now).0.budget == b.budget
    ensures forall x :: InBucket(Get(b, key, now).0, x) ==> InBucket(b, x)
  {
    assert Sized(b);
    DropNeat(b.l1, key);
    DropNeat(b.l2, key);
    if Has(b.l1, key) {
      var it := Lookup(b.l1, key);
      HasIff(b.l1, it);
      PutNeat(b.l2, key, it.value, it.expireAt);
      hide Neat, LiveFirst, Put, Drop;
    } else if Has(b.l2, key) {
      TouchNeat(b.l2, key);
      hide Neat, LiveFirst, Drop, Touch;
    }
  }

  lemma DeleteNeat(b: Bucket, key: string)
    requires NeatBucket(b)
    ensures NeatBucket(Delete(b, key).0) && Delete(b, key).0.budget == b.budget
    ensures forall x :: InBucket(Delete(b, key).0, x) <==> InBucket(b, x) && x.key != key
  {
    DropNeat(b.l1, key);
    DropNeat(b.l2, key);
    hide Neat, LiveFirst, Drop;
  }

  /** A read hits exactly when one of the levels holds the key unexpired, and returns what it holds. */
  lemma GetAnswers(b: Bucket, key: string, now: int)
    requires NeatBucket(b)
    ensures Sized(b) && forall x :: InBucket(b, x) && x.key == key ==> Get(b, key, now).1 == if now < x.expireAt then Hit(x.value) else Miss
    ensures Get(b, key, now).1.Hit? ==> exists x :: InBucket(b, x) && x.key == key && now < x.expireAt && Get(b, key, now).1 == Hit(x.value)
  {
    assert Sized(b);
    forall x | InBucket(b, x) && x.key == key
      ensures Get(b, key, now).1 == if now < x.expireAt then Hit(x.value) else Miss
    {
      HasIff(b.l1, x);
      HasIff(b.l2, x);
      if Has(b.l1, key) { HasIff(b.l1, Lookup(b.l1, key)); }
    }
    if Has(b.l1, key) { HasIff(b.l1, Lookup(b.l1, key)); assert InBucket(b, Lookup(b.l1, key)); }
    if Has(b.l2, key) { HasIff(b.l2, Lookup(b.l2, key)); assert InBucket(b, Lookup(b.l2, key)); }
  }

  lemma EvictKeeps(b: Bucket)
    requires Levels(b) && Evictable(b)
    ensures Levels(Evict(b)) && Fewer(b, Evict(b))
  {
    hide Good;
    if AnyLive(b.l1) { EvictGood(b.l1); } else { EvictGood(b.l2); }
  }

  /** The eviction loop ends within the budget, whatever it has to give up. */
  lemma {:induction false} ShrinkKeeps(b: Bucket)
    requires Levels(b)
    ensures var b1 := Shrink(b); Levels(b1) && Fewer(b, b1) && b1.budget == b.budget && Total(b1) <= b.budget
    decreases BucketLive(b)
  {
    if Total(b) > b.budget && Evictable(b) {
      hide Good, Holds, AnyLive;
      EvictKeeps(b);
      ShrinkKeeps(Evict(b));
    } else if !Evictable(b) {
      NoneLiveTotal(b);
    }
  }

  lemma NoneLiveTotal(b: Bucket)
    requires Levels(b) && !Evictable(b)
    ensures Total(b) == 0
  {
    NoneLiveSum(b.l1.items);
    NoneLiveSum(b.l2.items);
  }

  lemma SetKeeps(b: Bucket, key: string, value: Value, expireAt: int)
    requires BucketGood(b) && expireAt > 0
    ensures var b1 := Set(b, key, value, expireAt);
            && BucketGood(b1)
            && (forall x :: InBucket(b1, x) ==> x == Item(key, value, expireAt) || (InBucket(b, x) && x.key != key))
  {
    var mid := b.(l1 := Put(b.l1, key, value, expireAt), l2 := Drop(b.l2, key));
    PutGood(b.l1, key, value, expireAt);
    DropGood(b.l2, key);
    assert Levels(mid) by { hide Good, Put, Drop, Has; }
    if b.budget > 0 { hide Good, Put, Drop, Has, Shrink; ShrinkKeeps(mid); }
  }

  /** Reading keeps the bucket good and adds nothing. */
  lemma GetKeeps(b: Bucket, key: string, now: int)
    requires BucketGood(b)
    ensures BucketGood(Get(b, key, now).0) && forall x :: InBucket(Get(b, key, now).0, x) ==> InBucket(b, x)
  {
    assert Sized(b);
    if Has(b.l1, key) {
      PromoteKeeps(b, key, now);
    } else if Has(b.l2, key) {
      DropGood(b.l2, key);
      TouchGood(b.l2, key);
      hide Good, Drop, Touch;
    }
  }

  lemma PromoteKeeps(b: Bucket, key: string, now: int)
    requires BucketGood(b) && Sized(b) && Has(b.l1, key)
    ensures BucketGood(Get(b, key, now).0) && forall x :: InBucket(Get(b, key, now).0, x) ==> InBucket(b, x)
  {
    var it := Lookup(b.l1, key);
    DropGood(b.l1, key);
    DropGood(b.l2, key);
    HasIff(b.l1, it);
    PutGood(b.l2, key, it.value, it.expireAt);
    PutBytes(b.l2, key, it.value, it.expireAt);
    hide Good, Put, Drop, Has;
  }

  lemma PutBytes(c: Level, key: string, value: Value, expireAt: int)
    requires 0 < c.capacity
    ensures Put(c, key, value, expireAt).bytes <= c.bytes + EntryBytes(key, value)
  {
  }

  /** Deleting takes exactly the key away, and says whether it was there. */
  lemma DeleteKeeps(b: Bucket, key: string)
    requires BucketGood(b)
    ensures BucketGood(Delete(b, key).0) && forall x :: InBucket(Delete(b, key).0, x) <==> InBucket(b, x) && x.key != key
    ensures Delete(b, key).1 <==> exists x :: InBucket(b, x) && x.key == key
  {
    DropGood(b.l1, key);
    DropGood(b.l2, key);
    if x :| InBucket(b, x) && x.key == key { HasIff(b.l1, x); HasIff(b.l2, x); }
    if Has(b.l1, key) { HasIff(b.l1, Lookup(b.l1, key)); assert InBucket(b, Lookup(b.l1, key)); }
    if Has(b.l2, key) { HasIff(b.l2, Lookup(b.l2, key)); assert InBucket(b, Lookup(b.l2, key)); }
  }
}
