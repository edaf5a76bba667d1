/** What operations leave in place: a read keeps what it hit, and entries go only for a reason. */
module LruKeeps {
  import opened LruSpec
  import opened LruProofs
  import opened LruRuns

  // ------------------------------------------------------------ one level

  /** No slot is free, none is the key's, and the entry stands in the last one. */
  ghost predicate Crowded(c: Level, key: string, it: Item) {
    && |c.items| == c.capacity && c.items != [] && c.items[|c.items| - 1] == it
    && forall i :: 0 <= i < |c.items| ==> c.items[i].key != key
  }

  /** A put leaves its entry in front and takes another one only from the last slot of a crowded level. */
  lemma PutLeaves(c: Level, key: string, value: Value, expireAt: int)
    requires Neat(c)
    ensures var c1 := Put(c, key, value, expireAt);
            && c1.items != [] && c1.items[0] == Item(key, value, expireAt)
            && (forall x :: Holds(c, x) && x.key != key && !Holds(c1, x) ==> Crowded(c, key, x))
  {
    var it, i, n := Item(key, value, expireAt), Find(c.items, key), |c.items|;
    if i < n {
      FrontNeat(c.items, i, it);
    } else if n < c.capacity {
      assert forall x :: x in c.items ==> x in [it] + c.items;
    } else {
      FrontNeat(c.items, n - 1, it);
      LastOnly(c.items);
    }
    hide DistinctKeys, LiveFirst;
  }

  lemma LastOnly(items: seq<Item>)
    requires DistinctKeys(items) && items != []
    ensures forall x :: x in items && x.key == items[|items| - 1].key ==> x == items[|items| - 1]
  {
  }

  /** A crowded level with live slots in front gives up a live entry only when all are live. */
  lemma CrowdedAllLive(c: Level, key: string, it: Item)
    requires LiveFirst(c.items) && Crowded(c, key, it) && Live(it)
    ensures forall i :: 0 <= i < |c.items| ==> Live(c.items[i])
  {
  }

  // ------------------------------------------------------------ reads

  /** After a hit the second level has the entry in front and the first level does not have the key; every other live
      entry stays, except that a promotion into a second level full of live entries takes its last one. */
  lemma HitKeeps(b: Bucket, key: string, now: int, value: Value)
    requires NeatBucket(b) && Sized(b) && Get(b, key, now).1 == Hit(value)
    ensures var b1 := Get(b, key, now).0;
            && b1.l2.items != [] && Holds(b1.l2, b1.l2.items[0]) && InBucket(b, b1.l2.items[0])
            && b1.l2.items[0].key == key && b1.l2.items[0].value == value && now < b1.l2.items[0].expireAt
            && (forall x :: Holds(b1.l1, x) <==> Holds(b.l1, x) && x.key != key)
            && (forall x :: Holds(b.l2, x) && x.key != key && !Holds(b1.l2, x) ==>
                  Crowded(b.l2, key, x) && (forall i :: 0 <= i < |b.l2.items| ==> Live(b.l2.items[i]))
                  && exists y :: Holds(b.l1, y) && y.key == key)
  {
    DropNeat(b.l1, key);
    if Has(b.l1, key) {
      var it := Lookup(b.l1, key);
      HasIff(b.l1, it);
      PutLeaves(b.l2, key, it.value, it.expireAt);
      assert it == Item(key, it.value, it.expireAt);
      forall x | Holds(b.l2, x) && x.key != key && !Holds(Put(b.l2, key, it.value, it.expireAt), x)
        ensures forall i :: 0 <= i < |b.l2.items| ==> Live(b.l2.items[i])
      {
        CrowdedAllLive(b.l2, key, x);
      }
      hide Neat, LiveFirst, Put, Drop, Has, Crowded;
    } else {
      HasIff(b.l2, Lookup(b.l2, key));
      TouchNeat(b.l2, key);
      NothingDropped(b.l1, key);
      TouchFront(b.l2, key);
      hide Neat, LiveFirst, Drop, Touch, Crowded;
    }
  }

  lemma NothingDropped(c: Level, key: string)
    requires Neat(c) && !Has(c, key)
    ensures forall x :: Holds(c, x) ==> x.key != key
  {
    forall x | Holds(c, x) ensures x.key != key { HasIff(c, x); }
  }

  lemma TouchFront(c: Level, key: string)
    requires Has(c, key)
    ensures Touch(c, key).items != [] && Touch(c, key).items[0] == Lookup(c, key)
  {
  }

  /** A miss loses at most the key's own entry, and that one only if it has expired. */
  lemma MissKeeps(b: Bucket, key: string, now: int)
    requires NeatBucket(b) && Sized(b) && Get(b, key, now).1 == Miss
    ensures var b1 := Get(b, key, now).0;
            && (forall x :: Holds(b.l1, x) && !Holds(b1.l1, x) ==> x.key == key && x.expireAt <= now)
            && (forall x :: Holds(b.l2, x) && !Holds(b1.l2, x) ==> x.key == key && x.expireAt <= now)
  {
    DropNeat(b.l1, key);
    DropNeat(b.l2, key);
    forall x | InBucket(b, x) && x.key == key ensures x.expireAt <= now { GetAnswers(b, key, now); }
    hide Neat, LiveFirst, Drop;
  }

  // ------------------------------------------------------------ runs

  /** The operation puts more into the bucket than its budget has room for. */
  ghost predicate Pressed(b: Bucket, op: Op) {
    op.SetOp? && b.budget > 0 && Total(b) + |op.key| + (match op.value case Nil => 0 case Value(data) => |data|) > b.budget
  }

  /** The operation may evict the entry: for the budget, or as the last of a crowded level that gets another key. */
  ghost predicate MayEvict(b: Bucket, op: Op, it: Item) {
    || Pressed(b, op)
    || (op.SetOp? && Crowded(b.l1, op.key, it))
    || (op.GetOp? && Crowded(b.l2, op.key, it) && exists y :: Holds(b.l1, y) && y.key == op.key)
  }

  /** The operation sets or deletes the entry's key, or finds it expired. */
  ghost predicate Ends(op: Op, it: Item) {
    op.key == it.key && (op.GetOp? ==> it.expireAt <= op.now)
  }

  lemma SetLeaves(b: Bucket, op: Op, it: Item)
    requires NeatBucket(b) && Sized(b) && InBucket(b, it) && op.SetOp? && op.key != it.key && !MayEvict(b, op, it)
    ensures InBucket(Apply(b, op), it)
  {
    var expireAt := Deadline(op.now, op.expiration);
    PutLeaves(b.l1, op.key, op.value, expireAt);
    PutBytes(b.l1, op.key, op.value, expireAt);
    DropNeat(b.l2, op.key);
    DropLess(b.l2, op.key);
    hide Neat, LiveFirst, Put, Drop, Deadline, Crowded, Holds;
  }

  lemma DropLess(c: Level, key: string)
    ensures Drop(c, key).bytes <= c.bytes
  {
  }

  lemma GetLeaves(b: Bucket, op: Op, it: Item)
    requires NeatBucket(b) && Sized(b) && InBucket(b, it) && op.GetOp? && !Ends(op, it) && !MayEvict(b, op, it)
    ensures InBucket(Apply(b, op), it)
  {
    var r := Get(b, op.key, op.now);
    if it.key == op.key { GetAnswers(b, op.key, op.now); }
    match r.1
    case Hit(value) =>
      HitKeeps(b, op.key, op.now, value);
      if it.key == op.key { SameItem(b, it, r.0.l2.items[0]); }
    case Miss => MissKeeps(b, op.key, op.now);
  }

  lemma SameItem(b: Bucket, x: Item, y: Item)
    requires NeatBucket(b) && InBucket(b, x) && InBucket(b, y) && x.key == y.key
    ensures x == y
  {
    HasIff(b.l1, x);
    HasIff(b.l2, x);
    HasIff(b.l1, y);
    HasIff(b.l2, y);
  }

  /** A live entry goes only by being set, deleted, found expired, or evicted. */
  lemma ApplyLeaves(b: Bucket, op: Op, it: Item)
    requires NeatBucket(b) && Sized(b) && InBucket(b, it) && !Ends(op, it) && !MayEvict(b, op, it)
    ensures InBucket(Apply(b, op), it)
  {
    hide NeatBucket, InBucket, MayEvict, Set, Get;
    match op
    case SetOp(_, _, _, _) => SetLeaves(b, op, it);
    case GetOp(_, _) => GetLeaves(b, op, it);
    case DeleteOp(key) => DeleteNeat(b, key);
    case PurgeOp(key) => DeleteNeat(b, key);
  }

  /** None of the operations ends the entry or may evict it. */
  ghost predicate Spares(b: Bucket, ops: seq<Op>, it: Item)
    requires NeatBucket(b)
  {
    forall i :: 0 <= i < |ops| ==> !Ends(ops[i], it) && !MayEvict(Run(b, ops[..i]), ops[i], it)
  }

  lemma {:induction false} RunLeaves(b: Bucket, ops: seq<Op>, it: Item)
    requires NeatBucket(b) && InBucket(b, it) && Spares(b, ops, it)
    ensures InBucket(Run(b, ops), it)
  {
    if ops != [] {
      var n := |ops| - 1;
      assert Spares(b, ops[..n], it) by {
        assert forall i :: 0 <= i < n ==> ops[..n][i] == ops[i] && ops[..n][..i] == ops[..i];
      }
      assert !Ends(ops[n], it) && !MayEvict(Run(b, ops[..n]), ops[n], it);
      hide NeatBucket, InBucket, Spares, Apply, Ends, MayEvict;
      RunLeaves(b, ops[..n], it);
      RunNext(b, ops);
      ApplyLeaves(Run(b, ops[..n]), ops[n], it);
    }
  }

  /** Over any run: what a read has hit is hit again, with the same value, until its key is set or deleted, its deadline
      passes or it is evicted. */
  lemma HitsAgain(b: Bucket, key: string, now: int, value: Value, ops: seq<Op>, later: int)
    requires NeatBucket(b) && Sized(b) && Get(b, key, now).1 == Hit(value)
    ensures var b1 := Get(b, key, now).0;
            && NeatBucket(b1) && b1.l2.items != []
            && (Spares(b1, ops, b1.l2.items[0]) && later < b1.l2.items[0].expireAt ==>
                  Sized(Run(b1, ops)) && Get(Run(b1, ops), key, later).1 == Hit(value))
  {
    var b1 := Get(b, key, now).0;
    GetNeat(b, key, now);
    HitKeeps(b, key, now, value);
    var it := b1.l2.items[0];
    if Spares(b1, ops, it) && later < it.expireAt {
      assert InBucket(b1, it);
      hide NeatBucket, InBucket, Spares, Get;
      RunLeaves(b1, ops, it);
      GetAnswers(Run(b1, ops), key, later);
    }
  }

  /** A value that is set without pressure on the budget is hit, with the deadline its expiration gives, until its key is
      set or deleted or it is evicted. */
  lemma SetHits(b: Bucket, key: string, value: Value, now: int, expiration: int, ops: seq<Op>, later: int)
    requires NeatBucket(b) && Sized(b) && 0 <= now && now + expiration <= MAX_INT64 && !Pressed(b, SetOp(key, value, now, expiration))
    ensures var b1, it := Apply(b, SetOp(key, value, now, expiration)), Item(key, value, if expiration > 0 then now + expiration else MAX_INT64);
            && NeatBucket(b1)
            && (Spares(b1, ops, it) && later < it.expireAt ==> Sized(Run(b1, ops)) && Get(Run(b1, ops), key, later).1 == Hit(value))
  {
    var op := SetOp(key, value, now, expiration);
    var b1, it := Apply(b, op), Item(key, value, if expiration > 0 then now + expiration else MAX_INT64);
    assert Deadline(now, expiration) == it.expireAt;
    ApplyNeat(b, op);
    JustSet(b, op, it);
    if Spares(b1, ops, it) && later < it.expireAt {
      hide NeatBucket, InBucket, Spares, Get, Set;
      RunLeaves(b1, ops, it);
      GetAnswers(Run(b1, ops), key, later);
    }
  }

  lemma JustSet(b: Bucket, op: Op, it: Item)
    requires NeatBucket(b) && Sized(b) && op.SetOp? && !Pressed(b, op) && it == Item(op.key, op.value, Deadline(op.now, op.expiration)) && Live(it)
    ensures InBucket(Apply(b, op), it)
  {
    PutLeaves(b.l1, op.key, op.value, it.expireAt);
    PutBytes(b.l1, op.key, op.value, it.expireAt);
    DropLess(b.l2, op.key);
    hide Neat, LiveFirst, Put, Drop, Deadline;
  }

  // ------------------------------------------------------------ the budget loop, counters

  /** Eviction for the budget stops as soon as it can: the last one still had too many bytes before it. */
  lemma {:induction false} ShrinkMinimal(b: Bucket)
    ensures Shrink(b) == b || exists b1 :: Total(b1) > b.budget && Evictable(b1) && Shrink(b) == Evict(b1)
    decreases BucketLive(b)
  {
    if Total(b) > b.budget && Evictable(b) { ShrinkMinimal(Evict(b)); }
  }

  /** The second level gives up entries for the budget only when the first has none left. */
  lemma {:induction false} ShrinkFirstLevelFirst(b: Bucket)
    ensures Shrink(b).l2 != b.l2 ==> forall i :: 0 <= i < |Shrink(b).l1.items| ==> !Live(Shrink(b).l1.items[i])
    decreases BucketLive(b)
  {
    if Total(b) > b.budget && Evictable(b) {
      ShrinkFirstLevelFirst(Evict(b));
      if !AnyLive(b.l1) { OnlySecond(Evict(b)); }
    }
  }

  lemma {:induction false} OnlySecond(b: Bucket)
    requires !AnyLive(b.l1)
    ensures Shrink(b).l1 == b.l1
    decreases BucketLive(b)
  {
    if Total(b) > b.budget && Evictable(b) { OnlySecond(Evict(b)); }
  }

  /** Key and value bytes of the live entries, counted from the texts. */
  function LiveBytes(items: seq<Item>): nat {
    if items == [] then 0
    else
      var it := items[|items| - 1];
      LiveBytes(items[..|items| - 1]) + if it.expireAt > 0 then |it.key| + (match it.value case Nil => 0 case Value(data) => |data|) else 0
  }

  lemma {:induction false} SumCounts(items: seq<Item>)
    ensures Sum(items) == LiveBytes(items)
  {
    if items != [] { SumCounts(items[..|items| - 1]); }
  }

  /** Live entries that come and go are counted: a level's evictions rise by one exactly when a put or an eviction takes
      a live entry of another key. */
  lemma EvictionsCount(c: Level, key: string, value: Value, expireAt: int)
    requires Neat(c) && (exists x :: Holds(c, x) && x.key != key && !Holds(Put(c, key, value, expireAt), x))
    ensures Put(c, key, value, expireAt).evictions == c.evictions + 1
  {
    var x :| Holds(c, x) && x.key != key && !Holds(Put(c, key, value, expireAt), x);
    PutLeaves(c, key, value, expireAt);
  }

  lemma NoEvictionsCount(c: Level, key: string, value: Value, expireAt: int)
    requires Neat(c) && forall x :: Holds(c, x) && x.key != key ==> Holds(Put(c, key, value, expireAt), x)
    ensures Put(c, key, value, expireAt).evictions == c.evictions
  {
    var n := |c.items|;
    if Find(c.items, key) == n && n == c.capacity && Live(c.items[n - 1]) {
      var x := c.items[n - 1];
      assert Holds(c, x) && x.key != key;
      PutNeat(c, key, value, expireAt);
      FrontNeat(c.items, n - 1, Item(key, value, expireAt));
      assert false;
    }
  }

  lemma EvictCounts(c: Level)
    requires Neat(c) && (exists x :: Holds(c, x))
    ensures AnyLive(c) && EvictOldest(c).evictions == c.evictions + 1
  {
    var x :| Holds(c, x);
    var i :| 0 <= i < |c.items| && c.items[i] == x;
  }
}
