/**
 * What a deadline past the int64 range does to a bucket: the entry is counted for good without being live. Byte count,
 * budget and the choice of victims, each with the exact condition.
 */
module LruLeaks {
  import opened LruSpec
  import opened LruProofs
  import opened LruRuns

  // ------------------------------------------------------------ the byte count

  /** What the bytes of a level count beyond its live entries. */
  function Excess(c: Level): int { c.bytes - Sum(c.items) }

  lemma KillExcess(c: Level, i: nat)
    requires i < |c.items|
    ensures Excess(Kill(c, i)) == Excess(c)
  {
    var dead := Item(c.items[i].key, Nil, 0);
    SumRemove(c.items, i);
    SumSplit(Remove(c.items, i), [dead]);
    SumOne(dead);
  }

  lemma FrontSum(items: seq<Item>, i: nat, it: Item)
    requires i < |items|
    ensures Sum(Front(items, i, it)) == Sum(items) + Charge(it) - Charge(items[i])
  {
    SumRemove(items, i);
    SumSplit([it], Remove(items, i));
    SumOne(it);
  }

  /** A put counts its entry whether it is live or not. */
  lemma PutExcess(c: Level, key: string, value: Value, expireAt: int)
    requires 0 < c.capacity
    ensures Excess(Put(c, key, value, expireAt)) == Excess(c) + if expireAt > 0 then 0 else EntryBytes(key, value)
  {
    var it, i := Item(key, value, expireAt), Find(c.items, key);
    SumSplit([it], c.items);
    SumOne(it);
    if i < |c.items| { FrontSum(c.items, i, it); }
    if c.items != [] { FrontSum(c.items, |c.items| - 1, it); }
    hide Sum, Front;
  }

  lemma {:induction false} ShrinkExcess(b: Bucket)
    ensures Excess(Shrink(b).l1) == Excess(b.l1) && Excess(Shrink(b).l2) == Excess(b.l2)
    ensures Shrink(b).l1.capacity == b.l1.capacity && Shrink(b).l2.capacity == b.l2.capacity
    decreases BucketLive(b)
  {
    if Total(b) > b.budget && Evictable(b) {
      if AnyLive(b.l1) { KillExcess(b.l1, Oldest(b.l1.items)); } else { KillExcess(b.l2, Oldest(b.l2.items)); }
      hide Sum, Kill;
      ShrinkExcess(Evict(b));
    }
  }

  lemma DropExcess(c: Level, key: string)
    ensures Excess(Drop(c, key)) == Excess(c) && Drop(c, key).capacity == c.capacity
  {
    if Has(c, key) { KillExcess(c, Find(c.items, key)); }
  }

  /** What a set adds to the first level's bytes without a live entry to show for it. */
  function Leak(op: Op): nat {
    if op.SetOp? && Deadline(op.now, op.expiration) <= 0 then EntryBytes(op.key, op.value) else 0
  }

  function Leaked(ops: seq<Op>): nat {
    if ops == [] then 0 else Leaked(ops[..|ops| - 1]) + Leak(ops[|ops| - 1])
  }

  lemma ApplyExcess(b: Bucket, op: Op)
    requires Sized(b)
    ensures var b1 := Apply(b, op); Sized(b1) && Excess(b1.l1) == Excess(b.l1) + Leak(op) && Excess(b1.l2) == Excess(b.l2)
  {
    DropExcess(b.l1, op.key);
    DropExcess(b.l2, op.key);
    match op
    case SetOp(key, value, now, expiration) =>
      var expireAt := Deadline(now, expiration);
      PutExcess(b.l1, key, value, expireAt);
      hide Excess, Put, Drop, EntryBytes;
      ShrinkExcess(b.(l1 := Put(b.l1, key, value, expireAt), l2 := Drop(b.l2, key)));
      PutSized(b.l1, key, value, expireAt);
    case GetOp(key, now) => GetExcess(b, key, now);
    case DeleteOp(_) =>
    case PurgeOp(_) =>
  }

  lemma PutSized(c: Level, key: string, value: Value, expireAt: int)
    requires 0 < c.capacity
    ensures Put(c, key, value, expireAt).capacity == c.capacity
  {
  }

  lemma GetExcess(b: Bucket, key: string, now: int)
    requires Sized(b)
    ensures var b1 := Get(b, key, now).0; Sized(b1) && Excess(b1.l1) == Excess(b.l1) && Excess(b1.l2) == Excess(b.l2)
  {
    DropExcess(b.l1, key);
    DropExcess(b.l2, key);
    if Has(b.l1, key) {
      var it := Lookup(b.l1, key);
      PutExcess(b.l2, key, it.value, it.expireAt);
      PutSized(b.l2, key, it.value, it.expireAt);
    } else if Has(b.l2, key) {
      FrontSum(b.l2.items, Find(b.l2.items, key), Lookup(b.l2, key));
    }
    hide Sum, Put, Drop;
  }

  /** Over every run, the bytes are those of the live entries and of every set whose deadline was not positive. */
  lemma {:induction false} BytesLeaked(cap1: nat, cap2: nat, budget: nat, ops: seq<Op>)
    requires 0 < cap1 && 0 < cap2
    ensures var b := Run(Fresh(cap1, cap2, budget), ops);
            b.l1.bytes == Sum(b.l1.items) + Leaked(ops) && b.l2.bytes == Sum(b.l2.items)
  {
    var empty := Fresh(cap1, cap2, budget);
    if ops != [] {
      BytesLeaked(cap1, cap2, budget, ops[..|ops| - 1]);
      RunNext(empty, ops);
      hide Apply, Sum, Run, NeatBucket;
      ApplyExcess(Run(empty, ops[..|ops| - 1]), ops[|ops| - 1]);
    }
  }

  /** Clocks and expirations are int64 values, the clock not before 1970. */
  predicate Int64Op(op: Op) { op.SetOp? ==> 0 <= op.now <= MAX_INT64 && op.expiration <= MAX_INT64 }

  lemma LeakIff(op: Op)
    requires Int64Op(op)
    ensures Leak(op) == 0 <==> InTime(op) || EntryBytes(op.key, op.value) == 0
  {
  }

  lemma {:induction false} LeakedIff(ops: seq<Op>)
    ensures Leaked(ops) == 0 <==> forall op :: op in ops ==> Leak(op) == 0
  {
    if ops != [] {
      var before, op := ops[..|ops| - 1], ops[|ops| - 1];
      LeakedIff(before);
      assert ops == before + [op];
    }
  }

  /** A bucket's bytes are those of its live entries exactly if every set of the run had a deadline within the
      int64 range, or an empty key and value. */
  lemma BytesIffInTime(cap1: nat, cap2: nat, budget: nat, ops: seq<Op>)
    requires 0 < cap1 && 0 < cap2 && forall op :: op in ops ==> Int64Op(op)
    ensures var b := Run(Fresh(cap1, cap2, budget), ops);
            Total(b) == Sum(b.l1.items) + Sum(b.l2.items) <==>
              forall op :: op in ops && op.SetOp? ==> op.now + op.expiration <= MAX_INT64 || EntryBytes(op.key, op.value) == 0
  {
    BytesLeaked(cap1, cap2, budget, ops);
    LeakedIff(ops);
    forall op | op in ops
      ensures Leak(op) == 0 <==> (op.SetOp? ==> op.now + op.expiration <= MAX_INT64 || EntryBytes(op.key, op.value) == 0)
    {
      if op.SetOp? { LeakIff(op); }
    }
    hide Leak, Leaked, Run, Sum, Int64Op;
  }

  // ------------------------------------------------------------ the budget

  /** Within the budget, or nothing left to evict. */
  predicate Settled(b: Bucket) { b.budget > 0 ==> Total(b) <= b.budget || !Evictable(b) }

  lemma {:induction false} ShrinkSettles(b: Bucket)
    ensures Total(Shrink(b)) <= b.budget || !Evictable(Shrink(b))
    ensures Shrink(b).budget == b.budget
    decreases BucketLive(b)
  {
    if Total(b) > b.budget && Evictable(b) { ShrinkSettles(Evict(b)); }
  }

  lemma NothingLive(c: Level, key: string)
    requires !AnyLive(c)
    ensures !Has(c, key) && Drop(c, key) == c
  {
  }

  lemma DropBytes(c: Level, key: string)
    ensures Drop(c, key).bytes == c.bytes - if Has(c, key) then EntryBytes(key, Lookup(c, key).value) else 0
  {
  }

  /** Without a set the bytes do not grow. */
  lemma QuietBytes(b: Bucket, op: Op)
    requires Sized(b) && !op.SetOp?
    ensures Apply(b, op).budget == b.budget && Total(Apply(b, op)) <= Total(b)
    ensures !Evictable(b) ==> Apply(b, op) == b
  {
    DropBytes(b.l1, op.key);
    DropBytes(b.l2, op.key);
    if !Evictable(b) {
      NothingLive(b.l1, op.key);
      NothingLive(b.l2, op.key);
    }
    if op.GetOp? && Has(b.l1, op.key) {
      var it := Lookup(b.l1, op.key);
      PutBytes(b.l2, op.key, it.value, it.expireAt);
    }
    hide Put, Drop, Has, AnyLive;
  }

  lemma ApplySettles(b: Bucket, op: Op)
    requires Sized(b) && Settled(b)
    ensures Settled(Apply(b, op))
  {
    if op.SetOp? {
      hide Put, Drop, AnyLive, Shrink;
      ShrinkSettles(b.(l1 := Put(b.l1, op.key, op.value, Deadline(op.now, op.expiration)), l2 := Drop(b.l2, op.key)));
    } else {
      hide Apply, AnyLive;
      QuietBytes(b, op);
    }
  }

  lemma {:induction false} RunSettles(b: Bucket, ops: seq<Op>)
    requires NeatBucket(b) && Settled(b)
    ensures Settled(Run(b, ops))
  {
    if ops != [] {
      hide Settled, Apply, NeatBucket;
      RunSettles(b, ops[..|ops| - 1]);
      RunNext(b, ops);
      ApplySettles(Run(b, ops[..|ops| - 1]), ops[|ops| - 1]);
    }
  }

  /** Over every run, the bucket is within its budget exactly if what has leaked is. */
  lemma BudgetIffLeakFits(cap1: nat, cap2: nat, budget: nat, ops: seq<Op>)
    requires 0 < cap1 && 0 < cap2 && 0 < budget
    ensures Total(Run(Fresh(cap1, cap2, budget), ops)) <= budget <==> Leaked(ops) <= budget
  {
    var empty := Fresh(cap1, cap2, budget);
    BytesLeaked(cap1, cap2, budget, ops);
    RunSettles(empty, ops);
    var b := Run(empty, ops);
    hide Run, Leaked;
    if !Evictable(b) {
      NoneLiveSum(b.l1.items);
      NoneLiveSum(b.l2.items);
    }
  }

  // ------------------------------------------------------------ victims

  /** Only slots of this key stand dead in front of a live one. */
  ghost predicate Tidy(items: seq<Item>, key: string) {
    forall i, j :: 0 <= i < j < |items| && Live(items[j]) ==> Live(items[i]) || items[i].key == key
  }

  lemma RemoveTidy(items: seq<Item>, i: nat, key: string)
    requires Tidy(items, key) && i < |items|
    ensures Tidy(Remove(items, i), key)
  {
    var r := Remove(items, i);
    assert forall m :: 0 <= m < |r| ==> r[m] == items[if m < i then m else m + 1];
  }

  lemma KillTidy(c: Level, i: nat, key: string)
    requires Tidy(c.items, key) && i < |c.items|
    ensures Tidy(Kill(c, i).items, key)
  {
    RemoveTidy(c.items, i, key);
    hide Remove;
  }

  lemma DropTidy(c: Level, k: string, key: string)
    requires Tidy(c.items, key)
    ensures Tidy(Drop(c, k).items, key)
  {
    if Has(c, k) { KillTidy(c, Find(c.items, k), key); }
  }

  lemma PutTidy(c: Level, k: string, value: Value, expireAt: int, key: string)
    requires 0 < c.capacity && Tidy(c.items, key) && (expireAt > 0 || k == key)
    ensures Tidy(Put(c, k, value, expireAt).items, key)
  {
    var i := Find(c.items, k);
    if i < |c.items| { RemoveTidy(c.items, i, key); }
    if c.items != [] { RemoveTidy(c.items, |c.items| - 1, key); }
    hide Remove;
  }

  lemma {:induction false} ShrinkTidy(b: Bucket, key: string)
    requires Tidy(b.l1.items, key)
    ensures Tidy(Shrink(b).l1.items, key)
    decreases BucketLive(b)
  {
    if Total(b) > b.budget && Evictable(b) {
      hide Tidy, Kill;
      if AnyLive(b.l1) { KillTidy(b.l1, Oldest(b.l1.items), key); }
      ShrinkTidy(Evict(b), key);
    }
  }

  lemma ApplyTidy(b: Bucket, op: Op, key: string)
    requires Sized(b) && Tidy(b.l1.items, key) && (InTime(op) || op.key == key)
    ensures Tidy(Apply(b, op).l1.items, key)
  {
    hide Tidy, Put, Drop, Has;
    match op
    case SetOp(k, value, now, expiration) =>
      if InTime(op) { DeadlinePositive(op); }
      hide Deadline, InTime;
      var expireAt := Deadline(now, expiration);
      PutTidy(b.l1, k, value, expireAt, key);
      ShrinkTidy(b.(l1 := Put(b.l1, k, value, expireAt), l2 := Drop(b.l2, k)), key);
    case GetOp(k, _) => DropTidy(b.l1, k, key);
    case DeleteOp(k) => DropTidy(b.l1, k, key);
    case PurgeOp(k) => DropTidy(b.l1, k, key);
  }

  /** Runs of one operation, any number of times, and others whose deadlines fit. */
  ghost predicate BuiltFrom(ops: seq<Op>, o: Op) { forall op :: op in ops ==> op == o || InTime(op) }

  lemma {:induction false} RunTidy(b: Bucket, ops: seq<Op>, o: Op)
    requires NeatBucket(b) && b.l1.items == [] && BuiltFrom(ops, o)
    ensures Tidy(Run(b, ops).l1.items, o.key)
  {
    if ops != [] {
      var before, op := ops[..|ops| - 1], ops[|ops| - 1];
      assert op in ops && BuiltFrom(before, o);
      hide BuiltFrom, Tidy, Apply, NeatBucket, InTime;
      RunTidy(b, before, o);
      RunNext(b, ops);
      ApplyTidy(Run(b, before), op, o.key);
    }
  }

  lemma {:induction false} LeakedAtLeast(ops: seq<Op>, o: Op)
    requires o in ops
    ensures Leak(o) <= Leaked(ops)
  {
    var before, op := ops[..|ops| - 1], ops[|ops| - 1];
    if op != o {
      assert ops == before + [op];
      LeakedAtLeast(before, o);
    }
  }

  // ------------------------------------------------------------ when a live entry goes too early

  ghost predicate Distinct(keys: seq<string>) { forall i, j :: 0 <= i < j < |keys| ==> keys[i] != keys[j] }

  function KeyBytes(keys: seq<string>): nat {
    if keys == [] then 0 else KeyBytes(keys[..|keys| - 1]) + |keys[|keys| - 1]|
  }

  /** Beside the entry of the set there is room for keys in all other slots. */
  ghost predicate Roomy(cap: nat, budget: nat, o: Op)
    requires o.SetOp?
  {
    exists keys :: FillsUp(keys, cap, budget, o)
  }

  ghost predicate FillsUp(keys: seq<string>, cap: nat, budget: nat, o: Op)
    requires o.SetOp?
  {
    Distinct(keys) && |keys| + 1 == cap && o.key !in keys && (budget == 0 || KeyBytes(keys) + EntryBytes(o.key, o.value) <= budget)
  }

  function KeysOf(items: seq<Item>): (r: seq<string>)
    ensures |r| == |items| && forall i :: 0 <= i < |r| ==> r[i] == items[i].key
  {
    if items == [] then [] else KeysOf(items[..|items| - 1]) + [items[|items| - 1].key]
  }

  lemma {:induction false} LiveKeyBytes(items: seq<Item>)
    requires forall i :: 0 <= i < |items| ==> Live(items[i])
    ensures KeyBytes(KeysOf(items)) <= Sum(items)
  {
    if items != [] {
      LiveKeyBytes(items[..|items| - 1]);
      assert KeysOf(items)[..|items| - 1] == KeysOf(items[..|items| - 1]);
    }
  }

  /** A full level with a live last slot and a dead one has room for the keys of its other slots. */
  lemma DeadAmongLive(c: Level, key: string, j: nat) returns (keys: seq<string>)
    requires Neat(c) && Tidy(c.items, key) && TailLive(c) && j < |c.items| && !Live(c.items[j])
    ensures c.items[j].key == key
    ensures Distinct(keys) && |keys| + 1 == c.capacity && key !in keys && KeyBytes(keys) <= Sum(c.items)
  {
    OthersLive(c.items, key, j);
    hide Tidy, Sum, Remove, KeyBytes;
    var others := Remove(c.items, j);
    SumRemove(c.items, j);
    LiveKeyBytes(others);
    OtherKeys(c.items, j);
    keys := KeysOf(others);
  }

  lemma OthersLive(items: seq<Item>, key: string, j: nat)
    requires DistinctKeys(items) && Tidy(items, key) && j < |items| && Live(items[|items| - 1]) && !Live(items[j])
    ensures items[j].key == key && forall m :: 0 <= m < |items| - 1 ==> Live(Remove(items, j)[m])
  {
    assert forall i :: 0 <= i < |items| && !Live(items[i]) ==> i < |items| - 1 && items[i].key == key;
    assert forall m :: 0 <= m < |items| - 1 ==> Remove(items, j)[m] == items[if m < j then m else m + 1];
  }

  lemma OtherKeys(items: seq<Item>, j: nat)
    requires DistinctKeys(items) && j < |items|
    ensures Distinct(KeysOf(Remove(items, j))) && items[j].key !in KeysOf(Remove(items, j))
  {
    var others := Remove(items, j);
    RemoveMembers(items, j);
    forall m | 0 <= m < |others| ensures others[m].key != items[j].key { assert others[m] in others; }
  }

  /** A set whose deadline has wrapped. */
  ghost predicate Wrapped(o: Op) { o.SetOp? && Int64Op(o) && !InTime(o) }

  lemma WrappedLeaks(o: Op)
    requires Wrapped(o)
    ensures Deadline(o.now, o.expiration) < 0 && Leak(o) == EntryBytes(o.key, o.value)
  {
  }

  /** If a run of wrapped sets takes a live victim too early, there was room for that. */
  lemma EarlyVictimNeedsRoom(cap1: nat, cap2: nat, budget: nat, ops: seq<Op>, o: Op)
    requires 0 < cap1 && 0 < cap2 && Wrapped(o) && BuiltFrom(ops, o)
    requires !GivesUpLeast(Run(Fresh(cap1, cap2, budget), ops).l1, ops, false)
    ensures Roomy(cap1, budget, o)
  {
    var empty := Fresh(cap1, cap2, budget);
    var b := Run(empty, ops);
    EvictsLeastRecent(cap1, cap2, budget, ops);
    RunTidy(empty, ops, o);
    RunCapacity(empty, ops);
    assert o !in ops ==> AllInTime(ops);
    LeakedAtLeast(ops, o);
    WrappedLeaks(o);
    hide Run, BuiltFrom, Tidy, Wrapped, InTime, Leak, GivesUpOldest;
    var j :| 0 <= j < |b.l1.items| && !Live(b.l1.items[j]);
    var keys := DeadAmongLive(b.l1, o.key, j);
    if budget > 0 { LiveWithinBudget(cap1, cap2, budget, ops); }
    hide Neat, TailLive, Distinct, KeyBytes, EntryBytes;
    assert FillsUp(keys, cap1, budget, o);
  }

  lemma {:induction false} RunCapacity(b: Bucket, ops: seq<Op>)
    requires NeatBucket(b)
    ensures Run(b, ops).l1.capacity == b.l1.capacity && Run(b, ops).l2.capacity == b.l2.capacity
  {
    if ops != [] {
      RunCapacity(b, ops[..|ops| - 1]);
      RunNext(b, ops);
      hide Apply, NeatBucket;
      ApplyCapacity(Run(b, ops[..|ops| - 1]), ops[|ops| - 1]);
    }
  }

  lemma ApplyCapacity(b: Bucket, op: Op)
    requires Sized(b)
    ensures Apply(b, op).l1.capacity == b.l1.capacity && Apply(b, op).l2.capacity == b.l2.capacity
  {
    DropExcess(b.l1, op.key);
    DropExcess(b.l2, op.key);
    match op
    case SetOp(key, value, now, expiration) =>
      var expireAt := Deadline(now, expiration);
      PutSized(b.l1, key, value, expireAt);
      hide Put, Drop, Excess;
      ShrinkExcess(b.(l1 := Put(b.l1, key, value, expireAt), l2 := Drop(b.l2, key)));
    case GetOp(key, _) =>
      if Has(b.l1, key) { PutSized(b.l2, key, Lookup(b.l1, key).value, Lookup(b.l1, key).expireAt); }
    case _ =>
  }

  /** With a live entry in the first level the bucket is within its budget. */
  lemma LiveWithinBudget(cap1: nat, cap2: nat, budget: nat, ops: seq<Op>)
    requires 0 < cap1 && 0 < cap2 && 0 < budget && TailLive(Run(Fresh(cap1, cap2, budget), ops).l1)
    ensures Sum(Run(Fresh(cap1, cap2, budget), ops).l1.items) + Leaked(ops) <= budget
  {
    var empty := Fresh(cap1, cap2, budget);
    BytesLeaked(cap1, cap2, budget, ops);
    RunSettles(empty, ops);
    hide Run, Leaked, Sum;
  }

  // ------------------------------------------------------------ the run that takes a live entry too early

  /** Sets these keys, without values or expiration. */
  function Fills(keys: seq<string>): (r: seq<Op>)
    ensures |r| == |keys| && forall i :: 0 <= i < |r| ==> r[i] == SetOp(keys[i], Nil, 0, 0)
  {
    if keys == [] then [] else Fills(keys[..|keys| - 1]) + [SetOp(keys[|keys| - 1], Nil, 0, 0)]
  }

  /** The bucket after setting the keys: all live in the first level, nothing in the second. */
  ghost predicate FilledWith(b: Bucket, keys: seq<string>, cap1: nat, cap2: nat, budget: nat) {
    && b.l1.capacity == cap1 && b.l1.bytes == KeyBytes(keys) && b.l2 == Level([], cap2, 0, 0) && b.budget == budget
    && |b.l1.items| == |keys| && (forall i :: 0 <= i < |keys| ==> Live(b.l1.items[i]) && b.l1.items[i].key in keys)
  }

  lemma SetNew(b: Bucket, keys: seq<string>, cap1: nat, cap2: nat, budget: nat, key: string, value: Value, expireAt: int)
    requires 0 < cap2 && FilledWith(b, keys, cap1, cap2, budget) && |keys| < cap1 && key !in keys
    requires budget == 0 || KeyBytes(keys) + EntryBytes(key, value) <= budget
    ensures Sized(b)
    ensures Set(b, key, value, expireAt)
         == b.(l1 := b.l1.(items := [Item(key, value, expireAt)] + b.l1.items, bytes := b.l1.bytes + EntryBytes(key, value)))
  {
    var i := Find(b.l1.items, key);
    assert i == |b.l1.items|;
    assert !Has(b.l2, key);
  }

  lemma {:induction false} Filled(cap1: nat, cap2: nat, budget: nat, keys: seq<string>)
    requires 0 < cap1 && 0 < cap2 && Distinct(keys) && |keys| <= cap1 && (budget == 0 || KeyBytes(keys) <= budget)
    ensures FilledWith(Run(Fresh(cap1, cap2, budget), Fills(keys)), keys, cap1, cap2, budget)
  {
    var empty := Fresh(cap1, cap2, budget);
    if keys != [] {
      var before, key := keys[..|keys| - 1], keys[|keys| - 1];
      Filled(cap1, cap2, budget, before);
      assert Fills(keys)[..|keys| - 1] == Fills(before) && Fills(keys)[|keys| - 1] == SetOp(key, Nil, 0, 0);
      RunNext(empty, Fills(keys));
      hide Run, Set, Fills, FilledWith, NeatBucket;
      FilledNext(Run(empty, Fills(before)), keys, cap1, cap2, budget);
    }
  }

  lemma FilledNext(b: Bucket, keys: seq<string>, cap1: nat, cap2: nat, budget: nat)
    requires keys != [] && FilledWith(b, keys[..|keys| - 1], cap1, cap2, budget) && |keys| <= cap1 && 0 < cap2 && Distinct(keys)
    requires budget == 0 || KeyBytes(keys) <= budget
    ensures Sized(b) && FilledWith(Apply(b, SetOp(keys[|keys| - 1], Nil, 0, 0)), keys, cap1, cap2, budget)
  {
    var before, key := keys[..|keys| - 1], keys[|keys| - 1];
    SetNew(b, before, cap1, cap2, budget, key, Nil, MAX_INT64);
    hide Set;
    OneMoreKey(b.l1.items, before, keys, Item(key, Nil, MAX_INT64));
  }

  lemma OneMoreKey(items: seq<Item>, before: seq<string>, keys: seq<string>, it: Item)
    requires |items| == |before| && forall i :: 0 <= i < |items| ==> Live(items[i]) && items[i].key in before
    requires Live(it) && keys != [] && keys[|keys| - 1] == it.key && keys[..|keys| - 1] == before
    ensures forall i :: 0 <= i < |keys| ==> Live(([it] + items)[i]) && ([it] + items)[i].key in keys
  {
    assert keys == before + [it.key];
  }

  /** The keys and then the wrapped set: the level is full, its last slot live and its first one dead. */
  lemma EarlyVictim(cap1: nat, cap2: nat, budget: nat, o: Op, keys: seq<string>) returns (ops: seq<Op>)
    requires 2 <= cap1 && 0 < cap2 && Wrapped(o) && FillsUp(keys, cap1, budget, o)
    ensures BuiltFrom(ops, o) && !GivesUpLeast(Run(Fresh(cap1, cap2, budget), ops).l1, ops, false)
  {
    var empty := Fresh(cap1, cap2, budget);
    ops := Fills(keys) + [o];
    assert ops[..|ops| - 1] == Fills(keys);
    Filled(cap1, cap2, budget, keys);
    RunNext(empty, ops);
    WrappedLeaks(o);
    FitsFill(ops, keys, o);
    hide Run, Fills, Wrapped, Leak, BuiltFrom, Deadline, NeatBucket, GivesUpLeast;
    var b, it := Run(empty, Fills(keys)), Item(o.key, o.value, Deadline(o.now, o.expiration));
    SetNew(b, keys, cap1, cap2, budget, o.key, o.value, it.expireAt);
    hide Set;
    DeadInFront(b.l1, Run(empty, ops).l1, it, ops);
  }

  lemma FitsFill(ops: seq<Op>, keys: seq<string>, o: Op)
    requires ops == Fills(keys) + [o]
    ensures BuiltFrom(ops, o)
  {
  }

  lemma DeadInFront(c: Level, c1: Level, it: Item, ops: seq<Op>)
    requires c1.items == [it] + c.items && c1.capacity == |c.items| + 1 && c.items != []
    requires !Live(it) && forall i :: 0 <= i < |c.items| ==> Live(c.items[i])
    ensures !GivesUpLeast(c1, ops, false)
  {
    assert c1.items[0] == it && c1.items[|c1.items| - 1] == c.items[|c.items| - 1];
    assert TailLive(c1);
  }

  /** For any set within int64 arithmetic, a first level of two or more slots and any budget: all runs built from it
      give up a live entry to a new key only when every slot is live, if and only if its deadline fits or the budget
      has no room for its entry and keys in all other slots. */
  lemma VictimsIff(cap1: nat, cap2: nat, budget: nat, o: Op)
    requires 2 <= cap1 && 0 < cap2 && o.SetOp? && Int64Op(o)
    ensures (forall ops | BuiltFrom(ops, o) :: GivesUpLeast(Run(Fresh(cap1, cap2, budget), ops).l1, ops, false)) <==>
              InTime(o) || !Roomy(cap1, budget, o)
  {
    hide GivesUpLeast, Run, FillsUp;
    if InTime(o) {
      forall ops | BuiltFrom(ops, o) ensures GivesUpLeast(Run(Fresh(cap1, cap2, budget), ops).l1, ops, false) {
        assert AllInTime(ops);
        EvictsLeastRecent(cap1, cap2, budget, ops);
      }
    } else {
      hide InTime;
      if Roomy(cap1, budget, o) {
        var keys :| FillsUp(keys, cap1, budget, o);
        var ops := EarlyVictim(cap1, cap2, budget, o, keys);
      } else {
        hide Roomy;
        forall ops | BuiltFrom(ops, o) ensures GivesUpLeast(Run(Fresh(cap1, cap2, budget), ops).l1, ops, false) {
          if !GivesUpLeast(Run(Fresh(cap1, cap2, budget), ops).l1, ops, false) { EarlyVictimNeedsRoom(cap1, cap2, budget, ops, o); }
        }
      }
    }
  }

  function Xs(n: nat): (s: string)
    ensures |s| == n
  {
    seq(n, _ => 'x')
  }

  lemma {:induction false} ManyKeys(n: nat, key: string) returns (keys: seq<string>)
    ensures Distinct(keys) && |keys| == n && key !in keys && forall i :: 0 <= i < n ==> |keys[i]| <= |key| + n
  {
    keys := [];
    if n > 0 {
      var few := ManyKeys(n - 1, key);
      keys := few + [Xs(|key| + n)];
    }
  }

  /** Without a budget there is always room: exactly the sets whose deadlines fit are safe. */
  lemma VictimsIffInTime(cap1: nat, cap2: nat, o: Op)
    requires 2 <= cap1 && 0 < cap2 && o.SetOp? && Int64Op(o)
    ensures (forall ops | BuiltFrom(ops, o) :: GivesUpLeast(Run(Fresh(cap1, cap2, 0), ops).l1, ops, false)) <==> InTime(o)
  {
    VictimsIff(cap1, cap2, 0, o);
    var keys := ManyKeys(cap1 - 1, o.key);
    assert FillsUp(keys, cap1, 0, o);
  }
}
