/** Whole runs of a bucket, deadlines that overflow included: what a read can return, and recency. */
module LruRuns {
  import opened LruSpec
  import opened LruProofs

  /** PurgeOp is what the clean-up and Clear do to one key. */
  datatype Op =
    | SetOp(key: string, value: Value, now: int, expiration: int)
    | GetOp(key: string, now: int)
    | DeleteOp(key: string)
    | PurgeOp(key: string)

  function Apply(b: Bucket, op: Op): Bucket
    requires Sized(b)
  {
    match op
    case SetOp(key, value, now, expiration) => Set(b, key, value, Deadline(now, expiration))
    case GetOp(key, now) => Get(b, key, now).0
    case DeleteOp(key) => Delete(b, key).0
    case PurgeOp(key) => Delete(b, key).0
  }

  ghost function Fresh(cap1: nat, cap2: nat, budget: nat): (b: Bucket)
    requires 0 < cap1 && 0 < cap2
    ensures BucketGood(b) && NeatBucket(b) && Agrees(b, map[])
  {
    Bucket(Level([], cap1, 0, 0), Level([], cap2, 0, 0), budget)
  }

  /** The state after any operations. */
  ghost function Run(b: Bucket, ops: seq<Op>): (r: Bucket)
    requires NeatBucket(b)
    ensures NeatBucket(r) && r.budget == b.budget
  {
    if ops == [] then b
    else
      var b1 := Run(b, ops[..|ops| - 1]);
      ApplyNeat(b1, ops[|ops| - 1]);
      Apply(b1, ops[|ops| - 1])
  }

  lemma ApplyNeat(b: Bucket, op: Op)
    requires NeatBucket(b)
    ensures Sized(b) && NeatBucket(Apply(b, op)) && Apply(b, op).budget == b.budget
  {
    assert Sized(b);
    hide NeatBucket, Set, Get, Delete;
    match op
    case SetOp(key, value, now, expiration) => SetNeat(b, key, value, Deadline(now, expiration));
    case GetOp(key, now) => GetNeat(b, key, now);
    case DeleteOp(key) => DeleteNeat(b, key);
    case PurgeOp(key) => DeleteNeat(b, key);
  }

  lemma RunNext(b: Bucket, ops: seq<Op>)
    requires NeatBucket(b) && ops != []
    ensures var b1 := Run(b, ops[..|ops| - 1]); Sized(b1) && Run(b, ops) == Apply(b1, ops[|ops| - 1])
  {
  }

  // ------------------------------------------------------------ deadlines that fit

  /** Clocks are not negative and deadlines fit an int64. */
  predicate InTime(op: Op) {
    op.SetOp? ==> 0 <= op.now <= MAX_INT64 && op.now + op.expiration <= MAX_INT64
  }

  ghost predicate AllInTime(ops: seq<Op>) { forall op :: op in ops ==> InTime(op) }

  lemma DeadlinePositive(op: Op)
    requires op.SetOp? && InTime(op)
    ensures 0 < Deadline(op.now, op.expiration) <= MAX_INT64
    ensures op.expiration > 0 ==> Deadline(op.now, op.expiration) == op.now + op.expiration
  {
  }

  lemma ApplyKeeps(b: Bucket, op: Op)
    requires BucketGood(b) && InTime(op)
    ensures BucketGood(Apply(b, op))
  {
    match op
    case SetOp(key, value, now, expiration) =>
      DeadlinePositive(op);
      SetKeeps(b, key, value, Deadline(now, expiration));
    case GetOp(key, now) => GetKeeps(b, key, now);
    case DeleteOp(key) => DeleteKeeps(b, key);
    case PurgeOp(key) => DeleteKeeps(b, key);
  }

  /** With deadlines that fit a bucket is good throughout: bytes exact, budget kept, live slots before deleted ones. */
  lemma {:induction false} RunGood(b: Bucket, ops: seq<Op>)
    requires BucketGood(b) && NeatBucket(b) && AllInTime(ops)
    ensures BucketGood(Run(b, ops))
  {
    if ops != [] {
      hide BucketGood, NeatBucket, Apply;
      InTimeBefore(ops);
      RunGood(b, ops[..|ops| - 1]);
      ApplyKeeps(Run(b, ops[..|ops| - 1]), ops[|ops| - 1]);
    }
  }

  lemma InTimeBefore(ops: seq<Op>)
    requires AllInTime(ops) && ops != []
    ensures AllInTime(ops[..|ops| - 1]) && InTime(ops[|ops| - 1])
  {
  }

  // ------------------------------------------------------------ what reads return

  /** What was last set under each key and not deleted since, with its deadline. */
  function LastSet(ops: seq<Op>): map<string, (Value, int)> {
    if ops == [] then map[]
    else
      var before, op := LastSet(ops[..|ops| - 1]), ops[|ops| - 1];
      match op
      case SetOp(key, value, now, expiration) => before[key := (value, Deadline(now, expiration))]
      case DeleteOp(key) => before - {key}
      case _ => before
  }

  ghost predicate Agrees(b: Bucket, last: map<string, (Value, int)>) {
    forall x :: InBucket(b, x) ==> x.key in last && last[x.key] == (x.value, x.expireAt)
  }

  lemma ApplyAgrees(b: Bucket, op: Op, last: map<string, (Value, int)>)
    requires NeatBucket(b) && Agrees(b, last)
    ensures Sized(b)
    ensures op.SetOp? ==> Agrees(Apply(b, op), last[op.key := (op.value, Deadline(op.now, op.expiration))])
    ensures op.DeleteOp? ==> Agrees(Apply(b, op), last - {op.key})
    ensures op.GetOp? || op.PurgeOp? ==> Agrees(Apply(b, op), last)
  {
    assert Sized(b);
    hide Set, Get, Delete, NeatBucket, Agrees, Deadline;
    match op
    case SetOp(key, value, now, expiration) => SetAgrees(b, key, value, Deadline(now, expiration), last);
    case GetOp(key, now) => GetNeat(b, key, now); FewerAgrees(b, Get(b, key, now).0, last);
    case DeleteOp(key) => DeleteAgrees(b, key, last);
    case PurgeOp(key) => DeleteNeat(b, key); FewerAgrees(b, Delete(b, key).0, last);
  }

  lemma SetAgrees(b: Bucket, key: string, value: Value, expireAt: int, last: map<string, (Value, int)>)
    requires NeatBucket(b) && Sized(b) && Agrees(b, last)
    ensures Agrees(Set(b, key, value, expireAt), last[key := (value, expireAt)])
  {
    SetNeat(b, key, value, expireAt);
    hide Set, NeatBucket, InBucket;
  }

  lemma FewerAgrees(b: Bucket, b1: Bucket, last: map<string, (Value, int)>)
    requires Agrees(b, last) && forall x :: InBucket(b1, x) ==> InBucket(b, x)
    ensures Agrees(b1, last)
  {
    hide InBucket;
  }

  lemma DeleteAgrees(b: Bucket, key: string, last: map<string, (Value, int)>)
    requires NeatBucket(b) && Agrees(b, last)
    ensures Agrees(Delete(b, key).0, last - {key})
  {
    DeleteNeat(b, key);
    hide Delete, NeatBucket, InBucket;
  }

  lemma {:induction false} RunAgrees(b: Bucket, ops: seq<Op>)
    requires NeatBucket(b) && Agrees(b, map[])
    ensures Agrees(Run(b, ops), LastSet(ops))
  {
    if ops != [] {
      var before, op := ops[..|ops| - 1], ops[|ops| - 1];
      RunAgrees(b, before);
      hide Agrees, Apply, NeatBucket;
      ApplyAgrees(Run(b, before), op, LastSet(before));
    }
  }

  /** After every run of a bucket, whatever its deadlines, a read returns a miss or exactly what was last set and
      is not expired, and no key is live in both levels; with deadlines that fit, the bytes are those of the live
      entries and within the budget. */
  lemma ReadsLastSet(cap1: nat, cap2: nat, budget: nat, ops: seq<Op>, key: string, now: int)
    requires 0 < cap1 && 0 < cap2
    ensures var b := Run(Fresh(cap1, cap2, budget), ops); var last := LastSet(ops);
            && Sized(b) && Apart(b)
            && (match Get(b, key, now).1
                case Miss => true
                case Hit(value) => key in last && last[key].0 == value && now < last[key].1)
            && (AllInTime(ops) ==>
                  && b.l1.bytes == Sum(b.l1.items) && b.l2.bytes == Sum(b.l2.items)
                  && (b.budget > 0 ==> Total(b) <= b.budget))
  {
    var empty := Fresh(cap1, cap2, budget);
    RunAgrees(empty, ops);
    if AllInTime(ops) { RunGood(empty, ops); }
    var b := Run(empty, ops);
    hide Run, Good, Neat, Get;
    GetAnswers(b, key, now);
  }

  /** What is set is read back at once, unless the budget alone forced it out. */
  lemma SetThenGet(b: Bucket, key: string, value: Value, expireAt: int, now: int)
    requires NeatBucket(b) && now < expireAt && 0 < expireAt
    requires b.budget == 0 || Total(b) + EntryBytes(key, value) <= b.budget
    ensures Sized(b) && Sized(Set(b, key, value, expireAt)) && Get(Set(b, key, value, expireAt), key, now).1 == Hit(value)
  {
    assert Sized(b);
    var mid := b.(l1 := Put(b.l1, key, value, expireAt), l2 := Drop(b.l2, key));
    PutBytes(b.l1, key, value, expireAt);
    SetNeat(b, key, value, expireAt);
    assert Set(b, key, value, expireAt) == mid;
    var it := Item(key, value, expireAt);
    assert mid.l1.items[0] == it;
    assert InBucket(mid, it);
    hide NeatBucket, InBucket, Get;
    GetAnswers(mid, key, now);
  }

  // ------------------------------------------------------------ recency

  /** What brings a key to the front: a set in the first level, a read in the second. */
  predicate Uses(op: Op, second: bool, key: string) {
    op.key == key && if second then op.GetOp? else op.SetOp?
  }

  /** The number of the last operation that used the key, or -1. */
  function LastUse(ops: seq<Op>, second: bool, key: string): (i: int)
    ensures -1 <= i < |ops|
  {
    if ops == [] then -1 else if Uses(ops[|ops| - 1], second, key) then |ops| - 1 else LastUse(ops[..|ops| - 1], second, key)
  }

  ghost predicate ByRecency(items: seq<Item>, ops: seq<Op>, second: bool) {
    forall i, j :: 0 <= i < j < |items| && Live(items[j]) ==> LastUse(ops, second, items[j].key) < LastUse(ops, second, items[i].key)
  }

  lemma LastUseNext(before: seq<Op>, op: Op, second: bool, key: string)
    ensures LastUse(before + [op], second, key) == if Uses(op, second, key) then |before| else LastUse(before, second, key)
  {
    assert (before + [op])[..|before|] == before;
  }

  /** A used key moves to the front, past keys that are not used. */
  lemma FrontRecent(r: seq<Item>, before: seq<Op>, op: Op, second: bool, it: Item)
    requires ByRecency(r, before, second) && Uses(op, second, it.key) && forall i :: 0 <= i < |r| ==> r[i].key != it.key
    ensures ByRecency([it] + r, before + [op], second)
  {
    var items, ops := [it] + r, before + [op];
    LastUseNext(before, op, second, it.key);
    forall m | 1 <= m < |items| ensures items[m] == r[m - 1] && LastUse(ops, second, items[m].key) == LastUse(before, second, r[m - 1].key) {
      LastUseNext(before, op, second, items[m].key);
    }
    hide LastUse;
  }

  lemma RemoveRecent(items: seq<Item>, ops: seq<Op>, second: bool, i: nat)
    requires ByRecency(items, ops, second) && i < |items|
    ensures ByRecency(Remove(items, i), ops, second)
  {
    var r := Remove(items, i);
    hide LastUse;
    assert forall m :: 0 <= m < |r| ==> r[m] == items[if m < i then m else m + 1];
  }

  lemma KillRecent(c: Level, ops: seq<Op>, second: bool, i: nat)
    requires ByRecency(c.items, ops, second) && i < |c.items|
    ensures ByRecency(Kill(c, i).items, ops, second)
  {
    RemoveRecent(c.items, ops, second, i);
    hide LastUse, Remove;
  }

  lemma DropRecent(c: Level, ops: seq<Op>, second: bool, key: string)
    requires ByRecency(c.items, ops, second)
    ensures ByRecency(Drop(c, key).items, ops, second)
  {
    if Has(c, key) { KillRecent(c, ops, second, Find(c.items, key)); }
  }

  /** An operation on a key that is not live leaves the order of the live ones. */
  lemma IdleRecent(c: Level, before: seq<Op>, op: Op, second: bool)
    requires ByRecency(c.items, before, second) && DistinctKeys(c.items)
    requires Uses(op, second, op.key) ==> !Has(c, op.key) && LiveFirst(c.items)
    ensures ByRecency(c.items, before + [op], second)
  {
    forall i, j | 0 <= i < j < |c.items| && Live(c.items[j])
      ensures LastUse(before + [op], second, c.items[j].key) < LastUse(before + [op], second, c.items[i].key)
    {
      FindAt(c.items, i);
      FindAt(c.items, j);
      LastUseNext(before, op, second, c.items[i].key);
      LastUseNext(before, op, second, c.items[j].key);
    }
  }

  lemma ReplaceRecent(c: Level, before: seq<Op>, op: Op, second: bool, i: nat, it: Item)
    requires ByRecency(c.items, before, second) && DistinctKeys(c.items) && Uses(op, second, it.key) && i < |c.items|
    requires it.key == c.items[i].key || forall j :: 0 <= j < |c.items| ==> c.items[j].key != it.key
    ensures ByRecency(Front(c.items, i, it), before + [op], second)
  {
    RemoveRecent(c.items, before, second, i);
    RemoveMembers(c.items, i);
    var r := Remove(c.items, i);
    forall j | 0 <= j < |r| ensures r[j].key != it.key { assert r[j] in r; }
    hide ByRecency, Remove;
    FrontRecent(r, before, op, second, it);
  }

  lemma PutRecent(c: Level, before: seq<Op>, op: Op, second: bool, it: Item)
    requires 0 < c.capacity && ByRecency(c.items, before, second) && DistinctKeys(c.items) && Uses(op, second, it.key)
    ensures ByRecency(Put(c, it.key, it.value, it.expireAt).items, before + [op], second)
  {
    var i := Find(c.items, it.key);
    hide ByRecency;
    if i < |c.items| { ReplaceRecent(c, before, op, second, i, it); }
    else if |c.items| < c.capacity { FrontRecent(c.items, before, op, second, it); }
    else { ReplaceRecent(c, before, op, second, |c.items| - 1, it); }
  }

  ghost predicate BothByRecency(b: Bucket, ops: seq<Op>) { ByRecency(b.l1.items, ops, false) && ByRecency(b.l2.items, ops, true) }

  lemma {:induction false} ShrinkRecent(b: Bucket, ops: seq<Op>)
    requires BothByRecency(b, ops)
    ensures BothByRecency(Shrink(b), ops)
    decreases BucketLive(b)
  {
    if Total(b) > b.budget && Evictable(b) {
      hide ByRecency, Kill;
      if AnyLive(b.l1) { KillRecent(b.l1, ops, false, Oldest(b.l1.items)); } else { KillRecent(b.l2, ops, true, Oldest(b.l2.items)); }
      ShrinkRecent(Evict(b), ops);
    }
  }

  lemma SetRecent(b: Bucket, before: seq<Op>, op: Op)
    requires NeatBucket(b) && Sized(b) && BothByRecency(b, before) && op.SetOp?
    ensures BothByRecency(Set(b, op.key, op.value, Deadline(op.now, op.expiration)), before + [op])
  {
    var expireAt := Deadline(op.now, op.expiration);
    PutRecent(b.l1, before, op, false, Item(op.key, op.value, expireAt));
    DropNeat(b.l2, op.key);
    DropRecent(b.l2, before, true, op.key);
    assert DistinctKeys(Drop(b.l2, op.key).items);
    hide ByRecency, Put, Drop, NeatBucket, Deadline;
    IdleRecent(Drop(b.l2, op.key), before, op, true);
    ShrinkRecent(b.(l1 := Put(b.l1, op.key, op.value, expireAt), l2 := Drop(b.l2, op.key)), before + [op]);
  }

  lemma GoneAfterDrop(c: Level, key: string)
    requires Neat(c)
    ensures !Has(Drop(c, key), key) && DistinctKeys(Drop(c, key).items) && (LiveFirst(c.items) ==> LiveFirst(Drop(c, key).items))
  {
    var d := Drop(c, key);
    DropNeat(c, key);
    if Has(d, key) { HasIff(d, Lookup(d, key)); }
  }

  lemma DroppedRecent(c: Level, before: seq<Op>, op: Op, second: bool)
    requires Neat(c) && ByRecency(c.items, before, second) && (Uses(op, second, op.key) ==> LiveFirst(c.items))
    ensures ByRecency(Drop(c, op.key).items, before + [op], second)
  {
    hide Neat, ByRecency, Drop, LiveFirst;
    DropRecent(c, before, second, op.key);
    GoneAfterDrop(c, op.key);
    IdleRecent(Drop(c, op.key), before, op, second);
  }

  lemma GetRecent(b: Bucket, before: seq<Op>, op: Op)
    requires NeatBucket(b) && Sized(b) && BothByRecency(b, before) && op.GetOp?
    ensures BothByRecency(Get(b, op.key, op.now).0, before + [op])
  {
    var key := op.key;
    assert Neat(b.l1) && Neat(b.l2) && LiveFirst(b.l2.items);
    assert DistinctKeys(b.l1.items) && DistinctKeys(b.l2.items);
    assert !Has(b.l1, key) ==> Drop(b.l1, key) == b.l1;
    hide ByRecency, Neat, NeatBucket, Drop, Put, LiveFirst;
    DroppedRecent(b.l1, before, op, false);
    DroppedRecent(b.l2, before, op, true);
    if Has(b.l1, key) {
      PutRecent(b.l2, before, op, true, Lookup(b.l1, key));
    } else if Has(b.l2, key) {
      ReplaceRecent(b.l2, before, op, true, Find(b.l2.items, key), Lookup(b.l2, key));
    } else {
      IdleRecent(b.l2, before, op, true);
    }
  }

  lemma DeleteRecent(b: Bucket, before: seq<Op>, op: Op)
    requires NeatBucket(b) && BothByRecency(b, before) && (op.DeleteOp? || op.PurgeOp?)
    ensures BothByRecency(Delete(b, op.key).0, before + [op])
  {
    DroppedRecent(b.l1, before, op, false);
    DroppedRecent(b.l2, before, op, true);
  }

  /** Over every run, the slots of the first level stand in the order of their last set, and those of the second
      in the order of their last read, deleted ones behind. */
  lemma {:induction false} RunRecent(b: Bucket, ops: seq<Op>)
    requires NeatBucket(b) && b.l1.items == b.l2.items == []
    ensures BothByRecency(Run(b, ops), ops)
  {
    hide *;
    if ops == [] {
      NothingRecent(b, ops);
    } else {
      var before, op := ops[..|ops| - 1], ops[|ops| - 1];
      RunRecent(b, before);
      RunNext(b, ops);
      ApplyRecent(Run(b, before), before, op);
      assert ops == before + [op];
    }
  }

  lemma NothingRecent(b: Bucket, ops: seq<Op>)
    requires NeatBucket(b) && b.l1.items == b.l2.items == [] && ops == []
    ensures BothByRecency(Run(b, ops), ops)
  {
  }

  lemma ApplyRecent(b: Bucket, before: seq<Op>, op: Op)
    requires NeatBucket(b) && Sized(b) && BothByRecency(b, before)
    ensures BothByRecency(Apply(b, op), before + [op])
  {
    hide BothByRecency, NeatBucket, Set, Get, Delete;
    match op
    case SetOp(_, _, _, _) => SetRecent(b, before, op);
    case GetOp(_, _) => GetRecent(b, before, op);
    case DeleteOp(_) => DeleteRecent(b, before, op);
    case PurgeOp(_) => DeleteRecent(b, before, op);
  }

  /** Of all live entries of the level, the one in slot i was used least recently. */
  ghost predicate LeastRecent(c: Level, i: nat, ops: seq<Op>, second: bool) {
    && i < |c.items| && Live(c.items[i])
    && forall x :: Holds(c, x) ==> LastUse(ops, second, c.items[i].key) <= LastUse(ops, second, x.key)
  }

  /** An eviction takes the least recent entry, and so does a new key of a full level that takes a live one. */
  ghost predicate GivesUpOldest(c: Level, ops: seq<Op>, second: bool) {
    && (AnyLive(c) ==> LeastRecent(c, Oldest(c.items), ops, second))
    && (TailLive(c) ==> LeastRecent(c, |c.items| - 1, ops, second))
  }

  /** A new key would take a live entry. */
  ghost predicate TailLive(c: Level) { |c.items| == c.capacity && c.items != [] && Live(c.items[|c.items| - 1]) }

  /** Besides, a new key takes a live entry only when every slot is live. */
  ghost predicate GivesUpLeast(c: Level, ops: seq<Op>, second: bool) {
    GivesUpOldest(c, ops, second) && (TailLive(c) ==> forall i :: 0 <= i < |c.items| ==> Live(c.items[i]))
  }

  lemma LastIsLeast(c: Level, i: nat, ops: seq<Op>, second: bool)
    requires ByRecency(c.items, ops, second) && i < |c.items| && Live(c.items[i]) && forall j :: i < j < |c.items| ==> !Live(c.items[j])
    ensures LeastRecent(c, i, ops, second)
  {
    forall x | Holds(c, x) ensures LastUse(ops, second, c.items[i].key) <= LastUse(ops, second, x.key) {
      var j :| 0 <= j < |c.items| && c.items[j] == x;
    }
  }

  lemma GivesUp(c: Level, ops: seq<Op>, second: bool)
    requires ByRecency(c.items, ops, second)
    ensures GivesUpOldest(c, ops, second) && (LiveFirst(c.items) ==> GivesUpLeast(c, ops, second))
  {
    hide ByRecency, LeastRecent;
    if AnyLive(c) { LastIsLeast(c, Oldest(c.items), ops, second); }
    if TailLive(c) { LastIsLeast(c, |c.items| - 1, ops, second); }
  }

  /** After every run of a bucket, whatever its deadlines, both levels give up the entry whose last set (first
      level) or last read (second level) lies furthest back; the second level, and with deadlines that fit the
      first, gives up a live entry to a new key only when every slot is live. */
  lemma EvictsLeastRecent(cap1: nat, cap2: nat, budget: nat, ops: seq<Op>)
    requires 0 < cap1 && 0 < cap2
    ensures var b := Run(Fresh(cap1, cap2, budget), ops);
            && GivesUpOldest(b.l1, ops, false) && GivesUpLeast(b.l2, ops, true)
            && (AllInTime(ops) ==> GivesUpLeast(b.l1, ops, false))
  {
    var empty := Fresh(cap1, cap2, budget);
    RunRecent(empty, ops);
    var b := Run(empty, ops);
    if AllInTime(ops) { RunGood(empty, ops); }
    hide Run, ByRecency, GivesUpLeast, GivesUpOldest;
    GivesUp(b.l1, ops, false);
    GivesUp(b.l2, ops, true);
  }
}
