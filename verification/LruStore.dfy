/** One bucket of the store: the two levels behind Get, SetWithExpiration and Delete. */
module LruStore {
  import opened LruSpec
  import opened LruCache

  class BucketStore {
    const level1: Cache
    const level2: Cache
    const maxBytes: nat

    ghost function Repr(): set<object> { level1.Repr() + level2.Repr() }

    ghost predicate Valid() reads Repr() {
      level1.Repr() !! level2.Repr() && level1.Valid() && level2.Valid()
    }

    ghost function State(): Bucket reads Repr()
      requires Valid()
    {
      Bucket(level1.State(), level2.State(), maxBytes)
    }

    constructor (cap1: nat, cap2: nat, maxBytes: nat)
      requires 0 < cap1 <= 0xffff && 0 < cap2 <= 0xffff
      ensures fresh(Repr()) && (Valid() <==> cap1 != 0xffff && cap2 != 0xffff)
      ensures Valid() ==> State() == Bucket(Level([], cap1, 0, 0), Level([], cap2, 0, 0), maxBytes)
    {
      level1 := new Cache(cap1);
      level2 := new Cache(cap2);
      this.maxBytes := maxBytes;
    }

    /** Reads a key and moves it to the front of the second level; an expired one goes. */
    method Get(key: string, now: int) returns (found: bool, value: Value)
      requires Valid()
      modifies Repr()
      ensures Valid() && Sized(old(State()))
      ensures (State(), if found then Hit(value) else Miss) == LruSpec.Get(old(State()), key, now)
    {
      assert !Has(level1.State(), key) ==> Drop(level1.State(), key) == level1.State();
      hide Shape, Put, Drop, Touch, Has;
      CapacityPositive();
      var hit, v, expireAt := level1.Del(key);
      if hit {
        if now >= expireAt {
          var _, _, _ := level2.Del(key);
          return false, Nil;
        }
        level2.Put(key, v, expireAt);
        return true, v;
      }
      found, value := ReadSecond(key, now);
    }

    /** The key is not live in the first level: the second decides. */
    method ReadSecond(key: string, now: int) returns (found: bool, value: Value)
      requires Valid() && !Has(level1.State(), key)
      modifies level2.Repr()
      ensures Valid() && Sized(old(State())) && level1.State() == old(level1.State())
      ensures (State(), if found then Hit(value) else Miss) == LruSpec.Get(old(State()), key, now)
    {
      hide Shape, Put, Drop, Touch;
      CapacityPositive();
      var held, it := level2.Peek(key);
      if !held || it.expireAt <= 0 { return false, Nil; }
      if now >= it.expireAt {
        var _, _, _ := level2.Del(key);
        return false, Nil;
      }
      level2.Promote(key);
      return true, it.value;
    }

    lemma CapacityPositive()
      requires Valid()
      ensures Sized(State())
    {
    }

    /** Stores a key in the first level only, then evicts until the bytes fit the budget. */
    method SetWithExpiration(key: string, value: Value, now: int, expiration: int)
      requires Valid()
      modifies Repr()
      ensures Valid() && Sized(old(State()))
      ensures State() == Set(old(State()), key, value, Deadline(now, expiration))
    {
      hide Shape, Put, Drop, Deadline;
      CapacityPositive();
      level1.Put(key, value, Deadline(now, expiration));
      var _, _, _ := level2.Del(key);
      if maxBytes > 0 { FitBudget(); }
    }

    method FitBudget()
      requires Valid()
      modifies Repr()
      ensures Valid() && State() == Shrink(old(State()))
    {
      hide Shape, EvictOldest, AnyLive;
      while level1.bytes + level2.bytes > maxBytes
        invariant Valid() && Shrink(State()) == old(Shrink(State()))
        decreases BucketLive(State())
      {
        var evicted := EvictOne();
        if !evicted { break; }
      }
    }

    /** Takes from the first level as long as it has anything live. */
    method EvictOne() returns (evicted: bool)
      requires Valid()
      modifies Repr()
      ensures Valid() && evicted == Evictable(old(State()))
      ensures State() == if evicted then Evict(old(State())) else old(State())
    {
      hide Shape, EvictOldest, AnyLive, BucketLive;
      evicted := level1.EvictOldest();
      if !evicted { evicted := level2.EvictOldest(); }
    }

    method Delete(key: string) returns (deleted: bool)
      requires Valid()
      modifies Repr()
      ensures Valid() && (State(), deleted) == LruSpec.Delete(old(State()), key)
    {
      hide Shape, Drop;
      var s1, _, _ := level1.Del(key);
      var s2, _, _ := level2.Del(key);
      deleted := s1 || s2;
    }
  }
}
