/**
 * One cache level in arrays: slots, a doubly linked list over them, and a map from keys to slots.
 * Each method computes the operation of LruSpec on the list of slots in recency order.
 */
module LruCache {
  import opened LruSpec
  import opened LruProofs
  import opened LruLinks

  // ------------------------------------------------------------ the arrays as values

  /** The list holds exactly the slots 1 to last. */
  ghost predicate Permutes(order: seq<int>, last: nat) {
    && |order| == last
    && (forall i :: 0 <= i < |order| ==> 0 < order[i] <= last)
    && (forall s :: 0 < s <= last ==> s in order)
  }

  /** The map from keys to slots is the inverse of the keys in the slots. */
  ghost predicate Inverse(m: seq<Item>, hashMap: map<string, int>, last: nat) {
    && last <= |m|
    && (forall k :: k in hashMap ==> 0 < hashMap[k] <= last && m[hashMap[k] - 1].key == k)
    && (forall i :: 0 <= i < last ==> m[i].key in hashMap && hashMap[m[i].key] == i + 1)
  }

  ghost predicate Shape(links: Links, m: seq<Item>, hashMap: map<string, int>, last: nat, order: seq<int>) {
    && |links| == |m| + 1 && 0 < |m|
    && Ring(links, P, N, order) && Permutes(order, last) && Inverse(m, hashMap, last)
  }

  ghost function ItemsOf(order: seq<int>, m: seq<Item>): (r: seq<Item>)
    requires forall i :: 0 <= i < |order| ==> 0 < order[i] <= |m|
    ensures |r| == |order| && forall i :: 0 <= i < |r| ==> r[i] == m[order[i] - 1]
  {
    seq(|order|, i requires 0 <= i < |order| => m[order[i] - 1])
  }

  lemma DistinctItems(m: seq<Item>, hashMap: map<string, int>, last: nat, order: seq<int>)
    requires Inverse(m, hashMap, last) && Permutes(order, last) && Slots(order, |m| + 1)
    ensures DistinctKeys(ItemsOf(order, m))
  {
  }

  /** A key's slot stands in the list where the key stands among the items. */
  lemma Position(links: Links, m: seq<Item>, hashMap: map<string, int>, last: nat, order: seq<int>, key: string)
    requires Shape(links, m, hashMap, last, order)
    ensures var i := Find(ItemsOf(order, m), key);
            if key in hashMap then i < |order| && order[i] == hashMap[key] else i == |order|
  {
    var items := ItemsOf(order, m);
    DistinctItems(m, hashMap, last, order);
    if key in hashMap {
      assert hashMap[key] in order;
      var i :| 0 <= i < |order| && order[i] == hashMap[key];
      FindAt(items, i);
    }
  }

  /** Moving slot i to either end and rewriting it does the same to the items. */
  lemma ItemsMoved(order: seq<int>, m: seq<Item>, i: nat, it: Item)
    requires i < |order| && Slots(order, |m| + 1)
    ensures ItemsOf(Front(order, i, order[i]), m[order[i] - 1 := it]) == Front(ItemsOf(order, m), i, it)
    ensures ItemsOf(Back(order, i, order[i]), m[order[i] - 1 := it]) == Back(ItemsOf(order, m), i, it)
  {
    var rest, m1 := Remove(order, i), m[order[i] - 1 := it];
    RemoveSlots(order, i, |m| + 1);
    ItemsRest(order, m, i, it);
    hide Remove, Slots;
    assert ItemsOf([order[i]] + rest, m1) == [it] + ItemsOf(rest, m1);
    assert ItemsOf(rest + [order[i]], m1) == ItemsOf(rest, m1) + [it];
  }

  lemma ItemsRest(order: seq<int>, m: seq<Item>, i: nat, it: Item)
    requires i < |order| && Slots(order, |m| + 1)
    ensures Slots(Remove(order, i), |m| + 1)
    ensures ItemsOf(Remove(order, i), m[order[i] - 1 := it]) == Remove(ItemsOf(order, m), i)
  {
    RemoveSlots(order, i, |m| + 1);
    var rest, m1 := Remove(order, i), m[order[i] - 1 := it];
    forall k | 0 <= k < |rest| ensures ItemsOf(rest, m1)[k] == Remove(ItemsOf(order, m), i)[k] {
      assert rest[k] == order[if k < i then k else k + 1] && rest[k] != order[i];
    }
  }

  lemma ItemsAdded(order: seq<int>, m: seq<Item>, idx: nat, it: Item)
    requires 0 < idx <= |m| && Slots(order, |m| + 1) && idx !in order
    ensures ItemsOf([idx] + order, m[idx - 1 := it]) == [it] + ItemsOf(order, m)
  {
  }

  lemma PermutesMoved(order: seq<int>, last: nat, i: nat)
    requires Permutes(order, last) && i < |order| && Slots(order, last + 1)
    ensures Permutes(Front(order, i, order[i]), last) && Permutes(Back(order, i, order[i]), last)
  {
    var rest := Remove(order, i);
    forall s | 0 < s <= last ensures s == order[i] || s in rest {
      assert s in order;
      var k :| 0 <= k < |order| && order[k] == s;
      if k != i { assert rest[if k < i then k else k - 1] == s; }
    }
  }

  lemma ReverseBack(order: seq<int>, i: nat)
    requires i < |order|
    ensures Reverse(Front(Reverse(order), |order| - 1 - i, order[i])) == Back(order, i, order[i])
  {
  }

  /** The length of the link array, computed in 16 bits. */
  function LinkCount(capacity: nat): nat { (capacity + 1) % 0x1_0000 }

  predicate HasLink(slot: nat, capacity: nat) { slot < LinkCount(capacity) }

  /** Exactly the largest 16-bit capacity leaves slots without links, and then even the anchor has none. */
  lemma LinksIffNotLargest(capacity: nat)
    requires 0 < capacity <= 0xffff
    ensures (forall slot: nat :: slot <= capacity ==> HasLink(slot, capacity)) <==> capacity != 0xffff
    ensures !HasLink(0, capacity) <==> capacity == 0xffff
  {
    if capacity == 0xffff { assert !HasLink(0, capacity); }
  }

  class Cache {
    const doubleLink: array<seq<int>>
    const m: array<Item>
    var hashMap: map<string, int>
    var bytes: int
    var nevict: nat
    var last: nat
    ghost var order: seq<int>

    ghost function Repr(): set<object> { {this, doubleLink, m} }

    ghost predicate Valid() reads this, doubleLink, m {
      Shape(doubleLink[..], m[..], hashMap, last, order)
    }

    ghost function State(): Level reads this, doubleLink, m
      requires Valid()
    {
      Level(ItemsOf(order, m[..]), m.Length, bytes, nevict)
    }

    /** Slots are numbered in 16 bits, and slot 0 is the anchor: with the largest capacity the list has no links. */
    constructor (capacity: nat)
      requires 0 < capacity <= 0xffff
      ensures fresh(Repr()) && doubleLink.Length == LinkCount(capacity)
      ensures Valid() <==> capacity != 0xffff
      ensures Valid() ==> State() == Level([], capacity, 0, 0)
    {
      doubleLink := new seq<int>[LinkCount(capacity)](i => [0, 0]);
      m := new Item[capacity](i => Item("", Nil, 0));
      hashMap, bytes, nevict, last, order := map[], 0, 0, 0, [];
    }

    /** Moves a slot to the front of the list as direction t runs through it. */
    method Adjust(idx: int, f: int, t: int, ghost ord: seq<int>, ghost j: nat)
      requires Ring(doubleLink[..], f, t, ord) && j < |ord| && ord[j] == idx
      modifies doubleLink
      ensures Ring(doubleLink[..], f, t, Front(ord, j, idx))
    {
      assert doubleLink[..][Pos(ord, j)][f] == Pos(ord, j - 1);
      if doubleLink[idx][f] != 0 {
        RemoveSlots(ord, j, doubleLink.Length);
        Detach(idx, f, t, ord, j);
        Attach(idx, f, t, Remove(ord, j));
      } else {
        assert j == 0;
        assert Front(ord, 0, idx) == ord;
      }
    }

    /** Takes a slot out of the list. */
    method Detach(idx: int, f: int, t: int, ghost ord: seq<int>, ghost j: nat)
      requires Ring(doubleLink[..], f, t, ord) && j < |ord| && ord[j] == idx
      modifies doubleLink
      ensures Ring(doubleLink[..], f, t, Remove(ord, j))
    {
      ghost var links := doubleLink[..];
      assert links[Pos(ord, j)][f] == Pos(ord, j - 1) && links[Pos(ord, j)][t] == Pos(ord, j + 1);
      UnlinkedRing(links, f, t, ord, j);
      ghost var a, b := Pos(ord, j - 1), Pos(ord, j + 1);
      assert a != idx && b != idx;
      assert Pairs(links);
      hide Ring, Pos;
      Set(doubleLink[idx][t], f, doubleLink[idx][f]);
      Set(doubleLink[idx][f], t, doubleLink[idx][t]);
    }

    /** Puts a slot that is not in the list in front of it. */
    method Attach(idx: int, f: int, t: int, ghost rest: seq<int>)
      requires Ring(doubleLink[..], f, t, rest) && 0 < idx < doubleLink.Length && idx !in rest
      modifies doubleLink
      ensures Ring(doubleLink[..], f, t, [idx] + rest)
    {
      ghost var links := doubleLink[..];
      FrontRing(links, f, t, rest, idx);
      ghost var head := Pos(rest, 0);
      assert head != idx && Pairs(links);
      assert (f == P && t == N) || (f == N && t == P);
      hide Ring, Pos;
      assert links[idx][f := 0][t := head] == if t == N then [0, head] else [head, 0];
      Set(idx, f, 0);
      Set(idx, t, doubleLink[0][t]);
      assert doubleLink[..] == links[idx := if t == N then [0, head] else [head, 0]];
      Set(doubleLink[0][t], f, idx);
      Set(0, t, idx);
    }

    method Set(i: int, d: int, x: int)
      requires 0 <= i < doubleLink.Length && |doubleLink[i]| == 2 && 0 <= d < 2
      modifies doubleLink
      ensures doubleLink[..] == Upd(old(doubleLink[..]), i, d, x)
    {
      doubleLink[i] := doubleLink[i][d := x];
    }

    /** Makes a slot the most recent one. */
    method ToFront(idx: int, ghost j: nat)
      requires Ring(doubleLink[..], P, N, order) && j < |order| && order[j] == idx
      modifies this`order, doubleLink
      ensures Ring(doubleLink[..], P, N, order) && order == Front(old(order), j, idx)
    {
      Adjust(idx, P, N, order, j);
      order := Front(order, j, idx);
    }

    /** Makes a slot the next to be reused. */
    method ToBack(idx: int, ghost j: nat)
      requires Ring(doubleLink[..], P, N, order) && j < |order| && order[j] == idx
      modifies this`order, doubleLink
      ensures Ring(doubleLink[..], P, N, order) && order == Back(old(order), j, idx)
    {
      Mirror(doubleLink[..], P, N, order);
      Adjust(idx, N, P, Reverse(order), |order| - 1 - j);
      ReverseBack(order, j);
      Mirror(doubleLink[..], N, P, Front(Reverse(order), |order| - 1 - j, idx));
      order := Back(order, j, idx);
    }

    /** Stores a key and makes it the most recent one. */
    method Put(key: string, value: Value, expireAt: int)
      requires Valid()
      modifies this, doubleLink, m
      ensures Valid() && State() == LruSpec.Put(old(State()), key, value, expireAt)
    {
      hide Ring, Permutes, Inverse, Slots;
      Position(doubleLink[..], m[..], hashMap, last, order, key);
      AllShape(doubleLink[..], m[..], hashMap, last, order);
      if key in hashMap {
        Overwrite(hashMap[key], Find(State().items, key), value, expireAt);
      } else if last == m.Length {
        ReuseLast(key, value, expireAt);
      } else {
        UseNew(key, value, expireAt);
      }
    }

    /** The key has a slot: it gets the value there. */
    method Overwrite(idx: int, ghost i: nat, value: Value, expireAt: int)
      requires Valid() && i < |order| && order[i] == idx
      modifies this, doubleLink, m
      ensures Valid()
      ensures var c := old(State()); var it := Item(c.items[i].key, value, expireAt);
              State() == c.(items := Front(c.items, i, it), bytes := c.bytes + EntryBytes(it.key, value) - Charge(c.items[i]))
    {
      hide Ring, Permutes, Inverse, Front;
      ShapeAt(doubleLink[..], m[..], hashMap, last, order, i);
      var nd := m[idx - 1];
      var it := Item(nd.key, value, expireAt);
      InverseKept(m[..], hashMap, last, idx, it);
      bytes := bytes + EntryBytes(nd.key, value) - (if nd.expireAt > 0 then EntryBytes(nd.key, nd.value) else 0);
      Rewrite(idx, i, it, hashMap);
    }

    /** Fills a slot of the list and makes it the most recent one. */
    method Rewrite(idx: int, ghost i: nat, it: Item, keys: map<string, int>)
      requires Valid() && i < |order| && order[i] == idx && Inverse(m[..][idx - 1 := it], keys, last)
      modifies this`hashMap, this`order, doubleLink, m
      ensures Valid() && ItemsOf(order, m[..]) == Front(old(ItemsOf(order, m[..])), i, it)
    {
      hide Ring, Permutes, Inverse, Front, Slots;
      ghost var ms, ord := m[..], order;
      ShapeAt(doubleLink[..], ms, hashMap, last, ord, i);
      ItemsMoved(ord, ms, i, it);
      PermutesMoved(ord, last, i);
      hashMap := keys;
      m[idx - 1] := it;
      assert m[..] == ms[idx - 1 := it];
      ToFront(idx, i);
    }

    /** All slots are used: the last one is taken over, whatever is in it. */
    method ReuseLast(key: string, value: Value, expireAt: int)
      requires Valid() && key !in hashMap && last == m.Length
      modifies this, doubleLink, m
      ensures Valid()
      ensures var c := old(State()); var n := |c.items| - 1;
              && c.capacity == n + 1
              && State() == c.(items := Front(c.items, n, Item(key, value, expireAt)),
                               bytes := c.bytes + EntryBytes(key, value) - Charge(c.items[n]),
                               evictions := c.evictions + if Live(c.items[n]) then 1 else 0)
    {
      hide Ring, Permutes, Inverse, Front;
      ghost var n := |order| - 1;
      ShapeTail(doubleLink[..], m[..], hashMap, last, order);
      ShapeAt(doubleLink[..], m[..], hashMap, last, order, n);
      var idx, it := doubleLink[0][P], Item(key, value, expireAt);
      var tail := m[idx - 1];
      InverseMoved(m[..], hashMap, last, idx, it);
      var live := tail.expireAt > 0;
      bytes := bytes - (if live then EntryBytes(tail.key, tail.value) else 0) + EntryBytes(key, value);
      nevict := nevict + if live then 1 else 0;
      Rewrite(idx, n, it, (hashMap - {tail.key})[key := idx]);
    }

    /** A slot is left: it is linked in at the front. */
    method UseNew(key: string, value: Value, expireAt: int)
      requires Valid() && key !in hashMap && last < m.Length
      modifies this, doubleLink, m
      ensures Valid()
      ensures var c := old(State());
              State() == c.(items := [Item(key, value, expireAt)] + c.items, bytes := c.bytes + EntryBytes(key, value))
    {
      hide Shape, ItemsOf;
      bytes := bytes + EntryBytes(key, value);
      Fill(Item(key, value, expireAt));
    }

    /** Gives the next free slot to a new key. */
    method Fill(it: Item)
      requires Valid() && it.key !in hashMap && last < m.Length
      modifies this`hashMap, this`last, this`order, doubleLink, m
      ensures Valid() && ItemsOf(order, m[..]) == [it] + old(ItemsOf(order, m[..]))
    {
      hide Ring, Permutes, Inverse, Slots;
      ghost var ms, ord := m[..], order;
      Extended(doubleLink[..], ms, hashMap, last, ord, it);
      last := last + 1;
      LinkNew();
      m[last - 1] := it;
      assert m[..] == ms[last - 1 := it];
      hashMap := hashMap[it.key := last];
    }

    /** Marks a slot deleted, lets go of its value and makes it the next to be reused. */
    method Kill(idx: int, ghost i: nat)
      requires Valid() && i < |order| && order[i] == idx && m[idx - 1].expireAt > 0
      modifies this`bytes, this`order, doubleLink, m
      ensures Valid() && State() == LruSpec.Kill(old(State()), i)
    {
      hide Ring, Permutes, Inverse, Back, Slots;
      ghost var ms, ord := m[..], order;
      ShapeAt(doubleLink[..], ms, hashMap, last, ord, i);
      var nd := m[idx - 1];
      var dead := Item(nd.key, Nil, 0);
      InverseKept(ms, hashMap, last, idx, dead);
      ItemsMoved(ord, ms, i, dead);
      PermutesMoved(ord, last, i);
      bytes := bytes - EntryBytes(nd.key, nd.value);
      m[idx - 1] := dead;
      assert m[..] == ms[idx - 1 := dead];
      ToBack(idx, i);
    }

    /** Deletes a key if it is live, and hands out what it held. */
    method Del(key: string) returns (found: bool, value: Value, expireAt: int)
      requires Valid()
      modifies this`bytes, this`order, doubleLink, m
      ensures Valid() && found == Has(old(State()), key) && State() == Drop(old(State()), key)
      ensures found ==> Item(key, value, expireAt) == Lookup(old(State()), key)
    {
      hide Ring, Permutes, Inverse, Slots, LruSpec.Kill;
      ghost var i := Find(State().items, key);
      Position(doubleLink[..], m[..], hashMap, last, order, key);
      if key in hashMap { ShapeAt(doubleLink[..], m[..], hashMap, last, order, i); }
      if key in hashMap && m[hashMap[key] - 1].expireAt > 0 {
        var nd := m[hashMap[key] - 1];
        Kill(hashMap[key], i);
        return true, nd.value, nd.expireAt;
      }
      return false, Nil, 0;
    }

    /** What a key's slot holds, live or deleted. */
    method Peek(key: string) returns (found: bool, it: Item)
      requires Valid()
      ensures found <==> Find(State().items, key) < |State().items|
      ensures found ==> it == State().items[Find(State().items, key)]
    {
      hide Ring, Permutes, Inverse, Slots;
      Position(doubleLink[..], m[..], hashMap, last, order, key);
      if key in hashMap { ShapeAt(doubleLink[..], m[..], hashMap, last, order, Find(State().items, key)); }
      found, it := false, Item("", Nil, 0);
      if key in hashMap { return true, m[hashMap[key] - 1]; }
    }

    /** Makes a key that is there the most recent one. */
    method Promote(key: string)
      requires Valid() && Has(State(), key)
      modifies this`order, doubleLink
      ensures Valid() && State() == Touch(old(State()), key)
    {
      hide Ring, Permutes, Inverse, Front, Slots;
      ghost var i, ms, ord := Find(State().items, key), m[..], order;
      Position(doubleLink[..], ms, hashMap, last, ord, key);
      ShapeAt(doubleLink[..], ms, hashMap, last, ord, i);
      ItemsMoved(ord, ms, i, ms[ord[i] - 1]);
      PermutesMoved(ord, last, i);
      assert ms[ord[i] - 1 := ms[ord[i] - 1]] == ms;
      ToFront(hashMap[key], i);
    }

    /** Deletes the live key used least recently, looking for it from the back of the list. */
    method EvictOldest() returns (found: bool)
      requires Valid()
      modifies this`bytes, this`nevict, this`order, doubleLink, m
      ensures Valid() && found == AnyLive(old(State()))
      ensures State() == if found then LruSpec.EvictOldest(old(State())) else old(State())
    {
      hide Ring, Permutes, Inverse, Slots, LruSpec.Kill;
      ghost var items := State().items;
      ShapeTail(doubleLink[..], m[..], hashMap, last, order);
      var idx := doubleLink[0][P];
      ghost var i := last - 1;
      while idx != 0
        invariant Valid() && -1 <= i < last == |order| == |items| && idx == Pos(order, i) && (i == -1 ==> idx == 0)
        invariant forall j :: i < j < |items| ==> !Live(items[j])
        invariant State() == old(State()) && items == State().items
        decreases i
      {
        ShapeStep(doubleLink[..], m[..], hashMap, last, order, i);
        if m[idx - 1].expireAt > 0 {
          OldestIs(items, i);
          Kill(idx, i);
          nevict := nevict + 1;
          return true;
        }
        idx := doubleLink[idx][P];
        i := i - 1;
      }
      AllShape(doubleLink[..], m[..], hashMap, last, order);
      return false;
    }

    /** Visits the live entries, most recent first, up to the first that the walker refuses. */
    method Walk(walker: Item -> bool) returns (visited: seq<Item>)
      requires Valid()
      ensures visited <= LiveItems(State().items)
      ensures forall i :: 0 <= i < |visited| - 1 ==> walker(visited[i])
      ensures visited == LiveItems(State().items) || (visited != [] && !walker(visited[|visited| - 1]))
    {
      hide Ring, Permutes, Inverse, Slots, LiveItems;
      ghost var items := State().items;
      visited := [];
      ShapeTail(doubleLink[..], m[..], hashMap, last, order);
      AllShape(doubleLink[..], m[..], hashMap, last, order);
      LiveNone(items);
      var idx := doubleLink[0][N];
      ghost var i := 0;
      while idx != 0
        invariant 0 <= i <= |order| == |items| && idx == Pos(order, i) && visited == LiveItems(items[..i])
        invariant forall j :: 0 <= j < |visited| ==> walker(visited[j])
        decreases |order| - i
      {
        ShapeStep(doubleLink[..], m[..], hashMap, last, order, i);
        LiveNext(items, i);
        if m[idx - 1].expireAt > 0 {
          visited := visited + [m[idx - 1]];
          if !walker(m[idx - 1]) { return; }
        }
        idx := doubleLink[idx][N];
        i := i + 1;
      }
      assert i == |order|;
      assert items[..i] == items;
    }

    /** Links the slot `last`, not yet in the list, in at its front. */
    method LinkNew()
      requires Ring(doubleLink[..], P, N, order) && 0 < last < doubleLink.Length && last !in order && (|hashMap| == 0 ==> order == [])
      modifies doubleLink, this`order
      ensures Ring(doubleLink[..], P, N, order) && order == [last] + old(order)
    {
      ghost var links, head := doubleLink[..], Pos(order, 0);
      FrontRing(links, P, N, order, last);
      assert head != last && Pairs(links) && (|hashMap| == 0 ==> head == 0);
      hide Ring, Pos;
      if |hashMap| <= 0 {
        Set(0, P, last);
      } else {
        Set(doubleLink[0][N], P, last);
      }
      doubleLink[last] := [0, doubleLink[0][N]];
      Set(0, N, last);
      assert doubleLink[..] == Upd(Upd(links[last := [0, head]], head, P, last), 0, N, last);
      order := [last] + order;
    }
  }

  /** The live items in recency order. */
  function LiveItems(items: seq<Item>): seq<Item> {
    if items == [] then [] else LiveItems(items[..|items| - 1]) + if Live(items[|items| - 1]) then [items[|items| - 1]] else []
  }

  lemma LiveNone(items: seq<Item>)
    ensures LiveItems(items[..0]) == []
  {
  }

  lemma LiveNext(items: seq<Item>, i: nat)
    requires i < |items|
    ensures LiveItems(items[..i + 1]) == LiveItems(items[..i]) + (if Live(items[i]) then [items[i]] else []) <= LiveItems(items)
  {
    assert items[..i + 1][..i] == items[..i];
    LivePrefix(items, i + 1);
  }

  lemma {:induction false} LivePrefix(items: seq<Item>, i: nat)
    requires i <= |items|
    ensures LiveItems(items[..i]) <= LiveItems(items)
  {
    if i < |items| {
      LivePrefix(items[..|items| - 1], i);
      assert items[..|items| - 1][..i] == items[..i];
    } else {
      assert items[..i] == items;
    }
  }

  lemma ShapeStep(links: Links, m: seq<Item>, hashMap: map<string, int>, last: nat, order: seq<int>, i: nat)
    requires Shape(links, m, hashMap, last, order) && i < |order|
    ensures 0 < order[i] <= |m| && |links[order[i]]| == 2
    ensures links[order[i]][N] == Pos(order, i + 1) && links[order[i]][P] == Pos(order, i - 1)
  {
    assert links[Pos(order, i)][N] == Pos(order, i + 1) && links[Pos(order, i)][P] == Pos(order, i - 1);
  }

  lemma {:induction false} OldestIs(items: seq<Item>, i: nat)
    requires i < |items| && Live(items[i]) && forall j :: i < j < |items| ==> !Live(items[j])
    ensures Oldest(items) == i
  {
  }

  lemma AllShape(links: Links, m: seq<Item>, hashMap: map<string, int>, last: nat, order: seq<int>)
    requires Shape(links, m, hashMap, last, order)
    ensures |order| == last <= |m| && forall i :: 0 <= i < |order| ==> Pos(order, i) != 0
  {
  }

  lemma ShapeAt(links: Links, m: seq<Item>, hashMap: map<string, int>, last: nat, order: seq<int>, i: nat)
    requires Shape(links, m, hashMap, last, order) && i < |order|
    ensures 0 < order[i] <= last <= |m| && Slots(order, |m| + 1) && Slots(order, last + 1) && |order| == last
    ensures |links[order[i]]| == 2
  {
  }

  lemma ShapeTail(links: Links, m: seq<Item>, hashMap: map<string, int>, last: nat, order: seq<int>)
    requires Shape(links, m, hashMap, last, order)
    ensures |order| == last && |links[0]| == 2 && links[0][P] == Pos(order, last - 1) && links[0][N] == Pos(order, 0)
  {
    assert links[Pos(order, last)][P] == Pos(order, last - 1);
    assert links[Pos(order, -1)][N] == Pos(order, 0);
  }

  lemma InverseKept(m: seq<Item>, hashMap: map<string, int>, last: nat, idx: int, it: Item)
    requires Inverse(m, hashMap, last) && 0 < idx <= last && it.key == m[idx - 1].key
    ensures Inverse(m[idx - 1 := it], hashMap, last)
  {
  }

  /** Using the next slot for a new key. */
  lemma Extended(links: Links, m: seq<Item>, hashMap: map<string, int>, last: nat, order: seq<int>, it: Item)
    requires Shape(links, m, hashMap, last, order) && last < |m| && it.key !in hashMap
    ensures var m1 := m[last := it];
            Permutes([last + 1] + order, last + 1) && Inverse(m1, hashMap[it.key := last + 1], last + 1)
            && ItemsOf([last + 1] + order, m1) == [it] + ItemsOf(order, m)
    ensures last + 1 !in order && (|hashMap| == 0 ==> order == [])
  {
    ItemsAdded(order, m, last + 1, it);
    PermutesMore(order, last);
    InverseMore(m, hashMap, last, it);
  }

  lemma PermutesMore(order: seq<int>, last: nat)
    requires Permutes(order, last)
    ensures Permutes([last + 1] + order, last + 1)
  {
    var more := [last + 1] + order;
    forall s: int | 0 < s <= last + 1 ensures s in more {
      if s <= last { assert s in order; }
    }
  }

  lemma InverseMore(m: seq<Item>, hashMap: map<string, int>, last: nat, it: Item)
    requires Inverse(m, hashMap, last) && last < |m| && it.key !in hashMap
    ensures Inverse(m[last := it], hashMap[it.key := last + 1], last + 1)
    ensures |hashMap| == 0 ==> last == 0
  {
    assert last > 0 ==> m[0].key in hashMap;
  }

  lemma InverseMoved(m: seq<Item>, hashMap: map<string, int>, last: nat, idx: int, it: Item)
    requires Inverse(m, hashMap, last) && 0 < idx <= last && it.key !in hashMap
    ensures Inverse(m[idx - 1 := it], (hashMap - {m[idx - 1].key})[it.key := idx], last)
  {
  }
}
