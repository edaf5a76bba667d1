/**
 * Over every run of successful calls each tracked data key is recorded at exactly one node,
 * the one the ring lookup gives.
 */
module RingOwnership {
  import opened RingSpec

  // ------------------------------------------------------------ raw keys

  lemma {:induction false} DecimalDigits(i: nat, j: nat)
    requires j < |Decimal(i)|
    ensures Decimal(i)[j] != '_'
  {
    if 10 <= i && j < |Decimal(i / 10)| { DecimalDigits(i / 10, j); }
  }

  lemma {:induction false} DecimalInjective(i: nat, j: nat)
    requires Decimal(i) == Decimal(j)
    ensures i == j
  {
    var s, t := Decimal(i), Decimal(j);
    assert s[|s| - 1] == Digit(i % 10) && t[|t| - 1] == Digit(j % 10);
    assert s[..|s| - 1] == (if i < 10 then [] else Decimal(i / 10));
    assert t[..|t| - 1] == (if j < 10 then [] else Decimal(j / 10));
    assert forall k: nat :: |Decimal(k)| > 0;
    if 10 <= i && 10 <= j { DecimalInjective(i / 10, j / 10); }
  }

  /** Stripping the suffix of a raw key gives the physical node back, underscores in its name or not. */
  lemma NodeOfRawKey(node: string, i: nat)
    ensures NodeOf(RawKey(node, i)) == node
  {
    var key := RawKey(node, i);
    assert key[|node|] == '_';
    forall j | |node| < j < |key| ensures key[j] != '_' {
      DecimalDigits(i, j - |node| - 1);
    }
    assert LastUnderscore(key) == |node|;
  }

  /** The number that a string of decimal digits stands for. */
  function NumberOf(s: string): int {
    if s == "" then 0 else 10 * NumberOf(s[..|s| - 1]) + (s[|s| - 1] as int - '0' as int)
  }

  /** A raw key is the node, an underscore and the index in decimal, without leading zeros. */
  lemma {:induction false} RawKeyText(node: string, i: nat)
    ensures |node| < |RawKey(node, i)| && RawKey(node, i)[..|node| + 1] == node + "_"
    ensures var s := RawKey(node, i)[|node| + 1..]; s != "" && NumberOf(s) == i && (s[0] == '0' ==> s == "0")
  {
    assert RawKey(node, i)[|node| + 1..] == Decimal(i);
    DecimalIs(i);
  }

  lemma {:induction false} DecimalIs(i: nat)
    ensures Decimal(i) != "" && NumberOf(Decimal(i)) == i && (Decimal(i)[0] == '0' ==> Decimal(i) == "0")
  {
    var s := Decimal(i);
    if i < 10 {
      assert s == [Digit(i)] && s[..0] == "";
    } else {
      DecimalIs(i / 10);
      assert s[..|s| - 1] == Decimal(i / 10);
      assert NumberOf(Decimal(i / 10)) == i / 10 && i / 10 != 0;
    }
  }

  /** Two virtual nodes never share a raw key. */
  lemma RawKeyInjective(n: string, i: nat, m: string, j: nat)
    requires RawKey(n, i) == RawKey(m, j)
    ensures n == m && i == j
  {
    NodeOfRawKey(n, i);
    NodeOfRawKey(m, j);
    assert RawKey(n, i)[|n| + 1..] == Decimal(i);
    assert RawKey(m, j)[|m| + 1..] == Decimal(j);
    DecimalInjective(i, j);
  }

  // ------------------------------------------------------------ the circle

  lemma CeilingIs(T: set<Score>, x: Score, c: Score)
    requires Nearest(T, x, c)
    ensures Ceiling(T, x) == c
  {
    assert Nearest(T, x, Ceiling(T, x));
  }

  lemma FloorIs(T: set<Score>, x: Score, c: Score)
    requires NearestBehind(T, x, c)
    ensures Floor(T, x) == c
  {
    assert NearestBehind(T, x, Floor(T, x));
  }

  /** In numbers: the first score clockwise is the least one not below, or the least of all. */
  lemma CeilingByOrder(T: set<Score>, x: Score)
    requires T != {}
    ensures Ceiling(T, x) in T
    ensures (exists t :: t in T && x <= t) ==> x <= Ceiling(T, x) && forall t :: t in T && x <= t ==> Ceiling(T, x) <= t
    ensures (forall t :: t in T ==> t < x) ==> forall t :: t in T ==> Ceiling(T, x) <= t
  {
    var c := Ceiling(T, x);
    forall t | t in T ensures Dist(x, c) <= Dist(x, t) {}
  }

  lemma Neighbours(T: set<Score>, s: Score)
    requires s in T && T != {s}
    ensures Floor(T, Pred(s)) != s && Ceiling(T, Succ(s)) != s
  {
    var t :| t in T && t != s;
    assert Dist(t, Pred(s)) < Dist(s, Pred(s));
    assert Dist(Succ(s), t) < Dist(Succ(s), s);
  }

  lemma OnlyScore(T: set<Score>, s: Score)
    requires s in T
    ensures Floor(T, Pred(s)) == s <==> T == {s}
    ensures Ceiling(T, Succ(s)) == s <==> T == {s}
  {
    if T != {s} { Neighbours(T, s); }
  }

  /** The arc that ends in s is exactly the part of the circle whose first score is s. */
  lemma ArcIsCeiling(T: set<Score>, s: Score, x: Score)
    requires s in T && T != {s}
    ensures InArc(Floor(T, Pred(s)), x, s) <==> Ceiling(T, x) == s
  {
    Neighbours(T, s);
    var last := Floor(T, Pred(s));
    assert Dist(x, Ceiling(T, x)) <= Dist(x, last);
    if InArc(last, x, s) {
      forall t | t in T ensures Dist(x, s) <= Dist(x, t) {
        assert Dist(last, Pred(s)) <= Dist(t, Pred(s));
      }
      CeilingIs(T, x, s);
    }
  }

  /** Taking s off the circle gives its arc to the next score and changes nothing else. */
  lemma CeilingWithout(T: set<Score>, s: Score, x: Score)
    requires s in T && T != {s}
    ensures T - {s} != {}
    ensures Ceiling(T - {s}, x) == if Ceiling(T, x) == s then Ceiling(T, Succ(s)) else Ceiling(T, x)
  {
    Neighbours(T, s);
    var c := if Ceiling(T, x) == s then Ceiling(T, Succ(s)) else Ceiling(T, x);
    assert c in T - {s};
    if Ceiling(T, x) == s {
      forall t | t in T - {s} ensures Dist(x, c) <= Dist(x, t) {
        assert Dist(Succ(s), c) <= Dist(Succ(s), t);
        assert Dist(x, s) <= Dist(x, t) && Dist(x, s) <= Dist(x, c);
      }
    }
    CeilingIs(T - {s}, x, c);
  }

  // ------------------------------------------------------------ what every state keeps

  ghost predicate SlotOk(h: Hash, slots: Slots, s: Score) {
    s in slots ==>
      && slots[s] != []
      && (forall k :: k in slots[s] ==> h(k) == s)
      && (forall i, j :: 0 <= i < j < |slots[s]| ==> slots[s][i] != slots[s][j])
  }

  /** Every score is held by somebody, and a raw key sits once, at its own hash. */
  ghost predicate SlotsOk(h: Hash, slots: Slots) {
    forall s: Score :: SlotOk(h, slots, s)
  }

  /** The raw key is on the ring. */
  predicate OnRing(h: Hash, slots: Slots, key: string) {
    h(key) in slots && key in slots[h(key)]
  }

  /** A key that is recorded anywhere is recorded at its owner. */
  ghost predicate Owned(h: Hash, st: RingState) {
    forall n, d :: Recorded(st, n, d) ==> st.slots.Keys != {} && n == Owner(h, st.slots, d)
  }

  lemma OwnerAt(h: Hash, slots: Slots, d: string)
    requires SlotsOk(h, slots) && slots.Keys != {}
    ensures var c := Ceiling(slots.Keys, h(d)); slots[c] != [] && Owner(h, slots, d) == NodeOf(slots[c][0])
  {
    assert SlotOk(h, slots, Ceiling(slots.Keys, h(d)));
  }

  lemma AddPlaces(h: Hash, st: RingState, key: string)
    requires SlotsOk(h, st.slots) && !OnRing(h, st.slots, key)
    ensures var st1 := Add(st, h(key), key);
            SlotsOk(h, st1.slots) && OnRing(h, st1.slots, key)
            && (forall k :: k != key ==> (OnRing(h, st1.slots, k) <==> OnRing(h, st.slots, k)))
  {
    var st1 := Add(st, h(key), key);
    assert SlotOk(h, st.slots, h(key));
    forall s: Score ensures SlotOk(h, st1.slots, s) {
      assert SlotOk(h, st.slots, s);
    }
  }

  /** Moving keys from one node to another touches the record of those keys at the two nodes only. */
  lemma MoveRecorded(st: RingState, from: string, to: string, keys: set<string>, n: string, d: string)
    ensures Recorded(MoveKeys(st, from, to, keys), n, d) <==>
              (n == to && d in keys) || (Recorded(st, n, d) && !(n == from && d in keys))
  {
    assert Recorded(st, from, d) && d !in keys ==> d in st.data[from] - keys;
    assert Recorded(DeleteKeys(st, from, keys), n, d) <==> Recorded(st, n, d) && !(n == from && d in keys);
  }

  lemma MoveTracked(st: RingState, from: string, to: string, keys: set<string>)
    requires keys <= DataOf(st, from)
    ensures Tracked(MoveKeys(st, from, to, keys)) == Tracked(st)
  {
    var st1 := MoveKeys(st, from, to, keys);
    forall d ensures d in Tracked(st1) <==> d in Tracked(st) {
      if n :| Recorded(st1, n, d) {
        MoveRecorded(st, from, to, keys, n, d);
        assert Recorded(st, n, d) || Recorded(st, from, d);
      }
      if n :| Recorded(st, n, d) {
        MoveRecorded(st, from, to, keys, n, d);
        MoveRecorded(st, from, to, keys, to, d);
        assert Recorded(st1, n, d) || Recorded(st1, to, d);
      }
    }
  }

  // ------------------------------------------------------------ adding one virtual node

  /** How a fresh score changes the owners: the arc before it goes from the next holder to the newcomer. */
  lemma OwnerAfterAdd(h: Hash, slots: Slots, s: Score, key: string, d: string)
    requires SlotsOk(h, slots) && slots.Keys != {} && s !in slots && h(key) == s
    ensures var slots1 := slots[s := [key]]; var T := slots1.Keys;
            && T != {s} && slots1[Ceiling(T, Succ(s))] != []
            && Owner(h, slots1, d) == (if InArc(Floor(T, Pred(s)), h(d), s) then NodeOf(key) else Owner(h, slots, d))
            && (InArc(Floor(T, Pred(s)), h(d), s) ==> Owner(h, slots, d) == NodeOf(slots1[Ceiling(T, Succ(s))][0]))
  {
    var slots1 := slots[s := [key]];
    var T := slots1.Keys;
    assert T - {s} == slots.Keys;
    assert T != {s};
    OwnerAt(h, slots, d);
    Neighbours(T, s);
    ArcIsCeiling(T, s, h(d));
    CeilingWithout(T, s, h(d));
    assert SlotOk(h, slots, Ceiling(T, Succ(s)));
  }

  lemma FreshScoreKeeps(h: Hash, st: RingState, key: string)
    requires SlotsOk(h, st.slots) && h(key) !in st.slots && Owned(h, st)
    ensures var st1 := MigrateIn(h, Add(st, h(key), key), h(key), NodeOf(key));
            Owned(h, st1) && Tracked(st1) == Tracked(st)
  {
    var s := h(key);
    var mid := Add(st, s, key);
    var T := mid.slots.Keys;
    var node := NodeOf(key);
    OnlyScore(T, s);
    if st.slots.Keys == {} {
      assert forall n, d :: !Recorded(st, n, d);
      assert MigrateIn(h, mid, s, node) == mid;
      assert forall n, d :: Recorded(mid, n, d) <==> Recorded(st, n, d);
    } else {
      OwnerAfterAdd(h, st.slots, s, key, "");
      var last, next := Floor(T, Pred(s)), Ceiling(T, Succ(s));
      Neighbours(T, s);
      var from := NodeOf(mid.slots[next][0]);
      var keys := KeysOnArc(h, mid, from, last, s);
      var st1 := MoveKeys(mid, from, node, keys);
      assert MigrateIn(h, mid, s, node) == st1;
      MoveTracked(mid, from, node, keys);
      forall n, d ensures Recorded(mid, n, d) <==> Recorded(st, n, d) {}
      forall n, d | Recorded(st1, n, d) ensures n == Owner(h, st1.slots, d) {
        MoveRecorded(mid, from, node, keys, n, d);
        OwnerAfterAdd(h, st.slots, s, key, d);
      }
    }
  }

  /** One virtual node more: the records follow the owners, and no key is lost. */
  lemma AddVirtualKeeps(c: Config, st: RingState, node: string, i: nat)
    requires c.migrating && SlotsOk(c.hash, st.slots) && Owned(c.hash, st)
    requires !OnRing(c.hash, st.slots, RawKey(node, i))
    ensures var st1 := AddVirtual(c, st, node, i);
            && SlotsOk(c.hash, st1.slots) && Owned(c.hash, st1) && Tracked(st1) == Tracked(st)
            && st1.replicas == st.replicas && OnRing(c.hash, st1.slots, RawKey(node, i))
            && (forall k :: k != RawKey(node, i) ==> (OnRing(c.hash, st1.slots, k) <==> OnRing(c.hash, st.slots, k)))
  {
    var key := RawKey(node, i);
    NodeOfRawKey(node, i);
    AddPlaces(c.hash, st, key);
    if c.hash(key) !in st.slots {
      FreshScoreKeeps(c.hash, st, key);
    } else {
      var mid := Add(st, c.hash(key), key);
      assert SlotOk(c.hash, st.slots, c.hash(key));
      assert mid.slots.Keys == st.slots.Keys;
      forall n, d | Recorded(mid, n, d) ensures n == Owner(c.hash, mid.slots, d) {
        assert Recorded(st, n, d);
        OwnerAt(c.hash, st.slots, d);
      }
      assert forall n, d :: Recorded(mid, n, d) <==> Recorded(st, n, d);
    }
  }
}
