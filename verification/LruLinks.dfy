/** The doubly linked list that the cache keeps in an array of pairs, with slot 0 as its anchor. */
module LruLinks {
  import opened LruSpec

  /** Directions: towards more recent slots, towards less recent ones. */
  const P: int := 0
  const N: int := 1

  type Links = seq<seq<int>>

  function Pos(order: seq<int>, i: int): int {
    if 0 <= i < |order| then order[i] else 0
  }

  ghost predicate Slots(order: seq<int>, bound: nat) {
    && (forall i :: 0 <= i < |order| ==> 0 < order[i] < bound)
    && (forall i, j :: 0 <= i < j < |order| ==> order[i] != order[j])
  }

  ghost predicate Pairs(links: Links) {
    0 < |links| && forall i :: 0 <= i < |links| ==> |links[i]| == 2
  }

  /** From the anchor, direction t runs through the slots in order and back to the anchor, and
      direction f is its inverse. */
  ghost predicate Ring(links: Links, f: int, t: int, order: seq<int>) {
    && Pairs(links) && Slots(order, |links|) && ((f == P && t == N) || (f == N && t == P))
    && Onward(links, t, order) && Backward(links, f, order)
  }

  ghost predicate Onward(links: Links, t: int, order: seq<int>)
    requires Pairs(links) && Slots(order, |links|) && 0 <= t < 2
  {
    forall i :: -1 <= i < |order| ==> links[Pos(order, i)][t] == Pos(order, i + 1)
  }

  ghost predicate Backward(links: Links, f: int, order: seq<int>)
    requires Pairs(links) && Slots(order, |links|) && 0 <= f < 2
  {
    forall i :: 0 <= i <= |order| ==> links[Pos(order, i)][f] == Pos(order, i - 1)
  }

  function Upd(links: Links, i: int, d: int, x: int): (r: Links)
    requires 0 <= i < |links| && 0 <= d < |links[i]|
    ensures |r| == |links| && |r[i]| == |links[i]|
  {
    links[i := links[i][d := x]]
  }

  lemma RemoveSlots(order: seq<int>, j: nat, bound: nat)
    requires Slots(order, bound) && j < |order|
    ensures Slots(Remove(order, j), bound) && order[j] !in Remove(order, j)
    ensures forall i :: -1 <= i <= |order| - 1 ==> Pos(Remove(order, j), i) == Pos(order, if i < j then i else i + 1)
  {
    assert forall i :: 0 <= i < |order| - 1 ==> Remove(order, j)[i] == order[if i < j then i else i + 1];
  }

  lemma PosIn(order: seq<int>, i: int, bound: nat)
    requires Slots(order, bound) && 0 < bound
    ensures 0 <= Pos(order, i) < bound
  {
  }

  lemma PosDistinct(order: seq<int>, i: int, k: int, bound: nat)
    requires Slots(order, bound) && -1 <= i <= |order| && -1 <= k <= |order| && Pos(order, i) == Pos(order, k)
    ensures i == k || (i == -1 && k == |order|) || (i == |order| && k == -1)
  {
  }

  /** The list without its j-th slot. */
  lemma UnlinkedRing(links: Links, f: int, t: int, order: seq<int>, j: nat)
    requires Ring(links, f, t, order) && j < |order|
    ensures 0 <= Pos(order, j - 1) < |links| && 0 <= Pos(order, j + 1) < |links|
    ensures var l1 := Upd(links, Pos(order, j + 1), f, Pos(order, j - 1));
            Ring(Upd(l1, Pos(order, j - 1), t, Pos(order, j + 1)), f, t, Remove(order, j))
  {
    PosIn(order, j - 1, |links|);
    PosIn(order, j + 1, |links|);
    RemoveSlots(order, j, |links|);
    var a, b := Pos(order, j - 1), Pos(order, j + 1);
    var l2 := Upd(Upd(links, b, f, a), a, t, b);
    UnlinkOnward(links, l2, t, order, j);
    UnlinkBackward(links, l2, f, order, j);
  }

  lemma UnlinkOnward(links: Links, l2: Links, t: int, order: seq<int>, j: nat)
    requires Pairs(links) && Slots(order, |links|) && 0 <= t < 2 && Onward(links, t, order) && j < |order|
    requires Pairs(l2) && |l2| == |links|
    requires forall x :: 0 <= x < |links| ==> l2[x][t] == if x == Pos(order, j - 1) then Pos(order, j + 1) else links[x][t]
    ensures Slots(Remove(order, j), |l2|) && Onward(l2, t, Remove(order, j))
  {
    RemoveSlots(order, j, |links|);
    var rest := Remove(order, j);
    forall i | -1 <= i < |rest| ensures l2[Pos(rest, i)][t] == Pos(rest, i + 1) {
      var k := if i < j then i else i + 1;
      PosIn(order, k, |links|);
      assert links[Pos(order, k)][t] == Pos(order, k + 1);
      if Pos(order, k) == Pos(order, j - 1) { PosDistinct(order, k, j - 1, |links|); }
    }
  }

  lemma UnlinkBackward(links: Links, l2: Links, f: int, order: seq<int>, j: nat)
    requires Pairs(links) && Slots(order, |links|) && 0 <= f < 2 && Backward(links, f, order) && j < |order|
    requires Pairs(l2) && |l2| == |links|
    requires forall x :: 0 <= x < |links| ==> l2[x][f] == if x == Pos(order, j + 1) then Pos(order, j - 1) else links[x][f]
    ensures Slots(Remove(order, j), |l2|) && Backward(l2, f, Remove(order, j))
  {
    RemoveSlots(order, j, |links|);
    var rest := Remove(order, j);
    forall i | 0 <= i <= |rest| ensures l2[Pos(rest, i)][f] == Pos(rest, i - 1) {
      var k := if i < j then i else i + 1;
      PosIn(order, k, |links|);
      assert links[Pos(order, k)][f] == Pos(order, k - 1);
      if Pos(order, k) == Pos(order, j + 1) { PosDistinct(order, k, j + 1, |links|); }
    }
  }

  /** A slot that is not in the list, put in front of it. */
  lemma FrontRing(links: Links, f: int, t: int, rest: seq<int>, idx: int)
    requires Ring(links, f, t, rest) && 0 < idx < |links| && idx !in rest
    ensures links[0][t] == Pos(rest, 0) && 0 <= Pos(rest, 0) < |links|
    ensures var l1 := links[idx := if t == N then [0, Pos(rest, 0)] else [Pos(rest, 0), 0]];
            Ring(Upd(Upd(l1, Pos(rest, 0), f, idx), 0, t, idx), f, t, [idx] + rest)
  {
    var order, head := [idx] + rest, Pos(rest, 0);
    PosIn(rest, 0, |links|);
    assert links[Pos(rest, -1)][t] == head;
    var l1 := links[idx := if t == N then [0, head] else [head, 0]];
    var l3 := Upd(Upd(l1, head, f, idx), 0, t, idx);
    forall i | -1 <= i < |order| ensures l3[Pos(order, i)][t] == Pos(order, i + 1) {
      if 1 <= i { assert Pos(order, i) == Pos(rest, i - 1) && links[Pos(rest, i - 1)][t] == Pos(rest, i); }
    }
    forall i | 0 <= i <= |order| ensures l3[Pos(order, i)][f] == Pos(order, i - 1) {
      if 2 <= i { assert Pos(order, i) == Pos(rest, i - 1) && links[Pos(rest, i - 1)][f] == Pos(rest, i - 2); }
    }
  }

  function Reverse(s: seq<int>): (r: seq<int>)
    ensures |r| == |s| && forall i :: 0 <= i < |s| ==> r[i] == s[|s| - 1 - i]
  {
    if s == [] then [] else Reverse(s[1..]) + [s[0]]
  }

  /** Seen from the other side the list runs backwards. */
  lemma Mirror(links: Links, f: int, t: int, order: seq<int>)
    requires Ring(links, f, t, order)
    ensures Ring(links, t, f, Reverse(order))
  {
    var back := Reverse(order);
    forall i | -1 <= i < |back| ensures links[Pos(back, i)][f] == Pos(back, i + 1) {
      var k := |order| - 1 - i;
      assert Pos(back, i) == Pos(order, k) && links[Pos(order, k)][f] == Pos(order, k - 1);
    }
    forall i | 0 <= i <= |back| ensures links[Pos(back, i)][t] == Pos(back, i - 1) {
      var k := |order| - 1 - i;
      assert Pos(back, i) == Pos(order, k) && links[Pos(order, k)][t] == Pos(order, k + 1);
    }
  }
}
