/**
 * The hash ring as values: a cyclic set of scores, the raw virtual-node keys that share each
 * score, the replica count of every physical node, and the index of data keys by node.
 * The cyclic lookups are stated by clockwise distance, not by the branches that compute them.
 */
module RingSpec {
  /** math.MaxInt32: scores are hashes taken modulo this number. */
  const CIRCLE: int := 0x7fff_ffff

  type Score = x: int | 0 <= x < CIRCLE
  type Int32 = x: int | -0x8000_0000 <= x <= 0x7fff_ffff
  type Hash = string -> Score
  type Slots = map<Score, seq<string>>

  datatype RingState = RingState(slots: Slots, replicas: map<string, nat>, data: map<string, set<string>>)

  /** A failed operation keeps whatever it had already changed. */
  datatype Outcome = Done(state: RingState) | Failed(state: RingState)

  // ------------------------------------------------------------ raw keys

  function Digit(i: nat): (c: char)
    requires i < 10
    ensures c != '_'
  {
    '0' + i as char
  }

  function Decimal(i: nat): (s: string)
  {
    (if i < 10 then [] else Decimal(i / 10)) + [Digit(i % 10)]
  }

  /** The key of the i-th virtual node of a physical node. */
  function RawKey(node: string, i: nat): string
  {
    node + "_" + Decimal(i)
  }

  function LastUnderscore(s: string): (i: int)
    ensures -1 <= i < |s|
    ensures i >= 0 ==> s[i] == '_'
    ensures forall j :: i < j < |s| ==> s[j] != '_'
  {
    if s == [] then -1 else if s[|s| - 1] == '_' then |s| - 1 else LastUnderscore(s[..|s| - 1])
  }

  /** The physical node a raw key belongs to. */
  function NodeOf(key: string): string
  {
    if LastUnderscore(key) < 0 then key else key[..LastUnderscore(key)]
  }

  // ------------------------------------------------------------ the circle

  function Succ(x: Score): Score { if x == CIRCLE - 1 then 0 else x + 1 }

  function Pred(x: Score): Score { if x == 0 then CIRCLE - 1 else x - 1 }

  /** The number of steps clockwise from a to b. */
  function Dist(a: Score, b: Score): (d: int)
    ensures 0 <= d < CIRCLE
  {
    if a <= b then b - a else b - a + CIRCLE
  }

  ghost predicate Nearest(scores: set<Score>, x: Score, c: Score) {
    c in scores && forall t :: t in scores ==> Dist(x, c) <= Dist(x, t)
  }

  ghost predicate NearestBehind(scores: set<Score>, x: Score, c: Score) {
    c in scores && forall t :: t in scores ==> Dist(c, x) <= Dist(t, x)
  }

  lemma {:induction false} SomeNearest(scores: set<Score>, x: Score)
    requires scores != {}
    ensures exists c: Score :: Nearest(scores, x, c)
  {
    var c :| c in scores;
    if scores == {c} {
      assert Nearest(scores, x, c);
    } else {
      SomeNearest(scores - {c}, x);
      var b: Score :| Nearest(scores - {c}, x, b);
      assert Nearest(scores, x, if Dist(x, b) < Dist(x, c) then b else c);
    }
  }

  lemma {:induction false} SomeNearestBehind(scores: set<Score>, x: Score)
    requires scores != {}
    ensures exists c: Score :: NearestBehind(scores, x, c)
  {
    var c :| c in scores;
    if scores == {c} {
      assert NearestBehind(scores, x, c);
    } else {
      SomeNearestBehind(scores - {c}, x);
      var b: Score :| NearestBehind(scores - {c}, x, b);
      assert NearestBehind(scores, x, if Dist(b, x) < Dist(c, x) then b else c);
    }
  }

  /** The first score met going clockwise from x, x itself included. */
  ghost function Ceiling(scores: set<Score>, x: Score): (c: Score)
    requires scores != {}
    ensures Nearest(scores, x, c)
  {
    SomeNearest(scores, x);
    var c :| Nearest(scores, x, c); c
  }

  /** The first score met going anticlockwise from x, x itself included. */
  ghost function Floor(scores: set<Score>, x: Score): (c: Score)
    requires scores != {}
    ensures NearestBehind(scores, x, c)
  {
    SomeNearestBehind(scores, x);
    var c :| NearestBehind(scores, x, c); c
  }

  /** x lies on the arc that starts after `last` and ends in `end`. */
  predicate InArc(last: Score, x: Score, end: Score) {
    Dist(x, end) < Dist(last, end)
  }

  // ------------------------------------------------------------ ownership

  /** The physical node whose virtual node is the first at or after the key's score. */
  ghost function Owner(h: Hash, slots: Slots, key: string): string {
    if slots.Keys == {} then "" else
      var nodes := slots[Ceiling(slots.Keys, h(key))];
      if nodes == [] then "" else NodeOf(nodes[0])
  }

  function DataOf(st: RingState, node: string): set<string> {
    if node in st.data then st.data[node] else {}
  }

  ghost predicate Recorded(st: RingState, node: string, key: string) {
    node in st.data && key in st.data[node]
  }

  ghost function Tracked(st: RingState): iset<string> {
    iset node, key | Recorded(st, node, key) :: key
  }

  // ------------------------------------------------------------ the ring's own operations

  function Add(st: RingState, s: Score, key: string): RingState {
    if s !in st.slots then st.(slots := st.slots[s := [key]])
    else if key in st.slots[s] then st
    else st.(slots := st.slots[s := st.slots[s] + [key]])
  }

  /** Drops the first occurrence. */
  function Without(keys: seq<string>, key: string): (r: seq<string>)
    ensures key !in keys ==> r == keys
  {
    if keys == [] then [] else if keys[0] == key then keys[1..] else [keys[0]] + Without(keys[1..], key)
  }

  function DropKey(slots: Slots, s: Score, key: string): Slots
    requires s in slots
  {
    if |slots[s]| > 1 then slots[s := Without(slots[s], key)] else slots - {s}
  }

  /** Removing a virtual node also drops the data keys of a physical node that bears its name. */
  function Rem(st: RingState, s: Score, key: string): Outcome {
    if s !in st.slots || key !in st.slots[s] then Failed(st)
    else Done(st.(slots := DropKey(st.slots, s, key), data := st.data - {key}))
  }

  function AddKeys(st: RingState, node: string, keys: set<string>): RingState {
    st.(data := st.data[node := DataOf(st, node) + keys])
  }

  function DeleteKeys(st: RingState, node: string, keys: set<string>): RingState {
    if node !in st.data then st
    else if st.data[node] - keys == {} then st.(data := st.data - {node})
    else st.(data := st.data[node := st.data[node] - keys])
  }

  function MoveKeys(st: RingState, from: string, to: string, keys: set<string>): RingState {
    AddKeys(DeleteKeys(st, from, keys), to, keys)
  }

  // ------------------------------------------------------------ migration

  ghost function KeysOnArc(h: Hash, st: RingState, node: string, last: Score, end: Score): set<string> {
    set d | d in DataOf(st, node) && InArc(last, h(d), end)
  }

  /** Hands the arc that ends in s, just taken by a virtual node of `node`, over to `node`. */
  ghost function MigrateIn(h: Hash, st: RingState, s: Score, node: string): RingState {
    if s !in st.slots || |st.slots[s]| > 1 then st
    else
      var last := Floor(st.slots.Keys, Pred(s));
      var next := Ceiling(st.slots.Keys, Succ(s));
      if last == s || next == s || st.slots[next] == [] then st
      else
        var from := NodeOf(st.slots[next][0]);
        MoveKeys(st, from, node, KeysOnArc(h, st, from, last, s))
  }

  /** The score is held by one virtual node of `node` and nothing else. */
  predicate Lone(nodes: seq<string>, node: string) {
    |nodes| == 1 && NodeOf(nodes[0]) == node
  }

  ghost function Shared(slots: Slots, node: string): (r: set<Score>) {
    set t | t in slots && !Lone(slots[t], node)
  }

  /** Who takes over from `node` at s: found by skipping the scores that are its alone. */
  ghost function Heir(slots: Slots, s: Score, node: string): string {
    if Shared(slots, node) == {} then ""
    else
      var nodes := slots[Ceiling(Shared(slots, node), Succ(s))];
      if nodes == [] then "" else if NodeOf(nodes[0]) != node then NodeOf(nodes[0]) else NodeOf(nodes[1])
  }

  /** The keys of the arc that ends in s; all of them when the ring has no other score. */
  ghost function Handed(h: Hash, st: RingState, s: Score, node: string): set<string>
    requires s in st.slots
  {
    var last := Floor(st.slots.Keys, Pred(s));
    if last == s then DataOf(st, node) else KeysOnArc(h, st, node, last, s)
  }

  /** Who receives them: the second at a shared score, else the heir. */
  ghost function Receiver(slots: Slots, s: Score, node: string): string
    requires s in slots && slots[s] != []
  {
    if |slots[s]| > 1 then NodeOf(slots[s][1]) else Heir(slots, s, node)
  }

  /** Hands the keys of the arc that ends in s over before a virtual node of `node` leaves s. */
  ghost function MigrateOut(h: Hash, st: RingState, s: Score, node: string): Outcome {
    if s !in st.slots then Failed(st)
    else
      var nodes := st.slots[s];
      if nodes == [] || NodeOf(nodes[0]) != node || DataOf(st, node) == {} then Done(st)
      else
        var keys := Handed(h, st, s, node);
        var to := Receiver(st.slots, s, node);
        if |nodes| == 1 && (Floor(st.slots.Keys, Pred(s)) == s || to == "") then Failed(st)
        else if to == "" || keys == {} then Done(st)
        else Done(MoveKeys(st, node, to, keys))
  }

  // ------------------------------------------------------------ the public operations

  /** The hash, the virtual nodes per unit of weight, and whether a migrator was given. */
  datatype Config = Config(hash: Hash, replicas: nat, migrating: bool)

  function ValidWeight(weight: int): (w: nat)
    ensures 1 <= w <= 10
  {
    if weight <= 0 then 1 else if weight >= 10 then 10 else weight
  }

  ghost function AddVirtual(c: Config, st: RingState, node: string, i: nat): RingState {
    var key := RawKey(node, i);
    var st1 := Add(st, c.hash(key), key);
    if c.migrating then MigrateIn(c.hash, st1, c.hash(key), node) else st1
  }

  ghost function AddFrom(c: Config, st: RingState, node: string, i: nat, count: nat): RingState
    decreases count - i
  {
    if i >= count then st else AddFrom(c, AddVirtual(c, st, node, i), node, i + 1, count)
  }

  ghost function AddNode(c: Config, st: RingState, node: string, weight: int): Outcome {
    var count := ValidWeight(weight) * c.replicas;
    if node in st.replicas then Failed(st)
    else Done(AddFrom(c, st.(replicas := st.replicas[node := count]), node, 0, count))
  }

  ghost function RemoveVirtual(c: Config, st: RingState, node: string, i: nat): Outcome {
    var key := RawKey(node, i);
    var out := if c.migrating then MigrateOut(c.hash, st, c.hash(key), node) else Done(st);
    if out.Failed? then out else Rem(out.state, c.hash(key), key)
  }

  ghost function RemoveFrom(c: Config, st: RingState, node: string, i: nat, count: nat): Outcome
    decreases count - i
  {
    if i >= count then Done(st)
    else
      var out := RemoveVirtual(c, st, node, i);
      if out.Failed? then out else RemoveFrom(c, out.state, node, i + 1, count)
  }

  ghost function RemoveNode(c: Config, st: RingState, node: string): Outcome {
    if node !in st.replicas then Failed(st)
    else RemoveFrom(c, st.(replicas := st.replicas - {node}), node, 0, st.replicas[node])
  }

  /** Looks a key up and records it at the node found. */
  ghost function GetNode(c: Config, st: RingState, key: string): Outcome {
    if st.slots.Keys == {} || st.slots[Ceiling(st.slots.Keys, c.hash(key))] == [] then Failed(st)
    else Done(AddKeys(st, Owner(c.hash, st.slots, key), {key}))
  }

  datatype Op = AddOp(node: string, weight: int) | RemoveOp(node: string) | GetOp(key: string)

  ghost function Perform(c: Config, st: RingState, op: Op): Outcome {
    match op
    case AddOp(node, weight) => AddNode(c, st, node, weight)
    case RemoveOp(node) => RemoveNode(c, st, node)
    case GetOp(key) => GetNode(c, st, key)
  }

  /** A run of calls on an empty ring; it stops at the first call that fails. */
  ghost function Run(c: Config, ops: seq<Op>): Outcome {
    if ops == [] then Done(RingState(map[], map[], map[]))
    else
      var before := Run(c, ops[..|ops| - 1]);
      if before.Failed? then before else Perform(c, before.state, ops[|ops| - 1])
  }
}
