/** The in-process time wheel, as a countdown of ticks for every key. */
module TimeWheel {
  // ------------------------------------------------------------ arithmetic of the wheel

  /** Slots from cur forward to pos. */
  function Ahead(cur: nat, pos: nat, n: nat): nat
    requires cur < n && pos < n
  {
    if cur <= pos then pos - cur else pos - cur + n
  }

  /** The tick, counted from 1, on which a task fires. */
  function Remaining(cur: nat, pos: nat, cycle: nat, n: nat): (r: nat)
    requires cur < n && pos < n
    ensures 0 < r
  {
    Ahead(cur, pos, n) + n * cycle + 1
  }

  lemma DivideUnique(x: nat, d: nat, q: nat, r: nat)
    requires x == d * q + r && r < d
    ensures x / d == q && x % d == r
  {
    var q', r' := x / d, x % d;
    assert x == d * q' + r';
    MulOrder(q', q, d);
    MulOrder(q, q', d);
  }

  lemma MulOrder(a: nat, b: nat, d: nat)
    ensures a < b ==> d * a + d <= d * b
  {
    if a < b {
      var c: nat := b - a - 1;
      assert d * b == d * a + d + d * c;
    }
  }

  /** Whole turns are whole intervals divided by the number of slots. */
  lemma NestedDivision(delay: nat, interval: nat, n: nat)
    requires 0 < interval && 0 < n
    ensures 0 < n * interval && delay / (n * interval) == (delay / interval) / n
  {
    var q, r := delay / interval, delay % interval;
    var a, b := q / n, q % n;
    Turns(delay, interval, n, q, r, a, b);
    DivideUnique(delay, n * interval, a, interval * b + r);
  }

  lemma Turns(delay: nat, interval: nat, n: nat, q: nat, r: nat, a: nat, b: nat)
    requires q == n * a + b && delay == interval * q + r && r < interval && b < n
    ensures delay == (n * interval) * a + (interval * b + r) && interval * b + r < n * interval
  {
    MulOrder(b, n, interval);
  }

  /** A task put where getPosAndCircle says fires on tick floor(delay / interval) + 1. */
  lemma FiresOnTime(cur: nat, delay: nat, interval: nat, n: nat)
    requires cur < n && 0 < interval
    ensures 0 < n * interval
    ensures Remaining(cur, (cur + delay / interval) % n, delay / (n * interval), n) == delay / interval + 1
  {
    NestedDivision(delay, interval, n);
    var q := delay / interval;
    var a, b := q / n, q % n;
    assert q == n * a + b;
    if cur + b < n {
      DivideUnique(cur + q, n, a, cur + b);
    } else {
      assert n * (a + 1) == n * a + n;
      DivideUnique(cur + q, n, a + 1, cur + b - n);
    }
  }

  function NextSlot(cur: nat, n: nat): nat
    requires cur < n
  {
    if cur + 1 == n then 0 else cur + 1
  }

  /** A tick brings every other slot nearer by one, and takes a turn off the current slot. */
  lemma OneTick(cur: nat, pos: nat, cycle: nat, n: nat)
    requires cur < n && pos < n
    ensures pos != cur ==> Remaining(NextSlot(cur, n), pos, cycle, n) == Remaining(cur, pos, cycle, n) - 1
    ensures pos == cur && 0 < cycle ==> Remaining(NextSlot(cur, n), pos, cycle - 1, n) == Remaining(cur, pos, cycle, n) - 1
    ensures Remaining(cur, pos, cycle, n) == 1 <==> pos == cur && cycle == 0
  {
    if 0 < cycle {
      assert n * cycle == n * (cycle - 1) + n;
      assert n * cycle >= n by { assert n * (cycle - 1) >= 0; }
    }
  }

  // ------------------------------------------------------------ the wheel

  /** A list element: its serial number, the key of its task and the slot it was put in. */
  datatype Element = Element(id: nat, key: string, pos: nat)

  function Without(l: seq<Element>, e: Element): (r: seq<Element>)
    ensures forall x :: x != e ==> (x in r <==> x in l)
  {
    if l == [] then [] else if l[0] == e then l[1..] else [l[0]] + Without(l[1..], e)
  }

  ghost predicate NoRepeat(l: seq<Element>) {
    forall i, j :: 0 <= i < j < |l| ==> l[i] != l[j]
  }

  lemma {:induction false} RemovedOnce(l: seq<Element>, e: Element)
    requires NoRepeat(l)
    ensures NoRepeat(Without(l, e)) && e !in Without(l, e)
  {
    if l != [] {
      assert l == [l[0]] + l[1..] && l[0] !in l[1..];
      assert NoRepeat(l[1..]);
      RemovedOnce(l[1..], e);
    }
  }

  /** The wheel: the lists, the current slot, the element of every key, the turns each element has left, and the
      number of the next task. */
  datatype WheelState = WheelState(slots: seq<seq<Element>>, cur: nat, tasks: map<string, Element>, turns: map<nat, nat>, next: nat)

  /** Every element in a slot is the one its key points to, in the slot it was put in; every key points to
      an element in its slot; every element has its turns and a number given out before. */
  ghost predicate Linked(w: WheelState) {
    && w.cur < |w.slots|
    && (forall p :: 0 <= p < |w.slots| ==> NoRepeat(w.slots[p]))
    && InPlace(w) && AllKeysOk(w) && OwnNumbers(w.tasks)
  }

  ghost predicate InPlace(w: WheelState) {
    forall p, e :: 0 <= p < |w.slots| && e in w.slots[p] ==> e.pos == p && e.key in w.tasks && w.tasks[e.key] == e
  }

  ghost predicate AllKeysOk(w: WheelState) { forall k :: k in w.tasks ==> KeyOk(w, k) }

  ghost predicate OwnNumbers(tasks: map<string, Element>) {
    forall k, l :: k in tasks && l in tasks && tasks[k].id == tasks[l].id ==> k == l
  }

  ghost predicate KeyOk(w: WheelState, k: string)
    requires k in w.tasks
  {
    var e := w.tasks[k];
    e.key == k && e.pos < |w.slots| && e in w.slots[e.pos] && e.id in w.turns && e.id < w.next
  }

  /** The tick on which a live key fires. */
  ghost function DueIn(w: WheelState, k: string): nat {
    if w.cur < |w.slots| && k in w.tasks && w.tasks[k].pos < |w.slots| && w.tasks[k].id in w.turns
    then Remaining(w.cur, w.tasks[k].pos, w.turns[w.tasks[k].id], |w.slots|) else 0
  }

  /** What is pending for a key: the number of its task, and the ticks until it fires. */
  datatype Pending = Pending(task: nat, ticks: nat)

  /** The wheel without its mechanics: what is pending, and the number of the next task. */
  datatype Book = Book(pending: map<string, Pending>, next: nat)

  ghost function BookOf(w: WheelState): Book {
    Book(map k | k in w.tasks :: Pending(w.tasks[k].id, DueIn(w, k)), w.next)
  }

  /** Deadlines that have passed count as now. */
  function FromNow(delay: int): nat { if delay < 0 then 0 else delay }

  /** The whole intervals in a delay. */
  function Whole(delay: int, interval: nat): nat
    requires 0 < interval
  {
    FromNow(delay) / interval
  }

  /** A delay of t whole intervals; a deadline that has passed is one of none. */
  ghost predicate Spans(delay: int, interval: nat, t: int) {
    (delay < 0 ==> t == 0) && (delay >= 0 ==> t * interval <= delay < (t + 1) * interval)
  }

  lemma SpansIff(delay: int, interval: nat, t: nat)
    requires 0 < interval
    ensures Spans(delay, interval, t) <==> t == Whole(delay, interval)
  {
    if delay >= 0 {
      var q, r := delay / interval, delay % interval;
      assert delay == interval * q + r;
      if t * interval <= delay < (t + 1) * interval {
        assert delay == interval * t + (delay - t * interval);
        DivideUnique(delay, interval, t, delay - t * interval);
      }
    }
  }

  /** A new task replaces the one of its key and fires on tick floor(delay / interval) + 1. */
  function BookAdd(b: Book, interval: nat, key: string, delay: int): Book
    requires 0 < interval
  {
    Book(b.pending[key := Pending(b.next, Whole(delay, interval) + 1)], b.next + 1)
  }

  function BookRemove(b: Book, key: string): Book { Book(b.pending - {key}, b.next) }

  /** What has come to its last tick fires and goes; the rest comes one tick nearer. */
  function BookTick(b: Book): Book {
    Book(map k | k in b.pending && b.pending[k].ticks > 1 :: Pending(b.pending[k].task, b.pending[k].ticks - 1), b.next)
  }

  /** Numbers are given out once, and what is pending is still to come. */
  ghost predicate GoodBook(b: Book) {
    && (forall k :: k in b.pending ==> b.pending[k].task < b.next && 0 < b.pending[k].ticks)
    && (forall k, l :: k in b.pending && l in b.pending && b.pending[k].task == b.pending[l].task ==> k == l)
  }

  lemma BookIsGood(w: WheelState)
    requires Linked(w)
    ensures GoodBook(BookOf(w))
  {
    hide Remaining;
    forall k | k in w.tasks ensures w.tasks[k].id < w.next && 0 < DueIn(w, k) { assert KeyOk(w, k); }
    assert OwnNumbers(w.tasks);
    hide Linked, DueIn;
  }

  // ------------------------------------------------------------ adding and removing

  function Removed(w: WheelState, key: string): (r: WheelState)
    ensures |r.slots| == |w.slots| && r.cur == w.cur && key !in r.tasks && r.next == w.next
  {
    if key !in w.tasks then w
    else
      var e := w.tasks[key];
      w.(slots := if e.pos < |w.slots| then w.slots[e.pos := Without(w.slots[e.pos], e)] else w.slots, tasks := w.tasks - {key})
  }

  lemma RemovedLinked(w: WheelState, key: string)
    requires Linked(w)
    ensures Linked(Removed(w, key))
  {
    if key in w.tasks {
      assert KeyOk(w, key);
      var e, w1 := w.tasks[key], Removed(w, key);
      RemovedOnce(w.slots[e.pos], e);
      forall p, x | 0 <= p < |w1.slots| && x in w1.slots[p] ensures x in w.slots[p] && x != e {}
      forall k | k in w1.tasks ensures KeyOk(w1, k) { assert KeyOk(w, k); }
    }
  }

  lemma BookWithout(w: WheelState, w1: WheelState, key: string)
    requires w1.tasks == w.tasks - {key} && w1.turns == w.turns && |w1.slots| == |w.slots| && w1.cur == w.cur
    ensures BookOf(w1).pending == BookOf(w).pending - {key}
  {
    forall k | k in w1.tasks ensures DueIn(w1, k) == DueIn(w, k) {}
    hide DueIn;
  }

  /** Removing a task stops its countdown and no other. */
  lemma RemovedBook(w: WheelState, key: string)
    requires Linked(w)
    ensures Linked(Removed(w, key)) && BookOf(Removed(w, key)) == BookRemove(BookOf(w), key)
  {
    RemovedLinked(w, key);
    assert key !in w.tasks ==> w.tasks - {key} == w.tasks;
    BookWithout(w, Removed(w, key), key);
    hide Linked;
  }

  function Placed(w: WheelState, key: string, pos: nat, cycle: nat): WheelState
    requires pos < |w.slots|
  {
    var e := Element(w.next, key, pos);
    w.(slots := w.slots[pos := w.slots[pos] + [e]], tasks := w.tasks[key := e], turns := w.turns[e.id := cycle], next := w.next + 1)
  }

  lemma NewNumber(w: WheelState, k: string)
    requires AllKeysOk(w) && k in w.tasks
    ensures w.tasks[k].id < w.next
  {
    assert KeyOk(w, k);
  }

  lemma PlacedLinked(w: WheelState, key: string, pos: nat, cycle: nat)
    requires Linked(w) && key !in w.tasks && pos < |w.slots|
    ensures Linked(Placed(w, key, pos, cycle))
  {
    var w1 := Placed(w, key, pos, cycle);
    PlacedInPlace(w, key, pos, cycle);
    PlacedKeys(w, key, pos, cycle);
    forall k | k in w.tasks ensures w.tasks[k].id != w.next { NewNumber(w, k); }
    assert OwnNumbers(w1.tasks);
    hide InPlace, AllKeysOk, OwnNumbers;
  }

  lemma PlacedInPlace(w: WheelState, key: string, pos: nat, cycle: nat)
    requires InPlace(w) && key !in w.tasks && pos < |w.slots| && NoRepeat(w.slots[pos])
    ensures InPlace(Placed(w, key, pos, cycle)) && NoRepeat(Placed(w, key, pos, cycle).slots[pos])
  {
    var e, w1 := Element(w.next, key, pos), Placed(w, key, pos, cycle);
    assert e !in w.slots[pos];
    forall p, x | 0 <= p < |w1.slots| && x in w1.slots[p] ensures x.pos == p && x.key in w1.tasks && w1.tasks[x.key] == x {
      if x != e { assert x in w.slots[p]; }
    }
  }

  lemma PlacedKeys(w: WheelState, key: string, pos: nat, cycle: nat)
    requires AllKeysOk(w) && key !in w.tasks && pos < |w.slots|
    ensures AllKeysOk(Placed(w, key, pos, cycle))
  {
    var w1 := Placed(w, key, pos, cycle);
    forall k | k in w1.tasks ensures KeyOk(w1, k) { if k != key { assert KeyOk(w, k); } }
  }

  lemma BookWith(w: WheelState, w1: WheelState, e: Element, cycle: nat)
    requires w.cur < |w.slots| && e.pos < |w.slots| && |w1.slots| == |w.slots| && w1.cur == w.cur
    requires w1.tasks == w.tasks[e.key := e] && w1.turns == w.turns[e.id := cycle] && forall k :: k in w.tasks ==> w.tasks[k].id != e.id
    ensures BookOf(w1).pending == BookOf(w).pending[e.key := Pending(e.id, Remaining(w.cur, e.pos, cycle, |w.slots|))]
  {
    forall k | k in w1.tasks && k != e.key ensures DueIn(w1, k) == DueIn(w, k) {}
    assert DueIn(w1, e.key) == Remaining(w.cur, e.pos, cycle, |w.slots|);
    hide DueIn, Remaining;
  }

  lemma PlacedBook(w: WheelState, key: string, pos: nat, cycle: nat)
    requires Linked(w) && key !in w.tasks && pos < |w.slots|
    ensures var w1 := Placed(w, key, pos, cycle);
            && Linked(w1)
            && BookOf(w1) == Book(BookOf(w).pending[key := Pending(w.next, Remaining(w.cur, pos, cycle, |w.slots|))], w.next + 1)
  {
    PlacedLinked(w, key, pos, cycle);
    forall k | k in w.tasks ensures w.tasks[k].id != w.next { NewNumber(w, k); }
    BookWith(w, Placed(w, key, pos, cycle), Element(w.next, key, pos), cycle);
    hide Linked;
  }

  function Added(w: WheelState, interval: nat, key: string, delay: int): WheelState
    requires w.cur < |w.slots| && 0 < interval
  {
    FiresOnTime(w.cur, FromNow(delay), interval, |w.slots|);
    Placed(Removed(w, key), key, (w.cur + Whole(delay, interval)) % |w.slots|, FromNow(delay) / (|w.slots| * interval))
  }

  /** A new task replaces the one with the same key and fires on tick floor(delay / interval) + 1. */
  lemma AddedBook(w: WheelState, interval: nat, key: string, delay: int)
    requires Linked(w) && 0 < interval
    ensures Linked(Added(w, interval, key, delay))
    ensures BookOf(Added(w, interval, key, delay)) == BookAdd(BookOf(w), interval, key, delay)
    ensures TaskAdded(BookOf(w), BookOf(Added(w, interval, key, delay)), interval, key, delay)
  {
    BookAddIs(BookOf(w), interval, key, delay);
    hide *;
    var pos, cycle := AddedIs(w, interval, key, delay);
    RemovedBook(w, key);
    PlacedBook(Removed(w, key), key, pos, cycle);
    AddedReplaces(BookOf(w), interval, key, delay);
  }

  /** The key's task is the new one, due on the tick after the whole intervals of its delay; all else stays. */
  ghost predicate TaskAdded(b: Book, b1: Book, interval: nat, key: string, delay: int) {
    && key in b1.pending && b1.pending[key].task == b.next && Spans(delay, interval, b1.pending[key].ticks - 1)
    && b1.pending - {key} == b.pending - {key} && b1.next == b.next + 1
  }

  lemma BookAddIs(b: Book, interval: nat, key: string, delay: int)
    requires 0 < interval
    ensures TaskAdded(b, BookAdd(b, interval, key, delay), interval, key, delay)
  {
    SpansIff(delay, interval, Whole(delay, interval));
    hide Spans, Whole;
  }

  lemma AddedIs(w: WheelState, interval: nat, key: string, delay: int) returns (pos: nat, cycle: nat)
    requires Linked(w) && 0 < interval
    ensures w.cur < |w.slots| && pos < |w.slots| && Remaining(w.cur, pos, cycle, |w.slots|) == Whole(delay, interval) + 1
    ensures Added(w, interval, key, delay) == Placed(Removed(w, key), key, pos, cycle)
    ensures BookOf(w).next == w.next
  {
    assert w.cur < |w.slots|;
    hide Linked, Remaining, Removed, Placed, Added;
    pos, cycle := PlaceFor(w.cur, delay, interval, |w.slots|);
    PlacedIs(w, interval, key, delay, pos, cycle);
  }

  lemma PlaceFor(cur: nat, delay: int, interval: nat, n: nat) returns (pos: nat, cycle: nat)
    requires cur < n && 0 < interval
    ensures pos < n && Remaining(cur, pos, cycle, n) == Whole(delay, interval) + 1
    ensures 0 < n * interval && pos == (cur + Whole(delay, interval)) % n && cycle == FromNow(delay) / (n * interval)
  {
    hide Remaining;
    FiresOnTime(cur, FromNow(delay), interval, n);
    pos, cycle := (cur + Whole(delay, interval)) % n, FromNow(delay) / (n * interval);
  }

  lemma PlacedIs(w: WheelState, interval: nat, key: string, delay: int, pos: nat, cycle: nat)
    requires w.cur < |w.slots| && 0 < interval && 0 < |w.slots| * interval && pos < |w.slots|
    requires pos == (w.cur + Whole(delay, interval)) % |w.slots| && cycle == FromNow(delay) / (|w.slots| * interval)
    ensures Added(w, interval, key, delay) == Placed(Removed(w, key), key, pos, cycle)
  {
    hide Whole, FromNow, Removed, Placed;
  }

  lemma AddedReplaces(b: Book, interval: nat, key: string, delay: int)
    requires 0 < interval
    ensures Book(BookRemove(b, key).pending[key := Pending(b.next, Whole(delay, interval) + 1)], b.next + 1) == BookAdd(b, interval, key, delay)
  {
    hide Whole;
    assert (b.pending - {key})[key := Pending(b.next, Whole(delay, interval) + 1)] == b.pending[key := Pending(b.next, Whole(delay, interval) + 1)];
  }

  // ------------------------------------------------------------ one tick

  predicate Waits(e: Element, turns: map<nat, nat>) { e.id in turns && turns[e.id] > 0 }

  /** The elements of a list that have turns left, in order. */
  function Waiting(l: seq<Element>, turns: map<nat, nat>): (r: seq<Element>)
    ensures forall e :: e in r <==> e in l && Waits(e, turns)
  {
    if l == [] then [] else Waiting(l[..|l| - 1], turns) + if Waits(l[|l| - 1], turns) then [l[|l| - 1]] else []
  }

  /** Those that have none. */
  function Due(l: seq<Element>, turns: map<nat, nat>): (r: seq<Element>)
    ensures forall e :: e in r <==> e in l && !Waits(e, turns)
  {
    if l == [] then [] else Due(l[..|l| - 1], turns) + if Waits(l[|l| - 1], turns) then [] else [l[|l| - 1]]
  }

  /** The turns after going through a list. */
  function Lowered(l: seq<Element>, turns: map<nat, nat>): (r: map<nat, nat>) {
    if l == [] then turns
    else
      var z, r := l[|l| - 1], Lowered(l[..|l| - 1], turns);
      if Waits(z, turns) then r[z.id := turns[z.id] - 1] else r
  }

  lemma {:induction false} LoweredIs(l: seq<Element>, turns: map<nat, nat>, id: nat)
    requires id in turns
    ensures id in Lowered(l, turns)
    ensures Lowered(l, turns)[id] == if turns[id] > 0 && exists e :: e in l && e.id == id then turns[id] - 1 else turns[id]
  {
    if l != [] {
      var m, z := l[..|l| - 1], l[|l| - 1];
      assert forall e :: e in l <==> e in m || e == z;
      LoweredIs(m, turns, id);
    }
  }

  lemma {:induction false} WaitingNoRepeat(l: seq<Element>, turns: map<nat, nat>)
    requires NoRepeat(l)
    ensures NoRepeat(Waiting(l, turns)) && NoRepeat(Due(l, turns))
  {
    if l != [] {
      var m, z := l[..|l| - 1], l[|l| - 1];
      assert l == m + [z] && z !in m;
      WaitingNoRepeat(m, turns);
    }
  }

  function Keys(l: seq<Element>): set<string> { set e | e in l :: e.key }

  /** Going through the current slot. */
  function Executed(w: WheelState): WheelState
    requires w.cur < |w.slots|
  {
    var l := w.slots[w.cur];
    w.(slots := w.slots[w.cur := Waiting(l, w.turns)], tasks := w.tasks - Keys(Due(l, w.turns)), turns := Lowered(l, w.turns))
  }

  function Turned(w: WheelState): WheelState
    requires w.cur < |w.slots|
  {
    Executed(w).(cur := NextSlot(w.cur, |w.slots|))
  }

  /** The tasks that a tick runs. */
  function Fired(w: WheelState): seq<Element>
    requires w.cur < |w.slots|
  {
    Due(w.slots[w.cur], w.turns)
  }

  ghost predicate DueNow(w: WheelState, k: string) {
    k in w.tasks && w.tasks[k].pos == w.cur && w.tasks[k].id in w.turns && w.turns[w.tasks[k].id] == 0
  }

  /** What fires is what the keys point to. */
  lemma FiredIs(w: WheelState, k: string)
    requires Linked(w) && k in w.tasks
    ensures w.tasks[k] in Fired(w) <==> DueNow(w, k)
    ensures k in Keys(Fired(w)) <==> DueNow(w, k)
  {
    assert KeyOk(w, k);
    hide OwnNumbers, Due;
  }

  /** What the tick does to the element of a key. */
  lemma TurnTaken(w: WheelState, k: string)
    requires Linked(w) && k in w.tasks
    ensures var id := w.tasks[k].id; id in w.turns && id in Lowered(w.slots[w.cur], w.turns) && w.tasks[k].pos < |w.slots|
    ensures !DueNow(w, k) ==> var id := w.tasks[k].id;
              Lowered(w.slots[w.cur], w.turns)[id] + (if w.tasks[k].pos == w.cur then 1 else 0) == w.turns[id]
  {
    var l, x := w.slots[w.cur], w.tasks[k];
    assert KeyOk(w, k);
    hide Lowered;
    forall e | e in l && e.id == x.id ensures e == x { SameElement(w, e, k); }
    LoweredIs(l, w.turns, x.id);
  }

  lemma SameElement(w: WheelState, e: Element, k: string)
    requires Linked(w) && k in w.tasks && e in w.slots[w.cur] && e.id == w.tasks[k].id
    ensures e == w.tasks[k]
  {
    assert w.tasks[e.key] == e;
  }

  lemma NextIs(cur: nat, n: nat)
    requires cur < n
    ensures NextSlot(cur, n) == (cur + 1) % n
  {
  }

  /** An element has its turns untouched until its own place in the list is reached. */
  lemma StillIts(w: WheelState, i: nat)
    requires Linked(w) && i < |w.slots[w.cur]|
    ensures var l := w.slots[w.cur]; var id := l[i].id;
            id in w.turns && id in Lowered(l[..i], w.turns) && Lowered(l[..i], w.turns)[id] == w.turns[id]
  {
    var l := w.slots[w.cur];
    assert l[i] in l && KeyOk(w, l[i].key);
    hide Lowered;
    forall e | e in l[..i] ensures e.id != l[i].id {
      var a :| 0 <= a < i && l[a] == e;
      assert e in l;
      if e.id == l[i].id { SameElement(w, e, l[i].key); }
    }
    LoweredIs(l[..i], w.turns, l[i].id);
  }

  lemma TurnedLinked(w: WheelState)
    requires Linked(w)
    ensures Linked(Turned(w))
  {
    var w2 := Turned(w);
    WaitingNoRepeat(w.slots[w.cur], w.turns);
    forall k | k in w2.tasks ensures KeyOk(w2, k) { TurnedKey(w, k); }
    TurnedInPlace(w);
    hide KeyOk, InPlace, Waiting, Due, Lowered, NoRepeat;
  }

  lemma TurnedKey(w: WheelState, k: string)
    requires Linked(w) && k in Turned(w).tasks
    ensures KeyOk(Turned(w), k)
  {
    assert KeyOk(w, k);
    TurnTaken(w, k);
    FiredIs(w, k);
    hide Linked, Lowered, Due;
  }

  lemma TurnedInPlace(w: WheelState)
    requires Linked(w)
    ensures InPlace(Turned(w))
  {
    var w2 := Turned(w);
    assert InPlace(w);
    hide Lowered;
    forall p, e | 0 <= p < |w2.slots| && e in w2.slots[p] ensures e.pos == p && e.key in w2.tasks && w2.tasks[e.key] == e {
      assert e in w.slots[p];
      FiredIs(w, e.key);
    }
  }

  lemma TurnedDue(w: WheelState, k: string)
    requires Linked(w) && Linked(Turned(w)) && k in w.tasks
    ensures DueNow(w, k) <==> DueIn(w, k) == 1
    ensures 1 <= DueIn(w, k)
    ensures k in Turned(w).tasks <==> !DueNow(w, k)
    ensures k in Turned(w).tasks ==> DueIn(Turned(w), k) == DueIn(w, k) - 1
  {
    TurnTaken(w, k);
    FiredIs(w, k);
    hide Linked, Lowered, Due, Waiting;
    OneTick(w.cur, w.tasks[k].pos, w.turns[w.tasks[k].id], |w.slots|);
    assert 1 <= DueIn(w, k);
    hide Remaining;
  }

  /** One element more gone through. */
  lemma ExecuteNext(l: seq<Element>, i: nat, turns: map<nat, nat>)
    requires i < |l| && l[i].id in turns
    ensures var m, n, e := l[..i], l[..i + 1], l[i]; var waits := turns[e.id] > 0;
            && Waiting(n, turns) == Waiting(m, turns) + (if waits then [e] else [])
            && Due(n, turns) == Due(m, turns) + (if waits then [] else [e])
            && Lowered(n, turns) == if waits then Lowered(m, turns)[e.id := turns[e.id] - 1] else Lowered(m, turns)
  {
    assert l[..i + 1][..i] == l[..i];
  }

  lemma DropOneMore(tasks: map<string, Element>, fired: seq<Element>, e: Element)
    ensures (tasks - Keys(fired)) - {e.key} == tasks - Keys(fired + [e]) && tasks - Keys([]) == tasks
  {
    assert Keys(fired + [e]) == Keys(fired) + {e.key};
  }

  lemma BookTurned(w: WheelState, w2: WheelState)
    requires forall k :: k in w2.tasks ==> k in w.tasks && w2.tasks[k] == w.tasks[k]
    requires forall k :: k in w.tasks ==> 1 <= DueIn(w, k) && (k in w2.tasks <==> DueIn(w, k) != 1)
    requires forall k :: k in w2.tasks ==> DueIn(w2, k) == DueIn(w, k) - 1
    ensures BookOf(w2).pending == BookTick(BookOf(w)).pending
  {
    hide DueIn;
  }

  /** A tick brings every task one tick nearer. */
  lemma TurnedBook(w: WheelState)
    requires Linked(w)
    ensures Linked(Turned(w)) && BookOf(Turned(w)) == BookTick(BookOf(w))
  {
    TurnedLinked(w);
    hide Linked, DueIn, Waiting, Lowered, Due, DueNow;
    var w2 := Turned(w);
    forall k | k in w.tasks
      ensures 1 <= DueIn(w, k) && (k in w2.tasks <==> DueIn(w, k) != 1) && (k in w2.tasks ==> DueIn(w2, k) == DueIn(w, k) - 1)
    {
      TurnedDue(w, k);
    }
    BookTurned(w, w2);
  }

  /** The book has a task with this number whose tick has come. */
  ghost predicate Runs(b: Book, task: nat) { exists k :: k in b.pending && b.pending[k] == Pending(task, 1) }

  /** A tick runs the tasks whose tick has come, each once. */
  lemma FiredBook(w: WheelState, task: nat)
    requires Linked(w)
    ensures (exists e :: e in Fired(w) && e.id == task) <==> Runs(BookOf(w), task)
    ensures forall i, j :: 0 <= i < j < |Fired(w)| ==> Fired(w)[i].id != Fired(w)[j].id
  {
    TurnedLinked(w);
    WaitingNoRepeat(w.slots[w.cur], w.turns);
    forall e | e in Fired(w) ensures e.key in w.tasks && w.tasks[e.key] == e && DueIn(w, e.key) == 1 { FiredTask(w, e); }
    forall k | k in w.tasks && DueIn(w, k) == 1 ensures w.tasks[k] in Fired(w) {
      FiredIs(w, k);
      TurnedDue(w, k);
    }
    FiredNumbers(w);
    hide Linked, DueIn, Fired;
    if e :| e in Fired(w) && e.id == task { assert BookOf(w).pending[e.key] == Pending(task, 1); }
    if k :| k in BookOf(w).pending && BookOf(w).pending[k] == Pending(task, 1) { assert w.tasks[k] in Fired(w); }
  }

  lemma FiredTask(w: WheelState, e: Element)
    requires Linked(w) && e in Fired(w)
    ensures e.key in w.tasks && w.tasks[e.key] == e && DueIn(w, e.key) == 1
  {
    assert e in w.slots[w.cur];
    FiredIs(w, e.key);
    TurnedLinked(w);
    TurnedDue(w, e.key);
  }

  lemma FiredNumbers(w: WheelState)
    requires Linked(w) && NoRepeat(Fired(w))
    ensures forall i, j :: 0 <= i < j < |Fired(w)| ==> Fired(w)[i].id != Fired(w)[j].id
  {
    var f := Fired(w);
    forall i, j | 0 <= i < j < |f| ensures f[i].id != f[j].id {
      assert f[i] in f && f[j] in f;
      if f[i].id == f[j].id { SameElement(w, f[i], f[j].key); }
    }
  }

  /** The first i elements of the current slot are gone through. */
  ghost predicate Through(w: WheelState, i: nat, kept: seq<Element>, fired: seq<Element>, turns: map<nat, nat>, tasks: map<string, Element>) {
    && w.cur < |w.slots| && i <= |w.slots[w.cur]|
    && var l := w.slots[w.cur][..i];
       kept == Waiting(l, w.turns) && fired == Due(l, w.turns) && turns == Lowered(l, w.turns) && tasks == w.tasks - Keys(fired)
  }

  lemma ThroughStart(w: WheelState)
    requires w.cur < |w.slots|
    ensures Through(w, 0, [], [], w.turns, w.tasks)
  {
    assert w.slots[w.cur][..0] == [];
    DropOneMore(w.tasks, [], Element(0, "", 0));
  }

  /** An element with turns left stays. */
  lemma ThroughWaiting(w: WheelState, i: nat, kept: seq<Element>, fired: seq<Element>, turns: map<nat, nat>, tasks: map<string, Element>)
    requires Through(w, i, kept, fired, turns, tasks) && i < |w.slots[w.cur]| && Untouched(w, i, turns) && turns[w.slots[w.cur][i].id] > 0
    ensures var e := w.slots[w.cur][i]; Through(w, i + 1, kept + [e], fired, turns[e.id := turns[e.id] - 1], tasks)
  {
    hide Waiting, Due, Lowered, Keys;
    ExecuteNext(w.slots[w.cur], i, w.turns);
  }

  /** One without fires and goes. */
  lemma ThroughFired(w: WheelState, i: nat, kept: seq<Element>, fired: seq<Element>, turns: map<nat, nat>, tasks: map<string, Element>)
    requires Through(w, i, kept, fired, turns, tasks) && i < |w.slots[w.cur]| && Untouched(w, i, turns) && turns[w.slots[w.cur][i].id] == 0
    ensures var e := w.slots[w.cur][i]; Through(w, i + 1, kept, fired + [e], turns, tasks - {e.key})
  {
    hide Waiting, Due, Lowered, Keys;
    ExecuteNext(w.slots[w.cur], i, w.turns);
    DropOneMore(w.tasks, fired, w.slots[w.cur][i]);
  }

  ghost predicate Untouched(w: WheelState, i: nat, turns: map<nat, nat>)
    requires w.cur < |w.slots| && i < |w.slots[w.cur]|
  {
    var id := w.slots[w.cur][i].id; id in w.turns && id in turns && turns[id] == w.turns[id]
  }

  lemma ThroughUntouched(w: WheelState, i: nat, kept: seq<Element>, fired: seq<Element>, turns: map<nat, nat>, tasks: map<string, Element>)
    requires Linked(w) && Through(w, i, kept, fired, turns, tasks) && i < |w.slots[w.cur]|
    ensures Untouched(w, i, turns)
  {
    hide Linked, Waiting, Due, Lowered, Keys;
    StillIts(w, i);
  }

  lemma ThroughEnd(w: WheelState, kept: seq<Element>, fired: seq<Element>, turns: map<nat, nat>, tasks: map<string, Element>)
    requires w.cur < |w.slots| && Through(w, |w.slots[w.cur]|, kept, fired, turns, tasks)
    ensures fired == Fired(w) && Executed(w) == WheelState(w.slots[w.cur := kept], w.cur, tasks, turns, w.next)
  {
    var l := w.slots[w.cur];
    assert l[..|l|] == l;
  }

  // ------------------------------------------------------------ the wheel

  class Wheel {
    const interval: nat
    var slots: seq<seq<Element>>
    var curSlot: nat
    var keyToTask: map<string, Element>
    var turns: map<nat, nat>
    var next: nat

    function State(): WheelState reads this { WheelState(slots, curSlot, keyToTask, turns, next) }

    ghost predicate Valid() reads this { 0 < interval && Linked(State()) }

    constructor (slotNum: int, interval: int)
      ensures Valid() && State() == Fresh(if slotNum <= 0 then 10 else slotNum)
      ensures this.interval == if interval <= 0 then 1_000_000_000 else interval
    {
      this.interval := if interval <= 0 then 1_000_000_000 else interval;
      slots := seq(if slotNum <= 0 then 10 else slotNum, _ => []);
      curSlot, keyToTask, turns, next := 0, map[], map[], 0;
    }

    /** Stops the countdown of a key and no other. */
    method RemoveTask(key: string)
      requires Valid()
      modifies this
      ensures Valid() && State() == Removed(old(State()), key)
      ensures BookOf(State()) == BookRemove(BookOf(old(State())), key)
    {
      RemovedBook(State(), key);
      hide Linked, BookOf;
      if key !in keyToTask { return; }
      var e := keyToTask[key];
      keyToTask := keyToTask - {key};
      if e.pos < |slots| { slots := slots[e.pos := Without(slots[e.pos], e)]; }
    }

    /** A new task replaces the one with the same key and fires on tick floor(delay / interval) + 1. */
    method AddTask(key: string, delay: int)
      requires Valid()
      modifies this
      ensures Valid() && State() == Added(old(State()), interval, key, delay)
      ensures BookOf(State()) == BookAdd(BookOf(old(State())), interval, key, delay)
      ensures TaskAdded(BookOf(old(State())), BookOf(State()), interval, key, delay)
    {
      assert curSlot < |slots|;
      hide Linked, BookOf, BookAdd, Added, Removed, Placed, Remaining, FromNow, Whole, TaskAdded;
      ghost var w := State();
      AddedBook(w, interval, key, delay);
      var pos, cycle := PosAndCircle(delay);
      PlacedIs(w, interval, key, delay, pos, cycle);
      RemoveTask(key);
      Place(key, pos, cycle);
    }

    method PosAndCircle(delay: int) returns (pos: nat, cycle: nat)
      requires 0 < interval && curSlot < |slots|
      ensures pos < |slots| && Remaining(curSlot, pos, cycle, |slots|) == Whole(delay, interval) + 1
      ensures 0 < |slots| * interval && pos == (curSlot + Whole(delay, interval)) % |slots| && cycle == FromNow(delay) / (|slots| * interval)
    {
      var d := if delay < 0 then 0 else delay;
      FiresOnTime(curSlot, d, interval, |slots|);
      cycle := d / (|slots| * interval);
      pos := (curSlot + d / interval) % |slots|;
    }

    method Place(key: string, pos: nat, cycle: nat)
      requires pos < |slots|
      modifies this
      ensures State() == Placed(old(State()), key, pos, cycle)
    {
      var e := Element(next, key, pos);
      slots := slots[pos := slots[pos] + [e]];
      keyToTask := keyToTask[key := e];
      turns := turns[e.id := cycle];
      next := next + 1;
    }

    /** Runs exactly the tasks whose tick has come, each once; all others come one tick nearer. */
    method Tick() returns (fired: seq<Element>)
      requires Valid()
      modifies this
      ensures Valid() && State() == Turned(old(State())) && fired == Fired(old(State()))
      ensures BookOf(State()) == BookTick(BookOf(old(State())))
    {
      TurnedBook(State());
      NextIs(curSlot, |slots|);
      hide Linked, BookOf, Executed, BookTick, Due;
      fired := Execute();
      curSlot := (curSlot + 1) % |slots|;
    }

    /** Takes a turn off a task, or drops its key when it has none left. */
    method Visit(e: Element)
      requires e.id in turns
      modifies this`keyToTask, this`turns
      ensures turns == if old(turns)[e.id] > 0 then old(turns)[e.id := old(turns)[e.id] - 1] else old(turns)
      ensures keyToTask == if old(turns)[e.id] > 0 then old(keyToTask) else old(keyToTask) - {e.key}
    {
      if turns[e.id] > 0 {
        turns := turns[e.id := turns[e.id] - 1];
      } else {
        keyToTask := keyToTask - {e.key};
      }
    }

    /** Goes through the current slot: tasks with turns left lose one, the others fire and go. */
    method Execute() returns (fired: seq<Element>)
      requires Valid() && curSlot < |slots|
      modifies this`slots, this`keyToTask, this`turns
      ensures fired == Fired(old(State())) && State() == Executed(old(State()))
    {
      ghost var w := State();
      var kept: seq<Element>;
      kept, fired := GoThrough(slots[curSlot]);
      hide Linked, Executed, Through, Fired;
      ThroughEnd(w, kept, fired, turns, keyToTask);
      slots := slots[curSlot := kept];
    }

    method GoThrough(l: seq<Element>) returns (kept: seq<Element>, fired: seq<Element>)
      requires Valid() && curSlot < |slots| && l == slots[curSlot]
      modifies this`keyToTask, this`turns
      ensures Through(old(State()), |l|, kept, fired, turns, keyToTask)
    {
      ghost var w := State();
      kept, fired := [], [];
      var i := 0;
      hide Linked, Through;
      ThroughStart(w);
      while i < |l|
        invariant 0 <= i <= |l| && Through(w, i, kept, fired, turns, keyToTask)
      {
        var e := l[i];
        ThroughUntouched(w, i, kept, fired, turns, keyToTask);
        if turns[e.id] > 0 {
          ThroughWaiting(w, i, kept, fired, turns, keyToTask);
          kept := kept + [e];
        } else {
          ThroughFired(w, i, kept, fired, turns, keyToTask);
          fired := fired + [e];
        }
        Visit(e);
        i := i + 1;
      }
    }
  }

  function Fresh(n: nat): WheelState { WheelState(seq(n, _ => []), 0, map[], map[], 0) }
}
