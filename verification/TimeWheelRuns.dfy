/** Whole runs of the time wheel: tasks are added, replaced and removed between ticks in any order. */
module TimeWheelRuns {
  import opened TimeWheel

  datatype Event = AddEvent(key: string, delay: int) | RemoveEvent(key: string) | TickEvent

  /** One round of the wheel's loop. */
  function Step(w: WheelState, interval: nat, e: Event): WheelState
    requires w.cur < |w.slots| && 0 < interval
  {
    match e
    case AddEvent(key, delay) => Added(w, interval, key, delay)
    case RemoveEvent(key) => Removed(w, key)
    case TickEvent => Turned(w)
  }

  function BookStep(b: Book, interval: nat, e: Event): Book
    requires 0 < interval
  {
    match e
    case AddEvent(key, delay) => BookAdd(b, interval, key, delay)
    case RemoveEvent(key) => BookRemove(b, key)
    case TickEvent => BookTick(b)
  }

  /** The wheel keeps the book. */
  lemma StepBook(w: WheelState, interval: nat, e: Event)
    requires Linked(w) && 0 < interval
    ensures Linked(Step(w, interval, e)) && BookOf(Step(w, interval, e)) == BookStep(BookOf(w), interval, e)
  {
    match e
    case AddEvent(key, delay) => AddedBook(w, interval, key, delay);
    case RemoveEvent(key) => RemovedBook(w, key);
    case TickEvent => TurnedBook(w);
  }

  /** The states of a run from a fresh wheel, one more than there are events. */
  ghost predicate Run(ws: seq<WheelState>, n: nat, interval: nat, events: seq<Event>) {
    && 0 < n && 0 < interval && |ws| == |events| + 1 && ws[0] == Fresh(n)
    && (forall i :: 0 <= i < |events| ==> Next(ws[i], interval, events[i], ws[i + 1]))
  }

  ghost predicate Next(w: WheelState, interval: nat, e: Event, w1: WheelState) {
    w.cur < |w.slots| && 0 < interval && w1 == Step(w, interval, e)
  }

  lemma FreshLinked(n: nat)
    requires 0 < n
    ensures Linked(Fresh(n))
  {
  }

  lemma {:induction false} RunLinked(ws: seq<WheelState>, n: nat, interval: nat, events: seq<Event>, i: nat)
    requires Run(ws, n, interval, events) && i < |ws|
    ensures Linked(ws[i])
  {
    if i == 0 {
      FreshLinked(n);
    } else {
      RunLinked(ws, n, interval, events, i - 1);
      assert Next(ws[i - 1], interval, events[i - 1], ws[i]);
      StepBook(ws[i - 1], interval, events[i - 1]);
    }
  }

  // ------------------------------------------------------------ one task

  /** The event adds or removes this key. */
  predicate Names(e: Event, key: string) { !e.TickEvent? && e.key == key }

  ghost predicate Unnamed(events: seq<Event>, key: string, from: nat, to: nat)
    requires to <= |events|
  {
    forall i :: from <= i < to ==> !Names(events[i], key)
  }

  /** The number of ticks among the events from one place up to another. */
  function TicksIn(events: seq<Event>, from: nat, to: nat): nat
    requires to <= |events|
  {
    if to <= from then 0 else TicksIn(events, from, to - 1) + if events[to - 1].TickEvent? then 1 else 0
  }

  /** A task that was given out and is not pending any more. */
  ghost predicate Gone(b: Book, task: nat) {
    task < b.next && forall k :: k in b.pending ==> b.pending[k].task != task
  }

  lemma GoneStays(b: Book, interval: nat, e: Event, task: nat)
    requires 0 < interval && Gone(b, task)
    ensures Gone(BookStep(b, interval, e), task)
  {
  }

  /** A pending task only goes by being named or by running. */
  lemma PendingStep(b: Book, interval: nat, e: Event, key: string, p: Pending)
    requires 0 < interval && GoodBook(b) && key in b.pending && b.pending[key] == p
    ensures var b1 := BookStep(b, interval, e);
            if Names(e, key) || (e.TickEvent? && p.ticks == 1) then Gone(b1, p.task)
            else key in b1.pending && b1.pending[key] == Pending(p.task, p.ticks - if e.TickEvent? then 1 else 0)
  {
  }

  /** Where the task added by event a stands before event i. */
  ghost predicate Stands(b: Book, events: seq<Event>, interval: nat, a: nat, i: nat, task: nat)
    requires 0 < interval && a < i <= |events| && events[a].AddEvent?
  {
    var key, whole, ticks := events[a].key, Whole(events[a].delay, interval), TicksIn(events, a + 1, i);
    if Unnamed(events, key, a + 1, i) && ticks <= whole
    then key in b.pending && b.pending[key] == Pending(task, whole + 1 - ticks)
    else Gone(b, task)
  }

  /** The same in the delay's own terms: t more ticks are left when the ticks gone and t span the delay. */
  ghost predicate Stood(b: Book, events: seq<Event>, interval: nat, a: nat, i: nat, task: nat)
    requires a < i <= |events| && events[a].AddEvent?
  {
    var key, delay, ticks := events[a].key, events[a].delay, TicksIn(events, a + 1, i);
    if Unnamed(events, key, a + 1, i) && (ticks == 0 || ticks * interval <= delay)
    then key in b.pending && b.pending[key].task == task && Spans(delay, interval, ticks + b.pending[key].ticks - 1)
    else Gone(b, task)
  }

  lemma StandsStood(b: Book, events: seq<Event>, interval: nat, a: nat, i: nat, task: nat)
    requires 0 < interval && a < i <= |events| && events[a].AddEvent? && Stands(b, events, interval, a, i, task)
    ensures Stood(b, events, interval, a, i, task)
  {
    var delay, ticks, whole := events[a].delay, TicksIn(events, a + 1, i), Whole(events[a].delay, interval);
    SpansIff(delay, interval, whole);
    assert ticks <= whole <==> ticks == 0 || ticks * interval <= delay by {
      MulOrder(ticks, whole, interval);
      MulOrder(whole, ticks, interval);
      assert delay >= 0 ==> whole * interval <= delay < whole * interval + interval;
    }
    hide Unnamed, TicksIn, Whole, Spans, Gone;
  }

  /** At any time after an add, its task is pending with the ticks that are left, or gone for good. */
  lemma History(ws: seq<WheelState>, n: nat, interval: nat, events: seq<Event>, a: nat, i: nat)
    requires Run(ws, n, interval, events) && a < i <= |events| && events[a].AddEvent?
    ensures Stood(BookOf(ws[i]), events, interval, a, i, ws[a].next)
  {
    Standing(ws, n, interval, events, a, i);
    hide Stands, Stood, BookOf;
    StandsStood(BookOf(ws[i]), events, interval, a, i, ws[a].next);
  }

  lemma {:induction false} Standing(ws: seq<WheelState>, n: nat, interval: nat, events: seq<Event>, a: nat, i: nat)
    requires Run(ws, n, interval, events) && a < i <= |events| && events[a].AddEvent?
    ensures Stands(BookOf(ws[i]), events, interval, a, i, ws[a].next)
    decreases i
  {
    hide *;
    RunBook(ws, n, interval, events, i - 1);
    if i > a + 1 {
      Standing(ws, n, interval, events, a, i - 1);
      StandsNext(BookOf(ws[i - 1]), events, interval, a, i - 1, ws[a].next);
    } else {
      StandsFirst(BookOf(ws[a]), events, interval, a);
    }
  }

  lemma RunBook(ws: seq<WheelState>, n: nat, interval: nat, events: seq<Event>, i: nat)
    requires Run(ws, n, interval, events) && i < |events|
    ensures 0 < interval && |ws| == |events| + 1 && GoodBook(BookOf(ws[i]))
    ensures BookOf(ws[i + 1]) == BookStep(BookOf(ws[i]), interval, events[i]) && BookOf(ws[i]).next == ws[i].next
  {
    RunLinked(ws, n, interval, events, i);
    assert Next(ws[i], interval, events[i], ws[i + 1]);
    hide Run, Linked, Step, BookStep;
    StepBook(ws[i], interval, events[i]);
    BookIsGood(ws[i]);
  }

  lemma StandsFirst(b: Book, events: seq<Event>, interval: nat, a: nat)
    requires 0 < interval && a < |events| && events[a].AddEvent?
    ensures Stands(BookStep(b, interval, events[a]), events, interval, a, a + 1, b.next)
  {
  }

  lemma StandsNext(b: Book, events: seq<Event>, interval: nat, a: nat, i: nat, task: nat)
    requires 0 < interval && a < i < |events| && events[a].AddEvent? && GoodBook(b) && Stands(b, events, interval, a, i, task)
    ensures Stands(BookStep(b, interval, events[i]), events, interval, a, i + 1, task)
  {
    var key, e := events[a].key, events[i];
    assert Unnamed(events, key, a + 1, i + 1) <==> Unnamed(events, key, a + 1, i) && !Names(e, key);
    hide BookStep, GoodBook, Unnamed, Whole;
    if Gone(b, task) {
      GoneStays(b, interval, e, task);
    } else {
      PendingStep(b, interval, e, key, b.pending[key]);
    }
  }

  lemma {:induction false} NumbersRise(ws: seq<WheelState>, n: nat, interval: nat, events: seq<Event>, i: nat, j: nat)
    requires Run(ws, n, interval, events) && i <= j < |ws|
    ensures ws[i].next <= ws[j].next
  {
    if i < j {
      NumbersRise(ws, n, interval, events, i, j - 1);
      assert Next(ws[j - 1], interval, events[j - 1], ws[j]);
    }
  }

  /** The tick runs the task with this number. */
  ghost predicate Fires(w: WheelState, task: nat) {
    w.cur < |w.slots| && exists e :: e in Fired(w) && e.id == task
  }

  /** In every run, the task that an add gives out is run by a tick exactly if the tick comes later, nothing has
      added or removed its key in between, and floor(delay / interval) ticks have: by one tick at most, and
      once in it. */
  lemma FiresExactlyOnce(ws: seq<WheelState>, n: nat, interval: nat, events: seq<Event>, a: nat, j: nat)
    requires Run(ws, n, interval, events) && a < |events| && events[a].AddEvent? && j < |events| && events[j].TickEvent?
    ensures Fires(ws[j], ws[a].next) <==>
              && a < j && Unnamed(events, events[a].key, a + 1, j)
              && Spans(events[a].delay, interval, TicksIn(events, a + 1, j))
    ensures forall x, y :: 0 <= x < y < |Fired(ws[j])| ==> Fired(ws[j])[x].id != Fired(ws[j])[y].id
  {
    var task, b := ws[a].next, BookOf(ws[j]);
    RunLinked(ws, n, interval, events, j);
    FiredBook(ws[j], task);
    BookIsGood(ws[j]);
    assert 0 < interval && b.next == ws[j].next && (Fires(ws[j], task) <==> Runs(b, task));
    if j < a {
      NumbersRise(ws, n, interval, events, j, a);
      hide Run, Linked, BookOf, Fires;
      assert !Runs(b, task);
    } else {
      assert j != a;
      Standing(ws, n, interval, events, a, j);
      SpansIff(events[a].delay, interval, TicksIn(events, a + 1, j));
      hide Run, Linked, BookOf, Fires, Spans;
      RunsIff(b, events, interval, a, j, task);
    }
  }

  /** A pending task runs on its last tick. */
  lemma RunsIff(b: Book, events: seq<Event>, interval: nat, a: nat, j: nat, task: nat)
    requires 0 < interval && a < j < |events| && events[a].AddEvent? && GoodBook(b) && Stands(b, events, interval, a, j, task)
    ensures Runs(b, task) <==> Unnamed(events, events[a].key, a + 1, j) && TicksIn(events, a + 1, j) == Whole(events[a].delay, interval)
  {
    hide Unnamed, TicksIn, Whole;
  }
}
