/** The Ready/Advance loop of apps/raft_demo/raft/node.go and ready.go around a raft object. */
module RaftLoop {
  import opened Options
  import opened RaftTypes
  import opened RaftFlatLog
  import opened RaftSpec
  import opened RaftLog
  import opened RaftNode
  import opened RaftCluster
  import RaftSafety
  import RaftSteps
  import RaftInvariant

  const EMPTY_HARD: HardState := HardState(0, NONE, 0)

  datatype ReadyBatch = ReadyBatch(
    soft: Option<SoftState>, hard: HardState, readStates: seq<ReadState>,
    entries: seq<Entry>, committed: seq<Entry>, msgs: seq<Message>)
  {
    predicate ContainsUpdates() {
      soft.Some? || hard != EMPTY_HARD || |entries| > 0 || |committed| > 0 || |msgs| > 0 || |readStates| > 0
    }
  }

  class NodeLoop {
    const raft: Raft
    var rd: ReadyBatch
    var prevSoft: SoftState
    var prevHard: HardState
    var prevLastIndex: nat
    var prevLastTerm: nat
    var hasPrev: bool
    var awaiting: bool
    /** Log at the last Ready, and everything delivered so far. */
    ghost var readyLog: Log
    ghost var delivered: seq<Entry>

    ghost predicate Valid()
      reads this, raft, raft.log, raft.log.storage, raft.log.unstable
    {
      && raft.Valid()
      && (awaiting && hasPrev ==> raft.log.BatchOf(rd.entries, readyLog))
    }

    /** The loop state as the cluster model has it. */
    ghost function View(): Loop
      reads this
    {
      Loop(awaiting, readyLog, prevHard.commit, delivered)
    }

    constructor (raft: Raft)
      requires raft.Valid() && raft.log.storage.entries[1..] == []
      ensures Valid() && this.raft == raft && View() == Loop(false, [], 0, [])
    {
      this.raft := raft;
      rd := ReadyBatch(None, EMPTY_HARD, [], [], [], []);
      prevSoft := SoftState(raft.lead, raft.role);
      prevHard := EMPTY_HARD;
      prevLastIndex, prevLastTerm, hasPrev, awaiting := 0, 0, false, false;
      readyLog, delivered := [], [];
    }

    /** `newReady`: what changed since the last one. */
    method NewReady() returns (b: ReadyBatch)
      requires Valid() && raft.log.commitIndex <= |raft.log.Flat()|
      ensures NextEntries(raft.View()) == Ok(b.committed)
      ensures b.entries == raft.log.unstable.entries && b.msgs == raft.msgs && b.readStates == raft.readStates
      ensures var hard := HardState(raft.term, raft.vote, raft.log.commitIndex);
              b.hard == if hard == prevHard then EMPTY_HARD else hard
      ensures var soft := SoftState(raft.lead, raft.role);
              b.soft == if soft == prevSoft then None else Some(soft)
    {
      var committed := raft.log.NextEntries();
      var soft := SoftState(raft.lead, raft.role);
      var hard := HardState(raft.term, raft.vote, raft.log.commitIndex);
      b := ReadyBatch(if soft == prevSoft then None else Some(soft), if hard == prevHard then EMPTY_HARD else hard,
                      raft.readStates, raft.log.unstable.entries, committed, raft.msgs);
    }

    /** A message, proposal or campaign request while the application may still be busy with a Ready. */
    method Process(m: Message)
      requires Valid() && RaftSpec.Step(raft.View(), m).Ok?
      requires m.typ == MsgApp ==> Numbered(m.entries, m.logIndex + 1)
      requires m.typ == MsgHeartbeat ==> 1 <= m.term
      modifies raft, raft.log`commitIndex, raft.log.unstable, raft.reads_
      ensures Valid() && View() == old(View()) && raft.View() == RaftSpec.Step(old(raft.View()), m).value
    {
      hide RaftSpec.Step, Numbered;
      raft.Step(m);
    }

    /** Take over what was delivered, for the next comparison and for Advance. */
    method Record(b: ReadyBatch)
      requires Valid() && !awaiting && b.entries == raft.log.unstable.entries
      requires var hard := HardState(raft.term, raft.vote, raft.log.commitIndex);
               b.hard == if hard == prevHard then EMPTY_HARD else hard
      modifies this
      ensures Valid() && View() == Loop(true, raft.log.Flat(), raft.log.commitIndex, old(delivered) + b.committed)
    {
      hide Numbered, LogStore.BatchOf, LogStore.Flat, LogStore.Valid;
      RecordStates(b);
      RecordBatch(b);
    }

    method RecordStates(b: ReadyBatch)
      requires Valid() && !awaiting
      requires var hard := HardState(raft.term, raft.vote, raft.log.commitIndex);
               b.hard == if hard == prevHard then EMPTY_HARD else hard
      modifies this`prevSoft, this`prevHard
      ensures Valid() && prevHard.commit == raft.log.commitIndex
    {
      hide Numbered, LogStore.BatchOf, LogStore.Flat, LogStore.Valid;
      prevSoft := if b.soft.Some? then b.soft.value else prevSoft;
      prevHard := if b.hard != EMPTY_HARD then b.hard else prevHard;
    }

    method RecordBatch(b: ReadyBatch)
      requires Valid() && !awaiting && b.entries == raft.log.unstable.entries
      modifies this`rd, this`hasPrev, this`prevLastIndex, this`prevLastTerm, this`readyLog, this`delivered, this`awaiting
      ensures Valid() && awaiting && readyLog == raft.log.Flat() && delivered == old(delivered) + b.committed
    {
      hide Numbered, LogStore.BatchOf;
      var some, k := |b.entries| > 0, |b.entries| - 1;
      if some { BatchTaken(raft.log); }
      rd, hasPrev, readyLog := b, some, raft.log.Flat();
      prevLastIndex := if some then b.entries[k].index else prevLastIndex;
      prevLastTerm := if some then b.entries[k].term else prevLastTerm;
      delivered := delivered + b.committed;
      awaiting := true;
    }

    /** Deliver a Ready if there is anything to deliver: the committed entries go out and the loop waits. */
    method TakeReady() returns (b: ReadyBatch, taken: bool)
      requires Valid() && !awaiting && raft.log.commitIndex <= |raft.log.Flat()|
      modifies this, raft`msgs, raft`readStates
      ensures Valid() && taken == b.ContainsUpdates()
      ensures NextEntries(old(raft.View())) == Ok(b.committed) && b.entries == old(raft.log.unstable.entries)
      ensures !taken ==> View() == old(View()) && raft.View() == old(raft.View())
      ensures taken ==>
                var n := old(raft.View());
                && raft.View() == n.(msgs := {}, readStates := [])
                && View() == Loop(true, n.log, n.commit, old(delivered) + b.committed)
    {
      hide Numbered, LogStore.BatchOf, NextEntries;
      b := NewReady();
      taken := b.ContainsUpdates();
      if !taken { return; }
      Record(b);
      raft.msgs := [];
      raft.readStates := [];
      assert (set m | m in raft.msgs) == {};
    }

    /** The unpersisted part, taken now, is a batch of the log as it is now. */
    static lemma BatchTaken(log: LogStore)
      requires log.Valid() && log.unstable.entries != []
      ensures log.BatchOf(log.unstable.entries, log.Flat())
    {
      log.FlatNumbered();
    }

    /** Store the hard state and mark the delivered commit index applied. */
    method StoreProgress()
      requires Valid() && AppliedTo(raft.View(), prevHard.commit).Ok?
      modifies raft.log`applyIndex, raft.log.storage`hardState
      ensures Valid() && raft.View() == AppliedTo(old(raft.View()), prevHard.commit).value
      ensures prevHard != EMPTY_HARD ==> raft.log.storage.hardState == prevHard
      ensures raft.log.Flat() == old(raft.log.Flat())
    {
      hide Numbered;
      if prevHard != EMPTY_HARD { raft.log.storage.SetHardState(prevHard); }
      if prevHard.commit != 0 { raft.log.AppliedTo(prevHard.commit); }
    }

    /** The application is done: store the hard state, mark the delivered commit index applied and persist
        the batch. The log does not change, whatever was truncated or replaced meanwhile. */
    method FinishReady()
      requires Valid() && awaiting && AppliedTo(raft.View(), prevHard.commit).Ok?
      requires RaftSafety.Matching(readyLog, raft.log.Flat())
      modifies this, raft.log, raft.log.storage, raft.log.unstable
      ensures Valid() && raft.View() == AppliedTo(old(raft.View()), old(prevHard.commit)).value
      ensures View() == old(View()).(awaiting := false)
      ensures old(hasPrev) ==> raft.log.storage.entries[1..] == readyLog
      ensures prevHard != EMPTY_HARD ==> raft.log.storage.hardState == prevHard
    {
      StoreProgress();
      if hasPrev {
        raft.log.Persist(rd.entries, readyLog);
        hasPrev := false;
      }
      awaiting := false;
    }
  }

  /** In every run, what the loop needs when the application finishes a Ready holds: the applied index may
      move to the delivered commit index and the log at the Ready matches the log now. */
  lemma FinishReadySafe(ss: seq<Cluster>, evs: seq<(NodeId, Event)>, a: nat, i: NodeId)
    requires Run(ss, evs) && a < |ss| && i in ss[a].nodes
    ensures i in ss[a].loops && AppliedTo(ss[a].nodes[i], ss[a].loops[i].readyCommit).Ok?
    ensures RaftSafety.Matching(ss[a].loops[i].readyLog, ss[a].nodes[i].log)
    ensures ss[a].nodes[i].commit <= |ss[a].nodes[i].log|
  {
    hide Run;
    RaftSafety.DeliveredExactlyOnce(ss, evs, a, i);
    RaftSafety.ReadyLogMatches(ss, evs, a, i);
  }

  /** In every run, every message that can arrive meets what the raft object asks of its caller, and
      processing it does not panic. */
  lemma ProcessSafe(ss: seq<Cluster>, evs: seq<(NodeId, Event)>, i: NodeId, m: Message)
    requires Run(ss, evs) && (Enabled(ss[|evs|], i, Deliver(m)) || Enabled(ss[|evs|], i, Local(m)))
    ensures RaftSpec.Step(ss[|evs|].nodes[i], m).Ok?
    ensures m.typ == MsgApp ==> Numbered(m.entries, m.logIndex + 1)
    ensures m.typ == MsgHeartbeat ==> 1 <= m.term
  {
    hide RaftSafety.Inv, RaftSpec.Step, RaftInvariant.Extends;
    var ev := if Enabled(ss[|evs|], i, Deliver(m)) then Deliver(m) else Local(m);
    RaftSafety.NoPanic(ss, evs, i, ev);
    var hs := RaftSafety.RunHistories(ss, evs);
    if m in ss[|evs|].net { ArrivingMessage(ss[|evs|], hs[|evs|], m); }
  }

  lemma ArrivingMessage(s: Cluster, h: RaftInvariant.History, m: Message)
    requires RaftSafety.Inv(s, h) && m in s.net
    ensures m.typ == MsgApp ==> Numbered(m.entries, m.logIndex + 1)
    ensures m.typ == MsgHeartbeat ==> 1 <= m.term
  {
    hide RaftInvariant.NodeOk, RaftSafety.LoopOk, RaftInvariant.LogOk, RaftInvariant.MsgOk, RaftInvariant.HistoryOk;
    MessageCarries(h, m);
    if m.typ == MsgApp {
      RaftSteps.LeaderLogOkH(h, RaftInvariant.TermsOf(s.nodes), m.term);
      EntriesNumbered(h, h.logs[m.term], m.logIndex, m.logIndex + |m.entries|);
    }
  }

  /** An append message carries a piece of its leader's log. */
  lemma MessageCarries(h: RaftInvariant.History, m: Message)
    requires RaftInvariant.MsgOk(h, m)
    ensures m.typ == MsgHeartbeat ==> 1 <= m.term
    ensures m.typ == MsgApp ==> m.term in h.logs && m.logIndex + |m.entries| <= |h.logs[m.term]|
    ensures m.typ == MsgApp ==> m.entries == h.logs[m.term][m.logIndex..m.logIndex + |m.entries|]
  {
  }

  lemma EntriesNumbered(h: RaftInvariant.History, log: Log, p: nat, q: nat)
    requires RaftInvariant.LogOk(h, log) && p <= q <= |log|
    ensures Numbered(log[p..q], p + 1)
  {
  }
}
