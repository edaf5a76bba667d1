/** Safety of every run: elections, log matching, leader completeness, state machine safety, delivery. */
module RaftSafety {
  import opened RaftTypes
  import opened RaftFlatLog
  import opened RaftSpec
  import opened RaftInvariant
  import opened RaftActions
  import opened RaftReplication
  import opened RaftCluster
  import opened RaftSteps
  import opened RaftForward

  /** The delivered entries are exactly the log up to the last Ready's commit index. */
  ghost predicate LoopOk(h: History, n: Node, l: Loop) {
    && n.applied <= l.readyCommit <= n.commit <= |n.log|
    && (!l.awaiting ==> n.applied == l.readyCommit)
    && l.delivered == n.log[..l.readyCommit]
    && LogOk(h, l.readyLog)
  }

  ghost predicate Inv(s: Cluster, h: History) {
    && Good(s.nodes, h)
    && s.loops.Keys == s.nodes.Keys
    && (forall id :: id in s.nodes ==> LoopOk(h, s.nodes[id], s.loops[id]))
    && (forall m :: m in s.net ==> MsgOk(h, m))
  }

  const NO_HISTORY: History := History(map[], map[], map[], map[], map[])

  lemma InitOk(s: Cluster)
    requires Init(s)
    ensures Inv(s, NO_HISTORY)
  {
    hide HistoryOk, NodeOk, TermsOf;
    var h, tm := NO_HISTORY, TermsOf(s.nodes);
    NoHistoryOk(tm);
    forall id | id in s.nodes ensures NodeOk(h, tm, s.nodes[id]) { InitialNodeOk(s, id); }
  }

  lemma NoHistoryOk(tm: Terms)
    ensures HistoryOk(NO_HISTORY, tm)
  {
  }

  lemma InitialNodeOk(s: Cluster, id: NodeId)
    requires Init(s) && id in s.nodes
    ensures NodeOk(NO_HISTORY, TermsOf(s.nodes), s.nodes[id])
  {
    assert forall t: nat, i: nat :: !Own(NO_HISTORY, t, i);
  }

  // --------------------------------------------------------- every event

  lemma LoopForward(h: History, h': History, n: Node, n': Node, l: Loop)
    requires LoopOk(h, n, l) && Extends(h, h') && Forward(n, n')
    ensures LoopOk(h', n', l)
  {
    hide LogOk;
    LogOkExtends(h, h', l.readyLog);
    assert n'.log[..l.readyCommit] == n'.log[..n.commit][..l.readyCommit];
    assert n.log[..l.readyCommit] == n.log[..n.commit][..l.readyCommit];
  }

  lemma LoopExtends(h: History, h': History, n: Node, l: Loop)
    requires LoopOk(h, n, l) && Extends(h, h')
    ensures LoopOk(h', n, l)
  {
    hide LogOk;
    LogOkExtends(h, h', l.readyLog);
  }

  lemma StepNodeKeeps(s: Cluster, h: History, id: NodeId, m: Message) returns (s': Cluster, h': History)
    requires Inv(s, h) && id in s.nodes && Input(h, s.nodes[id], m)
    ensures StepNode(s, id, m) == Ok(s') && Inv(s', h') && Extends(h, h')
  {
    hide Good, Step, LoopOk, MsgOk, Extends, Forward;
    var n := s.nodes[id];
    assert n.id == id by { IdsMatch(s.nodes, h, id); }
    var n', h1 := StepKeeps(s.nodes, h, n, m);
    h' := h1;
    HeartbeatTerm(h, n, m);
    StepForward(n, m);
    s' := s.(nodes := s.nodes[id := n'], net := s.net + n'.msgs);
    forall j | j in s'.nodes ensures LoopOk(h', s'.nodes[j], s'.loops[j]) {
      if j == id { LoopForward(h, h', n, n', s.loops[id]); } else { LoopExtends(h, h', s.nodes[j], s.loops[j]); }
    }
    forall x | x in s'.net ensures MsgOk(h', x) {
      if x in s.net { MsgOkExtends(h, h', x); } else {
        AtNode(s'.nodes, h', n');
        NodeFacts(h', TermsOf(s'.nodes), n');
      }
    }
  }

  lemma IdsMatch(nodes: map<NodeId, Node>, h: History, id: NodeId)
    requires Good(nodes, h) && id in nodes
    ensures nodes[id].id == id
  {
    hide NodeOk, HistoryOk;
  }

  lemma HeartbeatTerm(h: History, n: Node, m: Message)
    requires Input(h, n, m)
    ensures m.typ == MsgHeartbeat ==> 0 < m.term
  {
  }

  lemma ReadyKeeps(s: Cluster, h: History, id: NodeId) returns (s': Cluster)
    requires Inv(s, h) && Enabled(s, id, Ready)
    ensures Apply(s, id, Ready) == Ok(s') && Inv(s', h)
  {
    hide Good, MsgOk, LogOk, NodeOk, HistoryOk, ReadsOk, CommittedBy, TermsOf;
    var n, l := s.nodes[id], s.loops[id];
    IdsMatch(s.nodes, h, id);
    AtNode(s.nodes, h, n);
    NodeFacts(h, TermsOf(s.nodes), n);
    var n' := n.(msgs := {}, readStates := []);
    RaftSteps.ReadsOkFrame(n, n');
    UnseenKeeps(s.nodes, h, n, n');
    s' := Apply(s, id, Ready).value;
    assert LogOk(h, n.log) by { NodeLogOk(h, TermsOf(s.nodes), n); }
    assert n.log[..l.readyCommit] + n.log[n.applied..n.commit] == n.log[..n.commit];
    forall j | j in s'.nodes ensures LoopOk(h, s'.nodes[j], s'.loops[j]) {}
  }

  lemma NodeLogOk(h: History, tm: Terms, n: Node)
    requires NodeOk(h, tm, n)
    ensures LogOk(h, n.log)
  {
    hide LogOk, MsgOk, OldAcksOk, CommitOk, AckOk, LeadOk, CandidateOk, ReadsOk;
  }

  lemma AdvanceKeeps(s: Cluster, h: History, id: NodeId) returns (s': Cluster)
    requires Inv(s, h) && Enabled(s, id, Advance)
    ensures Apply(s, id, Advance) == Ok(s') && Inv(s', h)
  {
    hide Good, MsgOk, LogOk, NodeOk, HistoryOk, ReadsOk, CommittedBy, TermsOf;
    var n, l := s.nodes[id], s.loops[id];
    IdsMatch(s.nodes, h, id);
    AtNode(s.nodes, h, n);
    NodeFacts(h, TermsOf(s.nodes), n);
    assert LoopOk(h, n, l);
    var n' := AppliedTo(n, l.readyCommit).value;
    RaftSteps.ReadsOkFrame(n, n');
    UnseenKeeps(s.nodes, h, n, n');
    s' := Apply(s, id, Advance).value;
    forall j | j in s'.nodes ensures LoopOk(h, s'.nodes[j], s'.loops[j]) {}
  }

  /** No event of a cluster that satisfies the invariant panics, and the invariant goes on to hold. */
  lemma EventKeeps(s: Cluster, h: History, id: NodeId, ev: Event) returns (s': Cluster, h': History)
    requires Inv(s, h) && Enabled(s, id, ev)
    ensures Apply(s, id, ev) == Ok(s') && Inv(s', h') && Extends(h, h')
  {
    hide Good, StepNode, LoopOk, MsgOk, Extends, LocalInput;
    h' := h;
    ExtendsSelf(h);
    IdsMatch(s.nodes, h, id);
    match ev
    case Deliver(m) =>
      assert Input(h, s.nodes[id], m);
      s', h' := StepNodeKeeps(s, h, id, m);
    case Local(m) =>
      assert Input(h, s.nodes[id], m);
      s', h' := StepNodeKeeps(s, h, id, m);
    case Ready => s' := ReadyKeeps(s, h, id);
    case Advance => s' := AdvanceKeeps(s, h, id);
  }

  // ----------------------------------------------------------- every run

  /** Each state of a run has a history that satisfies the invariant; histories only grow. */
  lemma RunHistories(ss: seq<Cluster>, evs: seq<(NodeId, Event)>) returns (hs: seq<History>)
    requires Run(ss, evs)
    ensures |hs| == |ss| && (forall k :: 0 <= k < |ss| ==> Inv(ss[k], hs[k]))
    ensures forall a, b :: 0 <= a <= b < |ss| ==> Extends(hs[a], hs[b])
    decreases |ss|
  {
    hide Inv, Extends, Init, Apply, Enabled;
    if evs == [] {
      InitOk(ss[0]);
      hs := [NO_HISTORY];
      ExtendsSelf(NO_HISTORY);
    } else {
      var k := |evs| - 1;
      assert Run(ss[..k + 1], evs[..k]);
      var hs1 := RunHistories(ss[..k + 1], evs[..k]);
      assert StepOk(ss[k], evs[k].0, evs[k].1, ss[k + 1]);
      var s', h' := EventKeeps(ss[k], hs1[k], evs[k].0, evs[k].1);
      hs := hs1 + [h'];
      forall a, b | 0 <= a <= b < |ss| ensures Extends(hs[a], hs[b]) {
        if b == k + 1 {
          if a == b { ExtendsSelf(h'); } else { ExtendsTransitive(hs[a], hs1[k], h'); }
        }
      }
      forall j | 0 <= j < |ss| ensures Inv(ss[j], hs[j]) {
        if j <= k { assert ss[j] == ss[..k + 1][j]; }
      }
    }
  }

  lemma NodeAt(s: Cluster, h: History, id: NodeId)
    requires Inv(s, h) && id in s.nodes
    ensures NodeOk(h, TermsOf(s.nodes), s.nodes[id]) && HistoryOk(h, TermsOf(s.nodes)) && s.nodes[id].id == id
  {
    hide NodeOk, HistoryOk, MsgOk, LoopOk;
  }

  /** No panic: in every state of every run, every event that can occur returns. */
  lemma NoPanic(ss: seq<Cluster>, evs: seq<(NodeId, Event)>, id: NodeId, ev: Event)
    requires Run(ss, evs) && Enabled(ss[|evs|], id, ev)
    ensures Apply(ss[|evs|], id, ev).Ok?
  {
    hide Inv, Apply, Enabled, Extends;
    var hs := RunHistories(ss, evs);
    var s', h' := EventKeeps(ss[|evs|], hs[|evs|], id, ev);
  }

  lemma LeaderOfTerm(s: Cluster, h: History, id: NodeId)
    requires Inv(s, h) && id in s.nodes && s.nodes[id].role == Leader
    ensures var n := s.nodes[id];
            n.term in h.leaders && h.leaders[n.term] == id && n.term in h.logs && h.logs[n.term] == n.log
  {
    hide Inv, LogOk, MsgOk, OldAcksOk, CommitOk, AckOk, ReadsOk, HistoryOk;
    NodeAt(s, h, id);
  }

  /** Election safety: in a whole run at most one node leads a term. */
  lemma ElectionSafety(ss: seq<Cluster>, evs: seq<(NodeId, Event)>, a: nat, b: nat, i: NodeId, j: NodeId)
    requires Run(ss, evs) && a < |ss| && b < |ss| && i in ss[a].nodes && j in ss[b].nodes
    requires ss[a].nodes[i].role == Leader && ss[b].nodes[j].role == Leader
    requires ss[a].nodes[i].term == ss[b].nodes[j].term
    ensures i == j
  {
    hide Run, Inv;
    var hs := RunHistories(ss, evs);
    LeaderOfTerm(ss[a], hs[a], i);
    LeaderOfTerm(ss[b], hs[b], j);
    assert Extends(hs[a], hs[b]) || Extends(hs[b], hs[a]);
  }

  /** Log matching: same index and term at two nodes, at any two times, means the same log up to there. */
  lemma LogMatchingInRuns(ss: seq<Cluster>, evs: seq<(NodeId, Event)>, a: nat, b: nat, i: NodeId, j: NodeId, k: nat)
    requires Run(ss, evs) && a <= b < |ss| && i in ss[a].nodes && j in ss[b].nodes
    requires 1 <= k <= |ss[a].nodes[i].log| && k <= |ss[b].nodes[j].log|
    requires ss[a].nodes[i].log[k - 1].term == ss[b].nodes[j].log[k - 1].term
    ensures ss[a].nodes[i].log[..k] == ss[b].nodes[j].log[..k]
  {
    hide Run, Inv, LogOk, NodeOk, HistoryOk, Extends;
    var hs := RunHistories(ss, evs);
    NodeAt(ss[a], hs[a], i);
    NodeAt(ss[b], hs[b], j);
    NodeLogOk(hs[a], TermsOf(ss[a].nodes), ss[a].nodes[i]);
    NodeLogOk(hs[b], TermsOf(ss[b].nodes), ss[b].nodes[j]);
    LogOkExtends(hs[a], hs[b], ss[a].nodes[i].log);
    LogMatching(hs[b], ss[a].nodes[i].log, ss[b].nodes[j].log, k);
  }

  lemma CommitOkAt(s: Cluster, h: History, id: NodeId)
    requires Inv(s, h) && id in s.nodes
    ensures CommitOk(h, s.nodes[id])
  {
    hide Inv, LogOk, MsgOk, OldAcksOk, CommitOk, AckOk, LeadOk, CandidateOk, ReadsOk, HistoryOk;
    NodeAt(s, h, id);
  }

  /** Any two committed prefixes agree. */
  lemma CommitsAgree(h: History, tm: Terms, n: Node, n': Node, k: nat)
    requires HistoryOk(h, tm) && CommitOk(h, n) && CommitOk(h, n') && k <= n.commit && k <= n'.commit
    ensures n.log[..k] == n'.log[..k]
  {
    hide LogOk, LeadersOk, BallotsOk, AcksOk, VotesRespectAcks;
    if k != 0 {
      var u: nat :| CommitFrom(h, n, u);
      var v: nat :| CommitFrom(h, n', v);
      assert n.log[..k] == h.logs[u][..k] by { assert n.log[..k] == n.log[..n.commit][..k]; }
      assert n'.log[..k] == h.logs[v][..k] by { assert n'.log[..k] == n'.log[..n'.commit][..k]; }
      if u < v {
        MarkHolds(h, tm, u, v);
        assert h.logs[u][..k] == h.logs[u][..h.marks[u]][..k];
      } else if v < u {
        MarkHolds(h, tm, v, u);
        assert h.logs[v][..k] == h.logs[v][..h.marks[v]][..k];
      }
    }
  }

  /** State machine safety: two nodes, at any two times, never commit different entries at one index. */
  lemma StateMachineSafety(ss: seq<Cluster>, evs: seq<(NodeId, Event)>, a: nat, b: nat, i: NodeId, j: NodeId, k: nat)
    requires Run(ss, evs) && a <= b < |ss| && i in ss[a].nodes && j in ss[b].nodes
    requires k <= ss[a].nodes[i].commit && k <= ss[b].nodes[j].commit
    ensures k <= |ss[a].nodes[i].log| && k <= |ss[b].nodes[j].log|
    ensures ss[a].nodes[i].log[..k] == ss[b].nodes[j].log[..k]
  {
    hide Run, Inv, LogOk, NodeOk, HistoryOk, Extends;
    var hs := RunHistories(ss, evs);
    CommitOkAt(ss[a], hs[a], i);
    CommitOkAt(ss[b], hs[b], j);
    CommitOkExtends(hs[a], hs[b], ss[a].nodes[i]);
    NodeAt(ss[b], hs[b], j);
    CommitsAgree(hs[b], TermsOf(ss[b].nodes), ss[a].nodes[i], ss[b].nodes[j], k);
  }

  /** Leader completeness: a leader of the same or a later term holds whatever a node had committed. */
  lemma LeaderCompleteness(ss: seq<Cluster>, evs: seq<(NodeId, Event)>, a: nat, b: nat, i: NodeId, j: NodeId)
    requires Run(ss, evs) && a <= b < |ss| && i in ss[a].nodes && j in ss[b].nodes
    requires ss[b].nodes[j].role == Leader && ss[a].nodes[i].term <= ss[b].nodes[j].term
    ensures ss[a].nodes[i].commit <= |ss[a].nodes[i].log|
    ensures ss[a].nodes[i].log[..ss[a].nodes[i].commit] <= ss[b].nodes[j].log
  {
    hide Run, Inv, LogOk, NodeOk, Extends, LeadersOk, BallotsOk, AcksOk, VotesRespectAcks, Completeness, MarksOk;
    var hs := RunHistories(ss, evs);
    var n, n' := ss[a].nodes[i], ss[b].nodes[j];
    CommitOkAt(ss[a], hs[a], i);
    CommitOkExtends(hs[a], hs[b], n);
    NodeAt(ss[b], hs[b], j);
    LeaderOfTerm(ss[b], hs[b], j);
    if n.commit != 0 {
      var u: nat :| CommitFrom(hs[b], n, u);
      if u < n'.term {
        MarkHolds(hs[b], TermsOf(ss[b].nodes), u, n'.term);
        assert n.log[..n.commit] == hs[b].logs[u][..hs[b].marks[u]][..n.commit];
      }
    }
  }

  // ------------------------------------------------------------- delivery

  /** Exactly once: what a node's application received is the log from index 1 to the last Ready's commit
      index, in order; everything applied was received and, once a Ready is advanced, all received is applied. */
  lemma DeliveredExactlyOnce(ss: seq<Cluster>, evs: seq<(NodeId, Event)>, a: nat, i: NodeId)
    requires Run(ss, evs) && a < |ss| && i in ss[a].nodes
    ensures i in ss[a].loops
    ensures var n, l := ss[a].nodes[i], ss[a].loops[i];
            && n.applied <= l.readyCommit <= n.commit <= |n.log|
            && l.delivered == n.log[..l.readyCommit]
            && (!l.awaiting ==> n.applied == l.readyCommit)
            && forall k :: 0 <= k < |l.delivered| ==> l.delivered[k].index == k + 1
  {
    hide Run, NodeOk, HistoryOk, Extends, Good, MsgOk;
    var hs := RunHistories(ss, evs);
    NodeAt(ss[a], hs[a], i);
    NodeLogOk(hs[a], TermsOf(ss[a].nodes), ss[a].nodes[i]);
  }

  /** The applications of two nodes, at any two times, have received prefixes of one sequence. */
  lemma DeliveriesAgree(ss: seq<Cluster>, evs: seq<(NodeId, Event)>, a: nat, b: nat, i: NodeId, j: NodeId)
    requires Run(ss, evs) && a <= b < |ss| && i in ss[a].nodes && j in ss[b].nodes && i in ss[a].loops && j in ss[b].loops
    ensures ss[a].loops[i].delivered <= ss[b].loops[j].delivered || ss[b].loops[j].delivered <= ss[a].loops[i].delivered
  {
    hide Run;
    DeliveredExactlyOnce(ss, evs, a, i);
    DeliveredExactlyOnce(ss, evs, b, j);
    var k := Min(|ss[a].loops[i].delivered|, |ss[b].loops[j].delivered|);
    StateMachineSafety(ss, evs, a, b, i, j, k);
    assert ss[a].loops[i].delivered[..k] == ss[a].nodes[i].log[..k];
    assert ss[b].loops[j].delivered[..k] == ss[b].nodes[j].log[..k];
  }

  /** Same index and term in two logs force the same entries up to there. */
  ghost predicate Matching(a: Log, b: Log) {
    forall k :: 1 <= k <= |a| && k <= |b| && a[k - 1].term == b[k - 1].term ==> a[..k] == b[..k]
  }

  /** The log a node had at its last Ready matches its log now: what persisting the batch relies on. */
  lemma ReadyLogMatches(ss: seq<Cluster>, evs: seq<(NodeId, Event)>, a: nat, i: NodeId)
    requires Run(ss, evs) && a < |ss| && i in ss[a].nodes
    ensures i in ss[a].loops && Matching(ss[a].loops[i].readyLog, ss[a].nodes[i].log)
  {
    hide Run, NodeOk, HistoryOk, Extends, Good, MsgOk, LogOk;
    var hs := RunHistories(ss, evs);
    NodeAt(ss[a], hs[a], i);
    NodeLogOk(hs[a], TermsOf(ss[a].nodes), ss[a].nodes[i]);
    var l, n := ss[a].loops[i], ss[a].nodes[i];
    assert LoopOk(hs[a], n, l);
    forall k | 1 <= k <= |l.readyLog| && k <= |n.log| && l.readyLog[k - 1].term == n.log[k - 1].term
      ensures l.readyLog[..k] == n.log[..k]
    {
      LogMatching(hs[a], l.readyLog, n.log, k);
    }
  }
}
