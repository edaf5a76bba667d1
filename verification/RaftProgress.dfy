/** Progress: from every reachable cluster some schedule elects a leader, commits and delivers its log and a new entry
    everywhere, and answers a read. */
module RaftProgress {
  import opened RaftTypes
  import opened RaftFlatLog
  import opened RaftSpec
  import opened RaftInvariant
  import opened RaftActions
  import opened RaftReplication
  import opened RaftCluster
  import opened RaftSteps
  import opened RaftSafety
  import opened RaftCommits
  import opened RaftHandlers

  // --------------------------------------------------------------- paths

  ghost predicate Path(ss: seq<Cluster>, evs: seq<(NodeId, Event)>) {
    |ss| == |evs| + 1 && forall k :: 0 <= k < |evs| ==> StepOk(ss[k], evs[k].0, evs[k].1, ss[k + 1])
  }

  ghost predicate Links(s: Cluster, ss: seq<Cluster>, evs: seq<(NodeId, Event)>, s': Cluster) {
    Path(ss, evs) && ss[0] == s && ss[|evs|] == s'
  }

  /** Only the members of ids have changed. */
  ghost predicate Except(s: Cluster, s': Cluster, ids: set<NodeId>) {
    s'.nodes.Keys == s.nodes.Keys && forall j :: j in s.nodes && j !in ids ==> s'.nodes[j] == s.nodes[j]
  }

  lemma ExceptThen(s: Cluster, s1: Cluster, s': Cluster, ids: set<NodeId>, id: NodeId)
    requires Except(s, s1, ids - {id}) && Except(s1, s', {id}) && id in ids
    ensures Except(s, s', ids)
  {
  }

  /** Some events lead from one cluster to the other. */
  ghost predicate Reaches(s: Cluster, s': Cluster) { exists ss, evs :: Links(s, ss, evs, s') }

  lemma Stay(s: Cluster)
    ensures Reaches(s, s)
  {
    assert Links(s, [s], [], s);
  }

  lemma Then(s: Cluster, s1: Cluster, s2: Cluster)
    requires Reaches(s, s1) && Reaches(s1, s2)
    ensures Reaches(s, s2)
  {
    hide StepOk;
    var ss: seq<Cluster>, evs: seq<(NodeId, Event)> :| Links(s, ss, evs, s1);
    var ts: seq<Cluster>, fvs: seq<(NodeId, Event)> :| Links(s1, ts, fvs, s2);
    var us, gvs := ss + ts[1..], evs + fvs;
    forall k | 0 <= k < |gvs| ensures StepOk(us[k], gvs[k].0, gvs[k].1, us[k + 1]) {
      if k >= |evs| {
        assert StepOk(ts[k - |evs|], fvs[k - |evs|].0, fvs[k - |evs|].1, ts[k - |evs| + 1]);
        assert us[k] == ts[k - |evs|] && us[k + 1] == ts[k - |evs| + 1];
      }
    }
    assert us[|gvs|] == s2;
    assert Links(s, us, gvs, s2);
  }

  ghost predicate RunTo(ss: seq<Cluster>, evs: seq<(NodeId, Event)>, s: Cluster) { Run(ss, evs) && ss[|evs|] == s }

  /** Some run ends in s. */
  ghost predicate Live(s: Cluster) { exists ss, evs :: RunTo(ss, evs, s) }

  lemma LiveInv(s: Cluster) returns (h: History)
    requires Live(s)
    ensures Inv(s, h) && CommitInv(s)
  {
    hide Inv, CommitInv, Run, Extends;
    var ss: seq<Cluster>, evs: seq<(NodeId, Event)> :| RunTo(ss, evs, s);
    var hs := RunHistories(ss, evs);
    assert |ss| == |evs| + 1 by { RunLength(ss, evs); }
    assert RaftReads.Witnessed(ss, evs, hs);
    RunCommits(ss, evs, hs, |evs|);
    h := hs[|evs|];
  }

  lemma RunLength(ss: seq<Cluster>, evs: seq<(NodeId, Event)>)
    requires Run(ss, evs)
    ensures |ss| == |evs| + 1
  {
    hide StepOk, Init;
  }

  lemma Take(s: Cluster, id: NodeId, ev: Event) returns (s': Cluster)
    requires Live(s) && Enabled(s, id, ev)
    ensures Apply(s, id, ev) == Ok(s') && Live(s') && Reaches(s, s')
  {
    hide Inv, CommitInv, Enabled, Apply, Extends, Init;
    var h := LiveInv(s);
    var h';
    s', h' := EventKeeps(s, h, id, ev);
    assert StepOk(s, id, ev, s');
    assert Links(s, [s, s'], [(id, ev)], s');
    hide StepOk;
    var ss: seq<Cluster>, evs: seq<(NodeId, Event)> :| RunTo(ss, evs, s);
    forall k | 0 <= k < |evs| + 1 ensures StepOk((ss + [s'])[k], (evs + [(id, ev)])[k].0, (evs + [(id, ev)])[k].1, (ss + [s'])[k + 1]) {
      if k < |evs| { assert StepOk(ss[k], evs[k].0, evs[k].1, ss[k + 1]); }
    }
    assert RunTo(ss + [s'], evs + [(id, ev)], s');
  }

  // ------------------------------------------------- facts of live clusters

  /** One node of a live cluster. */
  ghost predicate Tidy(s: Cluster, id: NodeId)
    requires id in s.nodes
  {
    var n := s.nodes[id];
    && n.id == id && id != NONE && 1 <= n.term && n.prs.Keys == s.nodes.Keys && n.applied <= n.commit <= |n.log|
    && Numbered(n.log) && TermsRise(n.log, n.term) && Queued(n.readOnly)
    && (n.role == Leader ==> forall i :: i in n.prs && i != id ==> n.prs[i].next <= |n.log| + 1)
    && CommitsAll(n)
  }

  lemma LiveTidy(s: Cluster, id: NodeId)
    requires Live(s) && id in s.nodes
    ensures Tidy(s, id)
  {
    hide Inv, NodeOk, HistoryOk, CommitsAll, SoloOk;
    var h := LiveInv(s);
    NodeAt(s, h, id);
    TidyNode(h, TermsOf(s.nodes), s.nodes[id]);
  }

  lemma TidyNode(h: History, tm: Terms, n: Node)
    requires NodeOk(h, tm, n)
    ensures n.id != NONE && 1 <= n.term && n.prs.Keys == tm.Keys && n.applied <= n.commit <= |n.log|
    ensures Numbered(n.log) && TermsRise(n.log, n.term) && Queued(n.readOnly)
    ensures n.role == Leader ==> forall i :: i in n.prs && i != n.id ==> n.prs[i].next <= |n.log| + 1
  {
    hide MsgOk, OldAcksOk, AckOk, CandidateOk, VoteOk, BallotsOk, Completeness, VotesRespectAcks, MarksOk;
    NodeFacts(h, tm, n);
    hide CommitOk;
  }

  lemma LiveLoops(s: Cluster)
    requires Live(s)
    ensures s.loops.Keys == s.nodes.Keys
    ensures forall id :: id in s.nodes ==>
      s.nodes[id].applied <= s.loops[id].readyCommit <= s.nodes[id].commit <= |s.nodes[id].log|
      && s.loops[id].delivered == s.nodes[id].log[..s.loops[id].readyCommit]
      && (!s.loops[id].awaiting ==> s.nodes[id].applied == s.loops[id].readyCommit)
  {
    hide Good, CommitInv, MsgOk, LogOk;
    var h := LiveInv(s);
    forall id | id in s.nodes ensures LoopOk(h, s.nodes[id], s.loops[id]) {}
  }

  /** A member of the leader's term whose log meets the leader's at its end has the leader's log. */
  lemma SameLog(s: Cluster, c: NodeId, j: NodeId)
    requires Live(s) && c in s.nodes && j in s.nodes && s.nodes[c].role == Leader && s.nodes[j].term == s.nodes[c].term
    requires var l := s.nodes[c].log; l != [] && l[|l| - 1].term == s.nodes[c].term && MeetAt(s.nodes[j].log, l, |l|)
    ensures s.nodes[j].log == s.nodes[c].log
  {
    hide Inv, NodeOk, HistoryOk, LogOk, CommitInv;
    var h := LiveInv(s);
    var l, log := s.nodes[c].log, s.nodes[j].log;
    NodeAt(s, h, c);
    NodeAt(s, h, j);
    NodeLogOk(h, TermsOf(s.nodes), s.nodes[c]);
    NodeLogOk(h, TermsOf(s.nodes), s.nodes[j]);
    TidyNode(h, TermsOf(s.nodes), s.nodes[j]);
    LeaderOfTerm(s, h, c);
    LogMatching(h, log, l, |l|);
    if |log| > |l| {
      assert log[|l|].term >= log[|l| - 1].term;
      EntryPrefix(h, log, |l|);
      assert false;
    }
  }

  lemma EntryPrefix(h: History, log: Log, i: nat)
    requires LogOk(h, log) && i < |log|
    ensures log[i].term in h.logs && i < |h.logs[log[i].term]|
  {
  }

  /** Two leaders of one term are one, and its voters have reached that term. */
  lemma OtherAtTop(s: Cluster, x: NodeId) returns (d: NodeId)
    requires Live(s) && x in s.nodes && |s.nodes| >= 2 && forall j :: j in s.nodes ==> s.nodes[j].term <= s.nodes[x].term
    ensures d in s.nodes && s.nodes[d].term == s.nodes[x].term && s.nodes[d].role != Leader
  {
    hide Inv, NodeOk, HistoryOk, CommitInv;
    if s.nodes[x].role != Leader {
      d := x;
    } else {
      var h := LiveInv(s);
      var tm, t := TermsOf(s.nodes), s.nodes[x].term;
      NodeAt(s, h, x);
      LeaderOfTerm(s, h, x);
      var q := TopVoters(h, tm, t, x);
      assert |tm.Keys| == |s.nodes| by { assert tm.Keys == s.nodes.Keys; assert |s.nodes.Keys| == |s.nodes|; }
      if q <= {x} { CardinalityMonotone(q, {x}); }
      d :| d in q && d != x;
      if s.nodes[d].role == Leader { LeaderOfTerm(s, h, d); }
    }
  }

  lemma TopVoters(h: History, tm: Terms, t: nat, x: NodeId) returns (q: set<NodeId>)
    requires HistoryOk(h, tm) && t in h.leaders && h.leaders[t] == x
    ensures Majority(tm, q) && forall j :: j in q ==> t <= tm[j]
  {
    hide LogOk, Completeness, VotesRespectAcks, MarksOk;
    assert t in h.logs && LeaderOk(h, tm, t);
    q := Voters(h, tm, t, x);
  }

  // --------------------------------------------------------------- moves

  /** One node handles one message. */
  lemma Handle(s: Cluster, id: NodeId, m: Message) returns (s': Cluster)
    requires Live(s) && id in s.nodes && ((m in s.net && m.to == id) || LocalInput(id, m))
    ensures Step(s.nodes[id], m).Ok?
    ensures s' == s.(nodes := s.nodes[id := Step(s.nodes[id], m).value], net := s.net + Step(s.nodes[id], m).value.msgs)
    ensures Live(s') && Reaches(s, s')
  {
    hide Live, Reaches, Step, LocalInput;
    LiveLoops(s);
    if m in s.net && m.to == id {
      s' := Take(s, id, Deliver(m));
    } else {
      s' := Take(s, id, Local(m));
    }
  }

  /** Only what a Ready or an Advance touches differs. */
  ghost predicate OnlyLoop(n: Node, n': Node) {
    n' == n.(applied := n'.applied, msgs := n'.msgs, readStates := n'.readStates)
  }

  /** Members have only taken their Readies. */
  ghost predicate Idle(s: Cluster, s': Cluster) {
    s'.net == s.net && s'.nodes.Keys == s.nodes.Keys && forall id :: id in s.nodes ==> OnlyLoop(s.nodes[id], s'.nodes[id])
  }

  ghost predicate Settled(s: Cluster, id: NodeId) {
    id in s.nodes && id in s.loops && s.nodes[id].applied == s.nodes[id].commit
    && s.nodes[id].commit <= |s.nodes[id].log| && s.loops[id].delivered == s.nodes[id].log[..s.nodes[id].commit]
  }

  /** Only member id moved, and only its loop. */
  ghost predicate LoopMoved(s: Cluster, s': Cluster, id: NodeId)
    requires id in s.nodes
  {
    && id in s'.nodes && s'.nodes == s.nodes[id := s'.nodes[id]] && OnlyLoop(s.nodes[id], s'.nodes[id])
    && id in s'.loops && s'.loops == s.loops[id := s'.loops[id]] && s'.net == s.net
  }

  lemma AdvanceOne(s: Cluster, id: NodeId) returns (s': Cluster)
    requires Live(s) && id in s.nodes
    ensures Live(s') && Reaches(s, s') && LoopMoved(s, s', id) && !s'.loops[id].awaiting
    ensures id in s.loops && s'.loops[id].readyCommit == s.loops[id].readyCommit
  {
    hide Live, Reaches;
    LiveLoops(s);
    if s.loops[id].awaiting {
      s' := Take(s, id, Advance);
    } else {
      s' := s;
      Stay(s);
    }
  }

  lemma ReadyOne(s: Cluster, id: NodeId) returns (s': Cluster)
    requires Live(s) && id in s.nodes && id in s.loops && !s.loops[id].awaiting
    ensures Live(s') && Reaches(s, s') && LoopMoved(s, s', id) && s'.loops[id].readyCommit == s.nodes[id].commit
  {
    hide Live, Reaches;
    s' := Take(s, id, Ready);
  }

  /** A member's application takes and processes everything committed. */
  lemma SettleOne(s: Cluster, id: NodeId) returns (s': Cluster)
    requires Live(s) && id in s.nodes
    ensures Live(s') && Reaches(s, s') && LoopMoved(s, s', id) && Settled(s', id)
  {
    hide Live, Reaches;
    var s1 := AdvanceOne(s, id);
    var s2 := ReadyOne(s1, id);
    s' := AdvanceOne(s2, id);
    Then(s, s1, s2);
    Then(s, s2, s');
    LiveLoops(s');
  }

  lemma Settle(s: Cluster, ids: set<NodeId>) returns (s': Cluster)
    requires Live(s) && ids <= s.nodes.Keys
    ensures Live(s') && Reaches(s, s') && Idle(s, s') && forall id :: id in ids ==> Settled(s', id)
  {
    hide Live, Reaches;
    if ids == {} {
      s' := s;
      Stay(s);
    } else {
      var id :| id in ids;
      var s1 := Settle(s, ids - {id});
      s' := SettleOne(s1, id);
      Then(s, s1, s');
      assert forall j :: j in ids && j != id ==> Settled(s1, j) && s'.nodes[j] == s1.nodes[j] && s'.loops[j] == s1.loops[j];
    }
  }

  // ------------------------------------------------------------ election

  ghost predicate Asks(s: Cluster, c: NodeId) {
    && c in s.nodes && s.nodes[c].id == c && s.nodes[c].role == Candidate && s.nodes[c].votes == map[c := true]
    && forall j :: j in s.nodes && j != c ==> VoteMsg(s.nodes[c], j) in s.net
  }

  lemma Campaign(s: Cluster, c: NodeId) returns (s': Cluster)
    requires Live(s) && |s.nodes| >= 2 && c in s.nodes
    requires s.nodes[c].role != Leader && !s.nodes[c].preVote && s.nodes[c].applied == s.nodes[c].commit
    ensures Live(s') && Reaches(s, s') && Asks(s', c) && s'.nodes == s.nodes[c := s'.nodes[c]]
    ensures KeepsLog(s.nodes[c], s'.nodes[c]) && s'.nodes[c].term == s.nodes[c].term + 1
  {
    hide Live, Reaches, Step, CommitsAll, TermsRise, Numbered, Queued;
    LiveTidy(s, c);
    assert |s.nodes[c].prs| == |s.nodes[c].prs.Keys| && |s.nodes| == |s.nodes.Keys|;
    HupCampaigns(s.nodes[c]);
    s' := Handle(s, c, HUP);
  }

  /** Member j has heard of c's campaign, and voted for it if c's log is recent enough. */
  ghost predicate Heard(s: Cluster, s': Cluster, c: NodeId, j: NodeId)
    requires j in s.nodes && j in s'.nodes && c in s'.nodes
  {
    && KeepsLog(s.nodes[j], s'.nodes[j]) && s'.nodes[j].role == Follower && s'.nodes[j].term == s'.nodes[c].term
    && (Recent(s'.nodes[c].log, s.nodes[j].log) ==> VoteReply(s'.nodes[j], c) in s'.net)
  }

  lemma AskOne(s: Cluster, c: NodeId, j: NodeId) returns (s': Cluster)
    requires Live(s) && Asks(s, c) && j in s.nodes && j != c && s.nodes[j].term < s.nodes[c].term
    ensures Live(s') && Reaches(s, s') && s'.nodes.Keys == s.nodes.Keys && s.net <= s'.net
    ensures s'.nodes == s.nodes[j := s'.nodes[j]] && Heard(s, s', c, j)
  {
    hide Live, Reaches, Step, CommitsAll, TermsRise, Numbered, Queued, Recent;
    LiveTidy(s, j);
    var n, m := s.nodes[j], VoteMsg(s.nodes[c], j);
    VoteObserved(n, m);
    if Recent(s.nodes[c].log, n.log) { VoteGranted(n, s.nodes[c]); }
    s' := Handle(s, j, m);
  }

  lemma Ask(s: Cluster, c: NodeId, ids: set<NodeId>) returns (s': Cluster)
    requires Live(s) && Asks(s, c) && ids <= s.nodes.Keys - {c} && forall j :: j in ids ==> s.nodes[j].term < s.nodes[c].term
    ensures Live(s') && Reaches(s, s') && s'.nodes.Keys == s.nodes.Keys && s.net <= s'.net
    ensures forall j :: j in s.nodes ==> if j in ids then Heard(s, s', c, j) else s'.nodes[j] == s.nodes[j]
  {
    hide Live, Reaches, Recent, VoteReply, VoteMsg, KeepsLog;
    if ids == {} {
      s' := s;
      Stay(s);
    } else {
      var id :| id in ids;
      var s1 := Ask(s, c, ids - {id});
      s' := AskOne(s1, c, id);
      Then(s, s1, s');
    }
  }

  lemma CountOne(s: Cluster, c: NodeId, j: NodeId) returns (s': Cluster)
    requires Live(s) && c in s.nodes && j in s.nodes && s.nodes[c].role == Candidate && s.nodes[j].term == s.nodes[c].term
    requires VoteReply(s.nodes[j], c) in s.net && j !in s.nodes[c].votes && forall i :: i in s.nodes[c].votes ==> s.nodes[c].votes[i]
    requires 2 * (|s.nodes[c].votes| + 1) <= |s.nodes|
    ensures Live(s') && Reaches(s, s') && s.net <= s'.net && Except(s, s', {c})
    ensures s'.nodes[c] == s.nodes[c].(votes := s.nodes[c].votes[j := true])
  {
    hide Live, Reaches, Step, CommitsAll, TermsRise, Numbered, Queued;
    LiveTidy(s, c);
    LiveTidy(s, j);
    assert |s.nodes[c].prs| == |s.nodes[c].prs.Keys| && |s.nodes| == |s.nodes.Keys|;
    VoteCounted(s.nodes[c], j);
    s' := Handle(s, c, VoteReply(s.nodes[j], c));
  }

  /** Member c has its own vote and those of ids. */
  ghost predicate Has(n: Node, ids: set<NodeId>) {
    n.role == Candidate && n.votes.Keys == ids && forall i :: i in n.votes ==> n.votes[i]
  }

  /** Votes for c are on their way from ids. */
  ghost predicate Coming(s: Cluster, c: NodeId, ids: set<NodeId>) {
    && ids <= s.nodes.Keys - {c} && c in s.nodes
    && forall j :: j in ids ==> s.nodes[j].term == s.nodes[c].term && VoteReply(s.nodes[j], c) in s.net
  }

  lemma Count(s: Cluster, c: NodeId, ids: set<NodeId>) returns (s': Cluster)
    requires Live(s) && Coming(s, c, ids) && Has(s.nodes[c], {c}) && 2 * (|ids| + 1) <= |s.nodes|
    ensures Live(s') && Reaches(s, s') && Counted(s, s', c, {c} + ids)
  {
    hide *;
    if ids == {} {
      s' := s;
      Stay(s);
      NoneCounted(s, c, ids);
      assert {c} + ids == {c};
    } else {
      var id :| id in ids;
      var rest := ids - {id};
      assert |rest| == |ids| - 1;
      FewerComing(s, c, ids, id);
      var s1 := Count(s, c, rest);
      OneComing(s, s1, c, ids, id);
      s' := CountOne(s1, c, id);
      Then(s, s1, s');
      assert {c} + ids == {c} + rest + {id};
      OneMoreCounted(s, s1, s', c, {c} + rest, id);
    }
  }

  /** Only c has changed, and only its votes: they are now those of ids. */
  ghost predicate Counted(s: Cluster, s': Cluster, c: NodeId, ids: set<NodeId>) {
    && c in s.nodes && c in s'.nodes && s.net <= s'.net && Except(s, s', {c})
    && s'.nodes[c] == s.nodes[c].(votes := s'.nodes[c].votes) && Has(s'.nodes[c], ids)
  }

  lemma NoneCounted(s: Cluster, c: NodeId, ids: set<NodeId>)
    requires Coming(s, c, ids) && Has(s.nodes[c], {c})
    ensures Counted(s, s, c, {c})
  {
  }

  lemma FewerComing(s: Cluster, c: NodeId, ids: set<NodeId>, id: NodeId)
    requires Coming(s, c, ids)
    ensures c in s.nodes && Coming(s, c, ids - {id})
  {
    hide VoteReply;
  }

  lemma OneComing(s: Cluster, s1: Cluster, c: NodeId, ids: set<NodeId>, id: NodeId)
    requires Coming(s, c, ids) && id in ids && Counted(s, s1, c, {c} + (ids - {id}))
    ensures c in s1.nodes && id in s1.nodes && s1.nodes[c].role == Candidate && s1.nodes[id].term == s1.nodes[c].term
    ensures VoteReply(s1.nodes[id], c) in s1.net && id !in s1.nodes[c].votes && forall i :: i in s1.nodes[c].votes ==> s1.nodes[c].votes[i]
    ensures |s1.nodes| == |s.nodes| && |s1.nodes[c].votes| == |ids|
  {
    hide VoteReply;
    assert |s1.nodes| == |s1.nodes.Keys| && |s.nodes| == |s.nodes.Keys|;
    assert |s1.nodes[c].votes| == |s1.nodes[c].votes.Keys|;
    assert |ids - {id}| == |ids| - 1;
    assert |{c} + (ids - {id})| == |ids|;
  }

  lemma OneMoreCounted(s: Cluster, s1: Cluster, s': Cluster, c: NodeId, ids: set<NodeId>, id: NodeId)
    requires Counted(s, s1, c, ids) && Except(s1, s', {c}) && s1.net <= s'.net
    requires s'.nodes[c] == s1.nodes[c].(votes := s1.nodes[c].votes[id := true])
    ensures Counted(s, s', c, ids + {id})
  {
  }

  lemma VoteSame(n: Node, n': Node, c: NodeId)
    requires n'.id == n.id && n'.term == n.term
    ensures VoteReply(n', c) == VoteReply(n, c)
  {
  }

  /** Member c leads, all others follow in its term, and its log ends with an entry of its term. */
  ghost predicate Leads(s: Cluster, c: NodeId) {
    && c in s.nodes && s.nodes[c].id == c && s.nodes[c].role == Leader && s.nodes[c].prs.Keys == s.nodes.Keys
    && s.nodes[c].log != [] && s.nodes[c].log[|s.nodes[c].log| - 1].term == s.nodes[c].term
    && s.nodes[c].prs[c].matched >= |s.nodes[c].log|
    && forall j :: j in s.nodes && j != c ==> s.nodes[j].role == Follower && s.nodes[j].term == s.nodes[c].term
  }

  /** What member j misses of c's log is on its way. */
  ghost predicate Sending(s: Cluster, c: NodeId, j: NodeId) {
    && c in s.nodes && j in s.nodes[c].prs && s.nodes[c].prs[j].next <= |s.nodes[c].log| + 1
    && AppMsg(s.nodes[c], j, s.nodes[c].prs[j].next) in s.net
  }

  /** The vote that makes the majority. */
  lemma ElectOne(s: Cluster, c: NodeId, j: NodeId) returns (s': Cluster)
    requires Live(s) && c in s.nodes && j in s.nodes && Has(s.nodes[c], s.nodes[c].votes.Keys) && s.nodes[j].term == s.nodes[c].term
    requires VoteReply(s.nodes[j], c) in s.net && j !in s.nodes[c].votes
    requires |s.nodes| / 2 == |s.nodes[c].votes| && |s.nodes| >= 2
    requires forall i :: i in s.nodes && i != c ==> s.nodes[i].role == Follower && s.nodes[i].term == s.nodes[c].term
    ensures Live(s') && Reaches(s, s') && Except(s, s', {c}) && Leads(s', c)
    ensures forall i :: i in s.nodes && i != c ==> Sending(s', c, i)
    ensures s'.nodes[c].term == s.nodes[c].term && s.nodes[c].log <= s'.nodes[c].log && Configured(s.nodes[c], s'.nodes[c])
  {
    hide Live, Reaches, Step, CommitsAll, TermsRise, Numbered, Queued;
    LiveTidy(s, c);
    LiveTidy(s, j);
    assert |s.nodes[c].prs| == |s.nodes[c].prs.Keys| && |s.nodes| == |s.nodes.Keys|;
    VoteSame(s.nodes[j], s.nodes[c].(id := j), c);
    s' := Handle(s, c, VoteReply(s.nodes[j], c));
    VoteElects(s.nodes[c], j);
    hide VoteReply, AppMsg, Tidy, Leads, Sending, Except;
    LeadsNow(s, s', c);
  }

  lemma LeadsNow(s: Cluster, s': Cluster, c: NodeId)
    requires c in s.nodes && c in s'.nodes && s'.nodes == s.nodes[c := s'.nodes[c]] && s'.nodes[c].msgs <= s'.net
    requires forall i :: i in s.nodes && i != c ==> s.nodes[i].role == Follower && s.nodes[i].term == s.nodes[c].term
    requires var n, n' := s.nodes[c], s'.nodes[c];
             && n'.id == c && n'.prs.Keys == s.nodes.Keys && n'.term == n.term && n'.role == Leader
             && n'.log == n.log + [Entry(n.term, |n.log| + 1, EntryNormal, [])] && n'.prs[c].matched >= |n'.log|
             && (forall i :: i in s.nodes && i != c ==> n'.prs[i] == Progress(0, |n.log| + 1) && AppMsg(n', i, |n.log| + 1) in n'.msgs)
    ensures Except(s, s', {c}) && Leads(s', c) && forall i :: i in s.nodes && i != c ==> Sending(s', c, i)
  {
    hide AppMsg;
  }

  /** Configuration and reads stay. */
  ghost predicate Configured(n: Node, n': Node) { n'.preVote == n.preVote && n'.readOnly == n.readOnly }

  lemma Some<T>(ids: set<T>, k: nat) returns (some: set<T>)
    requires k <= |ids|
    ensures some <= ids && |some| == k
  {
    if k == |ids| {
      some := ids;
    } else {
      var id :| id in ids;
      some := Some(ids - {id}, k);
    }
  }

  /** All others have voted for c: it becomes the leader. */
  lemma Elect(s: Cluster, c: NodeId) returns (s': Cluster)
    requires Live(s) && c in s.nodes && Has(s.nodes[c], {c}) && |s.nodes| >= 2 && Coming(s, c, s.nodes.Keys - {c})
    requires forall i :: i in s.nodes && i != c ==> s.nodes[i].role == Follower
    ensures Live(s') && Reaches(s, s') && Except(s, s', {c}) && Leads(s', c)
    ensures forall i :: i in s.nodes && i != c ==> Sending(s', c, i)
    ensures s'.nodes[c].term == s.nodes[c].term && s.nodes[c].log <= s'.nodes[c].log && Configured(s.nodes[c], s'.nodes[c])
  {
    hide Live, Reaches, VoteReply, Has, Leads, Sending;
    var ids, j := HalfVotes(s, c);
    var s1 := Count(s, c, ids);
    LastVote(s, s1, c, ids, j);
    s' := ElectOne(s1, c, j);
    Then(s, s1, s');
  }

  /** Half the members with c, and one more. */
  lemma HalfVotes(s: Cluster, c: NodeId) returns (ids: set<NodeId>, j: NodeId)
    requires c in s.nodes && |s.nodes| >= 2 && Coming(s, c, s.nodes.Keys - {c})
    ensures Coming(s, c, ids) && |ids| + 1 == |s.nodes| / 2 && j in s.nodes && j != c && j !in ids
  {
    hide VoteReply;
    assert |s.nodes| == |s.nodes.Keys|;
    ids := Some(s.nodes.Keys - {c}, |s.nodes| / 2 - 1);
    var rest := s.nodes.Keys - {c} - ids;
    assert |rest| == |s.nodes| - 1 - |ids|;
    j :| j in rest;
  }

  lemma LastVote(s: Cluster, s': Cluster, c: NodeId, ids: set<NodeId>, j: NodeId)
    requires c in s.nodes && Coming(s, c, s.nodes.Keys - {c}) && Counted(s, s', c, {c} + ids) && c !in ids
    requires j in s.nodes && j != c && j !in ids
    ensures c in s'.nodes && j in s'.nodes && s'.nodes[j].term == s'.nodes[c].term && VoteReply(s'.nodes[j], c) in s'.net
    ensures j !in s'.nodes[c].votes && |s'.nodes[c].votes| == |ids| + 1 && |s'.nodes| == |s.nodes|
    ensures Has(s'.nodes[c], s'.nodes[c].votes.Keys)
  {
    hide VoteReply;
    assert |s'.nodes| == |s'.nodes.Keys| && |s.nodes| == |s.nodes.Keys|;
    assert |s'.nodes[c].votes| == |s'.nodes[c].votes.Keys| == |{c} + ids|;
  }

  // --------------------------------------------------------- replication

  /** Member j has the leader's log, knows its leader, and the leader knows. */
  ghost predicate Copied(s: Cluster, c: NodeId, j: NodeId) {
    && c in s.nodes && j in s.nodes && j in s.nodes[c].prs && s.nodes[j].log == s.nodes[c].log && s.nodes[j].lead == c
    && s.nodes[c].prs[j].matched >= |s.nodes[c].log|
  }

  /** The leader and j have exchanged messages about the leader's log. */
  ghost predicate Exchanged(n: Node, n': Node, j: NodeId)
    requires j in n.prs
  {
    j in n'.prs && n' == n.(prs := n.prs[j := n'.prs[j]], commit := n'.commit, msgs := n'.msgs)
  }

  ghost predicate Served(n: Node, n': Node) {
    n' == n.(lead := n'.lead, log := n'.log, commit := n'.commit, msgs := n'.msgs)
  }

  lemma Accept(s: Cluster, c: NodeId, j: NodeId) returns (s': Cluster)
    requires Live(s) && Leads(s, c) && j in s.nodes && j != c && Sending(s, c, j)
    requires MeetAt(s.nodes[j].log, s.nodes[c].log, s.nodes[c].prs[j].next - 1)
    ensures Live(s') && Reaches(s, s') && s.net <= s'.net && Except(s, s', {j}) && Served(s.nodes[j], s'.nodes[j])
    ensures s'.nodes[j].log == s.nodes[c].log && s'.nodes[j].lead == c && AckMsg(s'.nodes[j], c, |s.nodes[c].log|) in s'.net
  {
    hide Live, Reaches, Step, CommitsAll, TermsRise, Numbered, Queued;
    LiveTidy(s, c);
    LiveTidy(s, j);
    var next: nat := s.nodes[c].prs[j].next;
    s' := Handle(s, j, AppMsg(s.nodes[c], j, next));
    var k := AppendAccepted(s.nodes[j], s.nodes[c], next);
    hide AckMsg;
    MergedEnd(s.nodes[j].log, s.nodes[c].log, next - 1, k, s'.nodes[j].log);
    hide Merges, MeetAt;
    SameLog(s', c, j);
  }

  lemma MergedEnd(log: Log, l: Log, p: nat, k: nat, log': Log)
    requires Merges(log, l, p, k, log') && MeetAt(log, l, p)
    ensures MeetAt(log', l, |l|)
  {
  }

  lemma Acknowledge(s: Cluster, c: NodeId, j: NodeId) returns (s': Cluster)
    requires Live(s) && Leads(s, c) && j in s.nodes && j != c && AckMsg(s.nodes[j], c, |s.nodes[c].log|) in s.net
    ensures Live(s') && Reaches(s, s') && s.net <= s'.net && Except(s, s', {c}) && Exchanged(s.nodes[c], s'.nodes[c], j)
    ensures s'.nodes[c].prs[j].matched >= |s.nodes[c].log|
    ensures forall i :: i in s.nodes && i != c && i != j && Sending(s, c, i) ==> Sending(s', c, i)
  {
    hide Live, Reaches, Step, CommitsAll, TermsRise, Numbered, Queued;
    LiveTidy(s, c);
    LiveTidy(s, j);
    s' := Handle(s, c, AckMsg(s.nodes[j], c, |s.nodes[c].log|));
    AckHandled(s.nodes[c], s.nodes[j], |s.nodes[c].log|);
  }

  lemma Reject(s: Cluster, c: NodeId, j: NodeId) returns (s': Cluster)
    requires Live(s) && Leads(s, c) && j in s.nodes && j != c && Sending(s, c, j)
    requires !MeetAt(s.nodes[j].log, s.nodes[c].log, s.nodes[c].prs[j].next - 1)
    ensures Live(s') && Reaches(s, s') && s.net <= s'.net && Except(s, s', {j}) && Served(s.nodes[j], s'.nodes[j])
    ensures NackMsg(s'.nodes[j], c, s.nodes[c].prs[j].next - 1) in s'.net
  {
    hide Live, Reaches, Step, CommitsAll, TermsRise, Numbered, Queued;
    LiveTidy(s, c);
    LiveTidy(s, j);
    var next: nat := s.nodes[c].prs[j].next;
    s' := Handle(s, j, AppMsg(s.nodes[c], j, next));
    AppendRejected(s.nodes[j], s.nodes[c], next);
  }

  lemma Probe(s: Cluster, c: NodeId, j: NodeId) returns (s': Cluster)
    requires Live(s) && Leads(s, c) && j in s.nodes && j != c && 2 <= s.nodes[c].prs[j].next <= |s.nodes[c].log| + 1
    requires NackMsg(s.nodes[j], c, s.nodes[c].prs[j].next - 1) in s.net
    ensures Live(s') && Reaches(s, s') && s.net <= s'.net && Except(s, s', {c}) && Exchanged(s.nodes[c], s'.nodes[c], j)
    ensures Sending(s', c, j) && s'.nodes[c].prs[j].next < s.nodes[c].prs[j].next
    ensures forall i :: i in s.nodes && i != c && i != j && Sending(s, c, i) ==> Sending(s', c, i)
  {
    hide Live, Reaches, Step, CommitsAll, TermsRise, Numbered, Queued;
    LiveTidy(s, c);
    LiveTidy(s, j);
    s' := Handle(s, c, NackMsg(s.nodes[j], c, s.nodes[c].prs[j].next - 1));
    NackSends(s.nodes[c], s.nodes[j]);
    hide NackMsg, AppMsg, Tidy, Leads;
    Probed(s, s', c, j);
  }

  lemma NackSends(n: Node, j: Node)
    requires n.role == Leader && n.term == j.term && 1 <= n.term && j.id in n.prs && 2 <= n.prs[j.id].next <= |n.log| + 1
    ensures Step(n, NackMsg(j, n.id, n.prs[j.id].next - 1)).Ok?
    ensures var n' := Step(n, NackMsg(j, n.id, n.prs[j.id].next - 1)).value;
            && j.id in n'.prs && n' == n.(prs := n.prs[j.id := n'.prs[j.id]], msgs := n'.msgs) && n.msgs <= n'.msgs
            && n'.prs[j.id].next < n.prs[j.id].next && AppMsg(n', j.id, n'.prs[j.id].next) in n'.msgs
  {
    hide Step;
    NackHandled(n, j);
    var n' := Step(n, NackMsg(j, n.id, n.prs[j.id].next - 1)).value;
    SameSends(n.(prs := n'.prs), n');
  }

  lemma Probed(s: Cluster, s': Cluster, c: NodeId, j: NodeId)
    requires c in s.nodes && j in s.nodes[c].prs && s.nodes[c].prs[j].next <= |s.nodes[c].log| + 1 && j != c
    requires c in s'.nodes && s'.nodes == s.nodes[c := s'.nodes[c]] && s.net <= s'.net && s'.nodes[c].msgs <= s'.net
    requires var n, n' := s.nodes[c], s'.nodes[c];
             && n.prs.Keys == s.nodes.Keys && j in n'.prs && n' == n.(prs := n.prs[j := n'.prs[j]], msgs := n'.msgs)
             && n'.prs[j].next < n.prs[j].next && AppMsg(n', j, n'.prs[j].next) in n'.msgs
    ensures Except(s, s', {c}) && Exchanged(s.nodes[c], s'.nodes[c], j) && Sending(s', c, j)
    ensures forall i :: i in s.nodes && i != c && i != j && Sending(s, c, i) ==> Sending(s', c, i)
  {
    assert Sending(s', c, j) by { hide AppMsg; }
    forall i | i in s.nodes && i != c && i != j && Sending(s, c, i) ensures Sending(s', c, i) { SendingStays(s, s', c, i); }
  }

  lemma SendingStays(s: Cluster, s': Cluster, c: NodeId, i: NodeId)
    requires Sending(s, c, i) && s.net <= s'.net && c in s'.nodes && i in s'.nodes[c].prs && s'.nodes[c].prs[i] == s.nodes[c].prs[i]
    requires s'.nodes[c] == s.nodes[c].(prs := s'.nodes[c].prs, msgs := s'.nodes[c].msgs)
    ensures Sending(s', c, i)
  {
  }

  /** One exchange kept everything but what c and j said to each other. */
  ghost predicate Talked(s: Cluster, s': Cluster, c: NodeId, j: NodeId) {
    && c in s.nodes && j in s.nodes && j in s.nodes[c].prs && Except(s, s', {c, j}) && s.net <= s'.net
    && Exchanged(s.nodes[c], s'.nodes[c], j) && Served(s.nodes[j], s'.nodes[j])
    && forall i :: i in s.nodes && i != c && i != j && Sending(s, c, i) ==> Sending(s', c, i)
  }

  lemma Heeds(s: Cluster, s': Cluster, c: NodeId, j: NodeId)
    requires Leads(s, c) && j in s.nodes && j != c && Except(s, s', {j}) && s.net <= s'.net && Served(s.nodes[j], s'.nodes[j])
    ensures Leads(s', c) && s'.nodes[c] == s.nodes[c] && forall i :: Sending(s, c, i) ==> Sending(s', c, i)
  {
  }

  lemma TalkedBoth(s: Cluster, s1: Cluster, s': Cluster, c: NodeId, j: NodeId)
    requires Leads(s, c) && j in s.nodes && j != c && Except(s, s1, {j}) && s.net <= s1.net && Served(s.nodes[j], s1.nodes[j])
    requires Except(s1, s', {c}) && s1.net <= s'.net && Exchanged(s1.nodes[c], s'.nodes[c], j)
    requires forall i :: i in s.nodes && i != c && i != j && Sending(s1, c, i) ==> Sending(s', c, i)
    ensures Talked(s, s', c, j) && Leads(s', c)
  {
    Heeds(s, s1, c, j);
    LeadsOn(s1, s', c, j);
    hide Sending, Leads;
  }

  lemma LeadsOn(s: Cluster, s': Cluster, c: NodeId, j: NodeId)
    requires Leads(s, c) && Except(s, s', {c}) && j in s.nodes && j != c && Exchanged(s.nodes[c], s'.nodes[c], j)
    ensures Leads(s', c)
  {
    var n, n' := s.nodes[c], s'.nodes[c];
    assert n'.prs.Keys == n.prs.Keys && n'.prs[c] == n.prs[c];
    forall i | i in s'.nodes && i != c ensures s'.nodes[i].role == Follower && s'.nodes[i].term == n'.term { assert s'.nodes[i] == s.nodes[i]; }
  }

  lemma TalkedOn(s: Cluster, s1: Cluster, s': Cluster, c: NodeId, j: NodeId)
    requires Talked(s, s1, c, j) && Talked(s1, s', c, j)
    ensures Talked(s, s', c, j)
  {
    hide Sending;
    assert s'.nodes[c].prs == s.nodes[c].prs[j := s'.nodes[c].prs[j]];
  }

  /** Messages go to and fro until member j has the leader's log. */
  lemma SendOne(s: Cluster, c: NodeId, j: NodeId) returns (s': Cluster)
    requires Live(s) && Leads(s, c) && j in s.nodes && j != c && Sending(s, c, j)
    ensures Live(s') && Reaches(s, s') && Leads(s', c) && Talked(s, s', c, j) && Copied(s', c, j)
    decreases s.nodes[c].prs[j].next
  {
    assert s.nodes[c].prs.Keys == s.nodes.Keys && s.nodes[c].prs[j].next <= |s.nodes[c].log| + 1;
    hide Live, Reaches, Sending, Leads, MeetAt, Talked;
    if MeetAt(s.nodes[j].log, s.nodes[c].log, s.nodes[c].prs[j].next - 1) {
      s' := Copy(s, c, j);
    } else {
      var s1 := Retry(s, c, j);
      var s2 := SendOne(s1, c, j);
      Then(s, s1, s2);
      TalkedOn(s, s1, s2, c, j);
      s' := s2;
    }
  }

  lemma Copy(s: Cluster, c: NodeId, j: NodeId) returns (s': Cluster)
    requires Live(s) && Leads(s, c) && j in s.nodes && j != c && Sending(s, c, j)
    requires MeetAt(s.nodes[j].log, s.nodes[c].log, s.nodes[c].prs[j].next - 1)
    ensures Live(s') && Reaches(s, s') && Leads(s', c) && Talked(s, s', c, j) && Copied(s', c, j)
  {
    hide Live, Reaches, MeetAt, Sending;
    var s1 := Accept(s, c, j);
    Heeds(s, s1, c, j);
    s' := Acknowledge(s1, c, j);
    Then(s, s1, s');
    TalkedBoth(s, s1, s', c, j);
  }

  lemma Retry(s: Cluster, c: NodeId, j: NodeId) returns (s': Cluster)
    requires Live(s) && Leads(s, c) && j in s.nodes && j != c && Sending(s, c, j)
    requires !MeetAt(s.nodes[j].log, s.nodes[c].log, s.nodes[c].prs[j].next - 1)
    ensures Live(s') && Reaches(s, s') && Leads(s', c) && Talked(s, s', c, j) && Sending(s', c, j)
    ensures c in s'.nodes && j in s'.nodes[c].prs && s'.nodes[c].prs[j].next < s.nodes[c].prs[j].next
  {
    hide Live, Reaches;
    var s1 := Reject(s, c, j);
    Heeds(s, s1, c, j);
    s' := Probe(s1, c, j);
    Then(s, s1, s');
    TalkedBoth(s, s1, s', c, j);
  }

  /** The leader has only learnt more. */
  ghost predicate Guides(n: Node, n': Node) {
    n' == n.(prs := n'.prs, commit := n'.commit, msgs := n'.msgs)
  }

  /** Members ids have the leader's log by now, and what the others miss is on its way. */
  ghost predicate Spread(s: Cluster, s': Cluster, c: NodeId, ids: set<NodeId>) {
    && c in s.nodes && c in s'.nodes && c !in ids && ids <= s.nodes.Keys && Except(s, s', ids + {c})
    && Guides(s.nodes[c], s'.nodes[c]) && (forall j :: j in ids ==> Copied(s', c, j))
    && forall i :: i in s.nodes && i != c && i !in ids && Sending(s, c, i) ==> Sending(s', c, i)
  }

  lemma SpreadNone(s: Cluster, c: NodeId)
    requires Leads(s, c)
    ensures Spread(s, s, c, {})
  {
  }

  lemma SpreadTo(s: Cluster, s1: Cluster, s': Cluster, c: NodeId, ids: set<NodeId>, id: NodeId)
    requires Spread(s, s1, c, ids - {id}) && id in ids && id != c && Talked(s1, s', c, id) && Copied(s', c, id)
    ensures Spread(s, s', c, ids)
  {
    hide Sending;
    forall j | j in ids ensures Copied(s', c, j) {
      if j != id { assert j in ids - {id} && Copied(s1, c, j); }
    }
  }

  lemma Replicate(s: Cluster, c: NodeId, ids: set<NodeId>) returns (s': Cluster)
    requires Live(s) && Leads(s, c) && ids <= s.nodes.Keys - {c} && forall j :: j in ids ==> Sending(s, c, j)
    ensures Live(s') && Reaches(s, s') && Leads(s', c) && Spread(s, s', c, ids)
  {
    hide *;
    if ids == {} {
      s' := s;
      Stay(s);
      SpreadNone(s, c);
    } else {
      var id :| id in ids;
      var s1 := Replicate(s, c, ids - {id});
      NextSending(s, s1, c, ids - {id}, id);
      s' := SendOne(s1, c, id);
      Then(s, s1, s');
      SpreadTo(s, s1, s', c, ids, id);
    }
  }

  lemma NextSending(s: Cluster, s1: Cluster, c: NodeId, ids: set<NodeId>, id: NodeId)
    requires Spread(s, s1, c, ids) && id in s.nodes && id != c && id !in ids && Sending(s, c, id)
    ensures id in s1.nodes && Sending(s1, c, id)
  {
    hide Sending, Copied;
  }

  /** A leader that knows every member has its log has committed it. */
  lemma AllCommitted(s: Cluster, c: NodeId)
    requires Live(s) && Leads(s, c) && forall j :: j in s.nodes && j != c ==> s.nodes[c].prs[j].matched >= |s.nodes[c].log|
    ensures s.nodes[c].commit == |s.nodes[c].log|
  {
    hide Live, TermsRise, Numbered, Queued;
    LiveTidy(s, c);
    var n, k := s.nodes[c], |s.nodes[c].log|;
    assert (set id | id in n.prs && n.prs[id].matched >= k) == n.prs.Keys;
    assert |n.prs| == |n.prs.Keys|;
    assert n.prs.Keys != {};
    assert Confirmed(n, k);
  }

  // ----------------------------------------------------------- proposals

  /** Everyone follows c and has its log. */
  ghost predicate Synced(s: Cluster, c: NodeId) {
    Leads(s, c) && forall j :: j in s.nodes && j != c ==> Copied(s, c, j)
  }

  /** A client's request at member r gets to the leader. */
  lemma Pass(s: Cluster, c: NodeId, r: NodeId, local: Message, m: Message) returns (s': Cluster)
    requires Live(s) && Leads(s, c) && r in s.nodes && r != c && LocalInput(r, local) && m.to == c
    requires Step(s.nodes[r], local) == Ok(s.nodes[r].(msgs := s.nodes[r].msgs + {m}))
    ensures Live(s') && Reaches(s, s') && Leads(s', c) && m in s'.net && s.net <= s'.net && s'.loops == s.loops
    ensures Except(s, s', {r}) && Served(s.nodes[r], s'.nodes[r]) && s'.nodes[r].log == s.nodes[r].log && s'.nodes[r].lead == s.nodes[r].lead
  {
    hide Live, Reaches, Step, LocalInput;
    s' := Handle(s, r, local);
  }

  /** The client's entry is the last of c's log, and all that members miss is on its way. */
  ghost predicate Appended(s: Cluster, s': Cluster, c: NodeId, data: Bytes) {
    && c in s.nodes && c in s'.nodes && s'.nodes[c].term == s.nodes[c].term && Configured(s.nodes[c], s'.nodes[c])
    && s'.nodes[c].log == s.nodes[c].log + [Entry(s.nodes[c].term, |s.nodes[c].log| + 1, EntryNormal, data)]
    && forall j :: j in s.nodes && j != c ==> Sending(s', c, j)
  }

  lemma Propose(s: Cluster, c: NodeId, r: NodeId, data: Bytes) returns (s': Cluster)
    requires Live(s) && Synced(s, c) && r in s.nodes
    ensures Live(s') && Reaches(s, s') && Leads(s', c) && Appended(s, s', c, data) && s'.nodes.Keys == s.nodes.Keys
  {
    hide Live, Reaches, Step;
    if r == c {
      s' := ProposeAt(s, c, NONE, data);
    } else {
      LiveTidy(s, c);
      LiveTidy(s, r);
      assert Copied(s, c, r);
      Forwarded(s.nodes[r], data);
      var s1 := Pass(s, c, r, PropMsg(NONE, NONE, data), PropMsg(c, r, data));
      hide Sending, Synced, Copied, Tidy, PropMsg;
      s' := ProposeAt(s1, c, r, data);
      Then(s, s1, s');
      AppendedFrom(s, s1, s', c, data);
    }
  }

  lemma AppendedFrom(s: Cluster, s1: Cluster, s': Cluster, c: NodeId, data: Bytes)
    requires Appended(s1, s', c, data) && s1.nodes.Keys == s.nodes.Keys && c in s.nodes && s1.nodes[c] == s.nodes[c]
    ensures Appended(s, s', c, data)
  {
    hide Sending;
  }

  lemma ProposeAt(s: Cluster, c: NodeId, from: NodeId, data: Bytes) returns (s': Cluster)
    requires Live(s) && Leads(s, c) && (from == NONE || PropMsg(c, from, data) in s.net)
    ensures Live(s') && Reaches(s, s') && Leads(s', c) && Except(s, s', {c}) && Appended(s, s', c, data)
  {
    hide *;
    ProposeReady(s, c);
    PropIsLocal(c, from, data);
    s' := Handle(s, c, PropMsg(c, from, data));
    ProposedNow(s, s', c, from, data);
  }

  lemma PropIsLocal(to: NodeId, from: NodeId, data: Bytes)
    ensures PropMsg(to, from, data).to == to && forall id :: LocalInput(id, PropMsg(to, NONE, data))
  {
  }

  /** The leader can take entries. */
  ghost predicate CanAppend(s: Cluster, c: NodeId) {
    && Leads(s, c) && s.nodes[c].commit <= |s.nodes[c].log|
    && forall i :: i in s.nodes[c].prs && i != c ==> s.nodes[c].prs[i].next <= |s.nodes[c].log| + 1
  }

  lemma ProposeReady(s: Cluster, c: NodeId)
    requires Live(s) && Leads(s, c)
    ensures c in s.nodes && CanAppend(s, c)
  {
    hide Live, CommitsAll, TermsRise, Numbered, Queued;
    LiveTidy(s, c);
  }

  lemma ProposedNow(s: Cluster, s': Cluster, c: NodeId, from: NodeId, data: Bytes)
    requires CanAppend(s, c) && Step(s.nodes[c], PropMsg(c, from, data)).Ok?
    requires var n' := Step(s.nodes[c], PropMsg(c, from, data)).value; s' == s.(nodes := s.nodes[c := n'], net := s.net + n'.msgs)
    ensures Leads(s', c) && Except(s, s', {c}) && Appended(s, s', c, data)
  {
    hide Step;
    ProposalTaken(s.nodes[c], from, data);
    hide PropMsg, AppMsg, Appended, Except;
    AppendedNow(s, s', c, data);
  }

  lemma AppendedNow(s: Cluster, s': Cluster, c: NodeId, data: Bytes)
    requires Leads(s, c) && c in s'.nodes && s'.nodes == s.nodes[c := s'.nodes[c]] && s'.nodes[c].msgs <= s'.net
    requires forall i :: i in s.nodes[c].prs && i != c ==> s.nodes[c].prs[i].next <= |s.nodes[c].log| + 1
    requires var n, n' := s.nodes[c], s'.nodes[c];
             && n'.id == c && n'.prs.Keys == n.prs.Keys && n'.term == n.term && n'.role == Leader && Configured(n, n')
             && n'.log == n.log + [Entry(n.term, |n.log| + 1, EntryNormal, data)] && n'.prs[c].matched >= |n'.log|
             && (forall i :: i in n.prs && i != c ==> n'.prs[i] == n.prs[i] && AppMsg(n', i, n.prs[i].next) in n'.msgs)
    ensures Leads(s', c) && Except(s, s', {c}) && Appended(s, s', c, data)
  {
    hide AppMsg;
    forall j | j in s.nodes && j != c ensures Sending(s', c, j) {}
  }

  // --------------------------------------------------------------- reads

  /** The read is the last in the leader's queue, and nobody has confirmed it yet. */
  ghost predicate Reading(n: Node, from: NodeId, index: nat, acks: set<NodeId>, ctx: Bytes) {
    n.readOnly.queue != [] && n.readOnly.queue[|n.readOnly.queue| - 1] == ctx && ctx in n.readOnly.pending
    && n.readOnly.pending[ctx] == ReadStatus(ReadMsg(n.id, from, ctx), index, acks)
  }

  /** The leader has noted the read and asks everyone who still follows it. */
  ghost predicate Noted(s: Cluster, s': Cluster, c: NodeId, from: NodeId, ctx: Bytes) {
    && c in s.nodes && c in s'.nodes && s'.nodes[c].log == s.nodes[c].log && Reading(s'.nodes[c], from, |s.nodes[c].log|, {}, ctx)
    && forall j :: j in s.nodes && j != c ==> BeatMsg(s'.nodes[c], j, |s.nodes[c].log|, ctx) in s'.net
  }

  lemma ReadAt(s: Cluster, c: NodeId, from: NodeId, ctx: Bytes) returns (s': Cluster)
    requires Live(s) && Synced(s, c) && |s.nodes| >= 2 && (from == NONE || ReadMsg(c, from, ctx) in s.net)
    requires ctx !in s.nodes[c].readOnly.pending
    ensures Live(s') && Reaches(s, s') && Synced(s', c) && Except(s, s', {c}) && Noted(s, s', c, from, ctx)
  {
    hide *;
    ReadReady(s, c);
    ReadIsLocal(c, from, ctx);
    s' := Handle(s, c, ReadMsg(c, from, ctx));
    NotedNow(s, s', c, from, ctx);
  }

  lemma ReadIsLocal(to: NodeId, from: NodeId, ctx: Bytes)
    ensures ReadMsg(to, from, ctx).to == to && forall id :: LocalInput(id, ReadMsg(to, NONE, ctx))
  {
  }

  /** The leader can take reads. */
  lemma ReadReady(s: Cluster, c: NodeId)
    requires Live(s) && Synced(s, c)
    ensures c in s.nodes && |s.nodes[c].prs| == |s.nodes| && 1 <= s.nodes[c].commit == |s.nodes[c].log|
  {
    hide Live, CommitsAll, TermsRise, Numbered, Queued;
    AllCommitted(s, c);
    assert |s.nodes[c].prs| == |s.nodes[c].prs.Keys| && |s.nodes| == |s.nodes.Keys|;
  }

  lemma NotedNow(s: Cluster, s': Cluster, c: NodeId, from: NodeId, ctx: Bytes)
    requires Synced(s, c) && |s.nodes| >= 2 && ctx !in s.nodes[c].readOnly.pending && |s.nodes[c].prs| == |s.nodes|
    requires 1 <= s.nodes[c].commit == |s.nodes[c].log| && Step(s.nodes[c], ReadMsg(c, from, ctx)).Ok?
    requires var n' := Step(s.nodes[c], ReadMsg(c, from, ctx)).value; s' == s.(nodes := s.nodes[c := n'], net := s.net + n'.msgs)
    ensures Synced(s', c) && Except(s, s', {c}) && Noted(s, s', c, from, ctx)
  {
    hide Step;
    var n, n' := s.nodes[c], s'.nodes[c];
    ReadRegistered(n, from, ctx);
    assert n' == n.(readOnly := n'.readOnly, msgs := n'.msgs) && Reading(n', from, |n.log|, {}, ctx);
    hide ReadMsg, BeatMsg, Reading;
    OnlyReadKeeps(s, s', c);
    forall j | j in s.nodes && j != c ensures BeatMsg(n', j, |n.log|, ctx) in s'.net {
      assert Copied(s, c, j) && j in n.prs && Min(n.commit, n.prs[j].matched) == |n.log|;
      SameBeat(n, n', j, |n.log|, ctx);
    }
  }

  lemma OnlyReadKeeps(s: Cluster, s': Cluster, c: NodeId)
    requires Synced(s, c) && c in s'.nodes && s'.nodes == s.nodes[c := s'.nodes[c]] && OnlyReads(s.nodes[c], s'.nodes[c])
    ensures Synced(s', c) && Except(s, s', {c})
  {
    forall j | j in s'.nodes && j != c ensures Copied(s', c, j) { assert Copied(s, c, j); }
  }

  lemma SameBeat(n: Node, n': Node, j: NodeId, commit: nat, ctx: Bytes)
    requires n'.id == n.id && n'.term == n.term
    ensures BeatMsg(n', j, commit, ctx) == BeatMsg(n, j, commit, ctx)
  {
  }

  lemma NotedFrom(s: Cluster, s1: Cluster, s': Cluster, c: NodeId, from: NodeId, ctx: Bytes)
    requires Noted(s1, s', c, from, ctx) && s1.nodes.Keys == s.nodes.Keys && c in s.nodes && s1.nodes[c] == s.nodes[c]
    ensures Noted(s, s', c, from, ctx)
  {
    hide Reading, BeatMsg;
  }

  lemma Read(s: Cluster, c: NodeId, r: NodeId, ctx: Bytes) returns (s': Cluster)
    requires Live(s) && Synced(s, c) && |s.nodes| >= 2 && r in s.nodes && ctx !in s.nodes[c].readOnly.pending
    ensures Live(s') && Reaches(s, s') && Synced(s', c) && s'.nodes.Keys == s.nodes.Keys
    ensures Noted(s, s', c, if r == c then NONE else r, ctx)
  {
    hide Live, Reaches, Step;
    if r == c {
      s' := ReadAt(s, c, NONE, ctx);
    } else {
      var s1 := PassRead(s, c, r, ctx);
      hide ReadMsg, Synced, Noted;
      s' := ReadAt(s1, c, r, ctx);
      Then(s, s1, s');
      NotedFrom(s, s1, s', c, r, ctx);
    }
  }

  lemma PassRead(s: Cluster, c: NodeId, r: NodeId, ctx: Bytes) returns (s': Cluster)
    requires Live(s) && Synced(s, c) && r in s.nodes && r != c
    ensures Live(s') && Reaches(s, s') && Synced(s', c) && Except(s, s', {r}) && ReadMsg(c, r, ctx) in s'.net
  {
    hide *;
    LeadKnown(s, c, r);
    ReadIsLocal(NONE, NONE, ctx);
    ReadIsLocal(c, r, ctx);
    Forwarded(s.nodes[r], ctx);
    s' := Pass(s, c, r, ReadMsg(NONE, NONE, ctx), ReadMsg(c, r, ctx));
    SyncedStays(s, s', c, r);
  }

  lemma LeadKnown(s: Cluster, c: NodeId, r: NodeId)
    requires Live(s) && Synced(s, c) && r in s.nodes && r != c
    ensures Leads(s, c) && s.nodes[r].role == Follower && s.nodes[r].lead == c && c != NONE && s.nodes[r].id == r
  {
    hide Live, CommitsAll, TermsRise, Numbered, Queued;
    LiveTidy(s, c);
    LiveTidy(s, r);
    assert Copied(s, c, r);
  }

  lemma SyncedStays(s: Cluster, s': Cluster, c: NodeId, r: NodeId)
    requires Synced(s, c) && Leads(s', c) && r in s.nodes && r != c && Except(s, s', {r})
    requires s'.nodes[r].log == s.nodes[r].log && s'.nodes[r].lead == s.nodes[r].lead
    ensures Synced(s', c)
  {
    hide Leads;
    assert c in s.nodes;
    forall j | j in s'.nodes && j != c ensures Copied(s', c, j) { assert Copied(s, c, j); }
  }

  /** Member j knows that the leader's whole log is committed, and has answered the read's heartbeat. */
  ghost predicate Beaten(s: Cluster, c: NodeId, j: NodeId, ctx: Bytes) {
    && c in s.nodes && j in s.nodes && s.nodes[j].term == s.nodes[c].term && s.nodes[j].id == j
    && s.nodes[j].commit == |s.nodes[c].log| && BeatReply(s.nodes[j], c, ctx) in s.net
  }

  lemma BeatOne(s: Cluster, c: NodeId, j: NodeId, ctx: Bytes) returns (s': Cluster)
    requires Live(s) && Synced(s, c) && j in s.nodes && j != c && BeatMsg(s.nodes[c], j, |s.nodes[c].log|, ctx) in s.net
    ensures Live(s') && Reaches(s, s') && Synced(s', c) && s.net <= s'.net && Except(s, s', {j}) && Beaten(s', c, j, ctx)
  {
    hide Live, Reaches, Step, CommitsAll, TermsRise, Numbered, Queued;
    LiveTidy(s, j);
    assert Copied(s, c, j) && Leads(s, c);
    s' := Handle(s, j, BeatMsg(s.nodes[c], j, |s.nodes[c].log|, ctx));
    BeatHandled(s.nodes[j], s.nodes[c], |s.nodes[c].log|, ctx);
    hide BeatMsg, BeatReply, Tidy, Synced, Beaten, Except, Leads;
    BeatenNow(s, s', c, j, ctx);
  }

  lemma BeatenNow(s: Cluster, s': Cluster, c: NodeId, j: NodeId, ctx: Bytes)
    requires Synced(s, c) && j in s.nodes && j != c && s.nodes[j].id == j && j in s'.nodes && s'.nodes == s.nodes[j := s'.nodes[j]]
    requires s.net <= s'.net && BeatReply(s.nodes[j], c, ctx) in s'.net && s.nodes[j].commit <= |s.nodes[j].log|
    requires s'.nodes[j] == s.nodes[j].(lead := c, commit := |s.nodes[c].log|, msgs := s'.nodes[j].msgs)
    ensures Synced(s', c) && Except(s, s', {j}) && Beaten(s', c, j, ctx)
  {
    assert BeatReply(s'.nodes[j], c, ctx) == BeatReply(s.nodes[j], c, ctx);
    hide BeatReply;
    forall i | i in s'.nodes && i != c ensures Copied(s', c, i) { assert Copied(s, c, i); }
  }

  /** Heartbeats for the read are on their way to ids. */
  ghost predicate BeatsOut(s: Cluster, c: NodeId, ids: set<NodeId>, ctx: Bytes) {
    c in s.nodes && ids <= s.nodes.Keys - {c} && forall j :: j in ids ==> BeatMsg(s.nodes[c], j, |s.nodes[c].log|, ctx) in s.net
  }

  ghost predicate AllBeaten(s: Cluster, c: NodeId, ids: set<NodeId>, ctx: Bytes) {
    c !in ids && forall j :: j in ids ==> Beaten(s, c, j, ctx)
  }

  lemma OneBeat(s: Cluster, s1: Cluster, c: NodeId, ids: set<NodeId>, id: NodeId, ctx: Bytes)
    requires BeatsOut(s, c, ids, ctx) && id in ids && Except(s, s1, ids - {id}) && s.net <= s1.net
    ensures c in s1.nodes && id in s1.nodes && id != c && BeatMsg(s1.nodes[c], id, |s1.nodes[c].log|, ctx) in s1.net
  {
    hide BeatMsg;
  }

  lemma OneMoreBeaten(s: Cluster, s': Cluster, c: NodeId, ids: set<NodeId>, id: NodeId, ctx: Bytes)
    requires AllBeaten(s, c, ids - {id}, ctx) && Except(s, s', {id}) && s.net <= s'.net && Beaten(s', c, id, ctx) && c != id && id in ids
    ensures AllBeaten(s', c, ids, ctx)
  {
    hide BeatReply;
    forall j | j in ids ensures Beaten(s', c, j, ctx) {
      if j != id { assert j in ids - {id} && Beaten(s, c, j, ctx); }
    }
  }

  lemma NoBeats(s: Cluster, c: NodeId, ctx: Bytes)
    ensures Except(s, s, {}) && AllBeaten(s, c, {}, ctx)
  {
  }

  lemma FewerBeats(s: Cluster, c: NodeId, ids: set<NodeId>, id: NodeId, ctx: Bytes)
    requires BeatsOut(s, c, ids, ctx)
    ensures BeatsOut(s, c, ids - {id}, ctx)
  {
    hide BeatMsg;
  }

  lemma Beat(s: Cluster, c: NodeId, ids: set<NodeId>, ctx: Bytes) returns (s': Cluster)
    requires Live(s) && Synced(s, c) && BeatsOut(s, c, ids, ctx)
    ensures Live(s') && Reaches(s, s') && Synced(s', c) && s.net <= s'.net && Except(s, s', ids) && AllBeaten(s', c, ids, ctx)
  {
    hide *;
    if ids == {} {
      s' := s;
      Stay(s);
      NoBeats(s, c, ctx);
    } else {
      var id :| id in ids;
      FewerBeats(s, c, ids, id, ctx);
      var s1 := Beat(s, c, ids - {id}, ctx);
      OneBeat(s, s1, c, ids, id, ctx);
      s' := BeatOne(s1, c, id, ctx);
      Then(s, s1, s');
      ExceptThen(s, s1, s', ids, id);
      OneMoreBeaten(s1, s', c, ids, id, ctx);
    }
  }

  // ------------------------------------------------------------- answers

  /** Everyone has c's log, committed and delivered to the end. */
  ghost predicate Agreed(s: Cluster, c: NodeId) {
    && c in s.nodes && s.nodes[c].role == Leader && s.nodes[c].id == c && s.loops.Keys == s.nodes.Keys
    && forall j :: j in s.nodes ==> Holds(s.nodes[j], s.loops[j], s.nodes[c]) && (j != c ==> s.nodes[j].role == Follower)
  }

  ghost predicate Holds(n: Node, l: Loop, c: Node) {
    n.term == c.term && n.log == c.log && n.commit == n.applied == |n.log| && l.delivered == n.log
  }

  /** Answers to the read's heartbeat are on their way from all others. */
  ghost predicate Replying(s: Cluster, c: NodeId, ctx: Bytes) {
    forall j :: j in s.nodes && j != c ==> s.nodes[j].id == j && BeatReply(s.nodes[j], c, ctx) in s.net
  }

  lemma MembersKnown(s: Cluster, c: NodeId)
    requires Live(s) && c in s.nodes
    ensures s.nodes[c].prs.Keys == s.nodes.Keys && |s.nodes[c].prs| == |s.nodes| && Queued(s.nodes[c].readOnly) && 1 <= s.nodes[c].term
    ensures s.nodes[c].id == c
  {
    hide Live, CommitsAll, TermsRise, Numbered, Queued;
    LiveTidy(s, c);
    assert |s.nodes[c].prs| == |s.nodes[c].prs.Keys| && |s.nodes| == |s.nodes.Keys|;
  }

  /** Nothing changed at a member but its reads. */
  ghost predicate OnlyReads(n: Node, n': Node) {
    n' == n.(readOnly := n'.readOnly, readStates := n'.readStates, msgs := n'.msgs)
  }

  /** Only the reads of one member have changed. */
  ghost predicate ReadsMoved(s: Cluster, s': Cluster, id: NodeId) {
    id in s.nodes && id in s'.nodes && Except(s, s', {id}) && s.net <= s'.net && s'.loops == s.loops && OnlyReads(s.nodes[id], s'.nodes[id])
  }

  lemma AgreedStays(s: Cluster, s': Cluster, c: NodeId, id: NodeId)
    requires Agreed(s, c) && ReadsMoved(s, s', id)
    ensures Agreed(s', c) && s'.nodes[c].log == s.nodes[c].log && s'.nodes[c].term == s.nodes[c].term
  {
  }

  lemma ReplyingStays(s: Cluster, s': Cluster, c: NodeId, ctx: Bytes)
    requires Replying(s, c, ctx) && ReadsMoved(s, s', c)
    ensures Replying(s', c, ctx)
  {
    hide BeatReply;
  }

  lemma AckOne(s: Cluster, c: NodeId, j: NodeId, from: NodeId, index: nat, acks: set<NodeId>, ctx: Bytes) returns (s': Cluster)
    requires Agreed(s, c) && Replying(s, c, ctx) && j in s.nodes && j != c && j !in acks && Live(s)
    requires Reading(s.nodes[c], from, index, acks, ctx) && 2 * (|acks| + 1) <= |s.nodes|
    ensures Live(s') && Reaches(s, s') && ReadsMoved(s, s', c) && Reading(s'.nodes[c], from, index, acks + {j}, ctx)
  {
    hide Live, Reaches, Step, Queued, ReadMsg, Agreed, Holds;
    AgreedTerm(s, c, j);
    MembersKnown(s, c);
    ReadAcked(s.nodes[c], s.nodes[j], ctx);
    s' := Handle(s, c, BeatReply(s.nodes[j], c, ctx));
  }

  lemma AgreedTerm(s: Cluster, c: NodeId, j: NodeId)
    requires Agreed(s, c) && j in s.nodes
    ensures c in s.nodes && s.nodes[c].role == Leader && s.nodes[j].term == s.nodes[c].term && (j != c ==> s.nodes[j].role == Follower)
  {
  }

  lemma Acks(s: Cluster, c: NodeId, from: NodeId, index: nat, ids: set<NodeId>, ctx: Bytes) returns (s': Cluster)
    requires Live(s) && Agreed(s, c) && Replying(s, c, ctx) && Reading(s.nodes[c], from, index, {}, ctx)
    requires ids <= s.nodes.Keys - {c} && 2 * |ids| <= |s.nodes|
    ensures Live(s') && Reaches(s, s') && ReadsMoved(s, s', c) && Reading(s'.nodes[c], from, index, ids, ctx)
    ensures Agreed(s', c) && Replying(s', c, ctx)
  {
    hide *;
    if ids == {} {
      s' := s;
      Stay(s);
      NoneMoved(s, c);
      assert ids == {};
    } else {
      var id :| id in ids;
      var rest := ids - {id};
      assert |rest| == |ids| - 1 && rest + {id} == ids;
      var s1 := Acks(s, c, from, index, rest, ctx);
      KeysStay(s, s1, c);
      s' := AckOne(s1, c, id, from, index, rest, ctx);
      Then(s, s1, s');
      MovedThen(s, s1, s', c);
      AgreedStays(s1, s', c, c);
      ReplyingStays(s1, s', c, ctx);
    }
  }

  lemma NoneMoved(s: Cluster, c: NodeId)
    requires Agreed(s, c)
    ensures ReadsMoved(s, s, c)
  {
  }

  lemma KeysStay(s: Cluster, s': Cluster, c: NodeId)
    requires ReadsMoved(s, s', c)
    ensures s'.nodes.Keys == s.nodes.Keys && |s'.nodes| == |s.nodes|
  {
    assert |s.nodes| == |s.nodes.Keys| && |s'.nodes| == |s'.nodes.Keys|;
  }

  lemma MovedThen(s: Cluster, s1: Cluster, s': Cluster, c: NodeId)
    requires ReadsMoved(s, s1, c) && ReadsMoved(s1, s', c)
    ensures ReadsMoved(s, s', c)
  {
  }

  /** The answer of a quorum releases the read. */
  lemma ReleaseRead(s: Cluster, c: NodeId, j: NodeId, from: NodeId, index: nat, acks: set<NodeId>, ctx: Bytes) returns (s': Cluster)
    requires Agreed(s, c) && Replying(s, c, ctx) && j in s.nodes && j != c && j !in acks && Live(s)
    requires Reading(s.nodes[c], from, index, acks, ctx) && 2 * (|acks| + 1) > |s.nodes|
    ensures Live(s') && Reaches(s, s') && ReadsMoved(s, s', c)
    ensures if from == NONE || from == c then ReadState(index, ctx) in s'.nodes[c].readStates
            else AnswerMsg(s'.nodes[c], from, index, [Entry(0, 0, EntryNormal, ctx)]) in s'.net
  {
    hide Live, Reaches, Step, Queued;
    MembersKnown(s, c);
    assert s.nodes[j].term == s.nodes[c].term by { assert Holds(s.nodes[j], s.loops[j], s.nodes[c]); }
    hide Agreed;
    var n := s.nodes[c];
    ReadReleased(n, s.nodes[j], |n.readOnly.queue|);
    s' := Handle(s, c, BeatReply(s.nodes[j], c, ctx));
    assert Answered(s'.nodes[c], n.readOnly.pending[n.readOnly.queue[|n.readOnly.queue| - 1]]);
  }

  lemma Reply(s: Cluster, c: NodeId, r: NodeId, index: nat, ctx: Bytes) returns (s': Cluster)
    requires Live(s) && Agreed(s, c) && r in s.nodes && r != c
    requires AnswerMsg(s.nodes[c], r, index, [Entry(0, 0, EntryNormal, ctx)]) in s.net
    ensures Live(s') && Reaches(s, s') && ReadsMoved(s, s', r) && ReadState(index, ctx) in s'.nodes[r].readStates
  {
    hide Live, Reaches, Step, Queued;
    MembersKnown(s, r);
    assert s.nodes[r].term == s.nodes[c].term by { assert Holds(s.nodes[r], s.loops[r], s.nodes[c]); }
    hide Agreed;
    AnswerReceived(s.nodes[r], s.nodes[c], index, ctx);
    s' := Handle(s, r, AnswerMsg(s.nodes[c], r, index, [Entry(0, 0, EntryNormal, ctx)]));
  }

  /** With three members or more the read is answered. */
  lemma Answer(s: Cluster, c: NodeId, r: NodeId, index: nat, ctx: Bytes) returns (s': Cluster)
    requires Live(s) && Agreed(s, c) && Replying(s, c, ctx) && r in s.nodes && |s.nodes| >= 3
    requires Reading(s.nodes[c], if r == c then NONE else r, index, {}, ctx)
    ensures Live(s') && Reaches(s, s') && Agreed(s', c) && s'.nodes.Keys == s.nodes.Keys
    ensures c in s.nodes && s'.nodes[c].log == s.nodes[c].log && s'.nodes[c].term == s.nodes[c].term
    ensures ReadState(index, ctx) in s'.nodes[r].readStates
  {
    var from := if r == c then NONE else r;
    hide *;
    var ids, j := HalfOthers(s, c);
    var s1 := Acks(s, c, from, index, ids, ctx);
    KeysStay(s, s1, c);
    MovedLog(s, s1, c);
    var s2 := ReleaseRead(s1, c, j, from, index, ids, ctx);
    KeysStay(s1, s2, c);
    AgreedStays(s1, s2, c, c);
    Then(s, s1, s2);
    if r == c {
      s' := s2;
    } else {
      RequesterKnown(s, r);
      s' := Reply(s2, c, r, index, ctx);
      KeysStay(s2, s', r);
      AgreedStays(s2, s', c, r);
      Then(s, s2, s');
    }
  }

  lemma MovedLog(s: Cluster, s': Cluster, c: NodeId)
    requires ReadsMoved(s, s', c)
    ensures s'.nodes[c].log == s.nodes[c].log && s'.nodes[c].term == s.nodes[c].term
  {
  }

  lemma RequesterKnown(s: Cluster, r: NodeId)
    requires Live(s) && r in s.nodes
    ensures r != NONE
  {
    hide Live, CommitsAll, TermsRise, Numbered, Queued;
    LiveTidy(s, r);
  }

  /** Half the members, not counting c, and one more. */
  lemma HalfOthers(s: Cluster, c: NodeId) returns (ids: set<NodeId>, j: NodeId)
    requires Agreed(s, c) && |s.nodes| >= 3
    ensures ids <= s.nodes.Keys - {c} && 2 * |ids| <= |s.nodes| && 2 * (|ids| + 1) > |s.nodes|
    ensures j in s.nodes && j != c && j !in ids
  {
    hide Holds;
    assert |s.nodes| == |s.nodes.Keys| && c in s.nodes;
    ids := Some(s.nodes.Keys - {c}, |s.nodes| / 2);
    var rest := s.nodes.Keys - {c} - ids;
    assert |rest| == |s.nodes| - 1 - |ids|;
    j :| j in rest;
  }

  // ------------------------------------------------------------ schedule

  ghost predicate Quiet(s: Cluster, s': Cluster) {
    s'.nodes.Keys == s.nodes.Keys && forall j :: j in s.nodes ==> KeepsLog(s.nodes[j], s'.nodes[j])
  }

  /** Everyone has heard of c's campaign in one term; those whose logs are no more recent have voted for it. */
  ghost predicate Polled(s: Cluster, c: NodeId) {
    && c in s.nodes && Has(s.nodes[c], {c})
    && forall j :: j in s.nodes && j != c ==>
         && s.nodes[j].role == Follower && s.nodes[j].term == s.nodes[c].term
         && (Recent(s.nodes[c].log, s.nodes[j].log) ==> VoteReply(s.nodes[j], c) in s.net)
  }

  /** Member c can campaign, in a term that no one has seen. */
  ghost predicate CanAsk(s: Cluster, c: NodeId) {
    && c in s.nodes && s.nodes[c].role != Leader && !s.nodes[c].preVote && s.nodes[c].applied == s.nodes[c].commit
    && forall j :: j in s.nodes ==> s.nodes[j].term <= s.nodes[c].term
  }

  lemma Round(s: Cluster, c: NodeId) returns (s': Cluster)
    requires Live(s) && |s.nodes| >= 2 && CanAsk(s, c)
    ensures Live(s') && Reaches(s, s') && Quiet(s, s') && Polled(s', c)
  {
    assert c in s.nodes;
    hide Live, Reaches, Recent, VoteReply, VoteMsg, Heard, KeepsLog, Asks, Quiet, Polled;
    var s1 := Campaign(s, c);
    s' := Ask(s1, c, s.nodes.Keys - {c});
    Then(s, s1, s');
    PolledNow(s, s1, s', c);
  }

  lemma PolledNow(s: Cluster, s1: Cluster, s': Cluster, c: NodeId)
    requires c in s.nodes && c in s1.nodes && s1.nodes == s.nodes[c := s1.nodes[c]] && KeepsLog(s.nodes[c], s1.nodes[c]) && Asks(s1, c)
    requires s'.nodes.Keys == s1.nodes.Keys && s'.nodes[c] == s1.nodes[c]
    requires forall j :: j in s.nodes && j != c ==> Heard(s1, s', c, j)
    ensures Quiet(s, s') && Polled(s', c)
  {
    hide Recent, VoteReply, VoteMsg, KeepsLog;
    AsksHas(s1, c);
    assert Quiet(s, s') by {
      forall j | j in s.nodes ensures KeepsLog(s.nodes[j], s'.nodes[j]) { if j != c { assert Heard(s1, s', c, j); } }
    }
    hide Quiet, Has, Asks;
    forall j | j in s'.nodes && j != c ensures s'.nodes[j].role == Follower && s'.nodes[j].term == s'.nodes[c].term
        && (Recent(s'.nodes[c].log, s'.nodes[j].log) ==> VoteReply(s'.nodes[j], c) in s'.net) {
      assert Heard(s1, s', c, j);
      SameRecent(s1.nodes[j], s'.nodes[j]);
    }
  }

  lemma AsksHas(s: Cluster, c: NodeId)
    requires Asks(s, c)
    ensures Has(s.nodes[c], {c})
  {
  }

  lemma SameRecent(n: Node, n': Node)
    requires KeepsLog(n, n')
    ensures n'.log == n.log
  {
  }

  lemma {:induction false} BestLog(s: Cluster, ids: set<NodeId>) returns (c: NodeId)
    requires ids != {} && ids <= s.nodes.Keys
    ensures c in ids && forall j :: j in ids ==> Recent(s.nodes[c].log, s.nodes[j].log)
  {
    var id :| id in ids;
    c := id;
    if ids != {id} {
      var b := BestLog(s, ids - {id});
      if !Recent(s.nodes[id].log, s.nodes[b].log) { c := b; }
    }
  }

  lemma {:induction false} TopTerm(s: Cluster, ids: set<NodeId>) returns (x: NodeId)
    requires ids != {} && ids <= s.nodes.Keys
    ensures x in ids && forall j :: j in ids ==> s.nodes[j].term <= s.nodes[x].term
  {
    var id :| id in ids;
    x := id;
    if ids != {id} {
      var b := TopTerm(s, ids - {id});
      if s.nodes[b].term > s.nodes[id].term { x := b; }
    }
  }

  /** No member asks before it campaigns. */
  ghost predicate Direct(s: Cluster) { forall j :: j in s.nodes ==> !s.nodes[j].preVote }

  /** Everyone has applied what it has committed. */
  ghost predicate Applied(s: Cluster) { forall j :: j in s.nodes ==> s.nodes[j].applied == s.nodes[j].commit }

  lemma QuietKeeps(s: Cluster, s': Cluster)
    requires Quiet(s, s') && Direct(s) && Applied(s)
    ensures Direct(s') && Applied(s') && |s'.nodes| == |s.nodes|
  {
    assert |s.nodes| == |s.nodes.Keys| && |s'.nodes| == |s'.nodes.Keys|;
  }

  /** A first campaign deposes whoever leads: its logs are not the point. */
  lemma Depose(s: Cluster) returns (s': Cluster, d: NodeId)
    requires Live(s) && |s.nodes| >= 2 && Direct(s) && Applied(s)
    ensures Live(s') && Reaches(s, s') && Quiet(s, s') && Polled(s', d)
  {
    hide Live, Reaches, Polled, Quiet;
    assert |s.nodes| == |s.nodes.Keys|;
    var x := TopTerm(s, s.nodes.Keys);
    d := OtherAtTop(s, x);
    s' := Round(s, d);
  }

  lemma Promote(s: Cluster, d: NodeId) returns (s': Cluster, c: NodeId)
    requires Live(s) && |s.nodes| >= 2 && Direct(s) && Applied(s) && Polled(s, d)
    ensures Live(s') && Reaches(s, s') && Quiet(s, s') && c in s'.nodes && Has(s'.nodes[c], {c}) && Coming(s', c, s'.nodes.Keys - {c})
    ensures forall j :: j in s'.nodes && j != c ==> s'.nodes[j].role == Follower
  {
    hide Live, Reaches, Recent, VoteReply;
    assert |s.nodes| == |s.nodes.Keys|;
    c := BestLog(s, s.nodes.Keys);
    assert CanAsk(s, c);
    s' := Round(s, c);
    forall j | j in s.nodes && j != c ensures Recent(s'.nodes[c].log, s'.nodes[j].log) {
      assert Recent(s.nodes[c].log, s.nodes[j].log);
    }
  }

  /** Some member is elected; what it misses nobody has committed, and its log is on its way to all. */
  lemma NewLeader(s: Cluster) returns (s': Cluster, c: NodeId)
    requires Live(s) && |s.nodes| >= 2 && Direct(s) && Applied(s)
    ensures Live(s') && Reaches(s, s') && Leads(s', c) && s'.nodes.Keys == s.nodes.Keys
    ensures s.nodes[c].log <= s'.nodes[c].log && Configured(s.nodes[c], s'.nodes[c])
    ensures forall i :: i in s.nodes && i != c ==> Sending(s', c, i)
  {
    hide *;
    var s1, d := Depose(s);
    QuietKeeps(s, s1);
    var s2;
    s2, c := Promote(s1, d);
    QuietKeeps(s1, s2);
    Then(s, s1, s2);
    s' := Elect(s2, c);
    Then(s, s2, s');
    QuietAt(s, s1, s2, c);
    ElectedFrom(s, s2, s', c);
  }

  lemma QuietAt(s: Cluster, s1: Cluster, s2: Cluster, c: NodeId)
    requires Quiet(s, s1) && Quiet(s1, s2) && c in s2.nodes
    ensures s2.nodes.Keys == s.nodes.Keys && s2.nodes[c].log == s.nodes[c].log && Configured(s.nodes[c], s2.nodes[c])
  {
  }

  lemma ElectedFrom(s: Cluster, s2: Cluster, s': Cluster, c: NodeId)
    requires Except(s2, s', {c}) && s2.nodes.Keys == s.nodes.Keys && c in s.nodes && s2.nodes[c].log == s.nodes[c].log
    requires Configured(s.nodes[c], s2.nodes[c]) && Configured(s2.nodes[c], s'.nodes[c]) && s2.nodes[c].log <= s'.nodes[c].log
    ensures s'.nodes.Keys == s.nodes.Keys && s.nodes[c].log <= s'.nodes[c].log && Configured(s.nodes[c], s'.nodes[c])
  {
  }

  ghost predicate Unread(s: Cluster, c: NodeId, ctx: Bytes) { c in s.nodes && ctx !in s.nodes[c].readOnly.pending }

  lemma Settling(s: Cluster, c: NodeId, ctx: Bytes) returns (s': Cluster)
    requires Live(s) && Direct(s) && forall j :: j in s.nodes ==> Unread(s, j, ctx)
    ensures Live(s') && Reaches(s, s') && Direct(s') && Applied(s') && s'.nodes.Keys == s.nodes.Keys && |s'.nodes| == |s.nodes|
    ensures forall j :: j in s.nodes ==> Unread(s', j, ctx) && s'.nodes[j].log == s.nodes[j].log
  {
    hide Live, Reaches;
    s' := Settle(s, s.nodes.Keys);
    assert |s.nodes| == |s.nodes.Keys| && |s'.nodes| == |s'.nodes.Keys|;
    forall j | j in s.nodes ensures OnlyLoop(s.nodes[j], s'.nodes[j]) && Settled(s', j) {}
  }

  /** Replication to all others. */
  lemma ReplicateAll(s: Cluster, c: NodeId) returns (s': Cluster)
    requires Live(s) && Leads(s, c) && forall j :: j in s.nodes && j != c ==> Sending(s, c, j)
    ensures Live(s') && Reaches(s, s') && Synced(s', c) && s'.nodes.Keys == s.nodes.Keys && c in s.nodes && Guides(s.nodes[c], s'.nodes[c])
  {
    assert c in s.nodes;
    hide Live, Reaches, Leads, Sending, Copied;
    s' := Replicate(s, c, s.nodes.Keys - {c});
    assert Spread(s, s', c, s.nodes.Keys - {c});
  }

  /** The leader's log after the client's entry. */
  ghost predicate Extended(log: Log, n: Node, data: Bytes) {
    n.log != [] && n.log[|n.log| - 1] == Entry(n.term, |n.log|, EntryNormal, data) && log <= n.log[..|n.log| - 1]
  }

  /** A leader is elected, takes a client's entry and gives everyone its log. */
  lemma Working(s: Cluster, r: NodeId, data: Bytes, ctx: Bytes) returns (s': Cluster, c: NodeId)
    requires Live(s) && |s.nodes| >= 2 && Direct(s) && Applied(s) && r in s.nodes && forall j :: j in s.nodes ==> Unread(s, j, ctx)
    ensures Live(s') && Reaches(s, s') && Synced(s', c) && s'.nodes.Keys == s.nodes.Keys && |s'.nodes| == |s.nodes|
    ensures c in s.nodes && Unread(s', c, ctx) && Extended(s.nodes[c].log, s'.nodes[c], data)
  {
    hide *;
    var s1;
    s1, c := NewLeader(s);
    LeaderIn(s1, c);
    var s2 := ReplicateAll(s1, c);
    Then(s, s1, s2);
    var s3 := Propose(s2, c, r, data);
    Then(s, s2, s3);
    SendingAll(s2, s3, c, data);
    s' := ReplicateAll(s3, c);
    Then(s, s3, s');
    Outcome(s.nodes[c], s1.nodes[c], s2, s3, s'.nodes[c], c, data);
    UnreadBy(s, s', c, ctx);
    SameCount(s, s');
  }

  lemma LeaderIn(s: Cluster, c: NodeId)
    requires Leads(s, c)
    ensures c in s.nodes
  {
  }

  lemma SameCount(s: Cluster, s': Cluster)
    requires s'.nodes.Keys == s.nodes.Keys
    ensures |s'.nodes| == |s.nodes|
  {
    assert |s.nodes| == |s.nodes.Keys| && |s'.nodes| == |s'.nodes.Keys|;
  }

  lemma SendingAll(s: Cluster, s': Cluster, c: NodeId, data: Bytes)
    requires Appended(s, s', c, data) && s'.nodes.Keys == s.nodes.Keys
    ensures c in s'.nodes && forall j :: j in s'.nodes && j != c ==> Sending(s', c, j)
  {
    hide Sending;
  }

  lemma Outcome(n: Node, n1: Node, s2: Cluster, s3: Cluster, n': Node, c: NodeId, data: Bytes)
    requires n.log <= n1.log && Configured(n, n1) && c in s2.nodes && Guides(n1, s2.nodes[c])
    requires Appended(s2, s3, c, data) && Guides(s3.nodes[c], n')
    ensures Extended(n.log, n', data) && n'.readOnly == n.readOnly
  {
    hide Sending;
  }

  lemma UnreadBy(s: Cluster, s': Cluster, c: NodeId, ctx: Bytes)
    requires Unread(s, c, ctx) && c in s'.nodes && s'.nodes[c].readOnly == s.nodes[c].readOnly
    ensures Unread(s', c, ctx)
  {
  }

  /** Everyone learns what is committed, applies it, and answers the leader. */
  lemma Closing(s: Cluster, c: NodeId, r: NodeId, ctx: Bytes) returns (s': Cluster)
    requires Live(s) && Synced(s, c) && |s.nodes| >= 2 && r in s.nodes && Unread(s, c, ctx)
    ensures Live(s') && Reaches(s, s') && Agreed(s', c) && Replying(s', c, ctx) && s'.nodes.Keys == s.nodes.Keys && |s'.nodes| == |s.nodes|
    ensures c in s.nodes && SameEntries(s.nodes[c], s'.nodes[c])
    ensures Reading(s'.nodes[c], if r == c then NONE else r, |s'.nodes[c].log|, {}, ctx)
  {
    hide *;
    UnreadIn(s, c, ctx);
    var from := if r == c then NONE else r;
    var s1 := Read(s, c, r, ctx);
    BeatsReady(s, s1, c, from, ctx);
    var s2 := Beat(s1, c, s1.nodes.Keys - {c}, ctx);
    Then(s, s1, s2);
    ExceptKeys(s1, s2, s1.nodes.Keys - {c}, c);
    s' := Settle(s2, s2.nodes.Keys);
    Then(s, s2, s');
    AgreedNow(s2, s', c, ctx);
    RepliesNow(s2, s', c, ctx);
    ReadingNow(s, s1, s2, s', c, from, ctx);
    SameCount(s, s');
  }

  ghost predicate SameEntries(n: Node, n': Node) { n'.log == n.log && n'.term == n.term }

  lemma UnreadIn(s: Cluster, c: NodeId, ctx: Bytes)
    requires Unread(s, c, ctx)
    ensures c in s.nodes && ctx !in s.nodes[c].readOnly.pending
  {
  }

  lemma BeatsReady(s: Cluster, s': Cluster, c: NodeId, from: NodeId, ctx: Bytes)
    requires Noted(s, s', c, from, ctx) && s'.nodes.Keys == s.nodes.Keys
    ensures c in s'.nodes && BeatsOut(s', c, s'.nodes.Keys - {c}, ctx)
  {
    hide BeatMsg, Reading;
  }

  lemma ExceptKeys(s: Cluster, s': Cluster, ids: set<NodeId>, c: NodeId)
    requires Except(s, s', ids) && c in s.nodes && c !in ids
    ensures s'.nodes.Keys == s.nodes.Keys && s'.nodes[c] == s.nodes[c]
  {
  }

  lemma AgreedNow(s: Cluster, s': Cluster, c: NodeId, ctx: Bytes)
    requires Live(s) && Synced(s, c) && AllBeaten(s, c, s.nodes.Keys - {c}, ctx) && Live(s') && Idle(s, s')
    requires forall id :: id in s.nodes ==> Settled(s', id)
    ensures Agreed(s', c) && s'.nodes.Keys == s.nodes.Keys
  {
    hide Live, BeatReply;
    AllCommitted(s, c);
    LiveLoops(s');
    assert c in s.nodes;
    hide Synced, AllBeaten;
    forall j | j in s'.nodes ensures Holds(s'.nodes[j], s'.loops[j], s'.nodes[c]) && (j != c ==> s'.nodes[j].role == Follower) {
      HeldBy(s, c, j, ctx);
      assert OnlyLoop(s.nodes[j], s'.nodes[j]) && OnlyLoop(s.nodes[c], s'.nodes[c]) && Settled(s', j);
      HoldsNow(s'.nodes[j], s'.loops[j], s'.nodes[c]);
    }
    LeadsIn(s, c);
    hide Holds, Settled;
  }

  lemma LeadsIn(s: Cluster, c: NodeId)
    requires Synced(s, c)
    ensures c in s.nodes && s.nodes[c].role == Leader && s.nodes[c].id == c
  {
  }

  lemma HeldBy(s: Cluster, c: NodeId, j: NodeId, ctx: Bytes)
    requires Synced(s, c) && AllBeaten(s, c, s.nodes.Keys - {c}, ctx) && j in s.nodes && s.nodes[c].commit == |s.nodes[c].log|
    ensures var n := s.nodes[j]; n.term == s.nodes[c].term && n.log == s.nodes[c].log && n.commit == |n.log| && (j != c ==> n.role == Follower)
  {
    hide BeatReply;
    if j != c { assert Beaten(s, c, j, ctx) && Copied(s, c, j); }
  }

  lemma RepliesNow(s: Cluster, s': Cluster, c: NodeId, ctx: Bytes)
    requires AllBeaten(s, c, s.nodes.Keys - {c}, ctx) && Idle(s, s')
    ensures Replying(s', c, ctx)
  {
    hide BeatReply;
    forall j | j in s'.nodes && j != c ensures s'.nodes[j].id == j && BeatReply(s'.nodes[j], c, ctx) in s'.net {
      assert Beaten(s, c, j, ctx) && OnlyLoop(s.nodes[j], s'.nodes[j]);
      SameReply(s.nodes[j], s'.nodes[j], c, ctx);
    }
  }

  lemma HoldsNow(n: Node, l: Loop, c: Node)
    requires n.term == c.term && n.log == c.log && n.commit == n.applied == |n.log| && l.delivered == n.log[..n.commit]
    ensures Holds(n, l, c)
  {
    assert n.log[..n.commit] == n.log;
  }

  lemma SameReply(n: Node, n': Node, c: NodeId, ctx: Bytes)
    requires OnlyLoop(n, n')
    ensures BeatReply(n', c, ctx) == BeatReply(n, c, ctx)
  {
  }

  lemma ReadingNow(s: Cluster, s1: Cluster, s2: Cluster, s': Cluster, c: NodeId, from: NodeId, ctx: Bytes)
    requires Noted(s, s1, c, from, ctx) && c in s2.nodes && s2.nodes[c] == s1.nodes[c] && Idle(s2, s') && Synced(s, c) && Synced(s1, c) && Synced(s2, c)
    requires Live(s) && Live(s1)
    ensures c in s.nodes && c in s'.nodes && SameEntries(s.nodes[c], s'.nodes[c]) && Reading(s'.nodes[c], from, |s'.nodes[c].log|, {}, ctx)
  {
    hide Live, BeatMsg, Copied;
    assert OnlyLoop(s2.nodes[c], s'.nodes[c]);
  }

  lemma Schedule(s: Cluster, r: NodeId, data: Bytes, ctx: Bytes) returns (s': Cluster, c: NodeId)
    requires Live(s) && |s.nodes| >= 2 && Direct(s) && r in s.nodes && forall j :: j in s.nodes ==> Unread(s, j, ctx)
    ensures Live(s') && Reaches(s, s') && Agreed(s', c) && s'.nodes.Keys == s.nodes.Keys && c in s.nodes
    ensures Extended(s.nodes[c].log, s'.nodes[c], data)
    ensures |s.nodes| >= 3 ==> ReadState(|s'.nodes[c].log|, ctx) in s'.nodes[r].readStates
  {
    hide *;
    var s1 := Settling(s, r, ctx);
    var s2;
    s2, c := Working(s1, r, data, ctx);
    Then(s, s1, s2);
    var s3 := Closing(s2, c, r, ctx);
    Then(s, s2, s3);
    ExtendedBy(s.nodes[c].log, s2.nodes[c], s3.nodes[c], data);
    s' := s3;
    if |s.nodes| >= 3 {
      s' := Answer(s3, c, r, |s3.nodes[c].log|, ctx);
      Then(s, s3, s');
      SameLeader(s3, s', c);
      ExtendedBy(s.nodes[c].log, s3.nodes[c], s'.nodes[c], data);
    }
  }

  lemma ExtendedBy(log: Log, n: Node, n': Node, data: Bytes)
    requires Extended(log, n, data) && SameEntries(n, n')
    ensures Extended(log, n', data)
  {
  }

  lemma SameLeader(s: Cluster, s': Cluster, c: NodeId)
    requires c in s.nodes && c in s'.nodes && s'.nodes[c].log == s.nodes[c].log && s'.nodes[c].term == s.nodes[c].term
    ensures SameEntries(s.nodes[c], s'.nodes[c])
  {
  }

  lemma Continue(ss: seq<Cluster>, evs: seq<(NodeId, Event)>, s': Cluster) returns (ss': seq<Cluster>, evs': seq<(NodeId, Event)>)
    requires Run(ss, evs) && Reaches(ss[|evs|], s')
    ensures Run(ss', evs') && ss <= ss' && evs <= evs' && ss'[|evs'|] == s'
  {
    hide StepOk, Init;
    var ts: seq<Cluster>, fvs: seq<(NodeId, Event)> :| Links(ss[|evs|], ts, fvs, s');
    ss', evs' := ss + ts[1..], evs + fvs;
    forall k | 0 <= k < |evs'| ensures StepOk(ss'[k], evs'[k].0, evs'[k].1, ss'[k + 1]) {
      if k < |evs| {
        assert StepOk(ss[k], evs[k].0, evs[k].1, ss[k + 1]);
      } else {
        assert StepOk(ts[k - |evs|], fvs[k - |evs|].0, fvs[k - |evs|].1, ts[k - |evs| + 1]);
        assert ss'[k] == ts[k - |evs|] && ss'[k + 1] == ts[k - |evs| + 1];
      }
    }
  }

  /** From the end of every run of two members or more that campaign without asking first, some further events elect a leader,
      give a client's entry to it and bring everyone to one log that ends with the entry and holds what the leader had, all
      committed and delivered; with three members or more they also answer a client's read, with the index of that entry.
      The read's context must not be waiting at a member already. */
  lemma MakesProgress(ss: seq<Cluster>, evs: seq<(NodeId, Event)>, r: NodeId, data: Bytes, ctx: Bytes)
      returns (ss': seq<Cluster>, evs': seq<(NodeId, Event)>, c: NodeId)
    requires Run(ss, evs) && |ss[|evs|].nodes| >= 2 && r in ss[|evs|].nodes
    requires forall j :: j in ss[|evs|].nodes ==> !ss[|evs|].nodes[j].preVote && ctx !in ss[|evs|].nodes[j].readOnly.pending
    ensures Run(ss', evs') && ss <= ss' && evs <= evs'
    ensures var s, s' := ss[|evs|], ss'[|evs'|];
            && s'.nodes.Keys == s.nodes.Keys == s'.loops.Keys && c in s'.nodes && s'.nodes[c].role == Leader
            && var log := s'.nodes[c].log;
            && log != [] && log[|log| - 1] == Entry(s'.nodes[c].term, |log|, EntryNormal, data) && s.nodes[c].log <= log[..|log| - 1]
            && (forall j :: j in s'.nodes ==>
                  && s'.nodes[j].term == s'.nodes[c].term && s'.nodes[j].log == log && s'.nodes[j].commit == |log|
                  && s'.nodes[j].applied == |log| && s'.loops[j].delivered == log)
            && (|s.nodes| >= 3 ==> ReadState(|log|, ctx) in s'.nodes[r].readStates)
  {
    hide Run, Reaches, Live;
    RunLength(ss, evs);
    var s := ss[|evs|];
    assert Live(s) by { RunsTo(ss, evs); }
    var s';
    s', c := Schedule(s, r, data, ctx);
    ss', evs' := Continue(ss, evs, s');
    forall j | j in s'.nodes ensures Holds(s'.nodes[j], s'.loops[j], s'.nodes[c]) {}
  }

  lemma RunsTo(ss: seq<Cluster>, evs: seq<(NodeId, Event)>)
    requires Run(ss, evs)
    ensures Live(ss[|evs|])
  {
    RunLength(ss, evs);
    hide Run;
    assert RunTo(ss, evs, ss[|evs|]);
  }
}
