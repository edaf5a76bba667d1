/** Which clusters answer reads: the acknowledgements counted do not include the leader's own, so two members never do. */
module RaftAnswers {
  import opened RaftTypes
  import opened RaftFlatLog
  import opened RaftSpec
  import opened RaftInvariant
  import opened RaftActions
  import opened RaftReplication
  import opened RaftCluster
  import opened RaftSteps
  import opened RaftForward
  import opened RaftSafety
  import opened RaftReads
  import opened RaftCommits
  import opened RaftHandlers
  import opened RaftProgress

  // ------------------------------------------------------------ one step

  /** Nobody acknowledges its own reads. */
  ghost predicate OthersAck(n: Node) {
    forall c :: c in n.readOnly.pending ==> n.readOnly.pending[c].acks <= n.prs.Keys - {n.id}
  }

  /** No read is answered, and only a heartbeat's sender is replied to. */
  ghost predicate Hushed(n: Node, m: Message, n': Node) {
    && n'.id == n.id && n'.prs.Keys == n.prs.Keys && Mute(n, n')
    && forall x :: x in n'.msgs && x.typ == MsgHeartbeatResp ==>
         x in n.msgs || (m.typ == MsgHeartbeat && x.from == n.id && x.to == m.from)
  }

  lemma CalmHushed(n: Node, n1: Node, m: Message)
    requires Calm(n, n1) && OthersAck(n)
    ensures Hushed(n, m, n1) && OthersAck(n1)
  {
  }

  lemma HushedThen(n: Node, n1: Node, m: Message, n': Node)
    requires Calm(n, n1) && Hushed(n1, m, n')
    ensures Hushed(n, m, n')
  {
  }

  /** One acknowledgement is no quorum of two. */
  lemma AckHushed(n: Node, m: Message)
    requires |n.prs| == 2 && n.id in n.prs && OthersAck(n) && m.from in n.prs && m.from != n.id
    ensures HandleHeartbeatResp(n, m).Ok?
    ensures Hushed(n, m, HandleHeartbeatResp(n, m).value) && OthersAck(HandleHeartbeatResp(n, m).value)
  {
    var ro := RecvAck(n.readOnly, m.context, m.from);
    if m.context in ro.pending {
      var acks := ro.pending[m.context].acks;
      assert acks <= n.prs.Keys - {n.id} && |n.prs.Keys| == |n.prs| && |n.prs.Keys - {n.id}| == 1;
      CardinalityMonotone(acks, n.prs.Keys - {n.id});
    }
  }

  lemma LeaderHushed(n: Node, m: Message)
    requires n.role == Leader && |n.prs| == 2 && n.id in n.prs && OthersAck(n) && StepLeader(n, m).Ok?
    requires m.typ == MsgHeartbeatResp ==> m.from != n.id
    ensures Hushed(n, m, StepLeader(n, m).value) && OthersAck(StepLeader(n, m).value)
  {
    hide HandleProposal, HandleAppResp, HandleHeartbeatResp, HandleReadIndex, Calm, Hushed, OthersAck, BroadcastHeartbeat;
    match m.typ
    case MsgProp => HandleProposalCalm(n, m); CalmHushed(n, StepLeader(n, m).value, m);
    case MsgAppResp => if m.from in n.prs { HandleAppRespCalm(n, m); CalmHushed(n, StepLeader(n, m).value, m); } else { SameHushed(n, m); }
    case MsgHeartbeatResp => if m.from in n.prs { AckHushed(n, m); } else { SameHushed(n, m); }
    case MsgReadIndex => ReadHushed(n, m);
    case MsgBeat => BeatHushed(n, m, []);
    case _ => SameHushed(n, m);
  }

  lemma SameHushed(n: Node, m: Message)
    ensures Hushed(n, m, n)
  {
  }

  lemma BeatHushed(n: Node, m: Message, ctx: Bytes)
    requires OthersAck(n)
    ensures Hushed(n, m, BroadcastHeartbeat(n, ctx)) && OthersAck(BroadcastHeartbeat(n, ctx))
  {
  }

  lemma ReadHushed(n: Node, m: Message)
    requires HandleReadIndex(n, m).Ok? && |n.prs| == 2 && OthersAck(n)
    ensures Hushed(n, m, HandleReadIndex(n, m).value) && OthersAck(HandleReadIndex(n, m).value)
  {
    if n.id in n.prs && TermAt(n.log, n.commit) == n.term && m.entries[0].data !in n.readOnly.pending {
      var ctx := m.entries[0].data;
      BeatHushed(n.(readOnly := AddRequest(n.readOnly, ctx, n.commit, m)), m, ctx);
    }
  }

  lemma HeartbeatHushed(n: Node, m: Message)
    requires HandleHeartbeat(n, m).Ok? && m.typ == MsgHeartbeat && OthersAck(n) && n.id != NONE
    ensures Hushed(n, m, HandleHeartbeat(n, m).value) && OthersAck(HandleHeartbeat(n, m).value)
  {
  }

  lemma FollowerHushed(n: Node, m: Message)
    requires n.role == Follower && OthersAck(n) && StepFollower(n, m).Ok? && m.typ != MsgReadIndexResp && n.id != NONE
    ensures Hushed(n, m, StepFollower(n, m).value) && OthersAck(StepFollower(n, m).value)
  {
    hide HandleAppendEntries, HandleHeartbeat, Calm;
    match m.typ
    case MsgApp =>
      HandleAppendEntriesCalm(n.(lead := m.from), m);
      CalmHushed(n.(lead := m.from), StepFollower(n, m).value, m);
    case MsgHeartbeat => HeartbeatHushed(n.(lead := m.from), m);
    case _ => SameHushed(n, m);
  }

  lemma TallyHushed(n: Node, m: Message)
    requires Tally(n, m).Ok? && OthersAck(n)
    ensures Hushed(n, m, Tally(n, m).value) && OthersAck(Tally(n, m).value)
  {
    hide Tally, Calm, Hushed, OthersAck;
    TallyCalm(n, m);
    CalmHushed(n, Tally(n, m).value, m);
  }

  lemma CandidateHushed(n: Node, m: Message)
    requires n.role != Leader && n.role != Follower && OthersAck(n) && StepCandidate(n, m).Ok? && n.id != NONE
    ensures Hushed(n, m, StepCandidate(n, m).value) && OthersAck(StepCandidate(n, m).value)
  {
    hide HandleAppendEntries, HandleHeartbeat, Tally, Calm;
    match m.typ
    case MsgApp =>
      HandleAppendEntriesCalm(BecomeFollower(n, n.term, m.from), m);
      CalmHushed(BecomeFollower(n, n.term, m.from), StepCandidate(n, m).value, m);
    case MsgHeartbeat => HeartbeatHushed(BecomeFollower(n, m.term, m.from), m);
    case MsgVoteResp => if n.role == Candidate { TallyHushed(n, m); } else { SameHushed(n, m); }
    case MsgPreVoteResp => if n.role == PreCandidate { TallyHushed(n, m); } else { SameHushed(n, m); }
    case _ => SameHushed(n, m);
  }

  lemma StepHushed(n: Node, m: Message)
    requires |n.prs| == 2 && n.id in n.prs && n.id != NONE && OthersAck(n) && Step(n, m).Ok?
    requires m.typ != MsgReadIndexResp && (m.typ == MsgHeartbeatResp ==> m.from != n.id)
    ensures Hushed(n, m, Step(n, m).value) && OthersAck(Step(n, m).value)
  {
    hide Hup, StepRole, ObserveTerm, HandleVote, HandlePreVote, Calm, Hushed, OthersAck;
    if 0 < m.term < n.term {
      StaleHushed(n, m);
    } else {
      var n1 := ObserveTerm(n, m);
      ObserveTermCalm(n, m);
      CalmHushed(n, n1, m);
      ObservedSame(n, m);
      match m.typ {
        case MsgHup => HupCalm(n1); CalmHushed(n1, Step(n, m).value, m);
        case MsgVote => BallotCalm(n1, m); CalmHushed(n1, Step(n, m).value, m);
        case MsgPreVote => BallotCalm(n1, m); CalmHushed(n1, Step(n, m).value, m);
        case _ => RoleHushed(n1, m);
      }
      HushedThen(n, n1, m, Step(n, m).value);
    }
  }

  lemma RoleHushed(n: Node, m: Message)
    requires |n.prs| == 2 && n.id in n.prs && n.id != NONE && OthersAck(n) && StepRole(n, m).Ok?
    requires m.typ != MsgReadIndexResp && (m.typ == MsgHeartbeatResp ==> m.from != n.id)
    ensures Hushed(n, m, StepRole(n, m).value) && OthersAck(StepRole(n, m).value)
  {
    hide StepLeader, StepFollower, StepCandidate, Hushed, OthersAck;
    match n.role
    case Leader => LeaderHushed(n, m);
    case Follower => FollowerHushed(n, m);
    case _ => CandidateHushed(n, m);
  }

  lemma ObservedSame(n: Node, m: Message)
    ensures ObserveTerm(n, m).prs == n.prs && ObserveTerm(n, m).id == n.id
  {
  }

  lemma StaleHushed(n: Node, m: Message)
    requires 0 < m.term < n.term && OthersAck(n)
    ensures Step(n, m).Ok? && Hushed(n, m, Step(n, m).value) && OthersAck(Step(n, m).value)
  {
  }

  // ------------------------------------------------------------- two members

  /** No read has been answered, and none can be. */
  ghost predicate Silent(s: Cluster) {
    && (forall id :: id in s.nodes ==> s.nodes[id].readStates == [] && s.nodes[id].msgs <= s.net && OthersAck(s.nodes[id]))
    && (forall x :: x in s.net ==> x.typ != MsgReadIndexResp && (x.typ == MsgHeartbeatResp ==> x.from != x.to))
  }

  lemma FirstSilent(s: Cluster)
    requires Init(s)
    ensures Silent(s)
  {
  }

  lemma StepSilent(s: Cluster, id: NodeId, m: Message, n': Node)
    requires Silent(s) && id in s.nodes && s.nodes[id].id == id && Hushed(s.nodes[id], m, n') && OthersAck(n') && (m.typ == MsgHeartbeat ==> m.from != id)
    ensures Silent(s.(nodes := s.nodes[id := n'], net := s.net + n'.msgs))
  {
    hide OthersAck;
  }

  lemma LoopSilent(s: Cluster, id: NodeId, ev: Event, s': Cluster)
    requires Silent(s) && StepOk(s, id, ev, s') && (ev.Ready? || ev.Advance?)
    ensures Silent(s')
  {
    hide NextEntries;
  }

  /** What may reach a member of a silent cluster. */
  lemma InputSilent(s: Cluster, h: History, id: NodeId, m: Message)
    requires Silent(s) && Inv(s, h) && id in s.nodes && ((m in s.net && m.to == id) || LocalInput(id, m))
    ensures m.typ != MsgReadIndexResp && (m.typ == MsgHeartbeatResp || m.typ == MsgHeartbeat ==> m.from != id)
  {
    hide NodeOk, HistoryOk, LoopOk, OthersAck;
    if m in s.net { assert MsgOk(h, m); }
  }

  lemma EventSilent(s: Cluster, h: History, id: NodeId, ev: Event, s': Cluster)
    requires Inv(s, h) && |s.nodes| == 2 && Silent(s) && StepOk(s, id, ev, s')
    ensures Silent(s') && |s'.nodes| == 2
  {
    hide Inv, Step, LocalInput, Silent, NextEntries, Hushed, OthersAck;
    if ev.Deliver? || ev.Local? {
      NodeAt(s, h, id);
      PairNode(s, h, id);
      InputSilent(s, h, id, ev.m);
      assert OthersAck(s.nodes[id]) by { SilentAt(s, id); }
      StepHushed(s.nodes[id], ev.m);
      StepSilent(s, id, ev.m, Step(s.nodes[id], ev.m).value);
    } else {
      LoopSilent(s, id, ev, s');
    }
    assert s'.nodes.Keys == s.nodes.Keys && |s.nodes| == |s.nodes.Keys| && |s'.nodes| == |s'.nodes.Keys|;
  }

  lemma SilentAt(s: Cluster, id: NodeId)
    requires Silent(s) && id in s.nodes
    ensures OthersAck(s.nodes[id])
  {
    hide OthersAck;
  }

  lemma PairNode(s: Cluster, h: History, id: NodeId)
    requires Inv(s, h) && |s.nodes| == 2 && id in s.nodes
    ensures var n := s.nodes[id]; |n.prs| == 2 && n.id == id && id in n.prs && id != NONE
  {
    hide Inv, NodeOk, HistoryOk;
    NodeAt(s, h, id);
    NodeFacts(h, TermsOf(s.nodes), s.nodes[id]);
    assert TermsOf(s.nodes).Keys == s.nodes.Keys;
    assert |s.nodes[id].prs| == |s.nodes[id].prs.Keys| && |s.nodes| == |s.nodes.Keys|;
  }

  lemma {:induction false} RunSilent(ss: seq<Cluster>, evs: seq<(NodeId, Event)>, hs: seq<History>, a: nat)
    requires Witnessed(ss, evs, hs) && a < |ss| && |ss[0].nodes| == 2
    ensures Silent(ss[a]) && |ss[a].nodes| == 2
  {
    hide Inv, Silent;
    if a == 0 {
      FirstSilent(ss[0]);
    } else {
      RunSilent(ss, evs, hs, a - 1);
      assert StepOk(ss[a - 1], evs[a - 1].0, evs[a - 1].1, ss[a]);
      hide StepOk;
      EventSilent(ss[a - 1], hs[a - 1], evs[a - 1].0, evs[a - 1].1, ss[a]);
    }
  }

  /** In a cluster of two members no run answers any read. */
  lemma PairsAnswerNothing(ss: seq<Cluster>, evs: seq<(NodeId, Event)>, a: nat, id: NodeId)
    requires Run(ss, evs) && |ss[0].nodes| == 2 && a < |ss| && id in ss[a].nodes
    ensures ss[a].nodes[id].readStates == [] && forall x :: x in ss[a].net ==> x.typ != MsgReadIndexResp
  {
    hide Inv, Extends, Init, OthersAck;
    var hs := RunHistories(ss, evs);
    assert Witnessed(ss, evs, hs);
    hide Run, Witnessed;
    RunSilent(ss, evs, hs, a);
  }

  // -------------------------------------------------------------- one member

  /** The only member elects itself, with or without pre-vote. */
  lemma HupAlone(n: Node)
    requires n.role != Leader && n.prs.Keys == {n.id} && n.applied == n.commit <= |n.log| && Step(n, HUP).Ok?
    ensures Step(n, HUP).value.role == Leader && Step(n, HUP).value.prs.Keys == n.prs.Keys && Step(n, HUP).value.id == n.id
  {
    assert |n.prs| == |n.prs.Keys| == 1;
    assert Step(n, HUP) == Hup(n);
    hide Step;
    if n.preVote {
      var n1 := RaftSpec.Poll(BecomePreCandidate(n).value, n.id, true);
      assert Ayes(n1.votes) == {n.id};
      assert Hup(n) == CampaignElection(n1);
      CampaignAlone(n1);
    } else {
      CampaignAlone(n);
    }
  }

  lemma CampaignAlone(n: Node)
    requires n.role != Leader && n.prs.Keys == {n.id} && n.commit <= |n.log| && CampaignElection(n).Ok?
    ensures var n' := CampaignElection(n).value; n'.role == Leader && n'.prs.Keys == n.prs.Keys && n'.id == n.id
  {
    var n2 := RaftSpec.Poll(BecomeCandidate(n).value, n.id, true);
    assert Ayes(n2.votes) == {n.id} && |n.prs| == |n.prs.Keys| == 1;
    assert CampaignElection(n) == BecomeLeader(n2);
    hide BecomeLeader;
    LeaderStarts(n2);
  }

  lemma AloneLeads(s: Cluster, r: NodeId) returns (s': Cluster)
    requires Live(s) && |s.nodes| == 1 && r in s.nodes
    ensures Live(s') && Reaches(s, s') && r in s'.nodes && s'.nodes[r].role == Leader && s'.nodes[r].id == r && s'.nodes[r].prs.Keys == {r}
  {
    hide Live, Reaches, Step;
    var s1 := Settle(s, {r});
    AloneKnown(s, s1, r);
    if s1.nodes[r].role == Leader {
      s' := s1;
    } else {
      s' := Handle(s1, r, HUP);
      HupAlone(s1.nodes[r]);
      Then(s, s1, s');
    }
  }

  lemma AloneKnown(s: Cluster, s1: Cluster, r: NodeId)
    requires Live(s1) && |s.nodes| == 1 && r in s.nodes && Idle(s, s1) && Settled(s1, r)
    ensures var n := s1.nodes[r]; n.id == r && n.prs.Keys == {r} && n.applied == n.commit <= |n.log|
  {
    hide Live, CommitsAll, TermsRise, Numbered, Queued;
    LiveTidy(s1, r);
    forall j | j in s.nodes ensures j == r { OnlyMember(s.nodes.Keys, r, j) by { assert |s.nodes| == |s.nodes.Keys|; } }
  }

  lemma AloneAnswers(s: Cluster, r: NodeId, ctx: Bytes) returns (s': Cluster)
    requires Live(s) && |s.nodes| == 1 && r in s.nodes
    ensures Live(s') && Reaches(s, s') && r in s'.nodes && exists idx :: ReadState(idx, ctx) in s'.nodes[r].readStates
  {
    hide Live, Reaches, Step;
    var s1 := AloneLeads(s, r);
    var n, m := s1.nodes[r], ReadMsg(r, NONE, ctx);
    s' := Handle(s1, r, m);
    Then(s, s1, s');
    assert |n.prs| == |n.prs.Keys| == 1;
    LoneAnswer(n, m);
    assert s'.nodes[r].readStates[|n.readStates|] == ReadState(n.commit, ctx);
  }

  // -------------------------------------------------------------- any number

  /** Some further events hand the application of member r an answer to the read ctx. */
  ghost predicate Answerable(ss: seq<Cluster>, evs: seq<(NodeId, Event)>, r: NodeId, ctx: Bytes) {
    exists ss', evs', idx :: AnswersRead(ss, evs, ss', evs', r, ctx, idx)
  }

  ghost predicate AnswersRead(ss: seq<Cluster>, evs: seq<(NodeId, Event)>, ss': seq<Cluster>, evs': seq<(NodeId, Event)>, r: NodeId, ctx: Bytes, idx: nat) {
    Run(ss', evs') && ss <= ss' && evs <= evs' && r in ss'[|evs'|].nodes && ReadState(idx, ctx) in ss'[|evs'|].nodes[r].readStates
  }

  /** A new read can be answered after every run of the cluster exactly when it does not have two members. */
  lemma AnswerableIffNotTwo(ss: seq<Cluster>, evs: seq<(NodeId, Event)>, r: NodeId, ctx: Bytes)
    requires Run(ss, evs) && r in ss[|evs|].nodes
    requires forall j :: j in ss[|evs|].nodes ==> !ss[|evs|].nodes[j].preVote && ctx !in ss[|evs|].nodes[j].readOnly.pending
    ensures Answerable(ss, evs, r, ctx) <==> |ss[0].nodes| != 2
  {
    RunLength(ss, evs);
    SameMembers(ss, evs, 0, |evs|);
    hide Run;
    var s := ss[|evs|];
    if |s.nodes| == 2 {
      if Answerable(ss, evs, r, ctx) {
        var ss': seq<Cluster>, evs': seq<(NodeId, Event)>, idx: nat :| AnswersRead(ss, evs, ss', evs', r, ctx, idx);
        RunLength(ss', evs');
        assert ss'[0] == ss[0];
        PairsAnswerNothing(ss', evs', |evs'|, r);
        assert false;
      }
    } else if |s.nodes| == 1 {
      RunsTo(ss, evs);
      hide Live, Reaches;
      var s' := AloneAnswers(s, r, ctx);
      var ss', evs' := Continue(ss, evs, s');
      var idx :| ReadState(idx, ctx) in s'.nodes[r].readStates;
      assert AnswersRead(ss, evs, ss', evs', r, ctx, idx);
    } else {
      assert s.nodes != map[];
      var ss', evs', c := MakesProgress(ss, evs, r, [], ctx);
      assert AnswersRead(ss, evs, ss', evs', r, ctx, |ss'[|evs'|].nodes[c].log|);
    }
  }

  lemma SameMembers(ss: seq<Cluster>, evs: seq<(NodeId, Event)>, a: nat, b: nat)
    requires Run(ss, evs) && a <= b < |ss|
    ensures |ss[a].nodes| == |ss[b].nodes|
  {
    RunKeys(ss, evs, a, b);
    assert |ss[a].nodes| == |ss[a].nodes.Keys| && |ss[b].nodes| == |ss[b].nodes.Keys|;
  }
}
