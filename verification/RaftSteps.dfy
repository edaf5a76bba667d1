/** Every handler of a node, on every input it can get, returns without panic and keeps the invariant. */
module RaftSteps {
  import opened RaftTypes
  import opened RaftFlatLog
  import opened RaftSpec
  import opened RaftInvariant
  import opened RaftActions
  import opened RaftReplication
  import opened RaftCluster

  /** n is one of the nodes and the invariant holds. */
  ghost predicate At(nodes: map<NodeId, Node>, h: History, n: Node) {
    Good(nodes, h) && n.id in nodes && nodes[n.id] == n
  }

  lemma AtNode(nodes: map<NodeId, Node>, h: History, n: Node)
    requires At(nodes, h, n)
    ensures NodeOk(h, TermsOf(nodes), n) && HistoryOk(h, TermsOf(nodes)) && n.id in TermsOf(nodes)
  {
    hide NodeOk, HistoryOk;
  }

  // ------------------------------------------------ quiet parts of a step

  /** Fields the invariant does not mention. */
  lemma UnseenQuiet(h: History, tm: Terms, n: Node, n': Node)
    requires NodeOk(h, tm, n)
    requires n' == n.(lead := n'.lead, pendingConf := n'.pendingConf, readStates := n'.readStates,
                      readOnly := n'.readOnly, applied := n'.applied, msgs := n'.msgs)
    requires ReadsOk(n') && n'.applied <= n.commit && forall m :: m in n'.msgs ==> MsgOk(h, m)
    ensures Quiet(h, n, n')
  {
    hide LogOk, MsgOk, OldAcksOk, CommitOk, AckOk, ReadsOk;
  }

  lemma UnseenKeeps(nodes: map<NodeId, Node>, h: History, n: Node, n': Node)
    requires At(nodes, h, n)
    requires n' == n.(lead := n'.lead, pendingConf := n'.pendingConf, readStates := n'.readStates,
                      readOnly := n'.readOnly, applied := n'.applied, msgs := n'.msgs)
    requires ReadsOk(n') && n'.applied <= n.commit && forall m :: m in n'.msgs ==> MsgOk(h, m)
    ensures At(nodes[n.id := n'], h, n')
  {
    hide Good, NodeOk, HistoryOk, MsgOk, ReadsOk, Quiet;
    AtNode(nodes, h, n);
    UnseenQuiet(h, TermsOf(nodes), n, n');
    QuietKeeps(nodes, h, n');
  }

  lemma NodeFacts(h: History, tm: Terms, n: Node)
    requires NodeOk(h, tm, n)
    ensures ReadsOk(n) && n.applied <= n.commit <= |n.log| && 1 <= n.term && n.id != NONE
    ensures n.prs.Keys == tm.Keys && n.id in n.prs && |n.prs| == |tm.Keys| && tm[n.id] == n.term
    ensures forall m :: m in n.msgs ==> MsgOk(h, m)
    ensures CommittedBy(h, n.term, n.commit)
  {
    hide LogOk, MsgOk, OldAcksOk, AckOk, ReadsOk, LeadOk, CandidateOk, VoteOk;
    assert |n.prs| == |n.prs.Keys|;
    if n.commit != 0 {
      var u: nat :| CommitFrom(h, n, u);
      assert u in h.marks && u <= n.term && h.marks[u] >= n.commit;
    }
  }

  /** Queueing good messages. */
  lemma SendsKeep(nodes: map<NodeId, Node>, h: History, n: Node, ms: set<Message>)
    requires At(nodes, h, n) && forall m :: m in ms ==> MsgOk(h, m)
    ensures At(nodes[n.id := n.(msgs := n.msgs + ms)], h, n.(msgs := n.msgs + ms))
  {
    hide At, NodeOk, MsgOk, ReadsOk, CommittedBy, HistoryOk, TermsOf;
    AtNode(nodes, h, n);
    NodeFacts(h, TermsOf(nodes), n);
    var n' := n.(msgs := n.msgs + ms);
    ReadsOkFrame(n, n');
    UnseenKeeps(nodes, h, n, n');
  }

  // ---------------------------------------------------------- leadership

  lemma LeaderFacts(h: History, tm: Terms, n: Node)
    requires NodeOk(h, tm, n) && HistoryOk(h, tm) && n.role == Leader
    ensures n.term in h.logs && h.logs[n.term] == n.log && Ack(h, n.term, n.id) == |n.log|
    ensures forall j :: j in n.prs && j != n.id ==> n.prs[j].matched <= Ack(h, n.term, j) && n.prs[j].next <= |n.log| + 1
    ensures forall j :: Ack(h, n.term, j) <= |n.log|
  {
    hide LogOk, MsgOk, OldAcksOk, CommitOk, AckOk, BallotsOk, Completeness, VotesRespectAcks, MarksOk;
    assert LeaderOk(h, tm, n.term);
  }

  lemma AppendMessageOk(h: History, tm: Terms, n: Node, to: NodeId)
    requires NodeOk(h, tm, n) && HistoryOk(h, tm) && n.role == Leader && to in n.prs && to != n.id
    ensures MsgOk(h, AppendMessageTo(n, to))
  {
    hide NodeOk, HistoryOk, CommittedBy;
    NodeFacts(h, tm, n);
    LeaderFacts(h, tm, n);
    var k := n.prs[to].next - 1;
    assert n.log[k..] == n.log[k..k + |n.log[k..]|];
  }

  lemma HeartbeatMessageOk(h: History, tm: Terms, n: Node, to: NodeId, ctx: Bytes)
    requires NodeOk(h, tm, n) && HistoryOk(h, tm) && n.role == Leader && to in n.prs && to != n.id
    ensures MsgOk(h, HeartbeatMessage(n, to, ctx))
  {
    hide NodeOk, HistoryOk, CommittedBy;
    NodeFacts(h, tm, n);
    LeaderFacts(h, tm, n);
    CommittedByExtends(h, h, n.term, n.term, n.commit, Min(n.commit, n.prs[to].matched));
  }

  lemma BroadcastAppendKeeps(nodes: map<NodeId, Node>, h: History, n: Node) returns (n': Node)
    requires At(nodes, h, n) && n.role == Leader
    ensures BroadcastAppend(n) == Ok(n') && At(nodes[n.id := n'], h, n')
  {
    hide At, NodeOk, HistoryOk, MsgOk;
    AtNode(nodes, h, n);
    var ms := AppendMessages(n, n.prs.Keys);
    forall m | m in ms ensures MsgOk(h, m) {
      var id :| id in n.prs && id != n.id && m == AppendMessageTo(n, id);
      AppendMessageOk(h, TermsOf(nodes), n, id);
    }
    n' := n.(msgs := n.msgs + ms);
    SendsKeep(nodes, h, n, ms);
  }

  lemma SendAppendKeeps(nodes: map<NodeId, Node>, h: History, n: Node, to: NodeId) returns (n': Node)
    requires At(nodes, h, n) && n.role == Leader && to in n.prs && to != n.id
    ensures SendAppend(n, to) == Ok(n') && At(nodes[n.id := n'], h, n')
  {
    hide At, NodeOk, HistoryOk, MsgOk;
    AtNode(nodes, h, n);
    AppendMessageOk(h, TermsOf(nodes), n, to);
    n' := n.(msgs := n.msgs + {AppendMessageTo(n, to)});
    SendsKeep(nodes, h, n, {AppendMessageTo(n, to)});
  }

  lemma BroadcastHeartbeatKeeps(nodes: map<NodeId, Node>, h: History, n: Node, ctx: Bytes)
    requires At(nodes, h, n) && n.role == Leader
    ensures At(nodes[n.id := BroadcastHeartbeat(n, ctx)], h, BroadcastHeartbeat(n, ctx))
  {
    hide At, NodeOk, HistoryOk, MsgOk;
    AtNode(nodes, h, n);
    var ms := HeartbeatMessages(n, ctx, n.prs.Keys);
    forall m | m in ms ensures MsgOk(h, m) {
      var id :| id in n.prs && id != n.id && m == HeartbeatMessage(n, id, ctx);
      HeartbeatMessageOk(h, TermsOf(nodes), n, id, ctx);
    }
    SendsKeep(nodes, h, n, ms);
  }

  /** The majority index is confirmed by a majority in the current term. */
  lemma QuorumConfirms(h: History, tm: Terms, n: Node)
    requires NodeOk(h, tm, n) && HistoryOk(h, tm) && n.role == Leader
    requires n.prs != map[]
    requires var mid := QuorumMatch(n.prs); mid > n.commit && TermAt(n.log, mid) == n.term
    ensures MayCommit(h, tm, n, QuorumMatch(n.prs))
  {
    hide NodeOk, HistoryOk;
    NodeFacts(h, tm, n);
    LeaderFacts(h, tm, n);
    var mid := QuorumMatch(n.prs);
    var a, b := AtLeast(n.prs, mid), Confirmers(h, tm, n.term, mid);
    assert a <= b;
    CardinalityMonotone(a, b);
  }

  lemma MaybeCommitKeeps(nodes: map<NodeId, Node>, h: History, n: Node) returns (n': Node, h': History)
    requires At(nodes, h, n) && n.role == Leader
    ensures MaybeCommit(n) == Ok(n') && Extends(h, h') && At(nodes[n.id := n'], h', n') && n'.role == Leader && n'.id == n.id
  {
    hide NodeOk, HistoryOk, Good, Extends;
    AtNode(nodes, h, n);
    NodeFacts(h, TermsOf(nodes), n);
    var mid := QuorumMatch(n.prs);
    h' := h;
    n' := n;
    ExtendsSelf(h);
    assert nodes[n.id := n] == nodes;
    if mid > n.commit && TermAt(n.log, mid) == n.term {
      QuorumConfirms(h, TermsOf(nodes), n);
      h' := LeaderCommitKeeps(nodes, h, n, mid);
      n' := n.(commit := mid);
    }
  }

  lemma ExtendsSelf(h: History)
    ensures Extends(h, h)
  {
  }

  lemma AppendAtEnd(log: Log, commit: nat, term: nat, es: seq<Entry>)
    requires commit <= |log|
    ensures Append(log, commit, Stamped(term, |log|, es)) == Ok(log + Stamped(term, |log|, es))
  {
    assert log[..|log|] == log;
    if es == [] {
      assert log + Stamped(term, |log|, es) == log;
    } else {
      assert Stamped(term, |log|, es)[0].index == |log| + 1;
    }
  }

  lemma AppendEntryKeeps(nodes: map<NodeId, Node>, h: History, n: Node, es: seq<Entry>) returns (n': Node, h': History)
    requires At(nodes, h, n) && n.role == Leader
    ensures AppendEntry(n, es) == Ok(n') && Extends(h, h') && At(nodes[n.id := n'], h', n') && n'.role == Leader && n'.id == n.id
  {
    hide NodeOk, HistoryOk, Good, Extends, MaybeCommit;
    AtNode(nodes, h, n);
    NodeFacts(h, TermsOf(nodes), n);
    var log := n.log + Stamped(n.term, |n.log|, es);
    AppendAtEnd(n.log, n.commit, n.term, es);
    var n1 := n.(log := log, prs := n.prs[n.id := MaybeUpdate(n.prs[n.id], |log|)]);
    var h1 := AppendKeeps(nodes, h, n, n1);
    n', h' := MaybeCommitKeeps(nodes[n.id := n1], h1, n1);
    ExtendsTransitive(h, h1, h');
    assert nodes[n.id := n1][n.id := n'] == nodes[n.id := n'];
  }

  lemma BecomeLeaderKeeps(nodes: map<NodeId, Node>, h: History, n: Node) returns (n': Node, h': History)
    requires At(nodes, h, n) && Wins(TermsOf(nodes), n)
    ensures BecomeLeader(n) == Ok(n') && Extends(h, h') && At(nodes[n.id := n'], h', n') && n'.role == Leader && n'.id == n.id
  {
    hide NodeOk, HistoryOk, Good, Extends, AppendEntry, FreshProgress;
    var h1 := ElectionKeeps(nodes, h, n);
    var n1 := TakeLeadership(n);
    n', h' := AppendEntryKeeps(nodes[n.id := n1], h1, n1, [NOOP]);
    ExtendsTransitive(h, h1, h');
    assert nodes[n.id := n1][n.id := n'] == nodes[n.id := n'];
  }

  // ----------------------------------------------------------- elections

  /** A role change that is not a leadership change. */
  lemma RoleQuiet(h: History, tm: Terms, n: Node, n': Node)
    requires NodeOk(h, tm, n) && n.role != Leader && n'.role != Leader
    requires n' == n.(role := n'.role, votes := n'.votes, lead := n'.lead, pendingConf := n'.pendingConf)
    requires CandidateOk(h, n')
    ensures Quiet(h, n, n')
  {
    hide LogOk, MsgOk, OldAcksOk, CommitOk, AckOk;
    assert n.applied <= n.commit by { NodeFacts(h, tm, n); }
  }

  lemma RoleKeeps(nodes: map<NodeId, Node>, h: History, n: Node, n': Node)
    requires At(nodes, h, n) && n.role != Leader && n'.role != Leader
    requires n' == n.(role := n'.role, votes := n'.votes, lead := n'.lead, pendingConf := n'.pendingConf)
    requires CandidateOk(h, n')
    ensures At(nodes[n.id := n'], h, n')
  {
    hide Good, NodeOk, HistoryOk, Quiet, CandidateOk;
    AtNode(nodes, h, n);
    RoleQuiet(h, TermsOf(nodes), n, n');
    QuietKeeps(nodes, h, n');
  }

  lemma EntersTermAt(nodes: map<NodeId, Node>, h: History, n: Node, n': Node)
    requires At(nodes, h, n) && EntersTerm(n, n')
    ensures At(nodes[n.id := n'], h, n')
  {
    hide Good, NodeOk, HistoryOk;
    BumpTermKeeps(nodes, h, n');
  }

  lemma VoteAt(nodes: map<NodeId, Node>, h: History, n: Node, b: Ballot) returns (h': History)
    requires At(nodes, h, n) && MayVote(h, n, b)
    ensures h' == WithBallot(h, n.term, n.id, b) && Extends(h, h')
    ensures At(nodes[n.id := n.(vote := b.cand)], h', n.(vote := b.cand))
  {
    hide Good, MayVote, Extends;
    h' := VoteKeeps(nodes, h, n, b);
  }

  /** `becomeCandidate` and the vote for itself. */
  lemma NotNone(nodes: map<NodeId, Node>, h: History, n: Node)
    requires At(nodes, h, n)
    ensures n.id != NONE
  {
    hide At, NodeOk, HistoryOk;
    AtNode(nodes, h, n);
    NodeFacts(h, TermsOf(nodes), n);
  }

  lemma BecomeCandidateKeeps(nodes: map<NodeId, Node>, h: History, n: Node) returns (n': Node, h': History)
    requires At(nodes, h, n) && n.role != Leader
    ensures BecomeCandidate(n).Ok? && n' == Poll(BecomeCandidate(n).value, n.id, true)
    ensures Extends(h, h') && At(nodes[n.id := n'], h', n') && n'.role == Candidate && n'.id == n.id && OwnBallot(h', n')
  {
    hide At, Extends;
    NotNone(nodes, h, n);
    var n1 := BecomeFollower(n, n.term + 1, NONE);
    EntersTermAt(nodes, h, n, n1);
    h' := VoteAt(nodes[n.id := n1], h, n1, Ballot(n.id, LastTerm(n.log), |n.log|));
    var n2 := n1.(vote := n.id);
    n' := CandidateRole(n, n1, n2);
    assert nodes[n.id := n1][n.id := n2] == nodes[n.id := n2];
    hide BecomeCandidate, BecomeFollower, Poll, LastTerm;
    RoleKeeps(nodes[n.id := n2], h', n2, n');
    assert nodes[n.id := n2][n.id := n'] == nodes[n.id := n'];
  }

  /** The node's vote for itself in its term is on record. */
  ghost predicate OwnBallot(h: History, n: Node) {
    (n.term, n.id) in h.ballots && h.ballots[(n.term, n.id)] == Ballot(n.id, LastTerm(n.log), |n.log|)
  }

  lemma CandidateRole(n: Node, n1: Node, n2: Node) returns (n': Node)
    requires n.role != Leader && n1 == BecomeFollower(n, n.term + 1, NONE) && n2 == n1.(vote := n.id)
    ensures n' == n2.(role := Candidate, votes := map[n.id := true])
    ensures BecomeCandidate(n).Ok? && n' == Poll(BecomeCandidate(n).value, n.id, true)
  {
    n' := n2.(role := Candidate, votes := map[n.id := true]);
  }

  lemma VoteRequestsOk(h: History, n: Node, typ: MessageType)
    requires 1 <= n.term && n.id != NONE
    requires typ == MsgPreVote ||
      (typ == MsgVote && (n.term, n.id) in h.ballots && h.ballots[(n.term, n.id)] == Ballot(n.id, LastTerm(n.log), |n.log|))
    ensures forall m :: m in VoteRequests(n, typ, n.prs.Keys) ==> MsgOk(h, m)
  {
  }

  lemma QuorumWins(h: History, tm: Terms, n: Node)
    requires NodeOk(h, tm, n) && n.role == Candidate && Granted(n) == Quorum(n)
    ensures Wins(tm, n)
  {
    hide NodeOk;
    NodeFacts(h, tm, n);
  }

  lemma CampaignElectionKeeps(nodes: map<NodeId, Node>, h: History, n: Node) returns (n': Node, h': History)
    requires At(nodes, h, n) && n.role != Leader
    ensures CampaignElection(n) == Ok(n') && Extends(h, h') && At(nodes[n.id := n'], h', n') && n'.id == n.id
  {
    hide At, NodeOk, HistoryOk, Extends, BecomeLeader, MsgOk, VoteRequests, Granted, Poll, BecomeCandidate, Wins;
    var n1, h1 := BecomeCandidateKeeps(nodes, h, n);
    AtNode(nodes[n.id := n1], h1, n1);
    assert BecomeCandidate(n).value.id == n.id by { BecomeCandidateId(n); }
    if Granted(n1) == Quorum(n1) {
      QuorumWins(h1, TermsOf(nodes[n.id := n1]), n1);
      n', h' := BecomeLeaderKeeps(nodes[n.id := n1], h1, n1);
      ExtendsTransitive(h, h1, h');
    } else {
      NodeFacts(h1, TermsOf(nodes[n.id := n1]), n1);
      VoteRequestsOk(h1, n1, MsgVote);
      n', h' := n1.(msgs := n1.msgs + VoteRequests(n1, MsgVote, n1.prs.Keys)), h1;
      SendsKeep(nodes[n.id := n1], h1, n1, VoteRequests(n1, MsgVote, n1.prs.Keys));
    }
    assert nodes[n.id := n1][n.id := n'] == nodes[n.id := n'];
  }

  lemma BecomeCandidateId(n: Node)
    requires n.role != Leader
    ensures BecomeCandidate(n).Ok? && BecomeCandidate(n).value.id == n.id
  {
  }

  lemma CampaignPreElectionKeeps(nodes: map<NodeId, Node>, h: History, n: Node) returns (n': Node, h': History)
    requires At(nodes, h, n) && n.role != Leader
    ensures CampaignPreElection(n) == Ok(n') && Extends(h, h') && At(nodes[n.id := n'], h', n') && n'.id == n.id
  {
    hide At, NodeOk, HistoryOk, Extends, CampaignElection, MsgOk, VoteRequests, Granted;
    var n1 := n.(votes := map[n.id := true], role := PreCandidate);
    assert n1 == Poll(BecomePreCandidate(n).value, n.id, true);
    RoleKeeps(nodes, h, n, n1);
    AtNode(nodes[n.id := n1], h, n1);
    if Granted(n1) == Quorum(n1) {
      n', h' := CampaignElectionKeeps(nodes[n.id := n1], h, n1);
    } else {
      NodeFacts(h, TermsOf(nodes[n.id := n1]), n1);
      VoteRequestsOk(h, n1, MsgPreVote);
      n', h' := n1.(msgs := n1.msgs + VoteRequests(n1, MsgPreVote, n1.prs.Keys)), h;
      SendsKeep(nodes[n.id := n1], h, n1, VoteRequests(n1, MsgPreVote, n1.prs.Keys));
      ExtendsSelf(h);
    }
    assert nodes[n.id := n1][n.id := n'] == nodes[n.id := n'];
  }

  lemma HupKeeps(nodes: map<NodeId, Node>, h: History, n: Node) returns (n': Node, h': History)
    requires At(nodes, h, n)
    ensures Hup(n) == Ok(n') && Extends(h, h') && At(nodes[n.id := n'], h', n') && n'.id == n.id
  {
    hide At, NodeOk, HistoryOk, Extends, CampaignElection, CampaignPreElection;
    AtNode(nodes, h, n);
    NodeFacts(h, TermsOf(nodes), n);
    if n.role == Leader || PendingConf(n) {
      n', h' := n, h;
      ExtendsSelf(h);
      assert nodes[n.id := n] == nodes by { AtSelf(nodes, h, n); }
    } else if n.preVote {
      n', h' := CampaignPreElectionKeeps(nodes, h, n);
    } else {
      n', h' := CampaignElectionKeeps(nodes, h, n);
    }
  }

  lemma AtSelf(nodes: map<NodeId, Node>, h: History, n: Node)
    requires At(nodes, h, n)
    ensures nodes[n.id := n] == nodes
  {
    hide Good;
  }

  // ------------------------------------------------------------- votes

  lemma SendKeeps(nodes: map<NodeId, Node>, h: History, n: Node, m: Message)
    requires At(nodes, h, n) && MsgOk(h, Stamp(n, m))
    ensures At(nodes[n.id := Send(n, m)], h, Send(n, m))
  {
    hide At, MsgOk;
    SendsKeep(nodes, h, n, {Stamp(n, m)});
  }

  /** A message that reaches a node from the network. */
  ghost predicate Arrives(h: History, n: Node, m: Message) {
    MsgOk(h, m) && m.to == n.id
  }

  /** After a vote the recorded ballot names the candidate. */
  lemma GrantKeeps(nodes: map<NodeId, Node>, h: History, n: Node, m: Message) returns (h': History)
    requires At(nodes, h, n) && Arrives(h, n, m) && m.typ == MsgVote && m.term == n.term && Grants(n, m)
    ensures Extends(h, h') && At(nodes[n.id := n.(vote := m.from)], h', n.(vote := m.from))
    ensures (n.term, n.id) in h'.ballots && h'.ballots[(n.term, n.id)].cand == m.from && 1 <= n.term
  {
    hide At, HistoryOk, Extends;
    AtNode(nodes, h, n);
    if n.vote == NONE {
      hide NodeOk;
      h' := VoteAt(nodes, h, n, Ballot(m.from, m.logTerm, m.logIndex));
    } else {
      hide LogOk, OldAcksOk, CommitOk, AckOk, LeadOk, CandidateOk, ReadsOk;
      h' := h;
      ExtendsSelf(h);
      AtSelf(nodes, h, n);
      assert n.(vote := m.from) == n;
    }
  }

  lemma HandleVoteKeeps(nodes: map<NodeId, Node>, h: History, n: Node, m: Message) returns (h': History)
    requires At(nodes, h, n) && Arrives(h, n, m) && m.typ == MsgVote && m.term == n.term
    ensures Extends(h, h') && At(nodes[n.id := HandleVote(n, m)], h', HandleVote(n, m))
  {
    hide At, Extends, Grants;
    if Grants(n, m) {
      hide Arrives;
      h' := GrantKeeps(nodes, h, n, m);
      var n1 := n.(vote := m.from);
      SendKeeps(nodes[n.id := n1], h', n1, Blank(MsgVoteResp, m.from));
      assert nodes[n.id := n1][n.id := HandleVote(n, m)] == nodes[n.id := HandleVote(n, m)];
    } else {
      h' := h;
      ExtendsSelf(h);
      SendKeeps(nodes, h, n, Blank(MsgVoteResp, m.from).(reject := true));
    }
  }

  lemma PositiveTerm(nodes: map<NodeId, Node>, h: History, n: Node)
    requires At(nodes, h, n)
    ensures 1 <= n.term && n.id != NONE
  {
    hide At;
    AtNode(nodes, h, n);
    NodeFacts(h, TermsOf(nodes), n);
  }

  // --------------------------------------------------------- replication

  lemma AcceptsMessage(h: History, tm: Terms, n: Node, m: Message) returns (n': Node)
    requires HistoryOk(h, tm) && NodeOk(h, tm, n) && n.role == Follower
    requires MsgOk(h, m) && m.typ == MsgApp && m.term == n.term && MatchTerm(n.log, m.logIndex, m.logTerm)
    ensures HandleAppendEntries(n, m) == Ok(n') && Accepts(h, n, n', m.logIndex + |m.entries|)
    ensures n'.msgs == n.msgs + {Stamp(n, Blank(MsgAppResp, m.from).(logIndex := m.logIndex + |m.entries|))}
  {
    hide LogOk, TermsUpTo, HistoryOk, OldAcksOk, AckOk, LeadOk, CandidateOk, VoteOk, ReadsOk, CommitOk, CommittedBy, MaybeAppend, StillAgrees;
    var l, p, q := h.logs[n.term], m.logIndex, m.logIndex + |m.entries|;
    assert LogOk(h, l) by { LeaderLogOkH(h, tm, n.term); }
    NodeFacts(h, tm, n);
    CommittedInLeaderLog(h, tm, n);
    var log := AcceptEffect(h, n.log, n.commit, l, p, q, m.commitIndex);
    var commit := Max(n.commit, Min(m.commitIndex, q));
    n' := Send(n.(log := log, commit := commit), Blank(MsgAppResp, m.from).(logIndex := q));
    CommitBound(h, n.term, n.log, n.commit, l, log, q, m.commitIndex);
    assert log[..q] == l[..q];
  }

  lemma LeaderLogOkH(h: History, tm: Terms, t: nat)
    requires HistoryOk(h, tm) && t in h.logs
    ensures LogOk(h, h.logs[t])
  {
    hide LogOk, LeadersOk, BallotsOk, AcksOk, Completeness, VotesRespectAcks, MarksOk;
    LeaderLogOk(h, tm, t);
  }

  lemma CommitBound(h: History, t: nat, log: Log, commit: nat, l: Log, log': Log, q: nat, c: nat)
    requires commit <= |log| && log[..commit] <= l && q <= |log'| && q <= |l| && log'[..q] == l[..q]
    requires StillAgrees(log, l, log')
    requires CommittedBy(h, t, commit) && CommittedBy(h, t, c)
    ensures var k := Max(commit, Min(c, q)); k <= |log'| && log'[..k] <= l && CommittedBy(h, t, k)
  {
    hide CommittedBy;
    var k := Min(c, q);
    ExtendsSelf(h);
    CommittedByExtends(h, h, t, t, c, k);
    assert log[..commit] == l[..commit];
    assert log'[..k] == log'[..q][..k] && l[..k] == l[..q][..k];
  }

  lemma HandleAppendEntriesKeeps(nodes: map<NodeId, Node>, h: History, n: Node, m: Message) returns (n': Node, h': History)
    requires At(nodes, h, n) && n.role == Follower && Arrives(h, n, m) && m.typ == MsgApp && m.term == n.term
    ensures HandleAppendEntries(n, m) == Ok(n') && Extends(h, h') && At(nodes[n.id := n'], h', n') && n'.id == n.id
  {
    hide Good, NodeOk, HistoryOk, Extends, Accepts;
    AtNode(nodes, h, n);
    NodeFacts(h, TermsOf(nodes), n);
    assert m.from != n.id;
    if MatchTerm(n.log, m.logIndex, m.logTerm) {
      n', h' := AcceptAppendKeeps(nodes, h, n, m);
    } else {
      h' := h;
      ExtendsSelf(h);
      var reply := Blank(MsgAppResp, m.from).(logIndex := m.logIndex, reject := true, rejectHint := |n.log|);
      n' := Send(n, reply);
      SendKeeps(nodes, h, n, reply);
    }
  }

  lemma AcceptAppendKeeps(nodes: map<NodeId, Node>, h: History, n: Node, m: Message) returns (n': Node, h': History)
    requires At(nodes, h, n) && n.role == Follower && MsgOk(h, m) && m.typ == MsgApp && m.term == n.term && m.from != n.id
    requires MatchTerm(n.log, m.logIndex, m.logTerm)
    ensures HandleAppendEntries(n, m) == Ok(n') && Extends(h, h') && At(nodes[n.id := n'], h', n') && n'.id == n.id
  {
    hide Good, NodeOk, HistoryOk, Extends, Accepts, MsgOk, HandleAppendEntries, MatchTerm, WithAck, Stamp;
    AtNode(nodes, h, n);
    var q := m.logIndex + |m.entries|;
    n' := AcceptsMessage(h, TermsOf(nodes), n, m);
    AcceptMessagesOk(h, TermsOf(nodes), n, n', q, m.from);
    h' := AcceptKeeps(nodes, h, n, n', q);
    AcceptsId(h, n, n', q);
  }

  lemma AcceptsId(h: History, n: Node, n': Node, k: nat)
    requires Accepts(h, n, n', k)
    ensures n'.id == n.id
  {
    hide LogOk, CommittedBy;
  }

  lemma AcceptMessagesOk(h: History, tm: Terms, n: Node, n': Node, k: nat, to: NodeId)
    requires HistoryOk(h, tm) && NodeOk(h, tm, n) && Accepts(h, n, n', k)
    requires n'.msgs == n.msgs + {Stamp(n, Blank(MsgAppResp, to).(logIndex := k))} && to != n.id
    ensures forall m :: m in n'.msgs ==> MsgOk(WithAck(h, n, k), m)
  {
    hide NodeOk, HistoryOk, LogOk, CommittedBy;
    NodeFacts(h, tm, n);
    var h' := WithAck(h, n, k);
    assert Extends(h, h');
    forall m | m in n'.msgs ensures MsgOk(h', m) {
      if m in n.msgs { MsgOkExtends(h, h', m); }
    }
  }

  lemma HeartbeatAccepts(h: History, tm: Terms, n: Node, m: Message)
    requires HistoryOk(h, tm) && NodeOk(h, tm, n) && n.role == Follower
    requires MsgOk(h, m) && m.typ == MsgHeartbeat && m.term == n.term && m.to == n.id && m.commitIndex > n.commit
    ensures m.commitIndex <= |n.log| && Accepts(h, n, n.(commit := m.commitIndex), 0)
  {
    hide LogOk, OldAcksOk, CommitOk, LeadOk, CandidateOk, VoteOk, ReadsOk, CommittedBy;
    hide LeadersOk, BallotsOk, Completeness, VotesRespectAcks, MarksOk;
    NodeFacts(h, tm, n);
    var a, c := Ack(h, n.term, n.id), m.commitIndex;
    assert (n.term, n.id) in h.acks;
    assert n.log[..c] == n.log[..a][..c] && h.logs[n.term][..c] == h.logs[n.term][..a][..c];
  }

  lemma AcceptAt(nodes: map<NodeId, Node>, h: History, n: Node, n': Node, k: nat) returns (h': History)
    requires At(nodes, h, n) && Accepts(h, n, n', k)
    requires forall m :: m in n'.msgs ==> MsgOk(WithAck(h, n, k), m)
    ensures Extends(h, h') && At(nodes[n.id := n'], h', n') && n'.id == n.id
  {
    hide Good, NodeOk, HistoryOk, Extends, Accepts, MsgOk;
    AcceptsId(h, n, n', k);
    h' := AcceptKeeps(nodes, h, n, n', k);
  }

  /** The commit index a heartbeat carries may be taken over. */
  lemma HeartbeatCommitKeeps(nodes: map<NodeId, Node>, h: History, n: Node, m: Message) returns (n': Node, h': History)
    requires At(nodes, h, n) && n.role == Follower && Arrives(h, n, m) && m.typ == MsgHeartbeat && m.term == n.term
    ensures CommitTo(n.log, n.commit, Min(m.commitIndex, |n.log|)) == Ok(n'.commit) && n' == n.(commit := n'.commit)
    ensures Extends(h, h') && At(nodes[n.id := n'], h', n')
  {
    hide At, NodeOk, HistoryOk, Extends, Accepts, MsgOk;
    AtNode(nodes, h, n);
    NodeFacts(h, TermsOf(nodes), n);
    if m.commitIndex > n.commit {
      HeartbeatAccepts(h, TermsOf(nodes), n, m);
      AckMessagesOk(h, TermsOf(nodes), n);
      n' := n.(commit := m.commitIndex);
      h' := AcceptAt(nodes, h, n, n', 0);
    } else {
      n', h' := n, h;
      ExtendsSelf(h);
      AtSelf(nodes, h, n);
    }
  }

  lemma HandleHeartbeatKeeps(nodes: map<NodeId, Node>, h: History, n: Node, m: Message) returns (n': Node, h': History)
    requires At(nodes, h, n) && n.role == Follower && Arrives(h, n, m) && m.typ == MsgHeartbeat && m.term == n.term
    ensures HandleHeartbeat(n, m) == Ok(n') && Extends(h, h') && At(nodes[n.id := n'], h', n') && n'.id == n.id
  {
    hide At, Extends, MsgOk, Arrives;
    PositiveTerm(nodes, h, n);
    var n1, h1 := HeartbeatCommitKeeps(nodes, h, n, m);
    h' := h1;
    var reply := Blank(MsgHeartbeatResp, m.from).(context := m.context);
    n' := Send(n1, reply);
    HeartbeatRespOk(h', n1, m);
    SendKeeps(nodes[n.id := n1], h', n1, reply);
    assert nodes[n.id := n1][n.id := n'] == nodes[n.id := n'];
  }

  lemma HeartbeatRespOk(h: History, n: Node, m: Message)
    requires 1 <= n.term
    ensures MsgOk(h, Stamp(n, Blank(MsgHeartbeatResp, m.from).(context := m.context)))
  {
  }

  lemma AckMessagesOk(h: History, tm: Terms, n: Node)
    requires NodeOk(h, tm, n)
    ensures forall m :: m in n.msgs ==> MsgOk(WithAck(h, n, 0), m)
  {
    hide NodeOk, MsgOk;
    NodeFacts(h, tm, n);
    var h' := WithAck(h, n, 0);
    assert Extends(h, h');
    forall m | m in n.msgs ensures MsgOk(h', m) { MsgOkExtends(h, h', m); }
  }

  // ----------------------------------------------------------- followers

  /** Input of a step: a network message or a local one. */
  ghost predicate Input(h: History, n: Node, m: Message) {
    Arrives(h, n, m) || LocalInput(n.id, m)
  }

  lemma ForwardKeeps(nodes: map<NodeId, Node>, h: History, n: Node, m: Message)
    requires At(nodes, h, n) && Input(h, n, m) && (m.typ == MsgProp || m.typ == MsgReadIndex)
    ensures At(nodes[n.id := Send(n, m.(to := n.lead))], h, Send(n, m.(to := n.lead)))
  {
    hide At;
    PositiveTerm(nodes, h, n);
    SendKeeps(nodes, h, n, m.(to := n.lead));
  }

  lemma LeadKeeps(nodes: map<NodeId, Node>, h: History, n: Node, lead: NodeId)
    requires At(nodes, h, n)
    ensures At(nodes[n.id := n.(lead := lead)], h, n.(lead := lead))
  {
    hide At, NodeOk, MsgOk, ReadsOk;
    AtNode(nodes, h, n);
    NodeFacts(h, TermsOf(nodes), n);
    assert ReadsOk(n.(lead := lead)) by { ReadsOkFrame(n, n.(lead := lead)); }
    UnseenKeeps(nodes, h, n, n.(lead := lead));
  }

  lemma ReadsOkFrame(n: Node, n': Node)
    requires ReadsOk(n) && n'.readOnly == n.readOnly
    ensures ReadsOk(n')
  {
  }

  lemma ReadStatesKeep(nodes: map<NodeId, Node>, h: History, n: Node, rs: seq<ReadState>)
    requires At(nodes, h, n)
    ensures At(nodes[n.id := n.(readStates := rs)], h, n.(readStates := rs))
  {
    hide At, NodeOk, MsgOk, ReadsOk;
    AtNode(nodes, h, n);
    NodeFacts(h, TermsOf(nodes), n);
    ReadsOkFrame(n, n.(readStates := rs));
    UnseenKeeps(nodes, h, n, n.(readStates := rs));
  }

  lemma StepFollowerKeeps(nodes: map<NodeId, Node>, h: History, n: Node, m: Message) returns (n': Node, h': History)
    requires At(nodes, h, n) && n.role == Follower && Input(h, n, m)
    requires m.typ == MsgApp || m.typ == MsgHeartbeat ==> m.term == n.term
    ensures StepFollower(n, m) == Ok(n') && Extends(h, h') && At(nodes[n.id := n'], h', n') && n'.id == n.id
  {
    hide At, Extends, HandleAppendEntries, HandleHeartbeat, MsgOk;
    n', h' := n, h;
    ExtendsSelf(h);
    AtSelf(nodes, h, n);
    match m.typ
    case MsgProp =>
      if n.lead != NONE { n' := Send(n, m.(to := n.lead)); ForwardKeeps(nodes, h, n, m); }
    case MsgReadIndex =>
      if n.lead != NONE { n' := Send(n, m.(to := n.lead)); ForwardKeeps(nodes, h, n, m); }
    case MsgApp =>
      var n1 := n.(lead := m.from);
      LeadKeeps(nodes, h, n, m.from);
      n', h' := HandleAppendEntriesKeeps(nodes[n.id := n1], h, n1, m);
      assert nodes[n.id := n1][n.id := n'] == nodes[n.id := n'];
    case MsgHeartbeat =>
      var n1 := n.(lead := m.from);
      LeadKeeps(nodes, h, n, m.from);
      n', h' := HandleHeartbeatKeeps(nodes[n.id := n1], h, n1, m);
      assert nodes[n.id := n1][n.id := n'] == nodes[n.id := n'];
    case MsgReadIndexResp =>
      assert m.entries != [] by { ReadRespEntries(h, n, m); }
      n' := n.(readStates := n.readStates + [ReadState(m.logIndex, m.entries[0].data)]);
      ReadStatesKeep(nodes, h, n, n'.readStates);
    case _ =>
  }

  lemma ReadRespEntries(h: History, n: Node, m: Message)
    requires Input(h, n, m) && m.typ == MsgReadIndexResp
    ensures m.entries != []
  {
  }

  // ---------------------------------------------------------- candidates

  lemma PollOk(h: History, n: Node, m: Message)
    requires CandidateOk(h, n) && Arrives(h, n, m) && m.typ == MsgVoteResp && m.term == n.term
    ensures CandidateOk(h, Poll(n, m.from, !m.reject))
  {
  }

  lemma AtCandidateOk(nodes: map<NodeId, Node>, h: History, n: Node)
    requires At(nodes, h, n)
    ensures CandidateOk(h, n)
  {
    hide At, LogOk, OldAcksOk, CommitOk, AckOk, LeadOk, ReadsOk, MsgOk, HistoryOk;
    AtNode(nodes, h, n);
  }

  lemma PollKeeps(nodes: map<NodeId, Node>, h: History, n: Node, m: Message)
    requires At(nodes, h, n) && (n.role == Candidate || n.role == PreCandidate)
    requires n.role == Candidate ==> Arrives(h, n, m) && m.typ == MsgVoteResp && m.term == n.term
    ensures var n' := Poll(n, m.from, !m.reject); At(nodes[n.id := n'], h, n') && n'.id == n.id && n'.role == n.role
  {
    hide At, Arrives;
    AtCandidateOk(nodes, h, n);
    if n.role == Candidate { PollOk(h, n, m); }
    RoleKeeps(nodes, h, n, Poll(n, m.from, !m.reject));
  }

  lemma TallyKeeps(nodes: map<NodeId, Node>, h: History, n: Node, m: Message) returns (n': Node, h': History)
    requires At(nodes, h, n) && (n.role == Candidate || n.role == PreCandidate)
    requires n.role == Candidate ==> Arrives(h, n, m) && m.typ == MsgVoteResp && m.term == n.term
    ensures Tally(n, m) == Ok(n') && Extends(h, h') && At(nodes[n.id := n'], h', n') && n'.id == n.id
  {
    hide At, Extends, Arrives, CampaignElection, BecomeLeader, BroadcastAppend, Granted, Poll, Wins;
    PollKeeps(nodes, h, n, m);
    var n1 := Poll(n, m.from, !m.reject);
    var nodes1: map<NodeId, Node> := nodes[n.id := n1];
    n', h' := n1, h;
    ExtendsSelf(h);
    if Granted(n1) == Quorum(n1) {
      if n1.role == PreCandidate {
        n', h' := CampaignElectionKeeps(nodes1, h, n1);
      } else {
        assert Wins(TermsOf(nodes1), n1) by { AtNode(nodes1, h, n1); QuorumWins(h, TermsOf(nodes1), n1); }
        var n2, h2 := BecomeLeaderKeeps(nodes1, h, n1);
        n' := BroadcastAppendKeeps(nodes1[n.id := n2], h2, n2);
        h' := h2;
        assert nodes1[n.id := n2][n.id := n'] == nodes1[n.id := n'];
        assert n'.id == n.id by { BroadcastId(n2); }
      }
    } else if |n1.votes| - Granted(n1) == Quorum(n1) {
      n' := BecomeFollower(n1, n1.term, NONE);
      RoleKeeps(nodes1, h, n1, n');
    }
    assert nodes1[n.id := n'] == nodes[n.id := n'];
  }

  lemma BroadcastId(n: Node)
    ensures BroadcastAppend(n).Ok? && BroadcastAppend(n).value.id == n.id
  {
  }

  lemma StepCandidateKeeps(nodes: map<NodeId, Node>, h: History, n: Node, m: Message) returns (n': Node, h': History)
    requires At(nodes, h, n) && (n.role == Candidate || n.role == PreCandidate) && Input(h, n, m)
    requires m.typ == MsgApp || m.typ == MsgHeartbeat || m.typ == MsgVoteResp ==> m.term == n.term
    ensures StepCandidate(n, m) == Ok(n') && Extends(h, h') && At(nodes[n.id := n'], h', n') && n'.id == n.id
  {
    hide At, Extends, HandleAppendEntries, HandleHeartbeat, Tally, MsgOk;
    n', h' := n, h;
    ExtendsSelf(h);
    AtSelf(nodes, h, n);
    match m.typ
    case MsgApp =>
      var n1 := BecomeFollower(n, n.term, m.from);
      RoleKeeps(nodes, h, n, n1);
      n', h' := HandleAppendEntriesKeeps(nodes[n.id := n1], h, n1, m);
      assert nodes[n.id := n1][n.id := n'] == nodes[n.id := n'];
    case MsgHeartbeat =>
      var n1 := BecomeFollower(n, n.term, m.from);
      RoleKeeps(nodes, h, n, n1);
      n', h' := HandleHeartbeatKeeps(nodes[n.id := n1], h, n1, m);
      assert nodes[n.id := n1][n.id := n'] == nodes[n.id := n'];
    case MsgVoteResp =>
      if n.role == Candidate { n', h' := TallyKeeps(nodes, h, n, m); }
    case MsgPreVoteResp =>
      if n.role == PreCandidate { n', h' := TallyKeeps(nodes, h, n, m); }
    case _ =>
  }

  // ------------------------------------------------------------- leaders

  lemma AtMember(nodes: map<NodeId, Node>, h: History, n: Node)
    requires At(nodes, h, n)
    ensures n.id in n.prs
  {
    hide At, NodeOk, HistoryOk;
    AtNode(nodes, h, n);
    NodeFacts(h, TermsOf(nodes), n);
  }

  lemma PendingKeeps(nodes: map<NodeId, Node>, h: History, n: Node, pending: bool)
    requires At(nodes, h, n)
    ensures At(nodes[n.id := n.(pendingConf := pending)], h, n.(pendingConf := pending))
  {
    hide At, NodeOk, ReadsOk, MsgOk, CommittedBy, HistoryOk, TermsOf;
    AtNode(nodes, h, n);
    NodeFacts(h, TermsOf(nodes), n);
    var n1 := n.(pendingConf := pending);
    ReadsOkFrame(n, n1);
    UnseenKeeps(nodes, h, n, n1);
  }

  lemma HandleProposalKeeps(nodes: map<NodeId, Node>, h: History, n: Node, m: Message) returns (n': Node, h': History)
    requires At(nodes, h, n) && n.role == Leader && m.entries != []
    ensures HandleProposal(n, m) == Ok(n') && Extends(h, h') && At(nodes[n.id := n'], h', n') && n'.id == n.id
  {
    hide At, Extends, AppendEntry, BroadcastAppend, Demote, HasConfChange;
    AtMember(nodes, h, n);
    var n1 := n.(pendingConf := n.pendingConf || HasConfChange(m.entries));
    PendingKeeps(nodes, h, n, n1.pendingConf);
    var nodes1: map<NodeId, Node> := nodes[n.id := n1];
    var n2, h2 := AppendEntryKeeps(nodes1, h, n1, Demote(n.pendingConf, m.entries));
    n' := BroadcastAppendKeeps(nodes1[n.id := n2], h2, n2);
    h' := h2;
    BroadcastId(n2);
    assert nodes1[n.id := n2][n.id := n'] == nodes[n.id := n'];
  }

  lemma AddRequestOk(n: Node, ctx: Bytes, m: Message)
    requires ReadsOk(n) && ctx !in n.readOnly.pending && m.entries != [] && m.entries[0].data == ctx
    ensures ReadsOk(n.(readOnly := AddRequest(n.readOnly, ctx, n.commit, m)))
  {
  }

  lemma ReadOnlyKeeps(nodes: map<NodeId, Node>, h: History, n: Node, ro: ReadOnly)
    requires At(nodes, h, n) && ReadsOk(n.(readOnly := ro))
    ensures At(nodes[n.id := n.(readOnly := ro)], h, n.(readOnly := ro))
  {
    hide At, NodeOk, MsgOk, ReadsOk;
    AtNode(nodes, h, n);
    NodeFacts(h, TermsOf(nodes), n);
    UnseenKeeps(nodes, h, n, n.(readOnly := ro));
  }

  lemma AtReadsOk(nodes: map<NodeId, Node>, h: History, n: Node)
    requires At(nodes, h, n)
    ensures ReadsOk(n)
  {
    hide At, NodeOk, ReadsOk;
    AtNode(nodes, h, n);
    NodeFacts(h, TermsOf(nodes), n);
  }

  lemma HandleReadIndexKeeps(nodes: map<NodeId, Node>, h: History, n: Node, m: Message) returns (n': Node)
    requires At(nodes, h, n) && n.role == Leader && m.entries != []
    ensures HandleReadIndex(n, m) == Ok(n') && At(nodes[n.id := n'], h, n') && n'.id == n.id
  {
    hide At, ReadsOk;
    n' := n;
    AtSelf(nodes, h, n);
    AtReadsOk(nodes, h, n);
    var ctx := m.entries[0].data;
    if n.id in n.prs && |n.prs| > 1 && TermAt(n.log, n.commit) == n.term && ctx !in n.readOnly.pending {
      var n1 := n.(readOnly := AddRequest(n.readOnly, ctx, n.commit, m));
      AddRequestOk(n, ctx, m);
      ReadOnlyKeeps(nodes, h, n, n1.readOnly);
      n' := BroadcastHeartbeat(n1, ctx);
      BroadcastHeartbeatKeeps(nodes[n.id := n1], h, n1, ctx);
      assert nodes[n.id := n1][n.id := n'] == nodes[n.id := n'];
    } else if n.id in n.prs && |n.prs| <= 1 {
      n' := n.(readStates := n.readStates + [ReadState(n.commit, ctx)]);
      ReadStatesKeep(nodes, h, n, n'.readStates);
    }
  }

  lemma ProgressQuiet(h: History, tm: Terms, n: Node, j: NodeId, pr: Progress)
    requires NodeOk(h, tm, n) && HistoryOk(h, tm) && n.role == Leader && j in n.prs
    requires j != n.id ==> pr.matched <= Ack(h, n.term, j) && pr.next <= |n.log| + 1
    ensures Quiet(h, n, n.(prs := n.prs[j := pr]))
  {
    hide LogOk, MsgOk, OldAcksOk, AckOk, HistoryOk;
    assert n.prs[j := pr].Keys == n.prs.Keys;
  }

  lemma ProgressKeeps(nodes: map<NodeId, Node>, h: History, n: Node, j: NodeId, pr: Progress)
    requires At(nodes, h, n) && n.role == Leader && j in n.prs
    requires j != n.id ==> pr.matched <= Ack(h, n.term, j) && pr.next <= |n.log| + 1
    ensures At(nodes[n.id := n.(prs := n.prs[j := pr])], h, n.(prs := n.prs[j := pr]))
  {
    hide Good, NodeOk, HistoryOk, Quiet;
    AtNode(nodes, h, n);
    ProgressQuiet(h, TermsOf(nodes), n, j, pr);
    QuietKeeps(nodes, h, n.(prs := n.prs[j := pr]));
  }

  lemma AtLeaderFacts(nodes: map<NodeId, Node>, h: History, n: Node)
    requires At(nodes, h, n) && n.role == Leader
    ensures forall j :: j in n.prs && j != n.id ==> n.prs[j].matched <= Ack(h, n.term, j) && n.prs[j].next <= |n.log| + 1
    ensures forall j :: Ack(h, n.term, j) <= |n.log|
  {
    hide At, NodeOk, HistoryOk;
    AtNode(nodes, h, n);
    LeaderFacts(h, TermsOf(nodes), n);
  }

  lemma HandleAppRespKeeps(nodes: map<NodeId, Node>, h: History, n: Node, m: Message) returns (n': Node, h': History)
    requires At(nodes, h, n) && n.role == Leader && m.from in n.prs
    requires Arrives(h, n, m) && m.typ == MsgAppResp && m.term == n.term
    ensures HandleAppResp(n, m) == Ok(n') && Extends(h, h') && At(nodes[n.id := n'], h', n') && n'.id == n.id
  {
    hide At, Extends, SendAppend, BroadcastAppend, MaybeCommit;
    AtLeaderFacts(nodes, h, n);
    var pr := n.prs[m.from];
    n', h' := n, h;
    ExtendsSelf(h);
    AtSelf(nodes, h, n);
    if m.reject {
      if pr.next - 1 == m.logIndex {
        var n1 := n.(prs := n.prs[m.from := MayDecreaseTo(pr, m.logIndex, m.rejectHint)]);
        ProgressKeeps(nodes, h, n, m.from, MayDecreaseTo(pr, m.logIndex, m.rejectHint));
        n' := SendAppendKeeps(nodes[n.id := n1], h, n1, m.from);
        assert n'.id == n.id by { SendAppendId(n1, m.from); }
        assert nodes[n.id := n1][n.id := n'] == nodes[n.id := n'];
      }
    } else {
      var n1 := n.(prs := n.prs[m.from := MaybeUpdate(pr, m.logIndex)]);
      ProgressKeeps(nodes, h, n, m.from, MaybeUpdate(pr, m.logIndex));
      var nodes1: map<NodeId, Node> := nodes[n.id := n1];
      n' := n1;
      if pr.matched < m.logIndex {
        var n2, h2 := MaybeCommitKeeps(nodes1, h, n1);
        n', h' := n2, h2;
        if n2.commit != n1.commit {
          n' := BroadcastAppendKeeps(nodes1[n.id := n2], h2, n2);
          BroadcastId(n2);
          assert nodes1[n.id := n2][n.id := n'] == nodes1[n.id := n'];
        }
        assert nodes1[n.id := n'] == nodes[n.id := n'];
      }
    }
  }

  lemma SendAppendId(n: Node, to: NodeId)
    requires to in n.prs
    ensures SendAppend(n, to).Ok? && SendAppend(n, to).value.id == n.id
  {
  }

  lemma ReleaseAllKeeps(nodes: map<NodeId, Node>, h: History, n: Node, rss: seq<ReadStatus>) returns (n': Node)
    requires At(nodes, h, n) && forall i :: 0 <= i < |rss| ==> rss[i].req.entries != []
    ensures ReleaseAll(n, rss) == Ok(n') && At(nodes[n.id := n'], h, n') && n'.id == n.id
    decreases |rss|
  {
    hide At;
    n' := n;
    AtSelf(nodes, h, n);
    if rss != [] {
      PositiveTerm(nodes, h, n);
      var rs := rss[0];
      var n1 := Release(n, rs).value;
      if rs.req.from == NONE || rs.req.from == n.id {
        ReadStatesKeep(nodes, h, n, n1.readStates);
      } else {
        SendKeeps(nodes, h, n, Blank(MsgReadIndexResp, rs.req.from).(logIndex := rs.index, entries := rs.req.entries));
      }
      n' := ReleaseAllKeeps(nodes[n.id := n1], h, n1, rss[1..]);
      assert nodes[n.id := n1][n.id := n'] == nodes[n.id := n'];
    }
  }

  lemma RecvAckOk(n: Node, ctx: Bytes, from: NodeId)
    requires ReadsOk(n)
    ensures ReadsOk(n.(readOnly := RecvAck(n.readOnly, ctx, from)))
  {
  }

  lemma QueueStatuses(n: Node, k: nat)
    requires ReadsOk(n) && k <= |n.readOnly.queue|
    ensures PrefixPending(n.readOnly, k) && HaveEntries(Statuses(n.readOnly, k))
    ensures Contexts(Statuses(n.readOnly, k)) == set c | c in n.readOnly.queue[..k]
  {
    var ro := n.readOnly;
    assert forall i :: 0 <= i < k ==> ro.queue[i] in ro.queue;
    var rss := Statuses(ro, k);
    assert forall i :: 0 <= i < k ==> rss[i] == ro.pending[ro.queue[i]] && rss[i].req.entries[0].data == ro.queue[i];
    forall c | c in ro.queue[..k] ensures c in Contexts(rss) {
      var i :| 0 <= i < k && ro.queue[i] == c;
      assert rss[i].req.entries[0].data == c;
    }
  }

  /** What completing the queue prefix that ends in ctx does: exactly that prefix leaves. */
  lemma AdvanceReadsValue(n: Node, ctx: Bytes)
    requires ReadsOk(n) && ctx in n.readOnly.pending
    ensures var ro := n.readOnly; var k := QueuePrefix(ro.queue, ctx);
            && 0 < k && PrefixPending(ro, k) && HaveEntries(Statuses(ro, k))
            && AdvanceReads(ro, ctx) == Ok((ReadOnly(ro.pending - (set c | c in ro.queue[..k]), ro.queue[k..]), Statuses(ro, k)))
  {
    assert ctx in n.readOnly.queue;
    hide ReadsOk, PrefixPending, Statuses, HaveEntries, Contexts;
    QueueStatuses(n, QueuePrefix(n.readOnly.queue, ctx));
  }

  lemma SplitMembers<T>(q: seq<T>, k: nat, c: T)
    requires k <= |q|
    requires forall i, j :: 0 <= i < j < |q| ==> q[i] != q[j]
    ensures c in q[k..] <==> c in q && c !in q[..k]
  {
    if c in q && c !in q[..k] {
      var j :| 0 <= j < |q| && q[j] == c;
      assert k <= j;
      assert q[k..][j - k] == c;
    }
    if c in q[k..] {
      var j :| 0 <= j < |q[k..]| && q[k..][j] == c;
      assert q[k + j] == c;
    }
  }

  lemma QueueSuffixOk(n: Node, k: nat)
    requires ReadsOk(n) && k <= |n.readOnly.queue|
    ensures ReadsOk(n.(readOnly := ReadOnly(n.readOnly.pending - (set c | c in n.readOnly.queue[..k]), n.readOnly.queue[k..])))
  {
    var q, pending := n.readOnly.queue, n.readOnly.pending;
    var gone := set c | c in q[..k];
    var rest: map<Bytes, ReadStatus> := pending - gone;
    forall c ensures c in rest <==> c in q[k..] {
      SplitMembers(q, k, c);
      assert c in gone <==> c in q[..k];
    }
    assert forall c :: c in rest ==> c in pending && rest[c] == pending[c];
  }

  /** Completing a queue prefix cannot panic and leaves a well-formed queue. */
  lemma AdvanceReadsOk(n: Node, ctx: Bytes)
    requires ReadsOk(n) && ctx in n.readOnly.pending
    ensures AdvanceReads(n.readOnly, ctx).Ok?
    ensures var r := AdvanceReads(n.readOnly, ctx).value;
            ReadsOk(n.(readOnly := r.0)) && forall i :: 0 <= i < |r.1| ==> r.1[i].req.entries != []
  {
    hide ReadsOk, AdvanceReads;
    AdvanceReadsValue(n, ctx);
    QueueSuffixOk(n, QueuePrefix(n.readOnly.queue, ctx));
  }

  lemma HandleHeartbeatRespKeeps(nodes: map<NodeId, Node>, h: History, n: Node, m: Message) returns (n': Node)
    requires At(nodes, h, n)
    ensures HandleHeartbeatResp(n, m) == Ok(n') && At(nodes[n.id := n'], h, n') && n'.id == n.id
  {
    hide At, ReadsOk, AdvanceReads, RecvAck, ReleaseAll;
    n' := n;
    AtSelf(nodes, h, n);
    AtReadsOk(nodes, h, n);
    if n.readOnly.queue != [] {
      var ro := RecvAck(n.readOnly, m.context, m.from);
      var n1 := n.(readOnly := ro);
      RecvAckOk(n, m.context, m.from);
      if m.context in ro.pending && |ro.pending[m.context].acks| >= Quorum(n) {
        AdvanceReadsOk(n1, m.context);
        var r := AdvanceReads(ro, m.context).value;
        var n2 := n.(readOnly := r.0);
        assert ReadsOk(n2) by { ReadsOkFrame(n1.(readOnly := r.0), n2); }
        ReadOnlyKeeps(nodes, h, n, r.0);
        n' := ReleaseAllKeeps(nodes[n.id := n2], h, n2, r.1);
        assert nodes[n.id := n2][n.id := n'] == nodes[n.id := n'];
      } else {
        n' := n1;
        ReadOnlyKeeps(nodes, h, n, ro);
      }
    }
  }

  lemma StepLeaderKeeps(nodes: map<NodeId, Node>, h: History, n: Node, m: Message) returns (n': Node, h': History)
    requires At(nodes, h, n) && n.role == Leader && Input(h, n, m)
    requires m.typ == MsgAppResp ==> m.term == n.term
    ensures StepLeader(n, m) == Ok(n') && Extends(h, h') && At(nodes[n.id := n'], h', n') && n'.id == n.id
  {
    hide At, Extends, MsgOk, HandleProposal, HandleReadIndex, HandleAppResp, HandleHeartbeatResp, BroadcastHeartbeat;
    n', h' := n, h;
    ExtendsSelf(h);
    AtSelf(nodes, h, n);
    match m.typ
    case MsgBeat =>
      n' := BroadcastHeartbeat(n, []);
      BroadcastHeartbeatKeeps(nodes, h, n, []);
      assert n'.id == n.id by { BroadcastHeartbeatId(n, []); }
    case MsgProp =>
      ClientEntries(h, n, m);
      n', h' := HandleProposalKeeps(nodes, h, n, m);
    case MsgReadIndex =>
      ClientEntries(h, n, m);
      n' := HandleReadIndexKeeps(nodes, h, n, m);
    case MsgAppResp =>
      if m.from in n.prs { n', h' := HandleAppRespKeeps(nodes, h, n, m); }
    case MsgHeartbeatResp =>
      if m.from in n.prs { n' := HandleHeartbeatRespKeeps(nodes, h, n, m); }
    case _ =>
  }

  lemma BroadcastHeartbeatId(n: Node, ctx: Bytes)
    ensures BroadcastHeartbeat(n, ctx).id == n.id
  {
  }

  lemma ClientEntries(h: History, n: Node, m: Message)
    requires Input(h, n, m) && (m.typ == MsgProp || m.typ == MsgReadIndex)
    ensures m.entries != [] && m.term == 0
  {
  }

  // --------------------------------------------------------- one whole step

  /** A step that ignores the message, but may answer a stale leader. */
  lemma StaleKeeps(nodes: map<NodeId, Node>, h: History, n: Node, m: Message) returns (n': Node)
    requires At(nodes, h, n) && Input(h, n, m) && 0 < m.term < n.term
    ensures Step(n, m) == Ok(n') && At(nodes[n.id := n'], h, n') && n'.id == n.id
  {
    hide At;
    n' := Step(n, m).value;
    AtSelf(nodes, h, n);
    if n.checkQuorum && (m.typ == MsgHeartbeat || m.typ == MsgApp) {
      SendKeeps(nodes, h, n, Blank(MsgAppResp, m.from));
    }
  }

  /** After `ObserveTerm` the message is local, pre-vote traffic or of the node's own term. */
  lemma ObserveTermKeeps(nodes: map<NodeId, Node>, h: History, n: Node, m: Message)
    requires At(nodes, h, n) && Input(h, n, m) && !(0 < m.term < n.term)
    ensures var n1 := ObserveTerm(n, m);
            && At(nodes[n.id := n1], h, n1) && n1.id == n.id && Input(h, n1, m)
            && (m.term == n1.term || m.term == 0 || m.typ == MsgPreVote || (m.typ == MsgPreVoteResp && !m.reject))
  {
    hide At, MsgOk;
    AtSelf(nodes, h, n);
    var n1 := ObserveTerm(n, m);
    if n1 != n {
      assert EntersTerm(n, n1);
      EntersTermAt(nodes, h, n, n1);
    }
  }

  /** Network messages carry term 0 only when they forward a client request. */
  lemma ZeroTerm(h: History, n: Node, m: Message)
    requires Input(h, n, m) && m.term == 0
    ensures m.typ == MsgHup || m.typ == MsgBeat || m.typ == MsgProp || m.typ == MsgReadIndex
  {
  }

  lemma StepRoleKeeps(nodes: map<NodeId, Node>, h: History, n: Node, m: Message) returns (n': Node, h': History)
    requires At(nodes, h, n) && Input(h, n, m)
    requires m.term == n.term || m.term == 0 || m.typ == MsgPreVote || (m.typ == MsgPreVoteResp && !m.reject)
    ensures StepRole(n, m) == Ok(n') && Extends(h, h') && At(nodes[n.id := n'], h', n') && n'.id == n.id
  {
    hide At, Extends, StepLeader, StepFollower, StepCandidate, Input;
    if m.term == 0 { ZeroTerm(h, n, m); }
    match n.role
    case Leader => n', h' := StepLeaderKeeps(nodes, h, n, m);
    case Follower => n', h' := StepFollowerKeeps(nodes, h, n, m);
    case _ => n', h' := StepCandidateKeeps(nodes, h, n, m);
  }

  /** `Step` never panics and keeps the invariant, on every input a node can get. */
  lemma StepKeeps(nodes: map<NodeId, Node>, h: History, n: Node, m: Message) returns (n': Node, h': History)
    requires At(nodes, h, n) && Input(h, n, m)
    ensures Step(n, m) == Ok(n') && Extends(h, h') && At(nodes[n.id := n'], h', n') && n'.id == n.id
  {
    hide At, Extends, StepRole, Hup, HandleVote, ObserveTerm, MsgOk;
    h' := h;
    ExtendsSelf(h);
    if 0 < m.term < n.term {
      n' := StaleKeeps(nodes, h, n, m);
    } else {
      ObserveTermKeeps(nodes, h, n, m);
      var n1 := ObserveTerm(n, m);
      var nodes1: map<NodeId, Node> := nodes[n.id := n1];
      match m.typ {
        case MsgHup =>
          n', h' := HupKeeps(nodes1, h, n1);
        case MsgVote =>
          VoteTerm(h, n1, m);
          h' := HandleVoteKeeps(nodes1, h, n1, m);
          n' := HandleVote(n1, m);
          assert n'.id == n.id by { HandleVoteId(n1, m); }
        case MsgPreVote =>
          PositiveTerm(nodes1, h, n1);
          n' := HandlePreVote(n1, m);
          assert MsgOk(h, Stamp(n1, Blank(MsgPreVoteResp, m.from).(reject := !Grants(n1, m)))) by { PreVoteRespOk(h, n1, m); }
          SendKeeps(nodes1, h, n1, Blank(MsgPreVoteResp, m.from).(reject := !Grants(n1, m)));
        case _ =>
          n', h' := StepRoleKeeps(nodes1, h, n1, m);
      }
      assert nodes1[n.id := n'] == nodes[n.id := n'];
    }
  }

  lemma VoteTerm(h: History, n: Node, m: Message)
    requires Input(h, n, m) && m.typ == MsgVote && (m.term == n.term || m.term == 0)
    ensures Arrives(h, n, m) && m.term == n.term
  {
  }

  lemma HandleVoteId(n: Node, m: Message)
    ensures HandleVote(n, m).id == n.id
  {
  }

  lemma PreVoteRespOk(h: History, n: Node, m: Message)
    requires 1 <= n.term
    ensures MsgOk(h, Stamp(n, Blank(MsgPreVoteResp, m.from).(reject := !Grants(n, m))))
  {
  }
}
