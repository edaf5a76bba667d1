/** A leader commits: whatever a majority has confirmed of its own term is committed, in every state of every run. */
module RaftCommits {
  import opened RaftTypes
  import opened RaftFlatLog
  import opened RaftSpec
  import opened RaftInvariant
  import opened RaftActions
  import opened RaftReplication
  import opened RaftCluster
  import opened RaftSteps
  import opened RaftSafety
  import opened RaftReads

  /** A majority of the members has confirmed the first k entries. */
  ghost predicate Confirmed(n: Node, k: nat) {
    2 * |set id | id in n.prs && n.prs[id].matched >= k| > |n.prs|
  }

  /** Every entry of the leader's own term that a majority has confirmed is committed. */
  ghost predicate CommitsAll(n: Node) {
    n.role == Leader ==> forall k :: 1 <= k <= |n.log| && n.log[k - 1].term == n.term && Confirmed(n, k) ==> k <= n.commit
  }

  /** The only member of a cluster confirms no more than its log. */
  ghost predicate SoloOk(n: Node) { |n.prs| == 1 && n.id in n.prs ==> n.prs[n.id].matched <= |n.log| }

  ghost predicate CommitInv(s: Cluster) { forall id :: id in s.nodes ==> CommitsAll(s.nodes[id]) && SoloOk(s.nodes[id]) }

  /** Terms never fall along the log and do not pass t. */
  ghost predicate TermsRise(log: Log, t: nat) {
    && (forall i, j :: 0 <= i <= j < |log| ==> log[i].term <= log[j].term)
    && (forall i :: 0 <= i < |log| ==> log[i].term <= t)
  }

  /** No other member has confirmed more than the log. */
  ghost predicate PeersWithin(n: Node) { forall j :: j in n.prs && j != n.id ==> n.prs[j].matched <= |n.log| }

  ghost predicate Sound(n: Node) {
    n.id in n.prs && TermsRise(n.log, n.term) && SoloOk(n) && (n.role == Leader ==> PeersWithin(n))
  }

  lemma AtLeastIs(n: Node, k: nat)
    ensures Confirmed(n, k) <==> 2 * |AtLeast(n.prs, k)| > |n.prs|
  {
    assert AtLeast(n.prs, k) == set id | id in n.prs && n.prs[id].matched >= k;
  }

  /** The quorum's index lies within the log. */
  lemma QuorumWithin(n: Node)
    requires n.id in n.prs && PeersWithin(n) && SoloOk(n)
    ensures QuorumMatch(n.prs) <= |n.log|
  {
    var mid := QuorumMatch(n.prs);
    var at := AtLeast(n.prs, mid);
    assert |n.prs.Keys| == |n.prs|;
    if at <= {n.id} {
      CardinalityMonotone(at, {n.id});
      assert |n.prs| == 1;
      assert at != {};
      assert n.id in at;
    } else {
      var j :| j in at && j != n.id;
    }
  }

  /** After the commit attempt everything confirmed is committed. */
  lemma MaybeCommitComplete(n: Node)
    requires n.id in n.prs && TermsRise(n.log, n.term) && PeersWithin(n) && SoloOk(n) && MaybeCommit(n).Ok?
    ensures var n' := MaybeCommit(n).value; n' == n.(commit := n'.commit) && CommitsAll(n')
  {
    var mid, n' := QuorumMatch(n.prs), MaybeCommit(n).value;
    QuorumWithin(n);
    forall k: nat | 1 <= k <= |n.log| && n.log[k - 1].term == n.term && Confirmed(n', k) ensures k <= n'.commit {
      AtLeastIs(n', k);
      assert k <= mid;
    }
  }

  lemma AppendedTerms(log: Log, term: nat, es: seq<Entry>)
    requires TermsRise(log, term)
    ensures TermsRise(log + Stamped(term, |log|, es), term)
  {
  }

  lemma AppendEntryComplete(n: Node, es: seq<Entry>)
    requires n.role == Leader && n.id in n.prs && TermsRise(n.log, n.term) && PeersWithin(n) && SoloOk(n) && n.commit <= |n.log|
    requires AppendEntry(n, es).Ok?
    ensures CommitsAll(AppendEntry(n, es).value) && SoloOk(AppendEntry(n, es).value)
  {
    AppendAtEnd(n.log, n.commit, n.term, es);
    AppendedTerms(n.log, n.term, es);
    var log := n.log + Stamped(n.term, |n.log|, es);
    var n1 := n.(log := log, prs := n.prs[n.id := MaybeUpdate(n.prs[n.id], |log|)]);
    assert n1.prs.Keys == n.prs.Keys && |n1.prs| == |n1.prs.Keys| && |n.prs| == |n.prs.Keys|;
    hide MaybeCommit, TermsRise;
    MaybeCommitComplete(n1);
  }

  lemma BecomeLeaderComplete(n: Node)
    requires Sound(n) && n.commit <= |n.log| && BecomeLeader(n).Ok?
    ensures CommitsAll(BecomeLeader(n).value) && SoloOk(BecomeLeader(n).value)
  {
    var n1 := TakeLeadership(n);
    assert n1.prs.Keys == n.prs.Keys && |n1.prs| == |n1.prs.Keys| && |n.prs| == |n.prs.Keys|;
    hide AppendEntry, TermsRise;
    AppendEntryComplete(n1, [NOOP]);
  }

  /** Fields the two properties depend on. */
  ghost predicate SameProgress(n: Node, n': Node) {
    n'.role == n.role && n'.term == n.term && n'.id == n.id && n'.prs == n.prs && n'.log == n.log && n'.commit >= n.commit
  }

  lemma SameKeeps(n: Node, n': Node)
    requires SameProgress(n, n') && CommitsAll(n) && SoloOk(n)
    ensures CommitsAll(n') && SoloOk(n')
  {
    forall k: nat | Confirmed(n', k) ensures Confirmed(n, k) {}
  }

  /** A node that does not lead, with the progress and the log it had. */
  lemma IdleKeeps(n: Node, n': Node)
    requires n'.role != Leader && n'.id == n.id && n'.prs == n.prs && n'.log == n.log && SoloOk(n)
    ensures CommitsAll(n') && SoloOk(n')
  {
  }

  lemma CampaignComplete(n: Node)
    requires Sound(n) && n.commit <= |n.log| && n.role != Leader
    ensures CampaignElection(n).Ok? ==> CommitsAll(CampaignElection(n).value) && SoloOk(CampaignElection(n).value)
  {
    hide BecomeLeader;
    var n1 := BecomeCandidate(n).value;
    var n2 := Poll(n1, n1.id, true);
    assert TermsRise(n2.log, n2.term);
    if Granted(n2) == Quorum(n2) && BecomeLeader(n2).Ok? { BecomeLeaderComplete(n2); }
  }

  lemma PreCampaignComplete(n: Node)
    requires Sound(n) && n.commit <= |n.log| && n.role != Leader
    ensures CampaignPreElection(n).Ok? ==> CommitsAll(CampaignPreElection(n).value) && SoloOk(CampaignPreElection(n).value)
  {
    hide CampaignElection, TermsRise;
    CampaignComplete(Poll(BecomePreCandidate(n).value, n.id, true));
  }

  lemma HupComplete(n: Node)
    requires Sound(n) && n.commit <= |n.log| && CommitsAll(n)
    ensures Hup(n).Ok? ==> CommitsAll(Hup(n).value) && SoloOk(Hup(n).value)
  {
    hide CampaignElection, CampaignPreElection, TermsRise;
    if n.role != Leader {
      CampaignComplete(n);
      PreCampaignComplete(n);
    }
  }

  lemma TallyComplete(n: Node, m: Message)
    requires Sound(n) && n.commit <= |n.log| && n.role != Leader
    ensures Tally(n, m).Ok? ==> CommitsAll(Tally(n, m).value) && SoloOk(Tally(n, m).value)
  {
    hide CampaignElection, BecomeLeader, TermsRise, CommitsAll, SoloOk, Granted, PeersWithin;
    var n1 := Poll(n, m.from, !m.reject);
    SoundPoll(n, m.from, !m.reject);
    if Granted(n1) == Quorum(n1) {
      if n1.role == PreCandidate {
        CampaignComplete(n1);
      } else if BecomeLeader(n1).Ok? {
        BecomeLeaderComplete(n1);
        BroadcastSame(BecomeLeader(n1).value);
        SameKeeps(BecomeLeader(n1).value, BroadcastAppend(BecomeLeader(n1).value).value);
      }
    } else {
      if Tally(n, m).Ok? { IdleKeeps(n1, Tally(n, m).value); }
    }
  }

  lemma SoundPoll(n: Node, id: NodeId, v: bool)
    requires Sound(n)
    ensures Sound(Poll(n, id, v)) && Poll(n, id, v).commit == n.commit && Poll(n, id, v).log == n.log && Poll(n, id, v).role == n.role
  {
  }

  lemma BroadcastSame(n: Node)
    ensures SameProgress(n, BroadcastAppend(n).value)
  {
  }

  lemma AppRespComplete(n: Node, m: Message)
    requires n.role == Leader && Sound(n) && n.commit <= |n.log| && CommitsAll(n) && m.from in n.prs
    requires m.from != n.id && (!m.reject ==> m.logIndex <= |n.log|)
    ensures HandleAppResp(n, m).Ok? ==> CommitsAll(HandleAppResp(n, m).value) && SoloOk(HandleAppResp(n, m).value)
  {
    var pr := n.prs[m.from];
    assert |n.prs| == |n.prs.Keys|;
    if m.reject {
      var n1 := n.(prs := n.prs[m.from := MayDecreaseTo(pr, m.logIndex, m.rejectHint)]);
      NextOnly(n, n1);
    } else {
      var n1 := n.(prs := n.prs[m.from := MaybeUpdate(pr, m.logIndex)]);
      assert n1.prs.Keys == n.prs.Keys && |n1.prs| == |n1.prs.Keys|;
      if pr.matched >= m.logIndex {
        NextOnly(n, n1);
      } else {
        hide MaybeCommit, TermsRise;
        if MaybeCommit(n1).Ok? {
          MaybeCommitComplete(n1);
          var n2 := MaybeCommit(n1).value;
          SameKeeps(n2, BroadcastAppend(n2).value);
        }
      }
    }
  }

  /** Only next indexes changed. */
  lemma NextOnly(n: Node, n1: Node)
    requires n1 == n.(prs := n1.prs) && n1.prs.Keys == n.prs.Keys && (forall j :: j in n.prs ==> n1.prs[j].matched == n.prs[j].matched)
    requires CommitsAll(n) && SoloOk(n)
    ensures forall msgs :: CommitsAll(n1.(msgs := msgs)) && SoloOk(n1.(msgs := msgs))
  {
    assert |n.prs| == |n.prs.Keys| && |n1.prs| == |n1.prs.Keys|;
    forall msgs ensures CommitsAll(n1.(msgs := msgs)) && SoloOk(n1.(msgs := msgs)) {
      forall k: nat | Confirmed(n1.(msgs := msgs), k) ensures Confirmed(n, k) {
        assert (set id | id in n.prs && n.prs[id].matched >= k) == set id | id in n1.prs && n1.prs[id].matched >= k;
      }
    }
  }

  lemma ReleaseSame(n: Node, rss: seq<ReadStatus>)
    requires ReleaseAll(n, rss).Ok?
    ensures SameProgress(n, ReleaseAll(n, rss).value)
    decreases |rss|
  {
    if rss != [] { ReleaseSame(Release(n, rss[0]).value, rss[1..]); }
  }

  lemma LeaderComplete(n: Node, m: Message)
    requires n.role == Leader && Sound(n) && n.commit <= |n.log| && CommitsAll(n) && StepLeader(n, m).Ok?
    requires m.typ == MsgAppResp && m.from in n.prs ==> m.from != n.id && (!m.reject ==> m.logIndex <= |n.log|)
    ensures CommitsAll(StepLeader(n, m).value) && SoloOk(StepLeader(n, m).value)
  {
    hide HandleProposal, HandleReadIndex, HandleHeartbeatResp, HandleAppResp, TermsRise, CommitsAll, SoloOk, PeersWithin;
    match m.typ
    case MsgProp => ProposalComplete(n, m);
    case MsgAppResp => if m.from in n.prs { AppRespComplete(n, m); }
    case MsgHeartbeatResp =>
      if m.from in n.prs {
        HeartbeatRespSame(n, m);
        SameKeeps(n, StepLeader(n, m).value);
      }
    case MsgReadIndex => ReadIndexSame(n, m); SameKeeps(n, StepLeader(n, m).value);
    case _ => SameKeeps(n, StepLeader(n, m).value);
  }

  lemma ProposalComplete(n: Node, m: Message)
    requires n.role == Leader && Sound(n) && n.commit <= |n.log| && CommitsAll(n) && HandleProposal(n, m).Ok?
    ensures CommitsAll(HandleProposal(n, m).value) && SoloOk(HandleProposal(n, m).value)
  {
    hide AppendEntry, TermsRise, CommitsAll, SoloOk, PeersWithin;
    if m.entries != [] && n.id in n.prs {
      var n1 := n.(pendingConf := n.pendingConf || HasConfChange(m.entries));
      AppendEntryComplete(n1, Demote(n.pendingConf, m.entries)) by { PendingSound(n, n1); }
      var n2 := AppendEntry(n1, Demote(n.pendingConf, m.entries)).value;
      BroadcastSame(n2);
      SameKeeps(n2, BroadcastAppend(n2).value);
    }
  }

  lemma PendingSound(n: Node, n1: Node)
    requires Sound(n) && n1 == n.(pendingConf := n1.pendingConf) && n.role == Leader
    ensures Sound(n1) && PeersWithin(n1) && SoloOk(n1)
  {
  }

  lemma HeartbeatRespSame(n: Node, m: Message)
    requires HandleHeartbeatResp(n, m).Ok?
    ensures SameProgress(n, HandleHeartbeatResp(n, m).value)
  {
    hide ReleaseAll, AdvanceReads;
    if n.readOnly.queue != [] {
      var ro := RecvAck(n.readOnly, m.context, m.from);
      if m.context in ro.pending && |ro.pending[m.context].acks| >= Quorum(n) {
        var r := AdvanceReads(ro, m.context).value;
        ReleaseSame(n.(readOnly := r.0), r.1);
      }
    }
  }

  lemma ReadIndexSame(n: Node, m: Message)
    requires HandleReadIndex(n, m).Ok?
    ensures SameProgress(n, HandleReadIndex(n, m).value)
  {
  }

  lemma FollowerComplete(n: Node, m: Message)
    requires n.role == Follower && SoloOk(n) && StepFollower(n, m).Ok? && (|n.prs| == 1 ==> m.typ != MsgApp)
    ensures CommitsAll(StepFollower(n, m).value) && SoloOk(StepFollower(n, m).value)
  {
    hide HandleAppendEntries, HandleHeartbeat, CommitsAll, SoloOk;
    match m.typ
    case MsgApp => AppendRole(n.(lead := m.from), m); SeveralKeep(n, StepFollower(n, m).value);
    case MsgHeartbeat => HeartbeatRole(n.(lead := m.from), m); IdleKeeps(n, StepFollower(n, m).value);
    case _ => IdleKeeps(n, StepFollower(n, m).value);
  }

  lemma AppendRole(n: Node, m: Message)
    requires HandleAppendEntries(n, m).Ok?
    ensures var n' := HandleAppendEntries(n, m).value; n'.role == n.role && n'.id == n.id && n'.prs == n.prs
  {
    hide MaybeAppend;
  }

  lemma HeartbeatRole(n: Node, m: Message)
    requires HandleHeartbeat(n, m).Ok?
    ensures var n' := HandleHeartbeat(n, m).value; n'.role == n.role && n'.id == n.id && n'.prs == n.prs && n'.log == n.log
  {
  }

  lemma SeveralKeep(n: Node, n': Node)
    requires n'.role != Leader && n'.prs == n.prs && |n.prs| != 1
    ensures CommitsAll(n') && SoloOk(n')
  {
  }

  lemma CandidateComplete(n: Node, m: Message)
    requires n.role != Leader && n.role != Follower && Sound(n) && n.commit <= |n.log| && StepCandidate(n, m).Ok? && (|n.prs| == 1 ==> m.typ != MsgApp)
    ensures CommitsAll(StepCandidate(n, m).value) && SoloOk(StepCandidate(n, m).value)
  {
    hide HandleAppendEntries, HandleHeartbeat, Tally, TermsRise, CommitsAll, SoloOk, PeersWithin;
    match m.typ
    case MsgApp =>
      AppendRole(BecomeFollower(n, n.term, m.from), m);
      SeveralKeep(n, StepCandidate(n, m).value);
    case MsgHeartbeat =>
      HeartbeatRole(BecomeFollower(n, m.term, m.from), m);
      IdleKeeps(n, StepCandidate(n, m).value);
    case _ =>
      TallyComplete(n, m);
      if StepCandidate(n, m) == Ok(n) { IdleKeeps(n, n); }
  }

  /** What an input promises a node about confirmations; an append never reaches the only member of a cluster. */
  ghost predicate Fair(n: Node, m: Message) {
    && (m.typ == MsgAppResp && n.role == Leader && m.term == n.term && m.from in n.prs ==> m.from != n.id && (!m.reject ==> m.logIndex <= |n.log|))
    && (m.typ == MsgApp && |n.prs| == 1 ==> m.term < n.term || (m.term == n.term && n.role == Leader))
    && (m.typ == MsgApp || m.typ == MsgAppResp ==> 0 < m.term)
  }

  lemma StepComplete(n: Node, m: Message)
    requires Sound(n) && n.commit <= |n.log| && CommitsAll(n) && Fair(n, m) && Step(n, m).Ok?
    ensures CommitsAll(Step(n, m).value) && SoloOk(Step(n, m).value)
  {
    hide Hup, StepRole, HandleVote, HandlePreVote, TermsRise, SoloOk, CommitsAll;
    if 0 < m.term < n.term {
      SameKeeps(n, Step(n, m).value);
    } else {
      var n1 := ObserveTerm(n, m);
      ObserveSound(n, m);
      match m.typ
      case MsgHup => HupComplete(n1);
      case MsgVote => BallotSame(n1, m); SameKeeps(n1, HandleVote(n1, m));
      case MsgPreVote => BallotSame(n1, m); SameKeeps(n1, HandlePreVote(n1, m));
      case _ => RoleComplete(n1, m);
    }
  }

  lemma BallotSame(n: Node, m: Message)
    ensures SameProgress(n, HandleVote(n, m)) && SameProgress(n, HandlePreVote(n, m))
  {
  }

  lemma ObserveSound(n: Node, m: Message)
    requires Sound(n) && n.commit <= |n.log| && CommitsAll(n) && Fair(n, m) && !(0 < m.term < n.term)
    ensures var n1 := ObserveTerm(n, m); Sound(n1) && n1.commit <= |n1.log| && CommitsAll(n1) && n1.prs == n.prs
    ensures var n1 := ObserveTerm(n, m);
            && (m.typ == MsgAppResp && n1.role == Leader && m.from in n1.prs ==> m.from != n1.id && (!m.reject ==> m.logIndex <= |n1.log|))
            && (m.typ == MsgApp && |n1.prs| == 1 ==> n1.role == Leader)
  {
  }

  lemma RoleComplete(n: Node, m: Message)
    requires Sound(n) && n.commit <= |n.log| && CommitsAll(n) && StepRole(n, m).Ok?
    requires m.typ == MsgAppResp && n.role == Leader && m.from in n.prs ==> m.from != n.id && (!m.reject ==> m.logIndex <= |n.log|)
    requires m.typ == MsgApp && |n.prs| == 1 ==> n.role == Leader
    ensures CommitsAll(StepRole(n, m).value) && SoloOk(StepRole(n, m).value)
  {
    hide StepLeader, StepFollower, StepCandidate, TermsRise, CommitsAll;
    match n.role
    case Leader => LeaderComplete(n, m);
    case Follower => FollowerComplete(n, m);
    case _ => CandidateComplete(n, m);
  }

  // ------------------------------------------------------------ along a run

  lemma NodeSound(h: History, tm: Terms, n: Node)
    requires NodeOk(h, tm, n) && HistoryOk(h, tm) && SoloOk(n)
    ensures Sound(n) && n.commit <= |n.log|
  {
    hide MsgOk, OldAcksOk, AckOk, ReadsOk, CandidateOk, VoteOk, BallotsOk, Completeness, VotesRespectAcks, MarksOk;
    NodeFacts(h, tm, n);
    RisingLog(h, n.log, n.term);
    hide LogOk;
    if n.role == Leader {
      forall j | j in n.prs && j != n.id ensures n.prs[j].matched <= |n.log| { AckWithin(h, tm, n.term, j); }
    }
  }

  lemma RisingLog(h: History, log: Log, t: nat)
    requires LogOk(h, log) && TermsUpTo(log, t)
    ensures TermsRise(log, t)
  {
  }

  lemma AckWithin(h: History, tm: Terms, t: nat, j: NodeId)
    requires AcksOk(h, tm) && t in h.logs
    ensures Ack(h, t, j) <= |h.logs[t]|
  {
  }

  lemma InputFair(s: Cluster, h: History, id: NodeId, m: Message)
    requires Inv(s, h) && id in s.nodes && ((m in s.net && m.to == id) || LocalInput(id, m))
    ensures Fair(s.nodes[id], m)
  {
    hide NodeOk, HistoryOk, LoopOk, MsgOk, Good, Fair;
    NodeAt(s, h, id);
    if m in s.net && m.to == id {
      MessageFair(h, TermsOf(s.nodes), s.nodes[id], m);
    } else {
      LocalFair(s.nodes[id], m);
    }
  }

  lemma LocalFair(n: Node, m: Message)
    requires m.typ != MsgApp && m.typ != MsgAppResp
    ensures Fair(n, m)
  {
  }

  lemma MessageFair(h: History, tm: Terms, n: Node, m: Message)
    requires NodeOk(h, tm, n) && HistoryOk(h, tm) && MsgOk(h, m) && m.to == n.id
    ensures Fair(n, m)
  {
    hide LogOk, OldAcksOk, CommitOk, AckOk, ReadsOk, CandidateOk, VoteOk, CommittedBy, Completeness, VotesRespectAcks, MarksOk, LeadersOk,
         BallotsOk, AcksOk, LeadOk, TermsUpTo;
    NodeFacts(h, tm, n);
    if m.typ == MsgAppResp { AppRespFair(h, tm, n, m); }
    if m.typ == MsgApp && |n.prs| == 1 { SoloLeader(h, tm, n, m.term); }
  }

  lemma AppRespFair(h: History, tm: Terms, n: Node, m: Message)
    requires MsgOk(h, m) && m.typ == MsgAppResp && LeadOk(h, n) && AcksOk(h, tm) && m.to == n.id
    ensures n.role == Leader && m.term == n.term ==> m.from != n.id && (!m.reject ==> m.logIndex <= |n.log|)
  {
    if n.role == Leader && m.term == n.term { AckWithin(h, tm, n.term, m.from); }
  }

  /** The only member has led every term there is. */
  lemma SoloLeader(h: History, tm: Terms, n: Node, t: nat)
    requires LeadersOk(h, tm) && LeadOk(h, n) && n.id in tm && tm[n.id] == n.term && |tm.Keys| == 1 && t in h.logs
    ensures t < n.term || (t == n.term && n.role == Leader)
  {
    hide LogOk;
    assert LeaderOk(h, tm, t);
    OnlyMember(tm.Keys, n.id, h.leaders[t]);
  }

  lemma EventCommits(s: Cluster, h: History, id: NodeId, ev: Event, s': Cluster)
    requires Inv(s, h) && CommitInv(s) && StepOk(s, id, ev, s')
    ensures CommitInv(s')
  {
    hide Inv, Step, LocalInput, CommitsAll, SoloOk, NextEntries;
    var n := s.nodes[id];
    assert CommitsAll(n) && SoloOk(n);
    if ev.Deliver? || ev.Local? {
      NodeAt(s, h, id);
      NodeSound(h, TermsOf(s.nodes), n);
      InputFair(s, h, id, ev.m);
      StepComplete(n, ev.m);
    } else {
      SameKeeps(n, s'.nodes[id]);
    }
  }

  lemma {:induction false} RunCommits(ss: seq<Cluster>, evs: seq<(NodeId, Event)>, hs: seq<History>, a: nat)
    requires Witnessed(ss, evs, hs) && a < |ss|
    ensures CommitInv(ss[a])
  {
    hide Inv, CommitsAll, SoloOk;
    if a == 0 {
      FirstCommits(ss[0]);
    } else {
      RunCommits(ss, evs, hs, a - 1);
      assert StepOk(ss[a - 1], evs[a - 1].0, evs[a - 1].1, ss[a]);
      hide StepOk, CommitInv;
      EventCommits(ss[a - 1], hs[a - 1], evs[a - 1].0, evs[a - 1].1, ss[a]);
    }
  }

  lemma FirstCommits(s: Cluster)
    requires Init(s)
    ensures CommitInv(s)
  {
  }

  /** In every state of every run, a leader has committed every entry of its own term that a majority has confirmed. */
  lemma ConfirmedIsCommitted(ss: seq<Cluster>, evs: seq<(NodeId, Event)>, a: nat, id: NodeId, k: nat)
    requires Run(ss, evs) && a < |ss| && id in ss[a].nodes && ss[a].nodes[id].role == Leader
    requires var n := ss[a].nodes[id];
             1 <= k <= |n.log| && n.log[k - 1].term == n.term && 2 * |set j | j in n.prs && n.prs[j].matched >= k| > |n.prs|
    ensures k <= ss[a].nodes[id].commit
  {
    hide Inv, Extends;
    var hs := RunHistories(ss, evs);
    assert Witnessed(ss, evs, hs);
    hide Run, Witnessed;
    RunCommits(ss, evs, hs, a);
    assert CommitsAll(ss[a].nodes[id]) && Confirmed(ss[a].nodes[id], k);
  }

  /** A leader that gets an acknowledgement of its term records it, and commits what a majority has then confirmed. */
  lemma AcknowledgedIsCommitted(ss: seq<Cluster>, evs: seq<(NodeId, Event)>, a: nat, id: NodeId, m: Message, k: nat)
    requires Run(ss, evs) && a < |evs| && evs[a] == (id, Deliver(m)) && id in ss[a].nodes && ss[a].nodes[id].role == Leader
    requires var n := ss[a].nodes[id];
             && m.typ == MsgAppResp && !m.reject && m.term == n.term && m.from in n.prs && k <= m.logIndex
             && 1 <= k <= |n.log| && n.log[k - 1].term == n.term
             && 2 * |set j | j in n.prs && (j == m.from || n.prs[j].matched >= k)| > |n.prs|
    ensures id in ss[a + 1].nodes && k <= ss[a + 1].nodes[id].commit
    ensures m.from in ss[a + 1].nodes[id].prs && m.logIndex <= ss[a + 1].nodes[id].prs[m.from].matched
  {
    assert StepOk(ss[a], id, Deliver(m), ss[a + 1]);
    var n := ss[a].nodes[id];
    DeliversProcess(ss[a], id, Deliver(m), ss[a + 1], ss, a);
    var n' := ss[a + 1].nodes[id];
    assert n.term != 0 by { PositiveTerm(ss, evs, a, id); }
    hide Run, StepOk;
    AckRecorded(n, m);
    assert n'.prs.Keys == n.prs.Keys && |n'.prs| == |n'.prs.Keys| && |n.prs| == |n.prs.Keys|;
    assert (set j | j in n.prs && (j == m.from || n.prs[j].matched >= k)) <= set j | j in n'.prs && n'.prs[j].matched >= k;
    CardinalityMonotone(set j | j in n.prs && (j == m.from || n.prs[j].matched >= k), set j | j in n'.prs && n'.prs[j].matched >= k);
    hide Processes, Step;
    ConfirmedIsCommitted(ss, evs, a + 1, id, k);
  }

  lemma PositiveTerm(ss: seq<Cluster>, evs: seq<(NodeId, Event)>, a: nat, id: NodeId)
    requires Run(ss, evs) && a < |ss| && id in ss[a].nodes
    ensures 1 <= ss[a].nodes[id].term
  {
    hide Inv, Extends, Run;
    var hs := RunHistories(ss, evs);
    NodeAt(ss[a], hs[a], id);
    NodeFacts(hs[a], TermsOf(ss[a].nodes), ss[a].nodes[id]);
  }

  lemma AckRecorded(n: Node, m: Message)
    requires n.role == Leader && m.typ == MsgAppResp && !m.reject && m.term == n.term && m.from in n.prs && Step(n, m).Ok?
    ensures var n' := Step(n, m).value;
            && n'.role == Leader && n'.term == n.term && n'.log == n.log && n'.prs.Keys == n.prs.Keys
            && m.logIndex <= n'.prs[m.from].matched && forall j :: j in n.prs ==> n.prs[j].matched <= n'.prs[j].matched
  {
    assert ObserveTerm(n, m) == n;
    assert Step(n, m) == HandleAppResp(n, m) by { hide HandleAppResp, ObserveTerm; }
    hide Step, AppendMessages, MaybeCommit, ObserveTerm;
    var n1 := n.(prs := n.prs[m.from := MaybeUpdate(n.prs[m.from], m.logIndex)]);
    if MaybeCommit(n1).Ok? { CommitOnly(n1); }
  }

  lemma CommitOnly(n: Node)
    requires MaybeCommit(n).Ok?
    ensures MaybeCommit(n).value == n.(commit := MaybeCommit(n).value.commit) && n.commit <= MaybeCommit(n).value.commit
  {
  }
}
