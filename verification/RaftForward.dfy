/** What no handler ever undoes, on any node and any message: terms, commit index and committed entries. */
module RaftForward {
  import opened RaftTypes
  import opened RaftFlatLog
  import opened RaftSpec

  /** Terms and the commit index never fall; committed entries and the applied index stay. */
  ghost predicate Forward(n: Node, n': Node) {
    && n'.id == n.id && n.term <= n'.term && n.commit <= n'.commit && n'.applied == n.applied
    && n'.prs.Keys == n.prs.Keys
    && (n.commit <= |n.log| ==> n'.commit <= |n'.log| && n'.log[..n.commit] == n.log[..n.commit])
  }

  ghost predicate HeartbeatTraffic(m: Message) { m.typ == MsgHeartbeat || m.typ == MsgHeartbeatResp }

  /** No read is answered. */
  ghost predicate Mute(n: Node, n': Node) {
    n'.readStates == n.readStates && forall x :: x in n'.msgs && x.typ == MsgReadIndexResp ==> x in n.msgs
  }

  /** Besides, the pending reads stay, none is answered, and no heartbeat or reply to one is queued. */
  ghost predicate Calm(n: Node, n': Node) {
    && Forward(n, n') && n'.readOnly == n.readOnly && Mute(n, n')
    && forall x :: x in n'.msgs && HeartbeatTraffic(x) ==> x in n.msgs
  }

  lemma CalmTransitive(n: Node, n1: Node, n2: Node)
    requires Calm(n, n1) && Calm(n1, n2)
    ensures Calm(n, n2)
  {
    if n.commit <= |n.log| {
      assert n2.log[..n.commit] == n2.log[..n1.commit][..n.commit];
    }
  }

  lemma MaybeCommitCalm(n: Node)
    requires MaybeCommit(n).Ok?
    ensures Calm(n, MaybeCommit(n).value)
  {
  }

  lemma AppendEntryCalm(n: Node, es: seq<Entry>)
    requires AppendEntry(n, es).Ok?
    ensures Calm(n, AppendEntry(n, es).value)
  {
    hide MaybeCommit, Stamped;
    var log := Append(n.log, n.commit, Stamped(n.term, |n.log|, es)).value;
    var n1 := n.(log := log, prs := n.prs[n.id := MaybeUpdate(n.prs[n.id], |log|)]);
    assert Calm(n, n1) by {
      assert n1.prs.Keys == n.prs.Keys;
    }
    MaybeCommitCalm(n1);
    hide Calm;
    CalmTransitive(n, n1, AppendEntry(n, es).value);
  }

  lemma BecomeLeaderCalm(n: Node)
    requires BecomeLeader(n).Ok?
    ensures Calm(n, BecomeLeader(n).value)
  {
    hide AppendEntry;
    assert Calm(n, TakeLeadership(n)) by {
      assert TakeLeadership(n).prs.Keys == n.prs.Keys;
    }
    AppendEntryCalm(TakeLeadership(n), [NOOP]);
    hide Calm;
    CalmTransitive(n, TakeLeadership(n), BecomeLeader(n).value);
  }

  lemma CampaignElectionCalm(n: Node)
    requires CampaignElection(n).Ok?
    ensures Calm(n, CampaignElection(n).value)
  {
    hide BecomeLeader, Granted;
    var n2 := Poll(BecomeCandidate(n).value, n.id, true);
    assert Calm(n, n2);
    if Granted(n2) == Quorum(n2) {
      BecomeLeaderCalm(n2);
      hide Calm;
      CalmTransitive(n, n2, CampaignElection(n).value);
    }
  }

  lemma CampaignPreElectionCalm(n: Node)
    requires CampaignPreElection(n).Ok?
    ensures Calm(n, CampaignPreElection(n).value)
  {
    hide CampaignElection, Granted;
    var n2 := Poll(BecomePreCandidate(n).value, n.id, true);
    assert Calm(n, n2);
    if Granted(n2) == Quorum(n2) {
      CampaignElectionCalm(n2);
      hide Calm;
      CalmTransitive(n, n2, CampaignPreElection(n).value);
    }
  }

  lemma HupCalm(n: Node)
    requires Hup(n).Ok?
    ensures Calm(n, Hup(n).value)
  {
    hide CampaignElection, CampaignPreElection;
    if Hup(n).value != n {
      if n.preVote { CampaignPreElectionCalm(n); } else { CampaignElectionCalm(n); }
    }
  }

  lemma MaybeAppendForward(log: Log, commit: nat, p: nat, pt: nat, c: nat, es: seq<Entry>)
    requires MaybeAppend(log, commit, p, pt, c, es).Ok? && MaybeAppend(log, commit, p, pt, c, es).value.Accepted?
    ensures var r := MaybeAppend(log, commit, p, pt, c, es).value;
            commit <= r.commit && (commit <= |log| ==> r.commit <= |r.log| && r.log[..commit] == log[..commit])
  {
    hide FindConflict;
  }

  lemma HandleAppendEntriesCalm(n: Node, m: Message)
    requires HandleAppendEntries(n, m).Ok?
    ensures Calm(n, HandleAppendEntries(n, m).value)
  {
    hide MaybeAppend;
    if MaybeAppend(n.log, n.commit, m.logIndex, m.logTerm, m.commitIndex, m.entries).value.Accepted? {
      MaybeAppendForward(n.log, n.commit, m.logIndex, m.logTerm, m.commitIndex, m.entries);
    }
  }

  lemma BroadcastAppendCalm(n: Node)
    ensures BroadcastAppend(n).Ok? && Calm(n, BroadcastAppend(n).value)
  {
  }

  lemma HandleProposalCalm(n: Node, m: Message)
    requires HandleProposal(n, m).Ok?
    ensures Calm(n, HandleProposal(n, m).value)
  {
    hide AppendEntry, BroadcastAppend, Demote, HasConfChange;
    if n.id in n.prs {
      var n1 := n.(pendingConf := n.pendingConf || HasConfChange(m.entries));
      var n2 := AppendEntry(n1, Demote(n.pendingConf, m.entries)).value;
      assert Calm(n, n1);
      AppendEntryCalm(n1, Demote(n.pendingConf, m.entries));
      BroadcastAppendCalm(n2);
      hide Calm;
      CalmTransitive(n, n1, n2);
      CalmTransitive(n, n2, HandleProposal(n, m).value);
    }
  }

  lemma HandleAppRespCalm(n: Node, m: Message)
    requires m.from in n.prs && HandleAppResp(n, m).Ok?
    ensures Calm(n, HandleAppResp(n, m).value)
  {
    hide MaybeCommit, BroadcastAppend;
    if !m.reject && n.prs[m.from].matched < m.logIndex {
      var n1 := n.(prs := n.prs[m.from := MaybeUpdate(n.prs[m.from], m.logIndex)]);
      assert n1.prs.Keys == n.prs.Keys;
      assert Calm(n, n1);
      MaybeCommitCalm(n1);
      var n2 := MaybeCommit(n1).value;
      BroadcastAppendCalm(n2);
      hide Calm;
      CalmTransitive(n, n1, n2);
      CalmTransitive(n, n2, BroadcastAppend(n2).value);
    }
  }

  lemma TallyCalm(n: Node, m: Message)
    requires Tally(n, m).Ok?
    ensures Calm(n, Tally(n, m).value)
  {
    hide CampaignElection, BecomeLeader, BroadcastAppend, Granted;
    var n1 := Poll(n, m.from, !m.reject);
    assert Calm(n, n1);
    if Granted(n1) == Quorum(n1) {
      if n1.role == PreCandidate {
        CampaignElectionCalm(n1);
      } else {
        BecomeLeaderCalm(n1);
        BroadcastAppendCalm(BecomeLeader(n1).value);
        hide Calm;
        CalmTransitive(n, n1, BecomeLeader(n1).value);
      }
      hide Calm;
      CalmTransitive(n, if n1.role == PreCandidate then n1 else BecomeLeader(n1).value, Tally(n, m).value);
    }
  }

  lemma ObserveTermCalm(n: Node, m: Message)
    ensures Calm(n, ObserveTerm(n, m))
  {
  }

  // ------------------------------------------------- the rest is heartbeats

  lemma ForwardTransitive(n: Node, n1: Node, n2: Node)
    requires Forward(n, n1) && Forward(n1, n2)
    ensures Forward(n, n2)
  {
    if n.commit <= |n.log| {
      assert n2.log[..n.commit] == n2.log[..n1.commit][..n.commit];
    }
  }

  lemma ReleaseAllForward(n: Node, rss: seq<ReadStatus>)
    requires ReleaseAll(n, rss).Ok?
    ensures var n' := ReleaseAll(n, rss).value;
            n' == n.(readStates := n'.readStates, msgs := n'.msgs)
            && forall x :: x in n'.msgs && HeartbeatTraffic(x) ==> x in n.msgs
    decreases |rss|
  {
    if rss != [] {
      ReleaseAllForward(Release(n, rss[0]).value, rss[1..]);
    }
  }

  lemma HandleHeartbeatRespForward(n: Node, m: Message)
    requires HandleHeartbeatResp(n, m).Ok?
    ensures var n' := HandleHeartbeatResp(n, m).value;
            n' == n.(readOnly := n'.readOnly, readStates := n'.readStates, msgs := n'.msgs)
            && forall x :: x in n'.msgs && HeartbeatTraffic(x) ==> x in n.msgs
  {
    hide ReleaseAll, RecvAck, AdvanceReads;
    if n.readOnly.queue != [] {
      var ro := RecvAck(n.readOnly, m.context, m.from);
      if m.context in ro.pending && |ro.pending[m.context].acks| >= Quorum(n) {
        var r := AdvanceReads(ro, m.context).value;
        ReleaseAllForward(n.(readOnly := r.0), r.1);
      }
    }
  }

  lemma StepLeaderForward(n: Node, m: Message)
    requires StepLeader(n, m).Ok?
    ensures Forward(n, StepLeader(n, m).value)
  {
    hide HandleProposal, HandleAppResp, HandleHeartbeatResp;
    match m.typ
    case MsgProp => HandleProposalCalm(n, m);
    case MsgAppResp => if m.from in n.prs { HandleAppRespCalm(n, m); }
    case MsgHeartbeatResp => if m.from in n.prs { HandleHeartbeatRespForward(n, m); }
    case _ =>
  }

  lemma HandleHeartbeatForward(n: Node, m: Message)
    requires HandleHeartbeat(n, m).Ok?
    ensures Forward(n, HandleHeartbeat(n, m).value)
  {
  }

  lemma StepFollowerForward(n: Node, m: Message)
    requires StepFollower(n, m).Ok?
    ensures Forward(n, StepFollower(n, m).value)
  {
    hide HandleAppendEntries, HandleHeartbeat;
    match m.typ
    case MsgApp => HandleAppendEntriesCalm(n.(lead := m.from), m);
    case MsgHeartbeat => HandleHeartbeatForward(n.(lead := m.from), m);
    case _ =>
  }

  lemma StepCandidateForward(n: Node, m: Message)
    requires StepCandidate(n, m).Ok? && (m.typ == MsgHeartbeat ==> n.term <= m.term)
    ensures Forward(n, StepCandidate(n, m).value)
  {
    hide HandleAppendEntries, HandleHeartbeat, Tally;
    match m.typ
    case MsgApp => HandleAppendEntriesCalm(BecomeFollower(n, n.term, m.from), m);
    case MsgHeartbeat => HandleHeartbeatForward(BecomeFollower(n, m.term, m.from), m);
    case MsgVoteResp => if n.role != PreCandidate { TallyCalm(n, m); }
    case MsgPreVoteResp => if n.role == PreCandidate { TallyCalm(n, m); }
    case _ =>
  }

  /** One step of any node on any message: if it returns, nothing committed is lost. */
  lemma StepForward(n: Node, m: Message)
    requires Step(n, m).Ok? && (m.typ == MsgHeartbeat ==> 0 < m.term)
    ensures Forward(n, Step(n, m).value)
  {
    hide StepLeader, StepFollower, StepCandidate, Hup, ObserveTerm;
    if !(0 < m.term < n.term) {
      var n1 := ObserveTerm(n, m);
      ObserveTermCalm(n, m);
      assert m.typ == MsgHeartbeat ==> n1.term <= m.term by { ObservedTerm(n, m); }
      match m.typ {
        case MsgHup => HupCalm(n1);
        case MsgVote =>
        case MsgPreVote =>
        case _ =>
          match n1.role
          case Leader => StepLeaderForward(n1, m);
          case Follower => StepFollowerForward(n1, m);
          case _ => StepCandidateForward(n1, m);
      }
      assert Forward(n1, Step(n, m).value);
      hide Forward;
      ForwardTransitive(n, n1, Step(n, m).value);
    }
  }

  lemma ObservedTerm(n: Node, m: Message)
    requires !(0 < m.term < n.term) && (m.typ == MsgHeartbeat ==> 0 < m.term)
    ensures m.typ == MsgHeartbeat ==> ObserveTerm(n, m).term == m.term
  {
  }
}
