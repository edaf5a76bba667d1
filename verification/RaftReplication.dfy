/** Winning an election, replicating and committing keep the invariant. */
module RaftReplication {
  import opened RaftTypes
  import opened RaftFlatLog
  import opened RaftSpec
  import opened RaftInvariant
  import opened RaftActions

  // ------------------------------------------------- winning an election

  /** A candidate that holds a majority of recorded votes. */
  ghost predicate Wins(tm: Terms, n: Node) {
    n.role == Candidate && 2 * |Ayes(n.votes)| > |tm.Keys|
  }

  lemma WinnerVoters(h: History, tm: Terms, n: Node)
    requires BallotsOk(h, tm) && CandidateOk(h, n) && Wins(tm, n)
    ensures Majority(tm, Voters(h, tm, n.term, n.id))
  {
    var q := Voters(h, tm, n.term, n.id);
    assert Ayes(n.votes) <= q;
    CardinalityMonotone(Ayes(n.votes), q);
  }

  /** Election safety: nobody else leads, or ever led, the term a candidate wins. */
  lemma NoRival(h: History, tm: Terms, n: Node)
    requires LeadersOk(h, tm) && BallotsOk(h, tm) && CandidateOk(h, n) && LeadOk(h, n) && Wins(tm, n)
    ensures n.term !in h.leaders && n.term !in h.logs
  {
    hide LogOk;
    WinnerVoters(h, tm, n);
    if n.term in h.leaders {
      assert LeaderOk(h, tm, n.term);
      var j := MajoritiesMeet(tm, Voters(h, tm, n.term, n.id), Voters(h, tm, n.term, h.leaders[n.term]));
      assert false;
    }
  }

  /** A log as recent as an entry that can still be committed holds that entry and all before it. */
  lemma RecentHolds(h: History, tm: Terms, log: Log, b: Ballot, t: nat, i: nat)
    requires LeadersOk(h, tm) && Completeness(h, tm) && LogOk(h, log)
    requires b.lastTerm == LastTerm(log) && b.lastIndex == |log|
    requires Own(h, t, i) && CanCommit(h, tm, t, i) && AtLeastAsRecent(b, t, i)
    ensures h.logs[t][..i] <= log
  {
    hide CanCommit, LeadersOk, LogOk;
    assert LogOk(h, h.logs[t]) by { LeaderLogOk(h, tm, t); }
    assert 1 <= t by { LeaderLogOk(h, tm, t); }
    assert log != [];
    var u := b.lastTerm;
    LastEntry(h, log);
    if u == t {
      assert h.logs[t][..i] == log[..i];
    } else {
      assert h.logs[t][..i] <= h.logs[u];
      LeaderLogOk(h, tm, u);
      assert h.logs[u][i - 1] == h.logs[t][..i][i - 1];
      LaterTermLaterIndex(h, h.logs[u], i, |log|);
      assert h.logs[t][..i] == log[..i];
    }
  }

  lemma LeaderLogOk(h: History, tm: Terms, t: nat)
    requires LeadersOk(h, tm) && t in h.logs
    ensures 1 <= t && LogOk(h, h.logs[t]) && TermsUpTo(h.logs[t], t)
  {
    hide LogOk;
    assert t in h.leaders && LeaderOk(h, tm, t);
  }

  lemma LastEntry(h: History, log: Log)
    requires LogOk(h, log) && log != []
    ensures LastTerm(log) in h.logs && log <= h.logs[LastTerm(log)] && 1 <= LastTerm(log)
  {
    assert log[..|log|] == log;
  }

  lemma LaterTermLaterIndex(h: History, log: Log, i: nat, k: nat)
    requires LogOk(h, log) && 1 <= i <= |log| && 1 <= k <= |log| && log[i - 1].term < log[k - 1].term
    ensures i < k
  {
  }

  ghost function WithLeader(h: History, n: Node): History {
    h.(logs := h.logs[n.term := n.log], leaders := h.leaders[n.term := n.id],
       acks := h.acks[(n.term, n.id) := |n.log|])
  }

  lemma ElectionGrows(h: History, tm: Terms, n: Node)
    requires n.id in tm && tm[n.id] == n.term && n.term !in h.leaders && n.term !in h.logs && AcksOk(h, tm)
    ensures GrowsBy(h, WithLeader(h, n), tm, n.id, n.term)
    ensures AcksOk(WithLeader(h, n), tm)
  {
  }

  /** The winner's log holds everything an earlier term can still commit. */
  lemma WinnerHolds(h: History, tm: Terms, n: Node, t: nat, i: nat)
    requires HistoryOk(h, tm) && LogOk(h, n.log) && CandidateOk(h, n) && Wins(tm, n)
    requires Own(h, t, i) && t < n.term && CanCommit(h, tm, t, i)
    ensures h.logs[t][..i] <= n.log
  {
    hide LogOk, LeadersOk, Completeness, MarksOk;
    WinnerVoters(h, tm, n);
    var j := MajoritiesMeet(tm, Supporters(h, tm, t, i), Voters(h, tm, n.term, n.id));
    assert n.term <= tm[j];
    assert i <= Ack(h, t, j);
    assert h.ballots[(n.term, j)] == h.ballots[(n.term, n.id)];
    RecentHolds(h, tm, n.log, h.ballots[(n.term, j)], t, i);
  }

  lemma NoOwnEntries(h: History, log: Log, t: nat, i: nat)
    requires LogOk(h, log) && t !in h.logs && 1 <= i <= |log|
    ensures log[i - 1].term != t
  {
  }

  lemma ElectionCompleteness(h: History, tm: Terms, n: Node)
    requires HistoryOk(h, tm) && NodeOk(h, tm, n) && Wins(tm, n) && n.term !in h.logs
    requires GrowsBy(h, WithLeader(h, n), tm, n.id, n.term)
    ensures Completeness(WithLeader(h, n), tm)
  {
    hide LogOk, CanCommit, LeadersOk, BallotsOk, AcksOk, VotesRespectAcks, MarksOk, GrowsBy, MsgOk, OldAcksOk, CommitOk;
    var h' := WithLeader(h, n);
    assert tm[n.id := n.term] == tm;
    forall t: nat, i: nat, u | Own(h', t, i) && u in h'.logs && t < u && CanCommit(h', tm, t, i)
      ensures h'.logs[t][..i] <= h'.logs[u]
    {
      CanCommitShrinks(h, h', tm, n.id, n.term, t, i);
      if t == n.term {
        NoOwnEntries(h, n.log, t, i);
      } else if u == n.term {
        assert Own(h, t, i);
        WinnerHolds(h, tm, n, t, i);
      } else {
        assert Own(h, t, i);
      }
    }
  }

  lemma ElectionLeadersOk(h: History, tm: Terms, n: Node)
    requires LeadersOk(h, tm) && LogOk(h, n.log) && TermsUpTo(n.log, n.term) && 1 <= n.term
    requires n.id in tm && tm[n.id] == n.term && n.term !in h.leaders && n.term !in h.logs
    requires GrowsBy(h, WithLeader(h, n), tm, n.id, n.term) && AcksOk(WithLeader(h, n), tm)
    requires Majority(tm, Voters(h, tm, n.term, n.id))
    ensures LeadersOk(WithLeader(h, n), tm)
  {
    hide LogOk, TermsUpTo, GrowsBy, AcksOk;
    var h' := WithLeader(h, n);
    assert tm[n.id := n.term] == tm;
    assert Extends(h, h') by { GrowsExtends(h, h', tm, n.id, n.term); }
    forall u | u in h'.logs ensures LeaderOk(h', tm, u) {
      if u == n.term {
        LogOkExtends(h, h', n.log);
        VotersGrow(h, h', tm, tm, u, n.id);
      } else {
        LeaderStays(h, h', tm, n.id, n.term, u);
      }
    }
  }

  lemma GrowsExtends(h: History, h': History, tm: Terms, id: NodeId, t: nat)
    requires GrowsBy(h, h', tm, id, t)
    ensures Extends(h, h')
  {
  }

  lemma ElectionHistoryOk(h: History, tm: Terms, n: Node)
    requires HistoryOk(h, tm) && NodeOk(h, tm, n) && Wins(tm, n)
    ensures n.term !in h.logs && n.term !in h.leaders
    ensures GrowsBy(h, WithLeader(h, n), tm, n.id, n.term) && HistoryOk(WithLeader(h, n), tm)
  {
    hide LogOk, TermsUpTo, Wins, MsgOk, OldAcksOk, CommitOk, GrowsBy;
    hide LeadersOk, BallotsOk, AcksOk, Completeness, VotesRespectAcks, MarksOk;
    var h' := WithLeader(h, n);
    assert tm[n.id := n.term] == tm;
    NoRival(h, tm, n);
    WinnerVoters(h, tm, n);
    ElectionGrows(h, tm, n);
    ElectionLeadersOk(h, tm, n);
    ElectionCompleteness(h, tm, n);
    VotesStay(h, h', tm, n.id, n.term);
    MarksStay(h, h', tm, n.id, n.term);
  }

  /** OldAcksOk of the acting node when its log keeps all it held of earlier terms. */
  lemma OwnOldAcksOk(h: History, h': History, tm: Terms, n: Node, n': Node)
    requires GrowsBy(h, h', tm, n.id, n.term) && n.id in tm && tm[n.id] == n.term
    requires AcksOk(h, tm) && OldAcksOk(h, tm, n) && n'.id == n.id && n'.term == n.term
    requires n.log <= n'.log
    ensures OldAcksOk(h', tm, n')
  {
    hide CanCommit;
    assert tm[n.id := n.term] == tm;
    forall u: nat, i: nat | Own(h', u, i) && u < n'.term && i <= Ack(h', u, n'.id) && CanCommit(h', tm, u, i)
      ensures h'.logs[u][..i] <= n'.log
    {
      CanCommitShrinks(h, h', tm, n.id, n.term, u, i);
      assert (u, n.id) in h.acks;
      OwnShrinks(h, h', u, i);
    }
  }

  lemma NoMarkYet(h: History, tm: Terms, t: nat)
    requires MarksOk(h, tm) && t !in h.logs
    ensures t !in h.marks
  {
  }

  lemma ElectionNodeOk(h: History, tm: Terms, n: Node)
    requires HistoryOk(h, tm) && NodeOk(h, tm, n) && Wins(tm, n)
    requires n.term !in h.logs && GrowsBy(h, WithLeader(h, n), tm, n.id, n.term)
    ensures NodeOk(WithLeader(h, n), tm, TakeLeadership(n))
  {
    hide LogOk, TermsUpTo, MsgOk, OldAcksOk, Wins, GrowsBy;
    hide LeadersOk, BallotsOk, AcksOk, Completeness, VotesRespectAcks, MarksOk;
    var h', n' := WithLeader(h, n), TakeLeadership(n);
    GrowsExtends(h, h', tm, n.id, n.term);
    LogOkExtends(h, h', n.log);
    CommitOkExtends(h, h', n);
    CommitOkFrame(h', n, n');
    OwnOldAcksOk(h, h', tm, n, n');
    NoMarkYet(h, tm, n.term);
    forall m | m in n'.msgs ensures MsgOk(h', m) { MsgOkExtends(h, h', m); }
  }

  lemma ElectionKeeps(nodes: map<NodeId, Node>, h: History, n: Node) returns (h': History)
    requires Good(nodes, h) && n.id in nodes && nodes[n.id] == n && Wins(TermsOf(nodes), n)
    ensures Extends(h, h') && Good(nodes[n.id := TakeLeadership(n)], h')
  {
    hide NodeOk, HistoryOk, GrowsBy, Extends;
    var tm := TermsOf(nodes);
    h' := WithLeader(h, n);
    assert tm[n.id := n.term] == tm;
    ElectionHistoryOk(h, tm, n);
    ElectionNodeOk(h, tm, n);
    GrowsExtends(h, h', tm, n.id, n.term);
    Replace(nodes, h, h', TakeLeadership(n));
  }

  // -------------------------------------------------- the leader appends

  ghost function WithEntries(h: History, n: Node, log: Log): History {
    h.(logs := h.logs[n.term := log], acks := h.acks[(n.term, n.id) := |log|])
  }

  /** New entries of the leader: its term, consecutive indices. */
  ghost predicate FreshEntries(n: Node, log: Log) {
    && n.log <= log
    && (forall i :: |n.log| <= i < |log| ==> log[i].term == n.term && log[i].index == i + 1)
  }

  lemma AppendGrows(h: History, tm: Terms, n: Node, log: Log)
    requires n.id in tm && tm[n.id] == n.term && n.role == Leader && LeadOk(h, n) && AcksOk(h, tm) && FreshEntries(n, log)
    requires Ack(h, n.term, n.id) == |n.log|
    ensures GrowsBy(h, WithEntries(h, n, log), tm, n.id, n.term)
    ensures AcksOk(WithEntries(h, n, log), tm)
  {
  }

  lemma AppendLogOk(h: History, h': History, n: Node, log: Log)
    requires LogOk(h, n.log) && TermsUpTo(n.log, n.term) && 1 <= n.term && Extends(h, h')
    requires FreshEntries(n, log) && n.term in h'.logs && h'.logs[n.term] == log
    ensures LogOk(h', log) && TermsUpTo(log, n.term)
  {
    forall i | 0 <= i < |log|
      ensures log[i].term in h'.logs && log[..i + 1] <= h'.logs[log[i].term]
    {
      if i < |n.log| {
        assert log[..i + 1] == n.log[..i + 1];
        assert log[i] == n.log[i];
      }
    }
    forall i, j | 0 <= i <= j < |log| ensures log[i].term <= log[j].term {
      if i < |n.log| { assert log[i] == n.log[i]; }
      if j < |n.log| { assert log[j] == n.log[j]; }
    }
  }

  /** An entry appended while a later leader exists can never be committed. */
  lemma TooLate(h: History, h': History, tm: Terms, id: NodeId, t: nat, i: nat, u: nat)
    requires LeadersOk(h, tm) && BallotsOk(h, tm) && AcksOk(h, tm) && GrowsBy(h, h', tm, id, t)
    requires t in h.logs && |h.logs[t]| < i && u in h.logs && t < u && tm[id] == t
    ensures !CanCommit(h', tm, t, i)
  {
    hide LogOk;
    if CanCommit(h', tm, t, i) {
      assert LeaderOk(h, tm, u);
      var j := MajoritiesMeet(tm, Supporters(h', tm, t, i), Voters(h, tm, u, h.leaders[u]));
      assert false;
    }
  }

  lemma AppendCompleteness(h: History, tm: Terms, n: Node, log: Log)
    requires LeadersOk(h, tm) && BallotsOk(h, tm) && AcksOk(h, tm) && Completeness(h, tm)
    requires n.id in tm && tm[n.id] == n.term && n.term in h.logs && h.logs[n.term] == n.log && n.log <= log
    requires GrowsBy(h, WithEntries(h, n, log), tm, n.id, n.term)
    ensures Completeness(WithEntries(h, n, log), tm)
  {
    hide CanCommit, LeadersOk, BallotsOk, AcksOk, GrowsBy;
    var h' := WithEntries(h, n, log);
    assert tm[n.id := n.term] == tm;
    GrowsExtends(h, h', tm, n.id, n.term);
    forall t: nat, i: nat, u | Own(h', t, i) && u in h'.logs && t < u && CanCommit(h', tm, t, i)
      ensures h'.logs[t][..i] <= h'.logs[u]
    {
      CanCommitShrinks(h, h', tm, n.id, n.term, t, i);
      if t == n.term && i > |n.log| {
        TooLate(h, h', tm, n.id, t, i, u);
      } else {
        OwnShrinks(h, h', t, i);
        assert h.logs[t][..i] <= h.logs[u];
      }
    }
  }

  lemma AppendLeadersOk(h: History, tm: Terms, n: Node, log: Log)
    requires LeadersOk(h, tm) && NodeOk(h, tm, n) && n.role == Leader && FreshEntries(n, log)
    requires GrowsBy(h, WithEntries(h, n, log), tm, n.id, n.term) && AcksOk(WithEntries(h, n, log), tm)
    ensures LeadersOk(WithEntries(h, n, log), tm)
    ensures LogOk(WithEntries(h, n, log), log) && TermsUpTo(log, n.term)
  {
    hide LogOk, TermsUpTo, GrowsBy, AcksOk, FreshEntries, MsgOk, OldAcksOk, CommitOk, LeaderOk;
    var h' := WithEntries(h, n, log);
    assert tm[n.id := n.term] == tm;
    GrowsExtends(h, h', tm, n.id, n.term);
    AppendLogOk(h, h', n, log);
    forall u | u in h'.logs ensures LeaderOk(h', tm, u) {
      AppendLeaderOk(h, tm, n, log, u);
    }
  }

  lemma AppendLeaderOk(h: History, tm: Terms, n: Node, log: Log, u: nat)
    requires LeadersOk(h, tm) && NodeOk(h, tm, n) && n.role == Leader && FreshEntries(n, log) && u in WithEntries(h, n, log).logs
    requires GrowsBy(h, WithEntries(h, n, log), tm, n.id, n.term) && AcksOk(WithEntries(h, n, log), tm)
    requires LogOk(WithEntries(h, n, log), log) && TermsUpTo(log, n.term) && tm[n.id := n.term] == tm
    requires WithEntries(h, n, log).logs.Keys == WithEntries(h, n, log).leaders.Keys
    ensures LeaderOk(WithEntries(h, n, log), tm, u)
  {
    hide LogOk, TermsUpTo, GrowsBy, AcksOk, FreshEntries, MsgOk, OldAcksOk, CommitOk;
    var h' := WithEntries(h, n, log);
    GrowsExtends(h, h', tm, n.id, n.term);
    assert LeaderOk(h, tm, u);
    if u == n.term {
      VotersGrow(h, h', tm, tm, u, n.id);
    } else {
      hide LeaderOk;
      LeaderStays(h, h', tm, n.id, n.term, u);
    }
  }

  lemma AppendHistoryOk(h: History, tm: Terms, n: Node, log: Log)
    requires HistoryOk(h, tm) && NodeOk(h, tm, n) && n.role == Leader && FreshEntries(n, log)
    ensures GrowsBy(h, WithEntries(h, n, log), tm, n.id, n.term) && HistoryOk(WithEntries(h, n, log), tm)
    ensures LogOk(WithEntries(h, n, log), log) && TermsUpTo(log, n.term)
  {
    hide LogOk, TermsUpTo, MsgOk, OldAcksOk, CommitOk, GrowsBy;
    hide BallotsOk, AcksOk, Completeness, VotesRespectAcks, MarksOk;
    var h' := WithEntries(h, n, log);
    assert tm[n.id := n.term] == tm;
    assert LeaderOk(h, tm, n.term);
    AppendGrows(h, tm, n, log);
    AppendLeadersOk(h, tm, n, log);
    AppendCompleteness(h, tm, n, log);
    VotesStay(h, h', tm, n.id, n.term);
    MarksStay(h, h', tm, n.id, n.term);
  }

  /** The leader's log grows; only its own progress record may change with it. */
  ghost predicate Appends(n: Node, n': Node) {
    && n.role == Leader && FreshEntries(n, n'.log)
    && n'.prs.Keys == n.prs.Keys && (forall j :: j in n.prs && j != n.id ==> n'.prs[j] == n.prs[j])
    && n' == n.(log := n'.log, prs := n'.prs, pendingConf := n'.pendingConf)
  }

  lemma CommitOkGrows(h: History, n: Node, n': Node)
    requires CommitOk(h, n) && n'.commit == n.commit && n'.applied == n.applied && n.log <= n'.log && n'.term == n.term
    ensures CommitOk(h, n')
  {
    if n.commit != 0 {
      var u :| CommitFrom(h, n, u);
      assert n'.log[..n.commit] == n.log[..n.commit];
      assert CommitFrom(h, n', u);
    }
  }

  lemma AppendNodeOk(h: History, tm: Terms, n: Node, n': Node)
    requires AcksOk(h, tm) && NodeOk(h, tm, n) && Appends(n, n')
    requires GrowsBy(h, WithEntries(h, n, n'.log), tm, n.id, n.term)
    requires LogOk(WithEntries(h, n, n'.log), n'.log) && TermsUpTo(n'.log, n.term)
    ensures NodeOk(WithEntries(h, n, n'.log), tm, n')
  {
    hide LogOk, TermsUpTo, MsgOk, OldAcksOk, CommitOk, AcksOk, GrowsBy;
    var h' := WithEntries(h, n, n'.log);
    GrowsExtends(h, h', tm, n.id, n.term);
    CommitOkExtends(h, h', n);
    CommitOkGrows(h', n, n');
    OwnOldAcksOk(h, h', tm, n, n');
    forall m | m in n'.msgs ensures MsgOk(h', m) { MsgOkExtends(h, h', m); }
  }

  lemma AppendKeeps(nodes: map<NodeId, Node>, h: History, n: Node, n': Node) returns (h': History)
    requires Good(nodes, h) && n.id in nodes && nodes[n.id] == n && Appends(n, n')
    ensures Extends(h, h') && Good(nodes[n.id := n'], h')
  {
    hide NodeOk, LeadersOk, BallotsOk, AcksOk, Completeness, VotesRespectAcks, MarksOk, GrowsBy, Extends;
    var tm := TermsOf(nodes);
    h' := WithEntries(h, n, n'.log);
    assert tm[n.id := n.term] == tm;
    AppendHistoryOk(h, tm, n, n'.log);
    AppendNodeOk(h, tm, n, n');
    GrowsExtends(h, h', tm, n.id, n.term);
    Replace(nodes, h, h', n');
  }

  // ------------------------------------------------- the leader commits

  ghost function WithMark(h: History, t: nat, k: nat): History {
    h.(marks := h.marks[t := k])
  }

  /** The leader of the term may commit index k of its own term. */
  ghost predicate MayCommit(h: History, tm: Terms, n: Node, k: nat) {
    && n.role == Leader && n.commit < k <= |n.log| && n.log[k - 1].term == n.term
    && Majority(tm, Confirmers(h, tm, n.term, k))
  }

  lemma MarkGrows(h: History, tm: Terms, n: Node, k: nat)
    requires NodeOk(h, tm, n) && MayCommit(h, tm, n, k)
    ensures GrowsBy(h, WithMark(h, n.term, k), tm, n.id, n.term)
  {
    hide LogOk, MsgOk, OldAcksOk, CommitOk;
  }

  lemma MarkMarksOk(h: History, tm: Terms, n: Node, k: nat)
    requires MarksOk(h, tm) && MayCommit(h, tm, n, k) && n.term in h.logs && h.logs[n.term] == n.log
    ensures MarksOk(WithMark(h, n.term, k), tm)
  {
    var h' := WithMark(h, n.term, k);
    forall u | u in h'.marks
      ensures Own(h', u, h'.marks[u]) && Majority(tm, Confirmers(h', tm, u, h'.marks[u]))
    {
      assert Confirmers(h', tm, u, h'.marks[u]) == Confirmers(h, tm, u, h'.marks[u]);
    }
  }

  lemma AcksSame(h: History, h': History, tm: Terms)
    requires AcksOk(h, tm) && h'.acks == h.acks && h'.logs == h.logs
    ensures AcksOk(h', tm)
  {
  }

  lemma MarkHistoryOk(h: History, tm: Terms, n: Node, k: nat)
    requires HistoryOk(h, tm) && NodeOk(h, tm, n) && MayCommit(h, tm, n, k)
    ensures GrowsBy(h, WithMark(h, n.term, k), tm, n.id, n.term) && HistoryOk(WithMark(h, n.term, k), tm)
  {
    hide LogOk, MsgOk, OldAcksOk, CommitOk, GrowsBy;
    hide LeadersOk, BallotsOk, AcksOk, Completeness, VotesRespectAcks, MarksOk;
    var h' := WithMark(h, n.term, k);
    assert tm[n.id := n.term] == tm;
    MarkGrows(h, tm, n, k);
    AcksSame(h, h', tm);
    LeadersStay(h, h', tm, n.id, n.term);
    CompletenessStays(h, h', tm, n.id, n.term);
    VotesStay(h, h', tm, n.id, n.term);
    MarkMarksOk(h, tm, n, k);
  }

  lemma MarkNodeOk(h: History, tm: Terms, n: Node, k: nat)
    requires NodeOk(h, tm, n) && MayCommit(h, tm, n, k) && Extends(h, WithMark(h, n.term, k))
    ensures NodeOk(WithMark(h, n.term, k), tm, n.(commit := k))
  {
    hide LogOk, TermsUpTo, MsgOk, OldAcksOk;
    var h', n' := WithMark(h, n.term, k), n.(commit := k);
    LogOkExtends(h, h', n.log);
    assert n.log[..k] <= h.logs[n.term];
    assert CommitFrom(h', n', n.term);
    SelfOldAcksOk(h, h', tm, n);
    OldAcksOkFrame(h', tm, n, n');
    forall m | m in n'.msgs ensures MsgOk(h', m) { MsgOkExtends(h, h', m); }
  }

  lemma LeaderCommitKeeps(nodes: map<NodeId, Node>, h: History, n: Node, k: nat) returns (h': History)
    requires Good(nodes, h) && n.id in nodes && nodes[n.id] == n && MayCommit(h, TermsOf(nodes), n, k)
    ensures Extends(h, h') && Good(nodes[n.id := n.(commit := k)], h')
  {
    hide NodeOk, HistoryOk, GrowsBy, Extends;
    var tm := TermsOf(nodes);
    h' := WithMark(h, n.term, k);
    assert tm[n.id := n.term] == tm;
    MarkHistoryOk(h, tm, n, k);
    GrowsExtends(h, h', tm, n.id, n.term);
    MarkNodeOk(h, tm, n, k);
    Replace(nodes, h, h', n.(commit := k));
  }

  // -------------------------------------------------- a follower accepts

  /** What a leader of a term up to t committed is a prefix of the log of t's leader. */
  lemma CommittedPrefix(h: History, tm: Terms, t: nat, c: nat) returns (u: nat)
    requires HistoryOk(h, tm) && CommittedBy(h, t, c) && 0 < c && t in h.logs
    ensures u in h.marks && u <= t && h.marks[u] >= c && u in h.logs && c <= |h.logs[u]| && c <= |h.logs[t]|
    ensures h.logs[u][..c] == h.logs[t][..c]
  {
    hide LogOk, LeadersOk, BallotsOk, AcksOk, VotesRespectAcks;
    u :| u in h.marks && u <= t && h.marks[u] >= c;
    if u < t {
      MarkHolds(h, tm, u, t);
      assert h.logs[u][..c] == h.logs[u][..h.marks[u]][..c];
    }
  }

  lemma MarkHolds(h: History, tm: Terms, u: nat, t: nat)
    requires Completeness(h, tm) && MarksOk(h, tm) && u in h.marks && t in h.logs && u < t
    ensures u in h.logs && h.marks[u] <= |h.logs[u]| && h.logs[u][..h.marks[u]] <= h.logs[t]
  {
    var k := h.marks[u];
    MajorityGrows(tm, Confirmers(h, tm, u, k), Supporters(h, tm, u, k));
    assert Own(h, u, k) && CanCommit(h, tm, u, k);
  }

  /** A node's committed entries are a prefix of the log of its term's leader. */
  lemma CommittedInLeaderLog(h: History, tm: Terms, n: Node)
    requires HistoryOk(h, tm) && CommitOk(h, n) && n.term in h.logs
    ensures n.log[..n.commit] <= h.logs[n.term]
  {
    hide LogOk, LeadersOk, BallotsOk, AcksOk, VotesRespectAcks;
    if n.commit != 0 {
      var u: nat :| CommitFrom(h, n, u);
      if u < n.term {
        MarkHolds(h, tm, u, n.term);
        assert n.log[..n.commit] == h.logs[u][..h.marks[u]][..n.commit];
      }
    }
  }

  /** Committing a prefix of the term leader's log that some leader has committed. */
  lemma CommitOkAdvances(h: History, tm: Terms, n: Node)
    requires HistoryOk(h, tm) && CommittedBy(h, n.term, n.commit) && n.term in h.logs
    requires n.applied <= n.commit <= |n.log| && n.log[..n.commit] <= h.logs[n.term]
    ensures CommitOk(h, n)
  {
    hide LogOk, HistoryOk;
    if n.commit != 0 {
      var u := CommittedPrefix(h, tm, n.term, n.commit);
      assert n.log[..n.commit] == h.logs[n.term][..n.commit];
      assert CommitFrom(h, n, u);
    }
  }

  /** `findConflict` finds the first place where the log leaves the leader's log. */
  lemma {:induction false} ConflictSplits(h: History, log: Log, l: Log, p: nat, q: nat)
    requires LogOk(h, log) && LogOk(h, l) && p <= q <= |l| && p <= |log| && log[..p] == l[..p]
    ensures var c := FindConflict(log, l[p..q]);
            if c == 0 then q <= |log| && log[..q] == l[..q]
            else p < c <= q && c - 1 <= |log| && log[..c - 1] == l[..c - 1] && !(c <= |log| && log[..c] == l[..c])
    decreases q - p
  {
    if p < q {
      var es := l[p..q];
      assert es[0] == l[p] && es[0].index == p + 1 && 1 <= es[0].term;
      assert es[1..] == l[p + 1..q];
      hide LogOk;
      if MatchTerm(log, p + 1, l[p].term) {
        LogMatching(h, log, l, p + 1);
        ConflictSplits(h, log, l, p + 1, q);
      } else if p + 1 <= |log| {
        assert log[..p + 1][p] == log[p];
        assert l[..p + 1][p] == l[p];
      }
    }
  }

  /** Wherever the log agreed with l it agrees with l afterwards. */
  ghost predicate StillAgrees(log: Log, l: Log, log': Log) {
    forall k :: 0 <= k <= |log| && k <= |l| && log[..k] == l[..k] ==> k <= |log'| && log'[..k] == l[..k]
  }

  /** Accepting entries l[p..q] of the leader's log l: no panic, the log then agrees with l up to q,
      and whatever agreed with l before still does. */
  lemma AcceptEffect(h: History, log: Log, commit: nat, l: Log, p: nat, q: nat, c: nat) returns (log': Log)
    requires LogOk(h, log) && LogOk(h, l) && p <= q <= |l| && commit <= |log| && log[..commit] <= l
    requires MatchTerm(log, p, TermAt(l, p))
    ensures var k := Min(c, q);
            MaybeAppend(log, commit, p, TermAt(l, p), c, l[p..q]) == Ok(Accepted(log', Max(commit, k), q))
    ensures q <= |log'| && log'[..q] == l[..q] && LogOk(h, log')
    ensures log' == log || log' == l[..q]
    ensures StillAgrees(log, l, log')
  {
    hide LogOk, FindConflict, TermAt, MaybeAppend, MatchTerm, StillAgrees, Append;
    PreviousMatches(h, log, l, p);
    ConflictSplits(h, log, l, p, q);
    var conflict := FindConflict(log, l[p..q]);
    if conflict == 0 {
      log' := log;
      SelfAgrees(log, l);
      NothingNew(log, commit, p, TermAt(l, p), c, l[p..q]);
    } else {
      AgreementStops(log, l, conflict, commit);
      IndexAt(h, l, conflict);
      SpliceIs(log, commit, l, p, q, conflict);
      log' := l[..q];
      Overwritten(log, commit, p, TermAt(l, p), c, l[p..q], conflict, log');
      LogOkPrefix(h, l, q);
      AgreementKept(log, l, q, conflict);
    }
  }

  lemma SelfAgrees(log: Log, l: Log)
    ensures StillAgrees(log, l, log)
  {
  }

  lemma NothingNew(log: Log, commit: nat, p: nat, t: nat, c: nat, es: seq<Entry>)
    requires MatchTerm(log, p, t) && FindConflict(log, es) == 0 && p + |es| <= |log| && commit <= |log|
    ensures MaybeAppend(log, commit, p, t, c, es) == Ok(Accepted(log, Max(commit, Min(c, p + |es|)), p + |es|))
  {
    hide MatchTerm, FindConflict;
  }

  lemma Overwritten(log: Log, commit: nat, p: nat, t: nat, c: nat, es: seq<Entry>, k: nat, log': Log)
    requires MatchTerm(log, p, t) && p + |es| <= |log'|
    requires k == FindConflict(log, es) && p < k <= p + |es| && commit < k
    requires Append(log, commit, es[k - (p + 1)..]) == Ok(log')
    ensures MaybeAppend(log, commit, p, t, c, es) == Ok(Accepted(log', Max(commit, Min(c, p + |es|)), p + |es|))
  {
    hide MatchTerm, FindConflict, Append;
  }

  /** What is left of the entries from the conflict on, put behind what agreed. */
  lemma SpliceIs(log: Log, commit: nat, l: Log, p: nat, q: nat, c: nat)
    requires p < c <= q <= |l| && c - 1 <= |log| && log[..c - 1] == l[..c - 1] && commit < c && l[c - 1].index == c
    ensures Append(log, commit, l[p..q][c - (p + 1)..]) == Ok(l[..q])
  {
    var es := l[p..q][c - (p + 1)..];
    assert es == l[c - 1..q];
    assert es[0] == l[c - 1];
    assert l[..c - 1] + es == l[..q];
  }

  lemma AgreementKept(log: Log, l: Log, q: nat, c: nat)
    requires 1 <= c <= q <= |l| && !(c <= |log| && log[..c] == l[..c])
    ensures StillAgrees(log, l, l[..q])
  {
    forall k | 0 <= k <= |log| && k <= |l| && log[..k] == l[..k] ensures k <= q && l[..q][..k] == l[..k] {
      AgreementStops(log, l, c, k);
    }
  }

  lemma IndexAt(h: History, log: Log, i: nat)
    requires LogOk(h, log) && 1 <= i <= |log|
    ensures log[i - 1].index == i
  {
  }

  lemma AgreementStops(a: Log, b: Log, i: nat, k: nat)
    requires 1 <= i && !(i <= |a| && i <= |b| && a[..i] == b[..i])
    requires k <= |a| && k <= |b| && a[..k] == b[..k]
    ensures k < i
  {
  }

  lemma PreviousMatches(h: History, log: Log, l: Log, p: nat)
    requires LogOk(h, log) && LogOk(h, l) && p <= |l| && MatchTerm(log, p, TermAt(l, p))
    ensures p <= |log| && log[..p] == l[..p]
  {
    if 0 < p {
      assert 1 <= l[p - 1].term;
      LogMatching(h, log, l, p);
    }
  }

  ghost function WithAck(h: History, n: Node, k: nat): History {
    h.(acks := h.acks[(n.term, n.id) := Max(Ack(h, n.term, n.id), k)])
  }

  lemma AckGrows(h: History, tm: Terms, n: Node, k: nat)
    requires n.id in tm && tm[n.id] == n.term && AcksOk(h, tm) && n.term in h.logs && k <= |h.logs[n.term]|
    ensures GrowsBy(h, WithAck(h, n, k), tm, n.id, n.term) && AcksOk(WithAck(h, n, k), tm)
  {
  }

  lemma AckHistoryOk(h: History, tm: Terms, n: Node, k: nat)
    requires HistoryOk(h, tm) && n.id in tm && tm[n.id] == n.term && n.term in h.logs && k <= |h.logs[n.term]|
    ensures GrowsBy(h, WithAck(h, n, k), tm, n.id, n.term) && HistoryOk(WithAck(h, n, k), tm)
  {
    hide LeadersOk, BallotsOk, AcksOk, Completeness, VotesRespectAcks, MarksOk, GrowsBy;
    var h' := WithAck(h, n, k);
    assert tm[n.id := n.term] == tm;
    AckGrows(h, tm, n, k);
    LeadersStay(h, h', tm, n.id, n.term);
    CompletenessStays(h, h', tm, n.id, n.term);
    VotesStay(h, h', tm, n.id, n.term);
    MarksStay(h, h', tm, n.id, n.term);
  }

  /** A follower's log after accepting: it agrees with the leader up to k and kept every agreement. */
  ghost predicate Accepts(h: History, n: Node, n': Node, k: nat) {
    && n.role == Follower && n.term in h.logs && k <= |h.logs[n.term]|
    && n' == n.(log := n'.log, commit := n'.commit, msgs := n'.msgs)
    && k <= |n'.log| && n'.log[..k] == h.logs[n.term][..k]
    && LogOk(h, n'.log) && (n'.log == n.log || n'.log <= h.logs[n.term])
    && StillAgrees(n.log, h.logs[n.term], n'.log)
    && n.commit <= n'.commit <= |n'.log| && n'.log[..n'.commit] <= h.logs[n.term]
    && CommittedBy(h, n.term, n'.commit)
  }

  lemma AcceptOldAcksOk(h: History, tm: Terms, n: Node, n': Node, k: nat)
    requires Completeness(h, tm) && AcksOk(h, tm) && OldAcksOk(h, tm, n) && Accepts(h, n, n', k)
    requires n.id in tm && tm[n.id] == n.term && GrowsBy(h, WithAck(h, n, k), tm, n.id, n.term)
    ensures OldAcksOk(WithAck(h, n, k), tm, n')
  {
    hide CanCommit, LogOk, MsgOk, CommittedBy;
    var h' := WithAck(h, n, k);
    assert tm[n.id := n.term] == tm;
    forall u: nat, i: nat | Own(h', u, i) && u < n'.term && i <= Ack(h', u, n'.id) && CanCommit(h', tm, u, i)
      ensures h'.logs[u][..i] <= n'.log
    {
      CanCommitShrinks(h, h', tm, n.id, n.term, u, i);
      assert Own(h, u, i);
      assert h.logs[u][..i] <= n.log && h.logs[u][..i] <= h.logs[n.term];
      assert n.log[..i] == h.logs[n.term][..i];
    }
  }

  lemma AcceptAckOk(h: History, n: Node, n': Node, k: nat)
    requires AckOk(h, n) && Accepts(h, n, n', k)
    ensures AckOk(WithAck(h, n, k), n')
  {
    hide LogOk, CommittedBy;
    var a := Ack(h, n.term, n.id);
    if (n.term, n.id) in h.acks {
      assert n.log[..a] == h.logs[n.term][..a];
    }
  }

  lemma PrefixTermsUpTo(log: Log, l: Log, t: nat)
    requires TermsUpTo(l, t) && log <= l
    ensures TermsUpTo(log, t)
  {
  }

  lemma AcceptNodeOk(h: History, tm: Terms, n: Node, n': Node, k: nat)
    requires HistoryOk(h, tm) && NodeOk(h, tm, n) && Accepts(h, n, n', k)
    requires GrowsBy(h, WithAck(h, n, k), tm, n.id, n.term)
    requires forall m :: m in n'.msgs ==> MsgOk(WithAck(h, n, k), m)
    ensures NodeOk(WithAck(h, n, k), tm, n')
  {
    hide LogOk, TermsUpTo, MsgOk, OldAcksOk, AckOk, GrowsBy, CommittedBy;
    hide LeadersOk, BallotsOk, AcksOk, Completeness, VotesRespectAcks, MarksOk;
    var h' := WithAck(h, n, k);
    GrowsExtends(h, h', tm, n.id, n.term);
    LogOkExtends(h, h', n'.log);
    LeaderLogOk(h, tm, n.term);
    if n'.log != n.log { PrefixTermsUpTo(n'.log, h.logs[n.term], n.term); }
    CommitOkAdvances(h, tm, n');
    CommitOkExtends(h, h', n');
    AcceptOldAcksOk(h, tm, n, n', k);
    AcceptAckOk(h, n, n', k);
  }

  lemma AcceptKeeps(nodes: map<NodeId, Node>, h: History, n: Node, n': Node, k: nat) returns (h': History)
    requires Good(nodes, h) && n.id in nodes && nodes[n.id] == n && Accepts(h, n, n', k)
    requires forall m :: m in n'.msgs ==> MsgOk(WithAck(h, n, k), m)
    ensures h' == WithAck(h, n, k) && Extends(h, h') && Good(nodes[n.id := n'], h')
  {
    hide NodeOk, HistoryOk, GrowsBy, Extends, MsgOk;
    var tm := TermsOf(nodes);
    h' := WithAck(h, n, k);
    assert tm[n.id := n.term] == tm;
    AckHistoryOk(h, tm, n, k);
    AcceptNodeOk(h, tm, n, n', k);
    GrowsExtends(h, h', tm, n.id, n.term);
    Replace(nodes, h, h', n');
  }
}
