/** Every elementary action of a node keeps the invariant. */
module RaftActions {
  import opened RaftTypes
  import opened RaftFlatLog
  import opened RaftSpec
  import opened RaftInvariant

  // ------------------------------------------------------- general facts

  lemma MajoritiesMeet(tm: Terms, a: set<NodeId>, b: set<NodeId>) returns (j: NodeId)
    requires Majority(tm, a) && Majority(tm, b)
    ensures j in a && j in b
  {
    if a * b == {} {
      assert |a + b| == |a| + |b|;
      CardinalityMonotone(a + b, tm.Keys);
      assert false;
    }
    j :| j in a * b;
  }

  lemma MajorityGrows(tm: Terms, a: set<NodeId>, b: set<NodeId>)
    requires Majority(tm, a) && a <= b <= tm.Keys
    ensures Majority(tm, b)
  {
    CardinalityMonotone(a, b);
  }

  /** A majority does not depend on the terms, only on who is a member. */
  lemma MajorityFrame(tm: Terms, tm': Terms, a: set<NodeId>)
    requires tm.Keys == tm'.Keys && Majority(tm, a)
    ensures Majority(tm', a)
  {
  }

  lemma LogOkExtends(h: History, h': History, log: Log)
    requires LogOk(h, log) && Extends(h, h')
    ensures LogOk(h', log)
  {
  }

  lemma LogOkPrefix(h: History, log: Log, k: nat)
    requires LogOk(h, log) && k <= |log|
    ensures LogOk(h, log[..k])
  {
    forall i | 0 <= i < k
      ensures log[..k][..i + 1] <= h.logs[log[i].term]
    {
      assert log[..k][..i + 1] == log[..i + 1];
    }
  }

  /** Log matching: equal index and term force equal prefixes. */
  lemma LogMatching(h: History, a: Log, b: Log, i: nat)
    requires LogOk(h, a) && LogOk(h, b)
    requires 1 <= i <= |a| && i <= |b| && a[i - 1].term == b[i - 1].term
    ensures a[..i] == b[..i]
  {
    var l := h.logs[a[i - 1].term];
    assert a[..i] == l[..i] && b[..i] == l[..i];
  }

  lemma CommittedByExtends(h: History, h': History, t: nat, t': nat, c: nat, c': nat)
    requires CommittedBy(h, t, c) && Extends(h, h') && t <= t' && c' <= c
    ensures CommittedBy(h', t', c')
  {
    if c' != 0 {
      var u :| u in h.marks && u <= t && h.marks[u] >= c;
      assert u in h'.marks && h'.marks[u] >= c';
    }
  }

  lemma AckExtends(h: History, h': History, t: nat, j: NodeId)
    requires Extends(h, h')
    ensures Ack(h, t, j) <= Ack(h', t, j)
  {
  }

  lemma MsgOkExtends(h: History, h': History, m: Message)
    requires MsgOk(h, m) && Extends(h, h')
    ensures MsgOk(h', m)
  {
    AckExtends(h, h', m.term, m.from);
    AckExtends(h, h', m.term, m.to);
    if m.typ == MsgApp || m.typ == MsgHeartbeat {
      CommittedByExtends(h, h', m.term, m.term, m.commitIndex, m.commitIndex);
    }
  }

  lemma ExtendsTransitive(h: History, h1: History, h2: History)
    requires Extends(h, h1) && Extends(h1, h2)
    ensures Extends(h, h2)
  {
  }

  // --------------------------------------------- what a growing history keeps

  /** Whatever can be committed afterwards could be committed before. */
  lemma CanCommitShrinks(h: History, h': History, tm: Terms, id: NodeId, t: nat, u: nat, i: nat)
    requires GrowsBy(h, h', tm, id, t) && CanCommit(h', tm[id := t], u, i)
    ensures CanCommit(h, tm, u, i)
  {
    var a, b := Supporters(h', tm[id := t], u, i), Supporters(h, tm, u, i);
    forall j | j in a ensures j in b {
      if Ack(h', u, j) >= i {
        assert (u, j) in h'.acks || i == 0;
      }
    }
    assert tm[id := t].Keys == tm.Keys;
    MajorityGrows(tm, a, b);
  }

  lemma OwnShrinks(h: History, h': History, t: nat, i: nat)
    requires Extends(h, h') && Own(h', t, i) && t in h.logs && i <= |h.logs[t]|
    ensures Own(h, t, i) && h.logs[t][..i] == h'.logs[t][..i]
  {
    assert h.logs[t] <= h'.logs[t];
  }

  lemma OwnExtends(h: History, h': History, t: nat, i: nat)
    requires Extends(h, h') && Own(h, t, i)
    ensures Own(h', t, i) && h.logs[t][..i] == h'.logs[t][..i]
  {
    assert h.logs[t] <= h'.logs[t];
  }

  /** Invariant of every other node. */
  lemma OthersKeep(h: History, h': History, tm: Terms, id: NodeId, t: nat, n: Node)
    requires AcksOk(h, tm) && GrowsBy(h, h', tm, id, t)
    requires NodeOk(h, tm, n) && n.id != id
    ensures NodeOk(h', tm[id := t], n)
  {
    hide AcksOk, LogOk, TermsUpTo, MsgOk, ReadsOk, AckOk, OldAcksOk, CommitOk;
    LogOkExtends(h, h', n.log);
    assert tm[id := t].Keys == tm.Keys;
    OtherLeadOk(h, h', tm, id, t, n);
    OtherAckOk(h, h', tm, id, t, n);
    OtherOldAcksOk(h, h', tm, id, t, n);
    CommitOkExtends(h, h', n);
    forall m | m in n.msgs ensures MsgOk(h', m) { MsgOkExtends(h, h', m); }
  }

  lemma OtherLeadOk(h: History, h': History, tm: Terms, id: NodeId, t: nat, n: Node)
    requires GrowsBy(h, h', tm, id, t) && LeadOk(h, n) && n.id != id
    ensures LeadOk(h', n)
  {
    forall j | j in n.prs ensures Ack(h, n.term, j) <= Ack(h', n.term, j) {
      AckExtends(h, h', n.term, j);
    }
  }

  lemma OtherAckOk(h: History, h': History, tm: Terms, id: NodeId, t: nat, n: Node)
    requires AcksOk(h, tm) && GrowsBy(h, h', tm, id, t) && AckOk(h, n) && n.id != id
    ensures AckOk(h', n)
  {
    if (n.term, n.id) in h'.acks && n.term in h'.logs {
      assert (n.term, n.id) in h.acks;
      assert h.logs[n.term] <= h'.logs[n.term];
    }
  }

  lemma OtherOldAcksOk(h: History, h': History, tm: Terms, id: NodeId, t: nat, n: Node)
    requires AcksOk(h, tm) && GrowsBy(h, h', tm, id, t) && OldAcksOk(h, tm, n) && n.id != id
    ensures OldAcksOk(h', tm[id := t], n)
  {
    hide CanCommit;
    forall u: nat, i: nat | Own(h', u, i) && u < n.term && i <= Ack(h', u, n.id) && CanCommit(h', tm[id := t], u, i)
      ensures h'.logs[u][..i] <= n.log
    {
      assert (u, n.id) in h.acks;
      OwnShrinks(h, h', u, i);
      CanCommitShrinks(h, h', tm, id, t, u, i);
    }
  }

  lemma CommitOkExtends(h: History, h': History, n: Node)
    requires CommitOk(h, n) && Extends(h, h')
    ensures CommitOk(h', n)
  {
    if n.commit != 0 {
      var u :| CommitFrom(h, n, u);
      assert h.logs[u] <= h'.logs[u];
      assert CommitFrom(h', n, u);
    }
  }

  /** Replacing one node after its history step: only that node and the history remain to be checked. */
  lemma Replace(nodes: map<NodeId, Node>, h: History, h': History, n': Node)
    requires Good(nodes, h) && n'.id in nodes
    requires GrowsBy(h, h', TermsOf(nodes), n'.id, n'.term)
    requires HistoryOk(h', TermsOf(nodes)[n'.id := n'.term])
    requires NodeOk(h', TermsOf(nodes)[n'.id := n'.term], n')
    ensures Good(nodes[n'.id := n'], h')
  {
    hide NodeOk, LeadersOk, BallotsOk, AcksOk, Completeness, VotesRespectAcks, MarksOk, GrowsBy;
    var nodes' := nodes[n'.id := n'];
    assert TermsOf(nodes') == TermsOf(nodes)[n'.id := n'.term];
    forall id | id in nodes'
      ensures nodes'[id].id == id && NodeOk(h', TermsOf(nodes'), nodes'[id])
    {
      if id != n'.id {
        OthersKeep(h, h', TermsOf(nodes), n'.id, n'.term, nodes[id]);
      }
    }
  }

  // --------------------------------------- parts of the history that stay

  lemma VotersGrow(h: History, h': History, tm: Terms, tm': Terms, t: nat, c: NodeId)
    requires Extends(h, h') && tm.Keys == tm'.Keys && Majority(tm, Voters(h, tm, t, c))
    ensures Majority(tm', Voters(h', tm', t, c))
  {
    MajorityGrows(tm', Voters(h, tm, t, c), Voters(h', tm', t, c));
  }

  lemma LeaderStays(h: History, h': History, tm: Terms, id: NodeId, t: nat, u: nat)
    requires GrowsBy(h, h', tm, id, t) && AcksOk(h', tm[id := t])
    requires u in h.logs && u in h.leaders && LeaderOk(h, tm, u) && h'.logs[u] == h.logs[u]
    ensures u in h'.leaders && LeaderOk(h', tm[id := t], u)
  {
    hide LogOk;
    LogOkExtends(h, h', h.logs[u]);
    VotersGrow(h, h', tm, tm[id := t], u, h.leaders[u]);
    AckExtends(h, h', u, h.leaders[u]);
  }

  lemma LeadersStay(h: History, h': History, tm: Terms, id: NodeId, t: nat)
    requires LeadersOk(h, tm) && GrowsBy(h, h', tm, id, t) && AcksOk(h', tm[id := t])
    requires h'.logs == h.logs && h'.leaders == h.leaders
    ensures LeadersOk(h', tm[id := t])
  {
    hide LeaderOk, GrowsBy, AcksOk;
    forall u | u in h'.logs ensures LeaderOk(h', tm[id := t], u) {
      LeaderStays(h, h', tm, id, t, u);
    }
  }

  lemma CompletenessStays(h: History, h': History, tm: Terms, id: NodeId, t: nat)
    requires Completeness(h, tm) && GrowsBy(h, h', tm, id, t) && h'.logs == h.logs
    ensures Completeness(h', tm[id := t])
  {
    hide CanCommit;
    forall u: nat, i: nat, v | Own(h', u, i) && v in h'.logs && u < v && CanCommit(h', tm[id := t], u, i)
      ensures h'.logs[u][..i] <= h'.logs[v]
    {
      CanCommitShrinks(h, h', tm, id, t, u, i);
      assert Own(h, u, i);
    }
  }

  lemma VoteStays(h: History, h': History, tm: Terms, id: NodeId, t: nat, v: nat, j: NodeId, u: nat, i: nat)
    requires BallotsOk(h, tm) && AcksOk(h, tm) && VotesRespectAcks(h, tm) && GrowsBy(h, h', tm, id, t)
    requires (v, j) in h.ballots && Own(h', u, i) && u < v && i <= Ack(h', u, j) && CanCommit(h', tm[id := t], u, i)
    ensures AtLeastAsRecent(h.ballots[(v, j)], u, i)
  {
    hide CanCommit;
    CanCommitShrinks(h, h', tm, id, t, u, i);
    assert v <= tm[j];
    assert (u, j) in h'.acks;
    assert (u, j) in h.acks && h.acks[(u, j)] == h'.acks[(u, j)];
    OwnShrinks(h, h', u, i);
  }

  lemma VotesStay(h: History, h': History, tm: Terms, id: NodeId, t: nat)
    requires BallotsOk(h, tm) && AcksOk(h, tm) && VotesRespectAcks(h, tm) && GrowsBy(h, h', tm, id, t)
    requires h'.ballots == h.ballots
    ensures BallotsOk(h', tm[id := t]) && VotesRespectAcks(h', tm[id := t])
  {
    hide CanCommit, AcksOk, GrowsBy;
    assert forall v, j :: (v, j) in h.ballots ==> v <= tm[id := t][j] by {
      BallotTermsGrow(h, h', tm, id, t);
    }
    forall u: nat, i: nat, v, j | Own(h', u, i) && (v, j) in h'.ballots && u < v && i <= Ack(h', u, j) && CanCommit(h', tm[id := t], u, i)
      ensures AtLeastAsRecent(h'.ballots[(v, j)], u, i)
    {
      VoteStays(h, h', tm, id, t, v, j, u, i);
    }
  }

  lemma BallotTermsGrow(h: History, h': History, tm: Terms, id: NodeId, t: nat)
    requires BallotsOk(h, tm) && GrowsBy(h, h', tm, id, t)
    ensures forall v, j :: (v, j) in h.ballots ==> j in tm && v <= tm[id := t][j]
  {
  }

  lemma MarkStays(h: History, h': History, tm: Terms, tm': Terms, u: nat)
    requires Extends(h, h') && tm.Keys == tm'.Keys && u in h.marks && u in h'.marks && h'.marks[u] == h.marks[u]
    requires Own(h, u, h.marks[u]) && Majority(tm, Confirmers(h, tm, u, h.marks[u]))
    ensures Own(h', u, h'.marks[u]) && Majority(tm', Confirmers(h', tm', u, h'.marks[u]))
  {
    OwnExtends(h, h', u, h.marks[u]);
    var a, b := Confirmers(h, tm, u, h.marks[u]), Confirmers(h', tm', u, h.marks[u]);
    forall j | j in a ensures j in b { AckExtends(h, h', u, j); }
    MajorityGrows(tm', a, b);
  }

  lemma MarksStay(h: History, h': History, tm: Terms, id: NodeId, t: nat)
    requires MarksOk(h, tm) && GrowsBy(h, h', tm, id, t) && h'.marks == h.marks
    ensures MarksOk(h', tm[id := t])
  {
    hide Own, Majority, Extends;
    assert tm[id := t].Keys == tm.Keys;
    forall u | u in h'.marks
      ensures Own(h', u, h'.marks[u]) && Majority(tm[id := t], Confirmers(h', tm[id := t], u, h'.marks[u]))
    {
      MarkStays(h, h', tm, tm[id := t], u);
    }
  }

  // ------------------------------------------------------ quiet changes

  /** Nothing the invariant speaks of changes, except that good messages may be queued. */
  ghost predicate Quiet(h: History, n: Node, n': Node) {
    && n'.id == n.id && n'.term == n.term && n'.vote == n.vote && n'.log == n.log && n'.commit == n.commit
    && n'.prs.Keys == n.prs.Keys && n'.applied <= n.commit
    && (n'.role == Leader <==> n.role == Leader) && CandidateOk(h, n')
    && (n.role == Leader ==> forall j :: j in n.prs && j != n.id ==>
          n'.prs[j].matched <= Ack(h, n.term, j) && n'.prs[j].next <= |n.log| + 1)
    && ReadsOk(n')
    && (forall m :: m in n'.msgs ==> MsgOk(h, m))
  }

  /** CommitOk reads only the commit index, the applied index, the log and the term. */
  lemma CommitOkFrame(h: History, n: Node, n': Node)
    requires CommitOk(h, n) && n'.commit == n.commit && n'.log == n.log && n'.applied <= n.commit && n.term <= n'.term
    ensures CommitOk(h, n')
  {
    if n.commit != 0 {
      var u :| CommitFrom(h, n, u);
      assert CommitFrom(h, n', u);
    }
  }

  lemma OldAcksOkFrame(h: History, tm: Terms, n: Node, n': Node)
    requires OldAcksOk(h, tm, n) && n'.id == n.id && n'.log == n.log && n'.term == n.term
    ensures OldAcksOk(h, tm, n')
  {
    hide CanCommit, Own;
  }

  lemma NoGrowth(h: History, tm: Terms, id: NodeId, t: nat)
    requires id in tm && tm[id] <= t
    ensures GrowsBy(h, h, tm, id, t)
  {
  }

  lemma QuietNodeOk(h: History, tm: Terms, n: Node, n': Node)
    requires NodeOk(h, tm, n) && Quiet(h, n, n')
    ensures NodeOk(h, tm, n')
  {
    hide LogOk, TermsUpTo, MsgOk, ReadsOk, OldAcksOk, CommitOk;
    CommitOkFrame(h, n, n');
    OldAcksOkFrame(h, tm, n, n');
  }

  lemma QuietKeeps(nodes: map<NodeId, Node>, h: History, n': Node)
    requires Good(nodes, h) && n'.id in nodes && Quiet(h, nodes[n'.id], n')
    ensures Good(nodes[n'.id := n'], h)
  {
    hide NodeOk, HistoryOk, GrowsBy;
    var n, tm := nodes[n'.id], TermsOf(nodes);
    assert tm[n'.id := n'.term] == tm;
    QuietNodeOk(h, tm, n, n');
    NoGrowth(h, tm, n.id, n.term);
    Replace(nodes, h, h, n');
  }

  // ---------------------------------------------------------- a new term

  lemma AcksBump(h: History, tm: Terms, id: NodeId, t: nat)
    requires AcksOk(h, tm) && id in tm && tm[id] <= t
    ensures AcksOk(h, tm[id := t])
  {
  }

  lemma HistoryOkBump(h: History, tm: Terms, id: NodeId, t: nat)
    requires HistoryOk(h, tm) && id in tm && tm[id] <= t
    ensures HistoryOk(h, tm[id := t])
  {
    hide LeadersOk, BallotsOk, AcksOk, Completeness, VotesRespectAcks, MarksOk, GrowsBy;
    NoGrowth(h, tm, id, t);
    AcksBump(h, tm, id, t);
    LeadersStay(h, h, tm, id, t);
    CompletenessStays(h, h, tm, id, t);
    VotesStay(h, h, tm, id, t);
    MarksStay(h, h, tm, id, t);
  }

  /** In a new term, everything confirmed so far becomes something confirmed in an earlier term. */
  lemma OldAcksOkBump(h: History, tm: Terms, n: Node, n': Node)
    requires AcksOk(h, tm) && OldAcksOk(h, tm, n) && AckOk(h, n) && n.id in tm && tm[n.id] == n.term
    requires n'.id == n.id && n'.term > n.term && n'.log == n.log
    ensures OldAcksOk(h, tm[n.id := n'.term], n')
  {
    hide CanCommit;
    forall u: nat, i: nat | Own(h, u, i) && u < n'.term && i <= Ack(h, u, n.id) && CanCommit(h, tm[n.id := n'.term], u, i)
      ensures h.logs[u][..i] <= n'.log
    {
      CanCommitShrinks(h, h, tm, n.id, n'.term, u, i);
      assert (u, n.id) in h.acks;
      if u == n.term {
        assert n.log[..i] == n.log[..Ack(h, u, n.id)][..i];
        assert h.logs[u][..i] == h.logs[u][..Ack(h, u, n.id)][..i];
      }
    }
  }

  /** A term the node has not reached yet holds no vote, no confirmation and no leadership of it. */
  lemma NothingYet(h: History, tm: Terms, id: NodeId, t: nat)
    requires LeadersOk(h, tm) && BallotsOk(h, tm) && AcksOk(h, tm) && id in tm && tm[id] < t
    ensures (t, id) !in h.ballots && (t, id) !in h.acks
    ensures !(t in h.leaders && h.leaders[t] == id)
  {
    hide LogOk;
    assert t in h.leaders ==> LeaderOk(h, tm, t);
  }

  lemma TermsUpToGrows(log: Log, t: nat, t': nat)
    requires TermsUpTo(log, t) && t <= t'
    ensures TermsUpTo(log, t')
  {
  }

  ghost predicate EntersTerm(n: Node, n': Node) {
    && n'.term > n.term && n'.vote == NONE && n'.role == Follower
    && n' == n.(term := n'.term, vote := NONE, role := Follower, votes := n'.votes, lead := n'.lead, pendingConf := n'.pendingConf)
  }

  lemma EntersTermNodeOk(h: History, tm: Terms, n: Node, n': Node)
    requires HistoryOk(h, tm) && NodeOk(h, tm, n) && EntersTerm(n, n')
    ensures NodeOk(h, tm[n.id := n'.term], n')
  {
    hide LogOk, TermsUpTo, MsgOk, OldAcksOk;
    hide LeadersOk, BallotsOk, AcksOk, Completeness, VotesRespectAcks, MarksOk;
    assert tm[n.id := n'.term].Keys == tm.Keys;
    NothingYet(h, tm, n.id, n'.term);
    CommitOkFrame(h, n, n');
    OldAcksOkBump(h, tm, n, n');
    TermsUpToGrows(n.log, n.term, n'.term);
  }

  /** A node enters a higher term as a follower that has not voted. */
  lemma BumpTermKeeps(nodes: map<NodeId, Node>, h: History, n': Node)
    requires Good(nodes, h) && n'.id in nodes && EntersTerm(nodes[n'.id], n')
    ensures Good(nodes[n'.id := n'], h)
  {
    hide NodeOk, HistoryOk, GrowsBy;
    var n, tm := nodes[n'.id], TermsOf(nodes);
    HistoryOkBump(h, tm, n.id, n'.term);
    EntersTermNodeOk(h, tm, n, n');
    NoGrowth(h, tm, n.id, n'.term);
    Replace(nodes, h, h, n');
  }

  // --------------------------------------------------------------- voting

  /** The last entry of a log that holds t's entry i is at least as recent as that entry. */
  lemma HoldsIsRecent(h: History, log: Log, t: nat, i: nat, b: Ballot)
    requires LogOk(h, log) && Own(h, t, i) && h.logs[t][..i] <= log
    requires UpToDate(log, b.lastIndex, b.lastTerm)
    ensures AtLeastAsRecent(b, t, i)
  {
    assert log[i - 1] == h.logs[t][..i][i - 1];
    assert log[i - 1].term <= log[|log| - 1].term;
  }

  ghost function WithBallot(h: History, t: nat, j: NodeId, b: Ballot): History {
    h.(ballots := h.ballots[(t, j) := b])
  }

  lemma BallotVotesOk(h: History, tm: Terms, n: Node, b: Ballot)
    requires BallotsOk(h, tm) && AcksOk(h, tm) && VotesRespectAcks(h, tm)
    requires n.id in tm && tm[n.id] == n.term && LogOk(h, n.log) && OldAcksOk(h, tm, n)
    requires (n.term, n.id) !in h.ballots && UpToDate(n.log, b.lastIndex, b.lastTerm)
    requires b.cand == n.id || ((n.term, b.cand) in h.ballots && h.ballots[(n.term, b.cand)] == b)
    ensures BallotsOk(WithBallot(h, n.term, n.id, b), tm)
    ensures VotesRespectAcks(WithBallot(h, n.term, n.id, b), tm)
  {
    hide LogOk, CanCommit, AcksOk;
    var h' := WithBallot(h, n.term, n.id, b);
    forall u: nat, i: nat ensures CanCommit(h', tm, u, i) == CanCommit(h, tm, u, i) {
      SameSupport(h, h', tm, u, i);
    }
    forall t: nat, i: nat, u, j | Own(h', t, i) && (u, j) in h'.ballots && t < u && i <= Ack(h', t, j) && CanCommit(h', tm, t, i)
      ensures AtLeastAsRecent(h'.ballots[(u, j)], t, i)
    {
      assert Own(h, t, i) && CanCommit(h, tm, t, i);
      if (u, j) == (n.term, n.id) {
        HoldsIsRecent(h, n.log, t, i, b);
      }
    }
  }

  lemma SameSupport(h: History, h': History, tm: Terms, u: nat, i: nat)
    requires h'.acks == h.acks
    ensures CanCommit(h', tm, u, i) == CanCommit(h, tm, u, i)
  {
    assert Supporters(h', tm, u, i) == Supporters(h, tm, u, i);
  }

  lemma BallotGrows(h: History, tm: Terms, n: Node, b: Ballot)
    requires n.id in tm && tm[n.id] == n.term && (n.term, n.id) !in h.ballots
    ensures GrowsBy(h, WithBallot(h, n.term, n.id, b), tm, n.id, n.term)
  {
  }

  lemma BallotHistoryOk(h: History, tm: Terms, n: Node, b: Ballot)
    requires HistoryOk(h, tm) && NodeOk(h, tm, n) && MayVote(h, n, b)
    ensures GrowsBy(h, WithBallot(h, n.term, n.id, b), tm, n.id, n.term)
    ensures HistoryOk(WithBallot(h, n.term, n.id, b), tm)
  {
    hide LogOk, UpToDate, OldAcksOk, CommitOk, LeadersOk, BallotsOk, Completeness, VotesRespectAcks, MarksOk, GrowsBy;
    var h' := WithBallot(h, n.term, n.id, b);
    assert tm[n.id := n.term] == tm;
    BallotGrows(h, tm, n, b);
    BallotVotesOk(h, tm, n, b);
    LeadersStay(h, h', tm, n.id, n.term);
    CompletenessStays(h, h', tm, n.id, n.term);
    MarksStay(h, h', tm, n.id, n.term);
  }

  /** A node's own part of the invariant when the history grows elsewhere than in logs and confirmations. */
  lemma SelfOldAcksOk(h: History, h': History, tm: Terms, n: Node)
    requires OldAcksOk(h, tm, n) && h'.acks == h.acks && h'.logs == h.logs
    ensures OldAcksOk(h', tm, n)
  {
    hide CanCommit;
    forall u: nat, i: nat ensures CanCommit(h', tm, u, i) == CanCommit(h, tm, u, i) {
      SameSupport(h, h', tm, u, i);
    }
    forall u: nat, i: nat | Own(h', u, i) ensures Own(h, u, i) {}
  }

  /** A node that has not voted in its term may cast ballot b. */
  ghost predicate MayVote(h: History, n: Node, b: Ballot) {
    && n.vote == NONE && b.cand != NONE && UpToDate(n.log, b.lastIndex, b.lastTerm)
    && (b.cand == n.id || ((n.term, b.cand) in h.ballots && h.ballots[(n.term, b.cand)] == b))
  }

  lemma VoteNodeOk(h: History, tm: Terms, n: Node, b: Ballot)
    requires HistoryOk(h, tm) && NodeOk(h, tm, n) && MayVote(h, n, b)
    ensures Extends(h, WithBallot(h, n.term, n.id, b))
    ensures NodeOk(WithBallot(h, n.term, n.id, b), tm, n.(vote := b.cand))
  {
    hide LogOk, TermsUpTo, UpToDate, MsgOk, OldAcksOk, CommitOk, HistoryOk, GrowsBy;
    var h', n' := WithBallot(h, n.term, n.id, b), n.(vote := b.cand);
    assert Extends(h, h');
    LogOkExtends(h, h', n.log);
    CommitOkExtends(h, h', n);
    CommitOkFrame(h', n, n');
    forall m | m in n'.msgs ensures MsgOk(h', m) { MsgOkExtends(h, h', m); }
    SelfOldAcksOk(h, h', tm, n);
    OldAcksOkFrame(h', tm, n, n');
  }

  /** A node that has not voted in its term votes for a log at least as recent as its own. */
  lemma VoteKeeps(nodes: map<NodeId, Node>, h: History, n: Node, b: Ballot) returns (h': History)
    requires Good(nodes, h) && n.id in nodes && nodes[n.id] == n && MayVote(h, n, b)
    ensures h' == WithBallot(h, n.term, n.id, b) && Extends(h, h') && Good(nodes[n.id := n.(vote := b.cand)], h')
  {
    hide NodeOk, HistoryOk, GrowsBy, Extends;
    var tm := TermsOf(nodes);
    h' := WithBallot(h, n.term, n.id, b);
    assert tm[n.id := n.term] == tm;
    BallotHistoryOk(h, tm, n, b);
    VoteNodeOk(h, tm, n, b);
    Replace(nodes, h, h', n.(vote := b.cand));
  }
}
