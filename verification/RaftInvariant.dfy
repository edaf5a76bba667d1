/** The history a run leaves behind and the invariant that ties every reachable cluster to it. */
module RaftInvariant {
  import opened RaftTypes
  import opened RaftFlatLog
  import opened RaftSpec

  /** A vote, with the last term and index of the candidate's log when it campaigned. */
  datatype Ballot = Ballot(cand: NodeId, lastTerm: nat, lastIndex: nat)

  /** For each term: its leader, the leader's log, how far each node confirmed that log, who voted for
      whom, and the largest index the leader committed by counting. */
  datatype History = History(
    logs: map<nat, Log>, leaders: map<nat, NodeId>, acks: map<(nat, NodeId), nat>,
    ballots: map<(nat, NodeId), Ballot>, marks: map<nat, nat>)

  /** Current term of every node. */
  type Terms = map<NodeId, nat>

  ghost function TermsOf(nodes: map<NodeId, Node>): Terms {
    map id | id in nodes :: nodes[id].term
  }

  ghost function Ack(h: History, t: nat, j: NodeId): nat {
    if (t, j) in h.acks then h.acks[(t, j)] else 0
  }

  ghost predicate Majority(tm: Terms, q: set<NodeId>) {
    q <= tm.Keys && 2 * |q| > |tm.Keys|
  }

  /** Every entry was created by the leader of its term, together with all that precedes it. */
  ghost predicate LogOk(h: History, log: Log) {
    && (forall i :: 0 <= i < |log| ==>
          && log[i].index == i + 1 && 1 <= log[i].term && log[i].term in h.logs
          && log[..i + 1] <= h.logs[log[i].term])
    && (forall i, j :: 0 <= i <= j < |log| ==> log[i].term <= log[j].term)
  }

  ghost predicate TermsUpTo(log: Log, t: nat) {
    forall i :: 0 <= i < |log| ==> log[i].term <= t
  }

  /** Index i of term t's leader log holds an entry of term t itself. */
  ghost predicate Own(h: History, t: nat, i: nat) {
    t in h.logs && 1 <= i <= |h.logs[t]| && h.logs[t][i - 1].term == t
  }

  /** Nodes that confirmed index i in term t or may still do so. */
  ghost function Supporters(h: History, tm: Terms, t: nat, i: nat): set<NodeId> {
    set j | j in tm && (Ack(h, t, j) >= i || tm[j] <= t)
  }

  ghost predicate CanCommit(h: History, tm: Terms, t: nat, i: nat) {
    Majority(tm, Supporters(h, tm, t, i))
  }

  ghost function Voters(h: History, tm: Terms, t: nat, c: NodeId): set<NodeId> {
    set j | j in tm && (t, j) in h.ballots && h.ballots[(t, j)].cand == c
  }

  ghost function Confirmers(h: History, tm: Terms, t: nat, i: nat): set<NodeId> {
    set j | j in tm && Ack(h, t, j) >= i
  }

  /** Some leader of a term up to t committed index c or beyond by counting. */
  ghost predicate CommittedBy(h: History, t: nat, c: nat) {
    c == 0 || exists t' :: t' in h.marks && t' <= t && h.marks[t'] >= c
  }

  ghost predicate AtLeastAsRecent(b: Ballot, t: nat, i: nat) {
    b.lastTerm > t || (b.lastTerm == t && b.lastIndex >= i)
  }

  // --------------------------------------------------------- the history

  ghost predicate LeadersOk(h: History, tm: Terms) {
    && h.logs.Keys == h.leaders.Keys
    && (forall t :: t in h.logs ==> LeaderOk(h, tm, t))
  }

  ghost predicate LeaderOk(h: History, tm: Terms, t: nat)
    requires t in h.logs && t in h.leaders
  {
    && 1 <= t && LogOk(h, h.logs[t]) && TermsUpTo(h.logs[t], t)
    && h.leaders[t] in tm && t <= tm[h.leaders[t]]
    && Ack(h, t, h.leaders[t]) == |h.logs[t]|
    && Majority(tm, Voters(h, tm, t, h.leaders[t]))
  }

  ghost predicate BallotsOk(h: History, tm: Terms) {
    forall t, j :: (t, j) in h.ballots ==>
      && j in tm && t <= tm[j]
      && (t, h.ballots[(t, j)].cand) in h.ballots
      && h.ballots[(t, h.ballots[(t, j)].cand)] == h.ballots[(t, j)]
  }

  ghost predicate AcksOk(h: History, tm: Terms) {
    forall t, j :: (t, j) in h.acks ==>
      j in tm && t <= tm[j] && t in h.logs && h.acks[(t, j)] <= |h.logs[t]|
  }

  /** Whatever a term can still commit is in the log of every later leader. */
  ghost predicate Completeness(h: History, tm: Terms) {
    forall t: nat, i: nat, u :: Own(h, t, i) && u in h.logs && t < u && CanCommit(h, tm, t, i) ==>
      h.logs[t][..i] <= h.logs[u]
  }

  /** A voter that confirmed such an index voted for a log at least that recent. */
  ghost predicate VotesRespectAcks(h: History, tm: Terms) {
    forall t: nat, i: nat, u, j :: Own(h, t, i) && (u, j) in h.ballots && t < u && i <= Ack(h, t, j) && CanCommit(h, tm, t, i) ==>
      AtLeastAsRecent(h.ballots[(u, j)], t, i)
  }

  ghost predicate MarksOk(h: History, tm: Terms) {
    forall t :: t in h.marks ==>
      Own(h, t, h.marks[t]) && Majority(tm, Confirmers(h, tm, t, h.marks[t]))
  }

  ghost predicate HistoryOk(h: History, tm: Terms) {
    && LeadersOk(h, tm) && BallotsOk(h, tm) && AcksOk(h, tm)
    && Completeness(h, tm) && VotesRespectAcks(h, tm) && MarksOk(h, tm)
  }

  // --------------------------------------------------------------- nodes

  ghost predicate VoteOk(h: History, n: Node) {
    if n.vote == NONE then (n.term, n.id) !in h.ballots
    else (n.term, n.id) in h.ballots && h.ballots[(n.term, n.id)].cand == n.vote
  }

  ghost predicate CandidateOk(h: History, n: Node) {
    n.role == Candidate ==>
      && (n.term, n.id) in h.ballots
      && h.ballots[(n.term, n.id)] == Ballot(n.id, LastTerm(n.log), |n.log|)
      && (forall j :: j in n.votes && n.votes[j] ==>
            (n.term, j) in h.ballots && h.ballots[(n.term, j)].cand == n.id)
  }

  ghost predicate LeadOk(h: History, n: Node) {
    && (n.role == Leader <==> n.term in h.leaders && h.leaders[n.term] == n.id)
    && (n.role == Leader ==>
          && n.term in h.logs && h.logs[n.term] == n.log
          && (n.term in h.marks ==> h.marks[n.term] <= n.commit)
          && (forall j :: j in n.prs && j != n.id ==>
                n.prs[j].matched <= Ack(h, n.term, j) && n.prs[j].next <= |n.log| + 1))
  }

  /** The log still holds what the node confirmed in its current term. */
  ghost predicate AckOk(h: History, n: Node) {
    (n.term, n.id) in h.acks && n.term in h.logs ==>
      && Ack(h, n.term, n.id) <= |n.log| && Ack(h, n.term, n.id) <= |h.logs[n.term]|
      && n.log[..Ack(h, n.term, n.id)] == h.logs[n.term][..Ack(h, n.term, n.id)]
  }

  /** The log still holds whatever the node confirmed in earlier terms and can still commit. */
  ghost predicate OldAcksOk(h: History, tm: Terms, n: Node) {
    forall t: nat, i: nat :: Own(h, t, i) && t < n.term && i <= Ack(h, t, n.id) && CanCommit(h, tm, t, i) ==>
      h.logs[t][..i] <= n.log
  }

  ghost predicate CommitFrom(h: History, n: Node, t: nat) {
    t in h.marks && t in h.logs && t <= n.term && h.marks[t] >= n.commit
    && n.commit <= |n.log| && n.log[..n.commit] <= h.logs[t]
  }

  ghost predicate CommitOk(h: History, n: Node) {
    n.applied <= n.commit <= |n.log| && (n.commit == 0 || exists t :: CommitFrom(h, n, t))
  }

  ghost predicate ReadsOk(n: Node) {
    && (forall c :: c in n.readOnly.queue ==> c in n.readOnly.pending)
    && (forall c :: c in n.readOnly.pending ==>
          c in n.readOnly.queue && n.readOnly.pending[c].req.entries != []
          && n.readOnly.pending[c].req.entries[0].data == c)
    && (forall i, j :: 0 <= i < j < |n.readOnly.queue| ==> n.readOnly.queue[i] != n.readOnly.queue[j])
  }

  ghost predicate NodeOk(h: History, tm: Terms, n: Node) {
    && n.id in tm && tm[n.id] == n.term && n.prs.Keys == tm.Keys
    && 1 <= n.term && n.id != NONE
    && LogOk(h, n.log) && TermsUpTo(n.log, n.term)
    && VoteOk(h, n) && CandidateOk(h, n) && LeadOk(h, n)
    && AckOk(h, n) && OldAcksOk(h, tm, n) && CommitOk(h, n) && ReadsOk(n)
    && (forall m :: m in n.msgs ==> MsgOk(h, m))
  }

  // ------------------------------------------------------------ messages

  /** What a message of each type promises about the history, for ever after it is sent. */
  ghost predicate MsgOk(h: History, m: Message) {
    match m.typ
    case MsgProp => m.term == 0 && m.entries != []
    case MsgReadIndex => m.term == 0 && m.entries != []
    case MsgApp =>
      && 1 <= m.term && m.term in h.logs && m.from != m.to
      && m.logIndex + |m.entries| <= |h.logs[m.term]|
      && m.entries == h.logs[m.term][m.logIndex..m.logIndex + |m.entries|]
      && m.logTerm == TermAt(h.logs[m.term], m.logIndex)
      && CommittedBy(h, m.term, m.commitIndex)
    case MsgAppResp => 1 <= m.term && m.from != m.to && (!m.reject ==> m.logIndex <= Ack(h, m.term, m.from))
    case MsgVote =>
      1 <= m.term && (m.term, m.from) in h.ballots && m.from != NONE
      && h.ballots[(m.term, m.from)] == Ballot(m.from, m.logTerm, m.logIndex)
    case MsgVoteResp =>
      1 <= m.term && (!m.reject ==> (m.term, m.from) in h.ballots && h.ballots[(m.term, m.from)].cand == m.to)
    case MsgHeartbeat =>
      1 <= m.term && m.from != m.to && m.commitIndex <= Ack(h, m.term, m.to) && CommittedBy(h, m.term, m.commitIndex)
    case MsgReadIndexResp => 1 <= m.term && m.entries != []
    case MsgHup => false
    case MsgBeat => false
    case _ => 1 <= m.term
  }

  ghost predicate Good(nodes: map<NodeId, Node>, h: History) {
    && HistoryOk(h, TermsOf(nodes))
    && (forall id :: id in nodes ==> nodes[id].id == id && NodeOk(h, TermsOf(nodes), nodes[id]))
  }

  // ------------------------------------------------- how histories evolve

  ghost predicate Extends(h: History, h': History) {
    && (forall t :: t in h.logs ==> t in h'.logs && h.logs[t] <= h'.logs[t])
    && (forall t :: t in h.leaders ==> t in h'.leaders && h'.leaders[t] == h.leaders[t])
    && (forall t, j :: (t, j) in h.acks ==> (t, j) in h'.acks && h'.acks[(t, j)] >= h.acks[(t, j)])
    && (forall t, j :: (t, j) in h.ballots ==> (t, j) in h'.ballots && h'.ballots[(t, j)] == h.ballots[(t, j)])
    && (forall t :: t in h.marks ==> t in h'.marks && h'.marks[t] >= h.marks[t])
  }

  /** The history grew only on behalf of node id, acting in term t. */
  ghost predicate GrowsBy(h: History, h': History, tm: Terms, id: NodeId, t: nat) {
    && Extends(h, h') && id in tm && tm[id] <= t
    && (forall u, j :: (u, j) in h'.ballots && (u, j) !in h.ballots ==> u == t && j == id)
    && (forall u, j :: (u, j) in h'.acks && ((u, j) !in h.acks || h'.acks[(u, j)] != h.acks[(u, j)]) ==> u == t && j == id)
    && (forall u :: u in h'.leaders && u !in h.leaders ==> u == t && h'.leaders[u] == id)
    && (forall u :: u in h'.logs && (u !in h.logs || h'.logs[u] != h.logs[u]) ==> u == t && u in h'.leaders && h'.leaders[u] == id)
    && (forall u :: u in h'.marks && (u !in h.marks || h'.marks[u] != h.marks[u]) ==> u == t && u in h'.leaders && h'.leaders[u] == id)
  }
}
