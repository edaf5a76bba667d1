/** One node of apps/raft_demo/raft as functions on values: what each handler turns the node into. */
module RaftSpec {
  import opened RaftTypes
  import opened RaftFlatLog

  // ---------------------------------------------------------------- raft.go

  function Quorum(n: Node): nat { |n.prs| / 2 + 1 }

  /** `send`: fill in the sender, and the term except on forwarded client requests. */
  function Stamp(n: Node, m: Message): Message {
    var m1 := if m.from == NONE then m.(from := n.id) else m;
    if m1.typ != MsgProp && m1.typ != MsgReadIndex then m1.(term := n.term) else m1
  }

  function Send(n: Node, m: Message): Node {
    n.(msgs := n.msgs + {Stamp(n, m)})
  }

  function Reset(n: Node, term: nat): Node {
    var n1 := if n.term != term then n.(term := term, vote := NONE) else n;
    n1.(lead := NONE, votes := map[], pendingConf := false)
  }

  function BecomeFollower(n: Node, term: nat, lead: NodeId): Node {
    Reset(n, term).(lead := lead, role := Follower)
  }

  function BecomePreCandidate(n: Node): Outcome<Node> {
    if n.role == Leader then Panic else Ok(n.(votes := map[], role := PreCandidate))
  }

  function BecomeCandidate(n: Node): Outcome<Node> {
    if n.role == Leader then Panic else Ok(Reset(n, n.term + 1).(vote := n.id, role := Candidate))
  }

  function Ayes(votes: map<NodeId, bool>): set<NodeId> { set j | j in votes && votes[j] }

  function Granted(n: Node): nat { |Ayes(n.votes)| }

  /** `poll`: the first answer of each peer counts. */
  function Poll(n: Node, id: NodeId, v: bool): Node {
    if id in n.votes then n else n.(votes := n.votes[id := v])
  }

  function AtLeast(prs: map<NodeId, Progress>, k: nat): set<NodeId> {
    set id | id in prs && prs[id].matched >= k
  }

  /** k is the quorum-th largest confirmed index. */
  ghost predicate IsQuorumMatch(prs: map<NodeId, Progress>, k: nat) {
    && |AtLeast(prs, k)| >= |prs| / 2 + 1
    && forall k': nat :: k' > k ==> |AtLeast(prs, k')| < |prs| / 2 + 1
  }

  lemma AtLeastShrinks(prs: map<NodeId, Progress>, k: nat, k': nat)
    requires k <= k'
    ensures AtLeast(prs, k') <= AtLeast(prs, k)
    ensures |AtLeast(prs, k')| <= |AtLeast(prs, k)|
  {
    CardinalityMonotone(AtLeast(prs, k'), AtLeast(prs, k));
  }

  lemma CardinalityMonotone<T>(a: set<T>, b: set<T>)
    requires a <= b
    ensures |a| <= |b|
  {
    assert b == a + (b - a);
  }

  lemma MatchBound(prs: map<NodeId, Progress>, ids: set<NodeId>) returns (bound: nat)
    requires ids <= prs.Keys
    ensures forall id :: id in ids ==> prs[id].matched < bound
  {
    if ids == {} {
      bound := 0;
    } else {
      var id :| id in ids;
      bound := MatchBound(prs, ids - {id});
      bound := Max(bound, prs[id].matched + 1);
    }
  }

  lemma QuorumMatchBelow(prs: map<NodeId, Progress>, bound: nat) returns (k: nat)
    requires prs != map[] && |AtLeast(prs, bound + 1)| < |prs| / 2 + 1
    ensures IsQuorumMatch(prs, k)
  {
    assert AtLeast(prs, 0) == prs.Keys && |prs| == |prs.Keys|;
    if |AtLeast(prs, bound)| >= |prs| / 2 + 1 {
      k := bound;
      forall k': nat | k' > k ensures |AtLeast(prs, k')| < |prs| / 2 + 1 {
        AtLeastShrinks(prs, bound + 1, k');
      }
    } else {
      k := QuorumMatchBelow(prs, bound - 1);
    }
  }

  lemma QuorumMatchExists(prs: map<NodeId, Progress>)
    requires prs != map[]
    ensures exists k: nat :: IsQuorumMatch(prs, k)
  {
    var bound := MatchBound(prs, prs.Keys);
    assert AtLeast(prs, bound + 1) == {};
    var k := QuorumMatchBelow(prs, bound);
  }

  /** The index a majority has confirmed: the largest k that a quorum of progress records reaches. */
  ghost function QuorumMatch(prs: map<NodeId, Progress>): (k: nat)
    requires prs != map[]
    ensures IsQuorumMatch(prs, k)
  {
    QuorumMatchExists(prs);
    var k: nat :| IsQuorumMatch(prs, k);
    k
  }

  /** The majority index commits only when it lies past the commit index and carries the current term. */
  ghost function MaybeCommit(n: Node): Outcome<Node> {
    if n.prs == map[] then Panic
    else
      var mid := QuorumMatch(n.prs);
      if mid > n.commit && TermAt(n.log, mid) == n.term then
        var commit :- CommitTo(n.log, n.commit, mid);
        Ok(n.(commit := commit))
      else Ok(n)
  }

  function MaybeUpdate(pr: Progress, k: nat): Progress {
    Progress(Max(pr.matched, k), Max(pr.next, k + 1))
  }

  function MayDecreaseTo(pr: Progress, logIndex: nat, hint: nat): Progress {
    if pr.next - 1 != logIndex then pr
    else pr.(next := Max(1, Min(logIndex, hint + 1)))
  }

  /** Entries with the leader's term and consecutive indices filled in. */
  function Stamped(term: nat, last: nat, es: seq<Entry>): seq<Entry> {
    seq(|es|, i requires 0 <= i < |es| => es[i].(term := term, index := last + i + 1))
  }

  ghost function AppendEntry(n: Node, es: seq<Entry>): Outcome<Node> {
    var log :- Append(n.log, n.commit, Stamped(n.term, |n.log|, es));
    if n.id !in n.prs then Panic
    else MaybeCommit(n.(log := log, prs := n.prs[n.id := MaybeUpdate(n.prs[n.id], |log|)]))
  }

  /** Progress of every peer starts over; the node's own record is kept. */
  function FreshProgress(n: Node): map<NodeId, Progress> {
    map id | id in n.prs :: if id == n.id then n.prs[id] else Progress(0, |n.log| + 1)
  }

  /** The part of `becomeLeader` before the no-op entry. */
  function TakeLeadership(n: Node): Node {
    Reset(n, n.term).(lead := n.id, role := Leader, prs := FreshProgress(n))
  }

  const NOOP: Entry := Entry(0, 0, EntryNormal, [])

  ghost function BecomeLeader(n: Node): Outcome<Node> {
    if n.role == Follower then Panic else AppendEntry(TakeLeadership(n), [NOOP])
  }

  function VoteRequest(n: Node, typ: MessageType, to: NodeId): Message {
    Stamp(n, Blank(typ, to).(logTerm := LastTerm(n.log), logIndex := |n.log|))
  }

  /** Vote requests to those of ids that are peers. */
  function VoteRequests(n: Node, typ: MessageType, ids: set<NodeId>): set<Message> {
    set id | id in n.prs && id != n.id && id in ids :: VoteRequest(n, typ, id)
  }

  ghost function CampaignElection(n: Node): Outcome<Node> {
    var n1 :- BecomeCandidate(n);
    var n2 := Poll(n1, n1.id, true);
    if Granted(n2) == Quorum(n2) then BecomeLeader(n2)
    else Ok(n2.(msgs := n2.msgs + VoteRequests(n2, MsgVote, n2.prs.Keys)))
  }

  ghost function CampaignPreElection(n: Node): Outcome<Node> {
    var n1 :- BecomePreCandidate(n);
    var n2 := Poll(n1, n1.id, true);
    if Granted(n2) == Quorum(n2) then CampaignElection(n2)
    else Ok(n2.(msgs := n2.msgs + VoteRequests(n2, MsgPreVote, n2.prs.Keys)))
  }

  /** Some committed entry not yet applied changes the configuration. */
  predicate PendingConf(n: Node)
    requires n.applied <= n.commit <= |n.log|
  {
    exists i :: n.applied <= i < n.commit && n.log[i].typ == EntryConfChange
  }

  ghost function Hup(n: Node): Outcome<Node> {
    if n.role == Leader || n.id !in n.prs then Ok(n)
    else if !(n.applied <= n.commit <= |n.log|) then Panic
    else if PendingConf(n) then Ok(n)
    else if n.preVote then CampaignPreElection(n)
    else CampaignElection(n)
  }

  predicate Grants(n: Node, m: Message) {
    UpToDate(n.log, m.logIndex, m.logTerm) && (n.vote == NONE || m.term > n.term || m.from == n.vote)
  }

  function HandleVote(n: Node, m: Message): Node {
    if Grants(n, m) then Send(n.(vote := m.from), Blank(MsgVoteResp, m.from))
    else Send(n, Blank(MsgVoteResp, m.from).(reject := true))
  }

  function HandlePreVote(n: Node, m: Message): Node {
    Send(n, Blank(MsgPreVoteResp, m.from).(reject := !Grants(n, m)))
  }

  /** A higher term turns the node into a follower, except for pre-vote traffic. */
  function ObserveTerm(n: Node, m: Message): Node {
    if m.term > n.term && m.typ != MsgPreVote && (m.typ != MsgPreVoteResp || m.reject)
    then BecomeFollower(n, m.term, if m.typ == MsgVote then NONE else m.from)
    else n
  }

  ghost function Step(n: Node, m: Message): Outcome<Node> {
    if 0 < m.term < n.term then
      Ok(if n.checkQuorum && (m.typ == MsgHeartbeat || m.typ == MsgApp)
         then Send(n, Blank(MsgAppResp, m.from)) else n)
    else
      var n1 := ObserveTerm(n, m);
      match m.typ
      case MsgHup => Hup(n1)
      case MsgVote => Ok(HandleVote(n1, m))
      case MsgPreVote => Ok(HandlePreVote(n1, m))
      case _ => StepRole(n1, m)
  }

  ghost function StepRole(n: Node, m: Message): Outcome<Node> {
    match n.role
    case Leader => StepLeader(n, m)
    case Follower => StepFollower(n, m)
    case _ => StepCandidate(n, m)
  }

  // ------------------------------------------------------------ follower.go

  function HandleAppendEntries(n: Node, m: Message): Outcome<Node> {
    var r :- MaybeAppend(n.log, n.commit, m.logIndex, m.logTerm, m.commitIndex, m.entries);
    Ok(match r
       case Accepted(log, commit, lastNew) =>
         Send(n.(log := log, commit := commit), Blank(MsgAppResp, m.from).(logIndex := lastNew))
       case Rejected =>
         Send(n, Blank(MsgAppResp, m.from).(logIndex := m.logIndex, reject := true, rejectHint := |n.log|)))
  }

  function HandleHeartbeat(n: Node, m: Message): Outcome<Node> {
    var commit :- CommitTo(n.log, n.commit, Min(m.commitIndex, |n.log|));
    Ok(Send(n.(commit := commit), Blank(MsgHeartbeatResp, m.from).(context := m.context)))
  }

  function StepFollower(n: Node, m: Message): Outcome<Node> {
    match m.typ
    case MsgProp => Ok(if n.lead == NONE then n else Send(n, m.(to := n.lead)))
    case MsgApp => HandleAppendEntries(n.(lead := m.from), m)
    case MsgHeartbeat => HandleHeartbeat(n.(lead := m.from), m)
    case MsgReadIndex => Ok(if n.lead == NONE then n else Send(n, m.(to := n.lead)))
    case MsgReadIndexResp =>
      if m.entries == [] then Panic
      else Ok(n.(readStates := n.readStates + [ReadState(m.logIndex, m.entries[0].data)]))
    case _ => Ok(n)
  }

  // ----------------------------------------------------------- candidate.go

  ghost function StepCandidate(n: Node, m: Message): Outcome<Node> {
    match m.typ
    case MsgApp => HandleAppendEntries(BecomeFollower(n, n.term, m.from), m)
    case MsgHeartbeat => HandleHeartbeat(BecomeFollower(n, m.term, m.from), m)
    case MsgVoteResp => if n.role == PreCandidate then Ok(n) else Tally(n, m)
    case MsgPreVoteResp => if n.role == PreCandidate then Tally(n, m) else Ok(n)
    case _ => Ok(n)
  }

  ghost function Tally(n: Node, m: Message): Outcome<Node> {
    var n1 := Poll(n, m.from, !m.reject);
    if Granted(n1) == Quorum(n1) then
      if n1.role == PreCandidate then CampaignElection(n1)
      else
        var n2 :- BecomeLeader(n1);
        BroadcastAppend(n2)
    else if |n1.votes| - Granted(n1) == Quorum(n1) then Ok(BecomeFollower(n1, n1.term, NONE))
    else Ok(n1)
  }

  // -------------------------------------------------------------- leader.go

  function AppendMessage(n: Node, to: NodeId): Message
    requires to in n.prs && n.prs[to].next <= |n.log| + 1
  {
    var next := n.prs[to].next;
    Stamp(n, Blank(MsgApp, to).(logTerm := TermAt(n.log, next - 1), logIndex := next - 1,
                                entries := n.log[next - 1..], commitIndex := n.commit))
  }

  /** `sendAppend`: past the end of the log the source sends no entries and term 0. */
  function AppendMessageTo(n: Node, to: NodeId): Message
    requires to in n.prs
  {
    if n.prs[to].next <= |n.log| + 1 then AppendMessage(n, to)
    else Stamp(n, Blank(MsgApp, to).(logIndex := n.prs[to].next - 1, commitIndex := n.commit))
  }

  function SendAppend(n: Node, to: NodeId): Outcome<Node> {
    if to !in n.prs then Panic else Ok(n.(msgs := n.msgs + {AppendMessageTo(n, to)}))
  }

  function AppendMessages(n: Node, ids: set<NodeId>): set<Message> {
    set id | id in n.prs && id != n.id && id in ids :: AppendMessageTo(n, id)
  }

  function BroadcastAppend(n: Node): Outcome<Node> {
    Ok(n.(msgs := n.msgs + AppendMessages(n, n.prs.Keys)))
  }

  function HeartbeatMessage(n: Node, to: NodeId, ctx: Bytes): Message
    requires to in n.prs
  {
    Stamp(n, Blank(MsgHeartbeat, to).(commitIndex := Min(n.commit, n.prs[to].matched), context := ctx))
  }

  function HeartbeatMessages(n: Node, ctx: Bytes, ids: set<NodeId>): set<Message> {
    set id | id in n.prs && id != n.id && id in ids :: HeartbeatMessage(n, id, ctx)
  }

  function BroadcastHeartbeat(n: Node, ctx: Bytes): Node {
    n.(msgs := n.msgs + HeartbeatMessages(n, ctx, n.prs.Keys))
  }

  /** Only one configuration change may be in flight; later ones become empty normal entries. */
  function Demote(pending: bool, es: seq<Entry>): seq<Entry>
    decreases |es|
  {
    if es == [] then []
    else if es[0].typ == EntryConfChange then
      [if pending then NOOP else es[0]] + Demote(true, es[1..])
    else [es[0]] + Demote(pending, es[1..])
  }

  predicate HasConfChange(es: seq<Entry>) {
    exists e :: e in es && e.typ == EntryConfChange
  }

  ghost function HandleProposal(n: Node, m: Message): Outcome<Node> {
    if m.entries == [] then Panic
    else if n.id !in n.prs then Ok(n)
    else
      var n1 := n.(pendingConf := n.pendingConf || HasConfChange(m.entries));
      var n2 :- AppendEntry(n1, Demote(n.pendingConf, m.entries));
      BroadcastAppend(n2)
  }

  function HandleReadIndex(n: Node, m: Message): Outcome<Node> {
    if n.id !in n.prs then Ok(n)
    else if |n.prs| > 1 then
      if TermAt(n.log, n.commit) != n.term then Ok(n)
      else if m.entries == [] then Panic
      else
        var ctx := m.entries[0].data;
        if ctx in n.readOnly.pending then Ok(n)
        else Ok(BroadcastHeartbeat(n.(readOnly := AddRequest(n.readOnly, ctx, n.commit, m)), ctx))
    else if m.entries == [] then Panic
    else Ok(n.(readStates := n.readStates + [ReadState(n.commit, m.entries[0].data)]))
  }

  ghost function HandleAppResp(n: Node, m: Message): Outcome<Node>
    requires m.from in n.prs
  {
    var pr := n.prs[m.from];
    if m.reject then
      if pr.next - 1 != m.logIndex then Ok(n)
      else SendAppend(n.(prs := n.prs[m.from := MayDecreaseTo(pr, m.logIndex, m.rejectHint)]), m.from)
    else
      var n1 := n.(prs := n.prs[m.from := MaybeUpdate(pr, m.logIndex)]);
      if pr.matched >= m.logIndex then Ok(n1)
      else
        var n2 :- MaybeCommit(n1);
        if n2.commit == n1.commit then Ok(n2) else BroadcastAppend(n2)
  }

  /** Deliver a completed read locally or to the node that forwarded it. */
  function Release(n: Node, rs: ReadStatus): Outcome<Node> {
    if rs.req.from == NONE || rs.req.from == n.id then
      if rs.req.entries == [] then Panic
      else Ok(n.(readStates := n.readStates + [ReadState(rs.index, rs.req.entries[0].data)]))
    else Ok(Send(n, Blank(MsgReadIndexResp, rs.req.from).(logIndex := rs.index, entries := rs.req.entries)))
  }

  function ReleaseAll(n: Node, rss: seq<ReadStatus>): Outcome<Node>
    decreases |rss|
  {
    if rss == [] then Ok(n)
    else
      var n1 :- Release(n, rss[0]);
      ReleaseAll(n1, rss[1..])
  }

  function HandleHeartbeatResp(n: Node, m: Message): Outcome<Node> {
    if n.readOnly.queue == [] then Ok(n)
    else
      var ro := RecvAck(n.readOnly, m.context, m.from);
      var n1 := n.(readOnly := ro);
      if m.context !in ro.pending || |ro.pending[m.context].acks| < Quorum(n) then Ok(n1)
      else
        var r :- AdvanceReads(ro, m.context);
        ReleaseAll(n.(readOnly := r.0), r.1)
  }

  ghost function StepLeader(n: Node, m: Message): Outcome<Node> {
    match m.typ
    case MsgBeat => Ok(BroadcastHeartbeat(n, []))
    case MsgProp => HandleProposal(n, m)
    case MsgReadIndex => HandleReadIndex(n, m)
    case MsgAppResp => if m.from in n.prs then HandleAppResp(n, m) else Ok(n)
    case MsgHeartbeatResp => if m.from in n.prs then HandleHeartbeatResp(n, m) else Ok(n)
    case _ => Ok(n)
  }

  // ---------------------------------------------------------------- read.go

  /** `addRequest` for a context that is not pending yet. */
  function AddRequest(ro: ReadOnly, ctx: Bytes, index: nat, m: Message): ReadOnly {
    ReadOnly(ro.pending[ctx := ReadStatus(m, index, {})], ro.queue + [ctx])
  }

  function RecvAck(ro: ReadOnly, ctx: Bytes, from: NodeId): ReadOnly {
    if ctx !in ro.pending then ro
    else ro.(pending := ro.pending[ctx := ro.pending[ctx].(acks := ro.pending[ctx].acks + {from})])
  }

  /** Number of queued reads up to and including ctx, or 0 when ctx is not queued. */
  function QueuePrefix(queue: seq<Bytes>, ctx: Bytes): (k: nat)
    ensures k <= |queue|
    ensures k == 0 ==> ctx !in queue
    ensures k > 0 ==> queue[k - 1] == ctx && ctx !in queue[..k - 1]
  {
    if queue == [] then 0
    else if queue[0] == ctx then 1
    else
      var k := QueuePrefix(queue[1..], ctx);
      assert k > 0 ==> queue[..k] == [queue[0]] + queue[1..][..k - 1];
      if k == 0 then 0 else k + 1
  }

  predicate PrefixPending(ro: ReadOnly, k: nat)
    requires k <= |ro.queue|
  {
    forall i :: 0 <= i < k ==> ro.queue[i] in ro.pending
  }

  function Statuses(ro: ReadOnly, k: nat): seq<ReadStatus>
    requires k <= |ro.queue| && PrefixPending(ro, k)
  {
    seq(k, i requires 0 <= i < k => ro.pending[ro.queue[i]])
  }

  predicate HaveEntries(rss: seq<ReadStatus>) {
    forall i :: 0 <= i < |rss| ==> rss[i].req.entries != []
  }

  /** The keys `advance` deletes: the contexts stored in the requests themselves. */
  function Contexts(rss: seq<ReadStatus>): set<Bytes>
    requires HaveEntries(rss)
  {
    set i | 0 <= i < |rss| :: rss[i].req.entries[0].data
  }

  /** Reads up to and including ctx leave the queue, in queue order; a queued read must be pending. */
  function AdvanceReads(ro: ReadOnly, ctx: Bytes): Outcome<(ReadOnly, seq<ReadStatus>)> {
    var found := QueuePrefix(ro.queue, ctx);
    if !PrefixPending(ro, if found == 0 then |ro.queue| else found) then Panic
    else if found == 0 then Ok((ro, []))
    else if !HaveEntries(Statuses(ro, found)) then Panic
    else
      var rss := Statuses(ro, found);
      Ok((ReadOnly(ro.pending - Contexts(rss), ro.queue[found..]), rss))
  }
}
