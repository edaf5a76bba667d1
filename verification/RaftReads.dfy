/** ReadIndex safety: a read answered by the leadership that registered it is not stale. */
module RaftReads {
  import opened RaftTypes
  import opened RaftFlatLog
  import opened RaftSpec
  import opened RaftInvariant
  import opened RaftActions
  import opened RaftReplication
  import opened RaftCluster
  import opened RaftSteps
  import opened RaftForward
  import opened RaftSafety

  // ------------------------------------- what one step does to pending reads

  /** The leader registers a new read at its commit index, which holds an entry of its own term. */
  ghost predicate RegisterStep(n: Node, m: Message, n': Node) {
    && n.role == Leader && m.typ == MsgReadIndex && m.entries != [] && |n.prs| > 1
    && TermAt(n.log, n.commit) == n.term && m.entries[0].data !in n.readOnly.pending
    && n' == BroadcastHeartbeat(n.(readOnly := AddRequest(n.readOnly, m.entries[0].data, n.commit, m)), m.entries[0].data)
  }

  /** A leader of two or more members that stays in its term answers no read. */
  ghost predicate MuteLeader(n: Node, n': Node) {
    n.role == Leader && n'.term == n.term && |n.prs| > 1 ==> Mute(n, n')
  }

  /** A heartbeat of the node's term is answered with its own context. */
  ghost predicate ReplyStep(n: Node, m: Message, n': Node) {
    && Forward(n, n') && n'.readOnly == n.readOnly && MuteLeader(n, n') && m.typ == MsgHeartbeat && m.term == n'.term
    && forall x :: x in n'.msgs && HeartbeatTraffic(x) ==>
         x in n.msgs || (x.typ == MsgHeartbeatResp && x.from == n.id && x.term == n'.term && x.context == m.context)
  }

  ghost predicate BeatStep(n: Node, n': Node) {
    && Forward(n, n') && n'.readOnly == n.readOnly && MuteLeader(n, n')
    && forall x :: x in n'.msgs && HeartbeatTraffic(x) ==> x in n.msgs || (x.typ == MsgHeartbeat && x.context == [])
  }

  ghost predicate AckStep(n: Node, m: Message, n': Node) {
    && n.role == Leader && m.typ == MsgHeartbeatResp && m.from in n.prs && m.term == n.term
    && HandleHeartbeatResp(n, m) == Ok(n')
  }

  ghost predicate ReadCase(n: Node, m: Message, n': Node) {
    BeatStep(n, n') || RegisterStep(n, m, n') || ReplyStep(n, m, n') || AckStep(n, m, n')
  }

  lemma CalmIsBeat(n: Node, n': Node)
    requires Calm(n, n')
    ensures BeatStep(n, n')
  {
  }

  lemma LeaderReadCase(n: Node, m: Message)
    requires n.role == Leader && StepLeader(n, m).Ok? && (m.typ == MsgHeartbeatResp ==> m.term == n.term) && n.id in n.prs
    ensures ReadCase(n, m, StepLeader(n, m).value)
  {
    hide HandleProposal, HandleAppResp, HandleHeartbeatResp;
    match m.typ
    case MsgProp => HandleProposalCalm(n, m); CalmIsBeat(n, StepLeader(n, m).value);
    case MsgAppResp => if m.from in n.prs { HandleAppRespCalm(n, m); CalmIsBeat(n, StepLeader(n, m).value); }
    case MsgHeartbeatResp => if m.from in n.prs { assert AckStep(n, m, StepLeader(n, m).value); }
    case MsgReadIndex =>
      if |n.prs| > 1 && TermAt(n.log, n.commit) == n.term && m.entries[0].data !in n.readOnly.pending {
        assert RegisterStep(n, m, StepLeader(n, m).value);
      } else {
        assert BeatStep(n, StepLeader(n, m).value);
      }
    case MsgBeat => assert BeatStep(n, StepLeader(n, m).value);
    case _ => assert BeatStep(n, StepLeader(n, m).value);
  }

  /** The fields that reads depend on. */
  lemma CalmFrom(n: Node, n1: Node, n': Node)
    requires n1 == n.(lead := n1.lead) && Calm(n1, n')
    ensures Calm(n, n')
  {
  }

  lemma HeartbeatReadCase(n: Node, m: Message)
    requires HandleHeartbeat(n, m).Ok? && m.typ == MsgHeartbeat && m.term == n.term && n.id != NONE
    ensures ReplyStep(n, m, HandleHeartbeat(n, m).value)
  {
  }

  lemma FollowerReadCase(n: Node, m: Message)
    requires n.role == Follower && StepFollower(n, m).Ok? && (m.typ == MsgHeartbeat ==> m.term == n.term) && n.id != NONE
    ensures ReadCase(n, m, StepFollower(n, m).value)
  {
    hide HandleAppendEntries, HandleHeartbeat, Calm, BeatStep, ReplyStep;
    match m.typ
    case MsgApp =>
      HandleAppendEntriesCalm(n.(lead := m.from), m);
      CalmFrom(n, n.(lead := m.from), StepFollower(n, m).value);
      CalmReadCase(n, m, StepFollower(n, m).value);
    case MsgHeartbeat =>
      HeartbeatReadCase(n.(lead := m.from), m);
      ReplyFrom(n, n.(lead := m.from), m, StepFollower(n, m).value);
    case _ => FollowerBeats(n, m);
  }

  lemma FollowerBeats(n: Node, m: Message)
    requires n.role == Follower && StepFollower(n, m).Ok? && m.typ != MsgApp && m.typ != MsgHeartbeat
    ensures BeatStep(n, StepFollower(n, m).value)
  {
    hide HandleAppendEntries, HandleHeartbeat;
  }

  lemma ReplyFrom(n: Node, n1: Node, m: Message, n': Node)
    requires n1 == n.(lead := n1.lead) && n.role == Follower && ReplyStep(n1, m, n')
    ensures ReplyStep(n, m, n')
  {
  }

  lemma CandidateReadCase(n: Node, m: Message)
    requires n.role != Leader && StepCandidate(n, m).Ok? && (m.typ == MsgHeartbeat ==> m.term == n.term) && n.id != NONE
    ensures ReadCase(n, m, StepCandidate(n, m).value)
  {
    hide HandleAppendEntries, HandleHeartbeat, Tally;
    match m.typ
    case MsgApp =>
      HandleAppendEntriesCalm(BecomeFollower(n, n.term, m.from), m);
      assert Calm(n, StepCandidate(n, m).value);
    case MsgHeartbeat =>
      HeartbeatReadCase(BecomeFollower(n, n.term, m.from), m);
      assert ReplyStep(n, m, StepCandidate(n, m).value);
    case MsgVoteResp => if n.role != PreCandidate { TallyCalm(n, m); CalmIsBeat(n, StepCandidate(n, m).value); }
    case MsgPreVoteResp => if n.role == PreCandidate { TallyCalm(n, m); CalmIsBeat(n, StepCandidate(n, m).value); }
    case _ => assert BeatStep(n, StepCandidate(n, m).value);
  }

  /** The four ways a step can touch pending reads and heartbeats. */
  lemma StepReadCase(n: Node, m: Message)
    requires Step(n, m).Ok? && n.id in n.prs && n.id != NONE
    requires m.typ == MsgHeartbeat || m.typ == MsgHeartbeatResp ==> 0 < m.term
    requires m.typ == MsgReadIndex ==> m.term == 0
    ensures ReadCase(n, m, Step(n, m).value)
  {
    hide StepRole, Hup, ObserveTerm, ReadCase, HandleVote, HandlePreVote, Calm;
    if 0 < m.term < n.term {
      StaleReadCase(n, m);
    } else {
      var n1 := ObserveTerm(n, m);
      ObserveTermCalm(n, m);
      ObserveTermLift(n, m);
      match m.typ {
        case MsgHup => HupCalm(n1); CalmReadCase(n1, m, Step(n, m).value);
        case MsgVote => VoteCalm(n, m); CalmReadCase(n1, m, Step(n, m).value);
        case MsgPreVote => VoteCalm(n, m); CalmReadCase(n1, m, Step(n, m).value);
        case _ => RoleReadCase(n1, m);
      }
      ReadCaseLift(n, n1, m, Step(n, m).value);
    }
  }

  lemma VoteCalm(n: Node, m: Message)
    requires !(0 < m.term < n.term) && (m.typ == MsgVote || m.typ == MsgPreVote)
    ensures Step(n, m).Ok? && Calm(ObserveTerm(n, m), Step(n, m).value)
  {
    hide ObserveTerm, StepRole, Hup, HandleVote, HandlePreVote, Calm;
    BallotCalm(ObserveTerm(n, m), m);
  }

  lemma BallotCalm(n: Node, m: Message)
    ensures Calm(n, HandleVote(n, m)) && Calm(n, HandlePreVote(n, m))
  {
    hide Grants, Send, Calm;
    SendCalm(n, n.(vote := m.from), Blank(MsgVoteResp, m.from));
    SendCalm(n, n, Blank(MsgVoteResp, m.from).(reject := true));
    SendCalm(n, n, Blank(MsgPreVoteResp, m.from).(reject := !Grants(n, m)));
  }

  /** A message that is neither heartbeat traffic nor the answer to a read. */
  lemma SendCalm(n: Node, n1: Node, x: Message)
    requires n1 == n.(vote := n1.vote) && !HeartbeatTraffic(x) && x.typ != MsgReadIndexResp
    ensures Calm(n, Send(n1, x))
  {
  }

  lemma StaleReadCase(n: Node, m: Message)
    requires 0 < m.term < n.term
    ensures Step(n, m).Ok? && ReadCase(n, m, Step(n, m).value)
  {
    assert BeatStep(n, Step(n, m).value);
  }

  lemma CalmReadCase(n: Node, m: Message, n': Node)
    requires Calm(n, n')
    ensures ReadCase(n, m, n')
  {
    CalmIsBeat(n, n');
  }

  lemma RoleReadCase(n: Node, m: Message)
    requires StepRole(n, m).Ok? && n.id in n.prs && n.id != NONE
    requires m.typ == MsgHeartbeat || m.typ == MsgHeartbeatResp ==> m.term == n.term
    ensures ReadCase(n, m, StepRole(n, m).value)
  {
    hide StepLeader, StepFollower, StepCandidate, ReadCase;
    match n.role
    case Leader => LeaderReadCase(n, m);
    case Follower => FollowerReadCase(n, m);
    case _ => CandidateReadCase(n, m);
  }

  lemma ObserveTermLift(n: Node, m: Message)
    requires !(0 < m.term < n.term)
    ensures var n1 := ObserveTerm(n, m);
            && (n1 == n || (n1.term > n.term && n1.role != Leader)) && n1.id == n.id && n1.prs == n.prs
            && ((m.typ == MsgHeartbeat || m.typ == MsgHeartbeatResp) && 0 < m.term ==> n1.term == m.term)
  {
  }

  lemma ReadCaseLift(n: Node, n1: Node, m: Message, n': Node)
    requires ReadCase(n1, m, n') && Calm(n, n1) && (n1 == n || (n1.term > n.term && n1.role != Leader))
    ensures ReadCase(n, m, n')
  {
    if Forward(n1, n') { ForwardTransitive(n, n1, n'); }
  }

  // ------------------------------------------- why the commit index is safe

  /** Nodes that have moved past term t. */
  ghost function Past(nodes: map<NodeId, Node>, t: nat): set<NodeId> {
    set j | j in nodes && nodes[j].term > t
  }

  lemma EntryTerm(h: History, tm: Terms, t: nat, k: nat)
    requires LeadersOk(h, tm) && t in h.logs && 1 <= k <= |h.logs[t]|
    ensures h.logs[t][k - 1].term <= t
  {
    hide LogOk;
    LeaderLogOk(h, tm, t);
  }

  /** A leader whose commit index holds an entry of its own term has committed it by counting. */
  lemma OwnCommit(h: History, tm: Terms, n: Node)
    requires HistoryOk(h, tm) && CommitOk(h, n) && LeadOk(h, n) && n.role == Leader && 1 <= n.term
    requires TermAt(n.log, n.commit) == n.term
    ensures n.term in h.marks && h.marks[n.term] == n.commit && 1 <= n.commit && n.log[n.commit - 1].term == n.term
  {
    hide LogOk, LeadersOk, BallotsOk, AcksOk, Completeness, VotesRespectAcks;
    var u: nat :| CommitFrom(h, n, u);
    assert n.log[n.commit - 1] == n.log[..n.commit][n.commit - 1];
    EntryTerm(h, tm, u, n.commit);
    assert u == n.term;
  }

  /** Whoever has committed more than that learned it from a leader of a later term. */
  lemma MoreIsLater(h: History, tm: Terms, n: Node, n': Node)
    requires HistoryOk(h, tm) && CommitOk(h, n) && LeadOk(h, n) && n.role == Leader && 1 <= n.term
    requires TermAt(n.log, n.commit) == n.term && CommitOk(h, n') && n'.commit > n.commit
    ensures exists u: nat :: u in h.logs && u > n.term
  {
    hide LogOk, BallotsOk, AcksOk, VotesRespectAcks, Completeness, LeadersOk;
    OwnCommit(h, tm, n);
    var u: nat :| CommitFrom(h, n', u);
    if u < n.term {
      MarkHolds(h, tm, u, n.term);
      EntryTerm(h, tm, u, n.commit);
    }
  }

  lemma LaterLeaderPast(h: History, nodes: map<NodeId, Node>, t: nat, u: nat)
    requires LeadersOk(h, TermsOf(nodes)) && BallotsOk(h, TermsOf(nodes)) && u in h.logs && u > t
    ensures Majority(TermsOf(nodes), Past(nodes, t))
  {
    hide LogOk;
    var tm := TermsOf(nodes);
    assert LeaderOk(h, tm, u);
    MajorityGrows(tm, Voters(h, tm, u, h.leaders[u]), Past(nodes, t));
  }

  /** When a read is registered, either no node has committed more, or a majority has left the leader's term. */
  lemma RegistrationSafe(s: Cluster, h: History, id: NodeId, j: NodeId)
    requires Inv(s, h) && id in s.nodes && j in s.nodes
    requires s.nodes[id].role == Leader && TermAt(s.nodes[id].log, s.nodes[id].commit) == s.nodes[id].term
    ensures s.nodes[j].commit <= s.nodes[id].commit || Majority(TermsOf(s.nodes), Past(s.nodes, s.nodes[id].term))
  {
    hide Inv, LogOk, MsgOk, OldAcksOk, CommitOk, AckOk, CandidateOk, ReadsOk;
    hide LeadersOk, BallotsOk, AcksOk, Completeness, VotesRespectAcks, MarksOk;
    NodeAt(s, h, id);
    CommitOkAt(s, h, id);
    CommitOkAt(s, h, j);
    if s.nodes[j].commit > s.nodes[id].commit {
      hide LeadOk;
      MoreIsLater(h, TermsOf(s.nodes), s.nodes[id], s.nodes[j]);
      var u: nat :| u in h.logs && u > s.nodes[id].term;
      LaterLeaderPast(h, s.nodes, s.nodes[id].term, u);
    }
  }

  // ------------------------------------------------------- reads along a run

  /** Step number at which a context was registered, and by whom. */
  datatype Registration = Registration(at: nat, leader: NodeId)

  ghost predicate Registers(s: Cluster, s': Cluster, id: NodeId, ctx: Bytes) {
    id in s.nodes && id in s'.nodes && ctx !in s.nodes[id].readOnly.pending && ctx in s'.nodes[id].readOnly.pending
  }

  ghost predicate RegistersAt(ss: seq<Cluster>, a: nat, id: NodeId, ctx: Bytes) {
    a + 1 < |ss| && Registers(ss[a], ss[a + 1], id, ctx)
  }

  /** Contexts are non-empty and registered at most once in the leadership of one term. */
  ghost predicate FreshReads(ss: seq<Cluster>) {
    && (forall a, id, ctx :: RegistersAt(ss, a, id, ctx) ==> ctx != [])
    && (forall a, b, id, id', ctx :: RegistersAt(ss, a, id, ctx) && RegistersAt(ss, b, id', ctx) && SameTerm(ss, a, id, b, id') ==> a == b)
  }

  ghost predicate SameTerm(ss: seq<Cluster>, a: nat, id: NodeId, b: nat, id': NodeId) {
    TermOf(ss, Registration(a, id)) == TermOf(ss, Registration(b, id'))
  }

  ghost predicate Known(ss: seq<Cluster>, r: Registration) {
    r.at < |ss| && r.leader in ss[r.at].nodes
  }

  /** The leader's term, its commit index, and the nodes past its term, when the read was registered. */
  ghost function TermOf(ss: seq<Cluster>, r: Registration): nat {
    if Known(ss, r) then ss[r.at].nodes[r.leader].term else 0
  }

  ghost function IndexOf(ss: seq<Cluster>, r: Registration): nat {
    if Known(ss, r) then ss[r.at].nodes[r.leader].commit else 0
  }

  ghost function Stale(ss: seq<Cluster>, r: Registration): set<NodeId> {
    if Known(ss, r) then Past(ss[r.at].nodes, TermOf(ss, r)) else {}
  }

  ghost predicate RegistrationOk(ss: seq<Cluster>, k: nat, t: nat, ctx: Bytes, r: Registration) {
    && Known(ss, r) && r.at < k && RegistersAt(ss, r.at, r.leader, ctx)
    && ss[r.at].nodes[r.leader].role == Leader && TermOf(ss, r) == t
    && TermAt(ss[r.at].nodes[r.leader].log, IndexOf(ss, r)) == t
  }

  /** The registrations by term and context, and the term in which a node last registered a context. */
  datatype Registry = Registry(terms: map<(nat, Bytes), Registration>, held: map<(NodeId, Bytes), nat>)

  ghost predicate Registered(regs: Registry, t: nat, c: Bytes) { (t, c) in regs.terms }

  ghost function Of(regs: Registry, t: nat, c: Bytes): Registration {
    if (t, c) in regs.terms then regs.terms[(t, c)] else Registration(0, NONE)
  }

  ghost predicate Holding(regs: Registry, id: NodeId, c: Bytes) { (id, c) in regs.held }

  ghost function HeldTerm(regs: Registry, id: NodeId, c: Bytes): nat {
    if (id, c) in regs.held then regs.held[(id, c)] else 0
  }

  /** A node's last registration of a context. */
  ghost function Mine(regs: Registry, id: NodeId, c: Bytes): Registration { Of(regs, HeldTerm(regs, id, c), c) }

  ghost function Added(regs: Registry, t: nat, c: Bytes, r: Registration): Registry {
    Registry(regs.terms[(t, c) := r], regs.held[(r.leader, c) := t])
  }

  ghost predicate PendingOk(ss: seq<Cluster>, regs: Registry, n: Node) {
    && (forall c :: c in n.readOnly.pending ==> ReadOk(ss, regs, n, c))
    && (forall i, j :: 0 <= i < j < |n.readOnly.queue| ==> Before(regs, n.id, n.readOnly.queue[i], n.readOnly.queue[j]))
  }

  ghost predicate ReadOk(ss: seq<Cluster>, regs: Registry, n: Node, c: Bytes)
    requires c in n.readOnly.pending
  {
    && Holding(regs, n.id, c)
    && n.readOnly.pending[c].index == IndexOf(ss, Mine(regs, n.id, c))
    && n.readOnly.pending[c].acks <= n.prs.Keys
    && n.readOnly.pending[c].acks !! Stale(ss, Mine(regs, n.id, c))
  }

  ghost predicate Before(regs: Registry, id: NodeId, c: Bytes, c': Bytes) {
    Mine(regs, id, c).at < Mine(regs, id, c').at
  }

  ghost predicate TrafficOk(ss: seq<Cluster>, regs: Registry, m: Message) {
    HeartbeatTraffic(m) && m.context != [] ==>
      && Registered(regs, m.term, m.context)
      && (m.typ == MsgHeartbeatResp ==> m.from !in Stale(ss, Of(regs, m.term, m.context)))
  }

  /** What a node holds was registered by it, and nothing it registered is of a later term. */
  ghost predicate HeldOk(regs: Registry, id: NodeId, c: Bytes) {
    Registered(regs, HeldTerm(regs, id, c), c) && Mine(regs, id, c).leader == id
  }

  ghost predicate KeptOk(regs: Registry, t: nat, c: Bytes) {
    var id := Of(regs, t, c).leader; Holding(regs, id, c) && t <= HeldTerm(regs, id, c)
  }

  ghost predicate RegsOk(ss: seq<Cluster>, k: nat, regs: Registry) {
    && (forall t, c :: Registered(regs, t, c) ==> RegistrationOk(ss, k, t, c, Of(regs, t, c)) && KeptOk(regs, t, c))
    && (forall id, c :: Holding(regs, id, c) ==> HeldOk(regs, id, c))
  }

  ghost predicate ReadInv(ss: seq<Cluster>, k: nat, regs: Registry) {
    && k < |ss| && RegsOk(ss, k, regs)
    && (forall id :: id in ss[k].nodes ==> PendingOk(ss, regs, ss[k].nodes[id]) && ss[k].nodes[id].msgs <= ss[k].net)
    && (forall m :: m in ss[k].net ==> TrafficOk(ss, regs, m))
  }

  // ----------------------------------------------- terms along a run

  lemma RunKeys(ss: seq<Cluster>, evs: seq<(NodeId, Event)>, a: nat, b: nat)
    requires Run(ss, evs) && a <= b < |ss|
    ensures ss[a].nodes.Keys == ss[b].nodes.Keys
    decreases b - a
  {
    if a < b {
      RunKeys(ss, evs, a, b - 1);
      assert StepOk(ss[b - 1], evs[b - 1].0, evs[b - 1].1, ss[b]);
      EventKeys(ss[b - 1], evs[b - 1].0, evs[b - 1].1);
    }
  }

  lemma EventKeys(s: Cluster, id: NodeId, ev: Event)
    requires Enabled(s, id, ev) && Apply(s, id, ev).Ok?
    ensures Apply(s, id, ev).value.nodes.Keys == s.nodes.Keys
  {
    hide Step, LocalInput;
  }

  lemma EventTerms(s: Cluster, h: History, id: NodeId, ev: Event, j: NodeId)
    requires Inv(s, h) && Enabled(s, id, ev) && Apply(s, id, ev).Ok? && j in s.nodes
    ensures var s' := Apply(s, id, ev).value; j in s'.nodes && s.nodes[j].term <= s'.nodes[j].term
  {
    hide Step, LocalInput, Good, MsgOk, LoopOk;
    EventKeys(s, id, ev);
    match ev
    case Deliver(m) => StepTerm(s, h, id, m);
    case Local(m) => StepTerm(s, h, id, m);
    case _ =>
  }

  lemma StepTerm(s: Cluster, h: History, id: NodeId, m: Message)
    requires id in s.nodes && (MsgOk(h, m) || LocalInput(id, m)) && Step(s.nodes[id], m).Ok?
    ensures Forward(s.nodes[id], Step(s.nodes[id], m).value)
  {
    hide Step, Forward;
    StepForward(s.nodes[id], m);
  }

  /** A run together with histories that satisfy the invariant. */
  ghost predicate Witnessed(ss: seq<Cluster>, evs: seq<(NodeId, Event)>, hs: seq<History>) {
    Run(ss, evs) && |hs| == |ss| && forall k :: 0 <= k < |ss| ==> Inv(ss[k], hs[k])
  }

  lemma RunTerms(ss: seq<Cluster>, evs: seq<(NodeId, Event)>, hs: seq<History>, a: nat, b: nat, j: NodeId)
    requires Witnessed(ss, evs, hs)
    requires a <= b < |ss| && j in ss[a].nodes
    ensures j in ss[b].nodes && ss[a].nodes[j].term <= ss[b].nodes[j].term
    decreases b - a
  {
    hide Inv, Apply, Enabled;
    RunKeys(ss, evs, a, b);
    if a < b {
      RunTerms(ss, evs, hs, a, b - 1, j);
      assert StepOk(ss[b - 1], evs[b - 1].0, evs[b - 1].1, ss[b]);
      EventTerms(ss[b - 1], hs[b - 1], evs[b - 1].0, evs[b - 1].1, j);
    }
  }

  // ------------------------------------------- the read invariant is kept

  lemma RegsLater(ss: seq<Cluster>, k: nat, regs: Registry)
    requires RegsOk(ss, k, regs)
    ensures RegsOk(ss, k + 1, regs)
  {
    hide Registered, Of, Holding, HeldOk, KeptOk;
  }

  /** Adding a registration leaves those of other contexts and other nodes. */
  lemma MineStays(regs: Registry, t: nat, c: Bytes, r: Registration, id: NodeId, c': Bytes)
    requires !Registered(regs, t, c) && Holding(regs, id, c') && HeldOk(regs, id, c') && (id != r.leader || c' != c)
    ensures Holding(Added(regs, t, c, r), id, c') && Mine(Added(regs, t, c, r), id, c') == Mine(regs, id, c')
    ensures HeldTerm(Added(regs, t, c, r), id, c') == HeldTerm(regs, id, c') && HeldOk(Added(regs, t, c, r), id, c')
  {
  }

  lemma PendingGrows(ss: seq<Cluster>, k: nat, regs: Registry, t: nat, c: Bytes, r: Registration, n: Node)
    requires RegsOk(ss, k, regs) && PendingOk(ss, regs, n) && ReadsOk(n) && !Registered(regs, t, c)
    requires n.id != r.leader || c !in n.readOnly.pending
    ensures PendingOk(ss, Added(regs, t, c, r), n)
  {
    hide Registered, Holding, Mine, HeldTerm, Added, RegistrationOk, Stale, IndexOf;
    forall c' | c' in n.readOnly.pending
      ensures Holding(Added(regs, t, c, r), n.id, c') && Mine(Added(regs, t, c, r), n.id, c') == Mine(regs, n.id, c')
    {
      assert ReadOk(ss, regs, n, c') && HeldOk(regs, n.id, c');
      MineStays(regs, t, c, r, n.id, c');
    }
    hide HeldOk, KeptOk, RegsOk;
    forall i | 0 <= i < |n.readOnly.queue| ensures n.readOnly.queue[i] in n.readOnly.pending { QueuedContext(n, i); }
    forall c' | c' in n.readOnly.pending ensures ReadOk(ss, Added(regs, t, c, r), n, c') { assert ReadOk(ss, regs, n, c'); }
    hide ReadOk, ReadsOk;
    forall i, j | 0 <= i < j < |n.readOnly.queue| ensures Before(Added(regs, t, c, r), n.id, n.readOnly.queue[i], n.readOnly.queue[j]) {
      assert Before(regs, n.id, n.readOnly.queue[i], n.readOnly.queue[j]);
    }
  }

  lemma PendingFrame(ss: seq<Cluster>, regs: Registry, n: Node, n': Node)
    requires PendingOk(ss, regs, n) && n'.readOnly == n.readOnly && n'.id == n.id && n'.prs.Keys == n.prs.Keys
    ensures PendingOk(ss, regs, n')
  {
  }

  lemma TrafficGrows(ss: seq<Cluster>, regs: Registry, t: nat, c: Bytes, r: Registration, m: Message)
    requires TrafficOk(ss, regs, m) && !Registered(regs, t, c)
    ensures TrafficOk(ss, Added(regs, t, c, r), m)
  {
    hide Stale;
  }

  /** Nodes only leave terms: whoever was past the term when the read was registered still is. */
  lemma StaleStays(ss: seq<Cluster>, evs: seq<(NodeId, Event)>, hs: seq<History>, r: Registration, b: nat, j: NodeId)
    requires Witnessed(ss, evs, hs)
    requires Known(ss, r) && r.at <= b < |ss| && j in Stale(ss, r)
    ensures j in ss[b].nodes && ss[b].nodes[j].term > TermOf(ss, r)
  {
    hide Witnessed;
    RunTerms(ss, evs, hs, r.at, b, j);
  }

  /** The step from k to k + 1 makes node id process m. */
  ghost predicate Processes(ss: seq<Cluster>, k: nat, id: NodeId, m: Message) {
    && k + 1 < |ss| && id in ss[k].nodes && (m in ss[k].net || LocalInput(id, m))
    && Step(ss[k].nodes[id], m).Ok?
    && var n' := Step(ss[k].nodes[id], m).value;
       ss[k + 1].nodes == ss[k].nodes[id := n'] && ss[k + 1].net == ss[k].net + n'.msgs
  }

  lemma ReplyTraffic(ss: seq<Cluster>, evs: seq<(NodeId, Event)>, hs: seq<History>, k: nat, regs: Registry, id: NodeId, m: Message, x: Message)
    requires Witnessed(ss, evs, hs)
    requires k + 1 < |ss| && RegsOk(ss, k, regs) && TrafficOk(ss, regs, m) && m.typ == MsgHeartbeat
    requires id in ss[k + 1].nodes && ss[k + 1].nodes[id].term == m.term
    requires x.typ == MsgHeartbeatResp && x.from == id && x.term == m.term && x.context == m.context
    ensures TrafficOk(ss, regs, x)
  {
    hide Witnessed;
    hide Registered, Of, HeldOk, KeptOk;
    var r := Of(regs, m.term, m.context);
    if m.context != [] && id in Stale(ss, r) {
      assert RegistrationOk(ss, k, m.term, m.context, r);
      StaleStays(ss, evs, hs, r, k + 1, id);
    }
  }

  lemma QuietReads(ss: seq<Cluster>, evs: seq<(NodeId, Event)>, hs: seq<History>, k: nat, regs: Registry, id: NodeId, m: Message)
    requires Witnessed(ss, evs, hs)
    requires ReadInv(ss, k, regs) && Processes(ss, k, id, m) && ss[k].nodes[id].id == id
    requires var n' := ss[k + 1].nodes[id]; BeatStep(ss[k].nodes[id], n') || ReplyStep(ss[k].nodes[id], m, n')
    ensures ReadInv(ss, k + 1, regs)
  {
    hide Witnessed, PendingOk, TrafficOk, Step, RegsOk, LocalInput;
    var n, n' := ss[k].nodes[id], ss[k + 1].nodes[id];
    assert RegsOk(ss, k + 1, regs) by { RegsLater(ss, k, regs); }
    assert PendingOk(ss, regs, n') by { PendingFrame(ss, regs, n, n'); }
    forall x | x in ss[k + 1].net ensures TrafficOk(ss, regs, x) {
      if x !in ss[k].net {
        if HeartbeatTraffic(x) && x.typ == MsgHeartbeatResp {
          assert m in ss[k].net by { NotLocal(id, m); }
          ReplyTraffic(ss, evs, hs, k, regs, id, m, x);
        } else {
          NoContext(ss, regs, x);
        }
      }
    }
  }

  lemma NotLocal(id: NodeId, m: Message)
    ensures HeartbeatTraffic(m) ==> !LocalInput(id, m)
  {
  }

  lemma NoContext(ss: seq<Cluster>, regs: Registry, m: Message)
    requires !HeartbeatTraffic(m) || m.context == []
    ensures TrafficOk(ss, regs, m)
  {
  }

  lemma RegisterPending(ss: seq<Cluster>, k: nat, regs: Registry, n: Node, m: Message, n': Node)
    requires RegsOk(ss, k, regs) && PendingOk(ss, regs, n) && ReadsOk(n) && RegisterStep(n, m, n')
    requires k < |ss| && n.id in ss[k].nodes && ss[k].nodes[n.id] == n && !Registered(regs, n.term, m.entries[0].data)
    ensures PendingOk(ss, Added(regs, n.term, m.entries[0].data, Registration(k, n.id)), n')
  {
    var ctx := m.entries[0].data;
    var regs' := Added(regs, n.term, ctx, Registration(k, n.id));
    PendingGrows(ss, k, regs, n.term, ctx, Registration(k, n.id), n);
    NewIsMine(regs, n.term, ctx, Registration(k, n.id));
    assert n'.readOnly == AddRequest(n.readOnly, ctx, n.commit, m) && n'.id == n.id && n'.prs == n.prs;
    assert Known(ss, Registration(k, n.id)) && IndexOf(ss, Registration(k, n.id)) == n.commit;
    forall i | 0 <= i < |n.readOnly.queue| ensures Mine(regs', n.id, n.readOnly.queue[i]).at < k {
      QueuedContext(n, i);
      OlderThan(ss, k, regs, n, n.readOnly.queue[i]);
      MineStays(regs, n.term, ctx, Registration(k, n.id), n.id, n.readOnly.queue[i]);
    }
    hide RegisterStep, RegsOk, ReadsOk, Mine, Added, Holding, Stale, IndexOf, Registered;
    QueueGrows(ss, regs', n, n', ctx, ReadStatus(m, n.commit, {}), k);
  }

  lemma NewIsMine(regs: Registry, t: nat, c: Bytes, r: Registration)
    ensures Holding(Added(regs, t, c, r), r.leader, c) && Mine(Added(regs, t, c, r), r.leader, c) == r
  {
  }

  /** What a node holds was registered before now. */
  lemma OlderThan(ss: seq<Cluster>, k: nat, regs: Registry, n: Node, c: Bytes)
    requires RegsOk(ss, k, regs) && PendingOk(ss, regs, n) && c in n.readOnly.pending
    ensures Holding(regs, n.id, c) && HeldOk(regs, n.id, c) && Mine(regs, n.id, c).at < k
  {
    hide Stale, IndexOf;
    assert ReadOk(ss, regs, n, c);
    assert RegistrationOk(ss, k, HeldTerm(regs, n.id, c), c, Mine(regs, n.id, c));
  }

  lemma QueueGrows(ss: seq<Cluster>, regs: Registry, n: Node, n': Node, ctx: Bytes, status: ReadStatus, k: nat)
    requires PendingOk(ss, regs, n) && n'.id == n.id && n'.prs == n.prs && status.acks == {}
    requires n'.readOnly == ReadOnly(n.readOnly.pending[ctx := status], n.readOnly.queue + [ctx])
    requires Holding(regs, n.id, ctx) && Mine(regs, n.id, ctx).at == k && status.index == IndexOf(ss, Mine(regs, n.id, ctx))
    requires forall i :: 0 <= i < |n.readOnly.queue| ==> Mine(regs, n.id, n.readOnly.queue[i]).at < k
    ensures PendingOk(ss, regs, n')
  {
    hide Holding, Mine, Stale, IndexOf;
    var q := n.readOnly.queue;
    forall c | c in n'.readOnly.pending ensures ReadOk(ss, regs, n', c) {
      if c != ctx { assert ReadOk(ss, regs, n, c); }
    }
    forall i, j | 0 <= i < j < |q + [ctx]| ensures Before(regs, n.id, (q + [ctx])[i], (q + [ctx])[j]) {
      if j < |q| { assert Before(regs, n.id, n.readOnly.queue[i], n.readOnly.queue[j]); }
    }
  }

  lemma NotRegisteredYet(ss: seq<Cluster>, k: nat, regs: Registry, id: NodeId, ctx: Bytes)
    requires FreshReads(ss) && RegsOk(ss, k, regs) && RegistersAt(ss, k, id, ctx)
    ensures ctx != [] && !Registered(regs, TermOf(ss, Registration(k, id)), ctx)
  {
    hide RegistersAt, Registered, Of, HeldOk, KeptOk;
    var t := TermOf(ss, Registration(k, id));
    var r := Of(regs, t, ctx);
    assert Registered(regs, t, ctx) ==> RegistrationOk(ss, k, t, ctx, r) && SameTerm(ss, k, id, r.at, r.leader);
  }

  lemma RegisterRegs(ss: seq<Cluster>, evs: seq<(NodeId, Event)>, hs: seq<History>, k: nat, regs: Registry, id: NodeId, ctx: Bytes)
    requires k + 1 < |ss| && id in ss[k].nodes && RegsOk(ss, k, regs) && RegistersAt(ss, k, id, ctx)
    requires ss[k].nodes[id].role == Leader && TermAt(ss[k].nodes[id].log, ss[k].nodes[id].commit) == ss[k].nodes[id].term
    requires !Registered(regs, ss[k].nodes[id].term, ctx) && Witnessed(ss, evs, hs)
    ensures RegsOk(ss, k + 1, Added(regs, ss[k].nodes[id].term, ctx, Registration(k, id)))
  {
    hide Witnessed, RegistersAt, Inv, Run;
    var t, r := ss[k].nodes[id].term, Registration(k, id);
    var regs' := Added(regs, t, ctx, r);
    assert RegistrationOk(ss, k + 1, t, ctx, r);
    NewIsKept(regs, t, ctx, r);
    hide RegistrationOk, KeptOk, HeldOk, Added, Of;
    forall t', c' | Registered(regs', t', c') ensures RegistrationOk(ss, k + 1, t', c', Of(regs', t', c')) && KeptOk(regs', t', c') {
      if t' != t || c' != ctx {
        OldRegistered(regs, t, ctx, r, t', c');
        KeptNext(ss, evs, hs, k, regs, id, ctx, t', c');
      }
    }
    forall id', c' | Holding(regs', id', c') ensures HeldOk(regs', id', c') {
      if id' != id || c' != ctx {
        OldHolding(regs, t, ctx, r, id', c');
        MineStays(regs, t, ctx, r, id', c');
      }
    }
  }

  lemma NewIsKept(regs: Registry, t: nat, c: Bytes, r: Registration)
    ensures var regs' := Added(regs, t, c, r);
            Registered(regs', t, c) && Of(regs', t, c) == r && KeptOk(regs', t, c) && HeldOk(regs', r.leader, c)
  {
  }

  lemma OldRegistered(regs: Registry, t: nat, c: Bytes, r: Registration, t': nat, c': Bytes)
    requires Registered(Added(regs, t, c, r), t', c') && (t' != t || c' != c)
    ensures Registered(regs, t', c')
  {
  }

  lemma OldHolding(regs: Registry, t: nat, c: Bytes, r: Registration, id: NodeId, c': Bytes)
    requires Holding(Added(regs, t, c, r), id, c') && (id != r.leader || c' != c)
    ensures Holding(regs, id, c')
  {
  }

  lemma KeptNext(ss: seq<Cluster>, evs: seq<(NodeId, Event)>, hs: seq<History>, k: nat, regs: Registry, id: NodeId, ctx: Bytes, t: nat, c: Bytes)
    requires k < |ss| && id in ss[k].nodes && RegsOk(ss, k, regs) && !Registered(regs, ss[k].nodes[id].term, ctx)
    requires Registered(regs, t, c) && Witnessed(ss, evs, hs)
    ensures var regs' := Added(regs, ss[k].nodes[id].term, ctx, Registration(k, id));
            Of(regs', t, c) == Of(regs, t, c) && RegistrationOk(ss, k + 1, t, c, Of(regs', t, c)) && KeptOk(regs', t, c)
  {
    hide Witnessed, RegistersAt, HeldOk, Run, Inv;
    var r := Of(regs, t, c);
    assert RegistrationOk(ss, k, t, c, r) && KeptOk(regs, t, c);
    if r.leader == id && c == ctx { RunTerms(ss, evs, hs, r.at, k, id); }
  }

  lemma RegisterTraffic(ss: seq<Cluster>, k: nat, regs: Registry, n: Node, m: Message, n': Node, x: Message)
    requires RegisterStep(n, m, n') && n.id != NONE && k < |ss| && n.id in ss[k].nodes && ss[k].nodes[n.id] == n
    requires x in n'.msgs && x !in n.msgs
    ensures TrafficOk(ss, Added(regs, n.term, m.entries[0].data, Registration(k, n.id)), x)
  {
  }

  lemma RegisterFacts(ss: seq<Cluster>, k: nat, id: NodeId, m: Message)
    requires Processes(ss, k, id, m) && ss[k].nodes[id].id == id && RegisterStep(ss[k].nodes[id], m, ss[k + 1].nodes[id])
    ensures m.entries != [] && RegistersAt(ss, k, id, m.entries[0].data) && TermOf(ss, Registration(k, id)) == ss[k].nodes[id].term
    ensures k + 1 < |ss| && id in ss[k].nodes
    ensures var n := ss[k].nodes[id]; n.role == Leader && TermAt(n.log, n.commit) == n.term && m.entries[0].data !in n.readOnly.pending
  {
    hide Step, LocalInput;
  }

  lemma RegisterReads(ss: seq<Cluster>, evs: seq<(NodeId, Event)>, hs: seq<History>, k: nat, regs: Registry, id: NodeId, m: Message, ctx: Bytes)
      returns (regs': Registry)
    requires m.entries != [] && ctx == m.entries[0].data
    requires Processes(ss, k, id, m) && ss[k].nodes[id].id == id && RegisterStep(ss[k].nodes[id], m, ss[k + 1].nodes[id])
    requires id != NONE && ReadInv(ss, k, regs) && FreshReads(ss) && Witnessed(ss, evs, hs)
    ensures ReadInv(ss, k + 1, regs') && Grown(regs, regs')
    ensures InRegistry(ss, regs', k, id, ctx)
  {
    hide *;
    RegisterFacts(ss, k, id, m);
    var t := ss[k].nodes[id].term;
    InvRegs(ss, k, regs);
    NotRegisteredYet(ss, k, regs, id, ctx);
    RegisterRegs(ss, evs, hs, k, regs, id, ctx);
    regs' := Added(regs, t, ctx, Registration(k, id));
    AddedGrows(ss, regs, k, id, ctx);
    forall j | j in ss[k].nodes ensures ReadsOk(ss[k].nodes[j]) && ss[k].nodes[j].id == j { ReadsAt(ss, evs, hs, k, j); }
    RegisterKeeps(ss, k, regs, id, m);
  }

  lemma AddedGrows(ss: seq<Cluster>, regs: Registry, k: nat, id: NodeId, ctx: Bytes)
    requires k < |ss| && id in ss[k].nodes && !Registered(regs, ss[k].nodes[id].term, ctx)
    ensures Grown(regs, Added(regs, ss[k].nodes[id].term, ctx, Registration(k, id)))
    ensures InRegistry(ss, Added(regs, ss[k].nodes[id].term, ctx, Registration(k, id)), k, id, ctx)
  {
  }

  lemma InvRegs(ss: seq<Cluster>, k: nat, regs: Registry)
    requires ReadInv(ss, k, regs)
    ensures RegsOk(ss, k, regs)
  {
  }

  lemma RegisterKeeps(ss: seq<Cluster>, k: nat, regs: Registry, id: NodeId, m: Message)
    requires Processes(ss, k, id, m) && ss[k].nodes[id].id == id && RegisterStep(ss[k].nodes[id], m, ss[k + 1].nodes[id])
    requires id != NONE && ReadInv(ss, k, regs) && !Registered(regs, ss[k].nodes[id].term, m.entries[0].data)
    requires forall j :: j in ss[k].nodes ==> ReadsOk(ss[k].nodes[j]) && ss[k].nodes[j].id == j
    requires RegsOk(ss, k + 1, Added(regs, ss[k].nodes[id].term, m.entries[0].data, Registration(k, id)))
    ensures ReadInv(ss, k + 1, Added(regs, ss[k].nodes[id].term, m.entries[0].data, Registration(k, id)))
  {
    RegisterFacts(ss, k, id, m);
    hide Step, LocalInput, RegisterStep, RegsOk, PendingOk, TrafficOk, ReadsOk, RegistersAt, Added, Registered;
    var ctx, t, r, s, s' := m.entries[0].data, ss[k].nodes[id].term, Registration(k, id), ss[k], ss[k + 1];
    var regs' := Added(regs, t, ctx, r);
    forall j | j in s'.nodes ensures PendingOk(ss, regs', s'.nodes[j]) && s'.nodes[j].msgs <= s'.net {
      if j == id { RegisterPending(ss, k, regs, s.nodes[id], m, s'.nodes[id]); }
      else { PendingGrows(ss, k, regs, t, ctx, r, s.nodes[j]); }
    }
    forall x | x in s'.net ensures TrafficOk(ss, regs', x) {
      if x in s.net { TrafficGrows(ss, regs, t, ctx, r, x); }
      else { RegisterTraffic(ss, k, regs, s.nodes[id], m, s'.nodes[id], x); }
    }
  }

  lemma ReadsAt(ss: seq<Cluster>, evs: seq<(NodeId, Event)>, hs: seq<History>, k: nat, id: NodeId)
    requires Witnessed(ss, evs, hs) && k < |ss| && id in ss[k].nodes
    ensures ReadsOk(ss[k].nodes[id]) && ss[k].nodes[id].id == id
  {
    hide Run, Good, LoopOk, NodeOk, HistoryOk, ReadsOk;
    NodeAt(ss[k], hs[k], id);
    NodeFacts(hs[k], TermsOf(ss[k].nodes), ss[k].nodes[id]);
  }

  ghost predicate Grown(regs: Registry, regs': Registry) {
    forall t, c :: Registered(regs, t, c) ==> Registered(regs', t, c) && Of(regs', t, c) == Of(regs, t, c)
  }

  /** The registration at step a is in the registry. */
  ghost predicate InRegistry(ss: seq<Cluster>, regs: Registry, a: nat, id: NodeId, c: Bytes) {
    var t := TermOf(ss, Registration(a, id)); Registered(regs, t, c) && Of(regs, t, c) == Registration(a, id)
  }

  /** What is registered in a leader's term it has registered itself. */
  lemma LeaderRegistered(ss: seq<Cluster>, evs: seq<(NodeId, Event)>, hs: seq<History>, k: nat, id: NodeId, c: Bytes, r: Registration)
    requires k < |ss| && id in ss[k].nodes && ss[k].nodes[id].role == Leader && RegistrationOk(ss, k, ss[k].nodes[id].term, c, r)
    requires Witnessed(ss, evs, hs)
    ensures r.leader == id
  {
    assert Run(ss, evs);
    hide Witnessed, Run, Inv, RegistersAt;
    ElectionSafety(ss, evs, r.at, k, r.leader, id);
  }

  lemma EarlierTerm(ss: seq<Cluster>, evs: seq<(NodeId, Event)>, hs: seq<History>, k: nat, id: NodeId, u: nat, c: Bytes, r: Registration)
    requires k < |ss| && id in ss[k].nodes && RegistrationOk(ss, k, u, c, r) && r.leader == id && Witnessed(ss, evs, hs)
    ensures u <= ss[k].nodes[id].term
  {
    hide Witnessed, Run, Inv, RegistersAt;
    RunTerms(ss, evs, hs, r.at, k, id);
  }

  lemma RegsFacts(ss: seq<Cluster>, k: nat, regs: Registry, t: nat, c: Bytes)
    requires RegsOk(ss, k, regs) && Registered(regs, t, c)
    ensures var r := Of(regs, t, c); var u := HeldTerm(regs, r.leader, c);
            && RegistrationOk(ss, k, t, c, r) && t <= u && Mine(regs, r.leader, c) == Of(regs, u, c)
            && RegistrationOk(ss, k, u, c, Of(regs, u, c)) && Of(regs, u, c).leader == r.leader
  {
    hide RegistrationOk, Registered, Of;
    var r := Of(regs, t, c);
    assert KeptOk(regs, t, c);
    assert HeldOk(regs, r.leader, c);
  }

  /** What a leader registered in its term is its last registration of that context. */
  lemma HeldNow(ss: seq<Cluster>, evs: seq<(NodeId, Event)>, hs: seq<History>, k: nat, regs: Registry, id: NodeId, c: Bytes)
    requires k < |ss| && id in ss[k].nodes && ss[k].nodes[id].role == Leader && RegsOk(ss, k, regs)
    requires Registered(regs, ss[k].nodes[id].term, c) && Witnessed(ss, evs, hs)
    ensures var r := Of(regs, ss[k].nodes[id].term, c);
            Mine(regs, id, c) == r && r.leader == id && RegistrationOk(ss, k, ss[k].nodes[id].term, c, r)
  {
    hide *;
    var t := ss[k].nodes[id].term;
    var r := Of(regs, t, c);
    RegsFacts(ss, k, regs, t, c);
    LeaderRegistered(ss, evs, hs, k, id, c, r);
    var u := HeldTerm(regs, id, c);
    EarlierTerm(ss, evs, hs, k, id, u, c, Of(regs, u, c));
  }

  lemma AckPending(ss: seq<Cluster>, evs: seq<(NodeId, Event)>, hs: seq<History>, k: nat, regs: Registry, n: Node, m: Message)
    requires Witnessed(ss, evs, hs) && RegsOk(ss, k, regs) && FreshReads(ss) && PendingOk(ss, regs, n) && TrafficOk(ss, regs, m)
    requires k < |ss| && n.id in ss[k].nodes && ss[k].nodes[n.id] == n && n.role == Leader
    requires m.typ == MsgHeartbeatResp && m.from in n.prs && m.term == n.term
    ensures PendingOk(ss, regs, n.(readOnly := RecvAck(n.readOnly, m.context, m.from)))
  {
    hide Witnessed, FreshReads, RegsOk, Stale, IndexOf, Mine, Registered, Of, Holding;
    var c, ro := m.context, n.readOnly;
    if c in ro.pending {
      PendingContext(ss, k, regs, n, c);
      HeldNow(ss, evs, hs, k, regs, n.id, c);
      assert m.from !in Stale(ss, Mine(regs, n.id, c));
      hide TrafficOk;
      var n' := n.(readOnly := RecvAck(ro, c, m.from));
      forall d | d in n'.readOnly.pending ensures ReadOk(ss, regs, n', d) { assert ReadOk(ss, regs, n, d); }
      hide ReadOk;
      assert PendingOk(ss, regs, n');
    }
  }

  lemma PendingContext(ss: seq<Cluster>, k: nat, regs: Registry, n: Node, c: Bytes)
    requires FreshReads(ss) && RegsOk(ss, k, regs) && PendingOk(ss, regs, n) && c in n.readOnly.pending
    ensures c != [] && Holding(regs, n.id, c) && Mine(regs, n.id, c).leader == n.id
    ensures RegistrationOk(ss, k, HeldTerm(regs, n.id, c), c, Mine(regs, n.id, c))
  {
    hide Stale, IndexOf, Registered, Of, Holding;
    assert ReadOk(ss, regs, n, c);
    assert HeldOk(regs, n.id, c);
    ContextNotEmpty(ss, k, HeldTerm(regs, n.id, c), c, Mine(regs, n.id, c));
  }

  lemma SuffixPending(ss: seq<Cluster>, regs: Registry, n: Node, ctx: Bytes)
    requires PendingOk(ss, regs, n) && ReadsOk(n) && ctx in n.readOnly.pending
    ensures AdvanceReads(n.readOnly, ctx).Ok? && PendingOk(ss, regs, n.(readOnly := AdvanceReads(n.readOnly, ctx).value.0))
  {
    hide ReadsOk, AdvanceReads, Mine, Stale, IndexOf, Holding;
    AdvanceReadsValue(n, ctx);
    var q, k := n.readOnly.queue, QueuePrefix(n.readOnly.queue, ctx);
    var n' := n.(readOnly := AdvanceReads(n.readOnly, ctx).value.0);
    forall c | c in n'.readOnly.pending ensures ReadOk(ss, regs, n', c) { assert ReadOk(ss, regs, n, c); }
    forall i, j | 0 <= i < j < |q[k..]| ensures Before(regs, n.id, q[k..][i], q[k..][j]) {
      assert Before(regs, n.id, n.readOnly.queue[i + k], n.readOnly.queue[j + k]);
    }
  }

  lemma AckNode(ss: seq<Cluster>, evs: seq<(NodeId, Event)>, hs: seq<History>, k: nat, regs: Registry, n: Node, m: Message, n': Node)
    requires Witnessed(ss, evs, hs) && RegsOk(ss, k, regs) && FreshReads(ss) && PendingOk(ss, regs, n) && TrafficOk(ss, regs, m)
    requires k < |ss| && n.id in ss[k].nodes && ss[k].nodes[n.id] == n && AckStep(n, m, n') && ReadsOk(n)
    ensures PendingOk(ss, regs, n')
  {
    hide Witnessed, RegsOk, FreshReads, PendingOk, TrafficOk, ReadsOk, RecvAck, AdvanceReads, ReleaseAll;
    HandleHeartbeatRespForward(n, m);
    if n.readOnly.queue != [] {
      var ro := RecvAck(n.readOnly, m.context, m.from);
      var n1 := n.(readOnly := ro);
      AckPending(ss, evs, hs, k, regs, n, m);
      RecvAckOk(n, m.context, m.from);
      if m.context in ro.pending && |ro.pending[m.context].acks| >= Quorum(n) {
        SuffixPending(ss, regs, n1, m.context);
        var r := AdvanceReads(ro, m.context).value;
        ReleaseAllForward(n.(readOnly := r.0), r.1);
        PendingFrame(ss, regs, n1.(readOnly := r.0), n');
      } else {
        PendingFrame(ss, regs, n1, n');
      }
    } else {
      PendingFrame(ss, regs, n, n');
    }
  }

  lemma AckReads(ss: seq<Cluster>, evs: seq<(NodeId, Event)>, hs: seq<History>, k: nat, regs: Registry, id: NodeId, m: Message)
    requires Witnessed(ss, evs, hs) && FreshReads(ss) && ReadInv(ss, k, regs) && Processes(ss, k, id, m) && ss[k].nodes[id].id == id
    requires AckStep(ss[k].nodes[id], m, ss[k + 1].nodes[id]) && ReadsOk(ss[k].nodes[id])
    ensures ReadInv(ss, k + 1, regs)
  {
    hide Witnessed, RegsOk, FreshReads, PendingOk, TrafficOk, ReadsOk, Step, HandleHeartbeatResp, LocalInput;
    var n, n' := ss[k].nodes[id], ss[k + 1].nodes[id];
    RegsLater(ss, k, regs);
    assert m in ss[k].net by { NotLocal(id, m); }
    AckNode(ss, evs, hs, k, regs, n, m, n');
    HandleHeartbeatRespForward(n, m);
    forall x | x in ss[k + 1].net ensures TrafficOk(ss, regs, x) {
      if x !in ss[k].net { NoContext(ss, regs, x); }
    }
  }

  lemma InputAt(s: Cluster, h: History, id: NodeId, m: Message)
    requires Inv(s, h) && id in s.nodes && (m in s.net || LocalInput(id, m))
    ensures m.typ == MsgHeartbeat || m.typ == MsgHeartbeatResp ==> 0 < m.term
    ensures m.typ == MsgReadIndex ==> m.term == 0
    ensures ReadsOk(s.nodes[id]) && s.nodes[id].id == id && id != NONE && id in s.nodes[id].prs
  {
    hide Good, LoopOk, NodeOk, HistoryOk, ReadsOk;
    NodeAt(s, h, id);
    NodeFacts(h, TermsOf(s.nodes), s.nodes[id]);
  }

  lemma QuietAddsNone(n: Node, m: Message, n': Node)
    requires BeatStep(n, n') || ReplyStep(n, m, n')
    ensures n'.readOnly == n.readOnly
  {
  }

  lemma RegisterCarries(n: Node, m: Message, n': Node)
    requires RegisterStep(n, m, n')
    ensures m.entries != []
  {
  }

  lemma RegisterAddsOne(n: Node, m: Message, n': Node)
    requires RegisterStep(n, m, n')
    ensures forall c :: c in n'.readOnly.pending ==> c in n.readOnly.pending || c == m.entries[0].data
  {
  }

  lemma ProcessReads(ss: seq<Cluster>, evs: seq<(NodeId, Event)>, hs: seq<History>, k: nat, regs: Registry, id: NodeId, m: Message)
      returns (regs': Registry)
    requires Witnessed(ss, evs, hs) && FreshReads(ss)
    requires ReadInv(ss, k, regs) && Processes(ss, k, id, m)
    ensures ReadInv(ss, k + 1, regs') && Grown(regs, regs')
    ensures forall c :: RegistersAt(ss, k, id, c) ==> InRegistry(ss, regs', k, id, c)
  {
    hide InRegistry, Grown;
    GrownSame(regs);
    hide Witnessed, ReadInv, FreshReads, BeatStep, ReplyStep, RegisterStep, AckStep, ReadsOk;
    var n, n' := ss[k].nodes[id], ss[k + 1].nodes[id];
    ProcessCase(ss, evs, hs, k, id, m);
    hide Processes;
    regs' := regs;
    if RegisterStep(n, m, n') {
      RegisterCarries(n, m, n');
      regs' := RegisterReads(ss, evs, hs, k, regs, id, m, m.entries[0].data);
      RegisterAddsOne(n, m, n');
    } else if AckStep(n, m, n') {
      AckReads(ss, evs, hs, k, regs, id, m);
      AckAddsNone(n, m, n');
    } else {
      QuietReads(ss, evs, hs, k, regs, id, m);
      QuietAddsNone(n, m, n');
    }
  }

  lemma GrownSame(regs: Registry)
    ensures Grown(regs, regs)
  {
  }

  lemma ProcessCase(ss: seq<Cluster>, evs: seq<(NodeId, Event)>, hs: seq<History>, k: nat, id: NodeId, m: Message)
    requires Witnessed(ss, evs, hs) && Processes(ss, k, id, m)
    ensures id in ss[k].nodes && id in ss[k + 1].nodes && ReadCase(ss[k].nodes[id], m, ss[k + 1].nodes[id])
    ensures ReadsOk(ss[k].nodes[id]) && ss[k].nodes[id].id == id && id != NONE
  {
    hide Run, Inv, Step, LocalInput, ReadsOk, ReadCase;
    InputAt(ss[k], hs[k], id, m);
    StepReadCase(ss[k].nodes[id], m);
  }

  lemma AckAddsNone(n: Node, m: Message, n': Node)
    requires AckStep(n, m, n') && ReadsOk(n)
    ensures forall c :: c in n'.readOnly.pending ==> c in n.readOnly.pending
  {
    hide ReadsOk, ReleaseAll, AdvanceReads;
    if n.readOnly.queue != [] {
      var ro := RecvAck(n.readOnly, m.context, m.from);
      if m.context in ro.pending && |ro.pending[m.context].acks| >= Quorum(n) {
        RecvAckOk(n, m.context, m.from);
        AdvanceReadsValue(n.(readOnly := ro), m.context);
        var r := AdvanceReads(ro, m.context).value;
        ReleaseAllForward(n.(readOnly := r.0), r.1);
      }
    }
  }

  /** Ready and Advance leave reads and traffic alone. */
  lemma LoopReads(ss: seq<Cluster>, k: nat, regs: Registry, id: NodeId, ev: Event)
    requires ReadInv(ss, k, regs) && k + 1 < |ss| && StepOk(ss[k], id, ev, ss[k + 1]) && (ev == Ready || ev == Advance)
    ensures ReadInv(ss, k + 1, regs) && forall id', c :: !RegistersAt(ss, k, id', c)
  {
    hide RegsOk, PendingOk, TrafficOk;
    var s, s' := ss[k], ss[k + 1];
    RegsLater(ss, k, regs);
    forall j | j in s'.nodes ensures PendingOk(ss, regs, s'.nodes[j]) && s'.nodes[j].msgs <= s'.net {
      PendingFrame(ss, regs, s.nodes[j], s'.nodes[j]);
    }
  }

  /** Only the node that acts can register a read. */
  lemma OnlyActor(ss: seq<Cluster>, k: nat, id: NodeId, m: Message, id': NodeId, c: Bytes)
    requires Processes(ss, k, id, m) && RegistersAt(ss, k, id', c)
    ensures id' == id
  {
    hide Step, LocalInput;
  }

  /** Everything registered before step k, and by whom, is in the registry. */
  ghost predicate Complete(ss: seq<Cluster>, k: nat, regs: Registry) {
    forall a: nat, id, c :: RegistersAt(ss, a, id, c) && a < k ==> InRegistry(ss, regs, a, id, c)
  }

  lemma DeliversProcess(s: Cluster, id: NodeId, ev: Event, s': Cluster, ss: seq<Cluster>, k: nat)
    requires StepOk(s, id, ev, s') && (ev.Deliver? || ev.Local?) && k + 1 < |ss| && ss[k] == s && ss[k + 1] == s'
    ensures Processes(ss, k, id, ev.m)
  {
    hide Step, LocalInput;
  }

  lemma CompleteNext(ss: seq<Cluster>, k: nat, regs: Registry, regs': Registry, id: NodeId)
    requires Complete(ss, k, regs) && Grown(regs, regs')
    requires forall j, c :: RegistersAt(ss, k, j, c) ==> j == id
    requires forall c :: RegistersAt(ss, k, id, c) ==> InRegistry(ss, regs', k, id, c)
    ensures Complete(ss, k + 1, regs')
  {
    hide RegistersAt, TermOf, Registered, Of;
    forall a: nat, j, c | RegistersAt(ss, a, j, c) && a < k + 1 ensures InRegistry(ss, regs', a, j, c) {
      if a == k { assert j == id; } else { assert InRegistry(ss, regs, a, j, c); }
    }
  }

  lemma NextReads(ss: seq<Cluster>, evs: seq<(NodeId, Event)>, hs: seq<History>, k: nat, regs: Registry) returns (regs': Registry)
    requires Witnessed(ss, evs, hs) && FreshReads(ss)
    requires k + 1 < |ss| && ReadInv(ss, k, regs) && Complete(ss, k, regs)
    ensures ReadInv(ss, k + 1, regs') && Complete(ss, k + 1, regs')
  {
    hide FreshReads, ReadInv, RegistersAt, Inv, StepOk, Processes, Complete;
    var id, ev := evs[k].0, evs[k].1;
    assert StepOk(ss[k], id, ev, ss[k + 1]);
    hide Witnessed;
    hide Grown, InRegistry;
    if ev == Ready || ev == Advance {
      regs' := regs;
      GrownSame(regs);
      LoopReads(ss, k, regs, id, ev);
    } else {
      DeliversProcess(ss[k], id, ev, ss[k + 1], ss, k);
      regs' := ProcessReads(ss, evs, hs, k, regs, id, ev.m);
      forall j, c | RegistersAt(ss, k, j, c) ensures j == id { OnlyActor(ss, k, id, ev.m, j, c); }
    }
    CompleteNext(ss, k, regs, regs', id);
  }

  lemma NoReadsYet(ss: seq<Cluster>, evs: seq<(NodeId, Event)>)
    requires Run(ss, evs)
    ensures ReadInv(ss, 0, Registry(map[], map[])) && Complete(ss, 0, Registry(map[], map[]))
  {
  }

  lemma ReadsInRun(ss: seq<Cluster>, evs: seq<(NodeId, Event)>, hs: seq<History>, k: nat) returns (regs: Registry)
    requires Witnessed(ss, evs, hs) && FreshReads(ss)
    requires k < |ss|
    ensures ReadInv(ss, k, regs) && Complete(ss, k, regs)
  {
    hide FreshReads, ReadInv, Complete;
    if k == 0 {
      hide Run, Inv;
      NoReadsYet(ss, evs);
      regs := Registry(map[], map[]);
    } else {
      hide Witnessed;
      var regs1 := ReadsInRun(ss, evs, hs, k - 1);
      regs := NextReads(ss, evs, hs, k - 1, regs1);
    }
  }

  // --------------------------------------------------------------- answers

  /** The step answered the read ctx with index idx, to the local client or to the node that forwarded it. */
  ghost predicate Answers(n: Node, n': Node, ctx: Bytes, idx: nat) {
    || (n.readStates <= n'.readStates && ReadState(idx, ctx) in n'.readStates[|n.readStates|..])
    || exists x :: x in n'.msgs && x !in n.msgs && IsAnswer(x, ctx, idx)
  }

  ghost predicate IsAnswer(x: Message, ctx: Bytes, idx: nat) {
    x.typ == MsgReadIndexResp && x.entries != [] && x.entries[0].data == ctx && x.logIndex == idx
  }

  ghost predicate AnswersTo(rs: ReadStatus, ctx: Bytes, idx: nat) {
    rs.index == idx && rs.req.entries != [] && rs.req.entries[0].data == ctx
  }

  lemma {:induction false} ReleaseAnswers(n: Node, rss: seq<ReadStatus>, ctx: Bytes, idx: nat)
    requires ReleaseAll(n, rss).Ok? && Answers(n, ReleaseAll(n, rss).value, ctx, idx)
    ensures exists i :: 0 <= i < |rss| && AnswersTo(rss[i], ctx, idx)
    decreases |rss|
  {
    if rss == [] {
      NoAnswer(n, ctx, idx);
    } else if AnswersTo(rss[0], ctx, idx) {
    } else {
      hide Answers, AnswersTo, Release;
      var n1 := Release(n, rss[0]).value;
      ReleaseGrows(n1, rss[1..]);
      AnsweredLater(n, rss[0], ReleaseAll(n1, rss[1..]).value, ctx, idx);
      ReleaseAnswers(n1, rss[1..], ctx, idx);
      var i :| 0 <= i < |rss[1..]| && AnswersTo(rss[1..][i], ctx, idx);
      assert rss[i + 1] == rss[1..][i];
    }
  }

  lemma NoAnswer(n: Node, ctx: Bytes, idx: nat)
    ensures !Answers(n, n, ctx, idx)
  {
  }

  /** The release of one request answers no other. */
  lemma AnsweredLater(n: Node, rs: ReadStatus, n': Node, ctx: Bytes, idx: nat)
    requires Release(n, rs).Ok? && Answers(n, n', ctx, idx) && !AnswersTo(rs, ctx, idx)
    requires Release(n, rs).value.readStates <= n'.readStates
    ensures Answers(Release(n, rs).value, n', ctx, idx)
  {
    var n1 := Release(n, rs).value;
    hide Answers;
    ReleasedOne(n, rs, ctx, idx);
    StillAnswers(n, n1, n', ctx, idx);
  }

  lemma ReleasedOne(n: Node, rs: ReadStatus, ctx: Bytes, idx: nat)
    requires Release(n, rs).Ok? && !AnswersTo(rs, ctx, idx)
    ensures forall x :: x in Release(n, rs).value.msgs && IsAnswer(x, ctx, idx) ==> x in n.msgs
    ensures n.readStates <= Release(n, rs).value.readStates
    ensures forall i :: |n.readStates| <= i < |Release(n, rs).value.readStates| ==> Release(n, rs).value.readStates[i] != ReadState(idx, ctx)
  {
  }

  lemma StillAnswers(n: Node, n1: Node, n': Node, ctx: Bytes, idx: nat)
    requires Answers(n, n', ctx, idx) && n.readStates <= n1.readStates <= n'.readStates
    requires forall x :: x in n1.msgs && IsAnswer(x, ctx, idx) ==> x in n.msgs
    requires forall i :: |n.readStates| <= i < |n1.readStates| ==> n1.readStates[i] != ReadState(idx, ctx)
    ensures Answers(n1, n', ctx, idx)
  {
    hide IsAnswer;
    if ReadState(idx, ctx) in n'.readStates[|n.readStates|..] {
      LaterMember(n'.readStates, ReadState(idx, ctx), |n.readStates|, |n1.readStates|, n1.readStates);
    }
  }

  lemma LaterMember(s: seq<ReadState>, x: ReadState, a: nat, b: nat, p: seq<ReadState>)
    requires a <= b == |p| <= |s| && p <= s && x in s[a..] && forall i :: a <= i < b ==> p[i] != x
    ensures x in s[b..]
  {
    var i :| 0 <= i < |s[a..]| && s[a..][i] == x;
    assert s[a + i] == x;
    assert forall j :: a <= j < b ==> s[j] == p[j];
    assert s[b..][a + i - b] == x;
  }

  lemma ReleaseGrows(n: Node, rss: seq<ReadStatus>)
    requires ReleaseAll(n, rss).Ok?
    ensures n.readStates <= ReleaseAll(n, rss).value.readStates && n.msgs <= ReleaseAll(n, rss).value.msgs
    decreases |rss|
  {
    if rss != [] { ReleaseGrows(Release(n, rss[0]).value, rss[1..]); }
  }

  /** An answer comes from the queue prefix that ends in the acknowledged context. */
  lemma AckAnswers(n: Node, m: Message, n': Node, ctx: Bytes, idx: nat)
    requires AckStep(n, m, n') && ReadsOk(n) && Answers(n, n', ctx, idx)
    ensures m.context in n.readOnly.pending && |n.readOnly.pending[m.context].acks + {m.from}| >= Quorum(n)
    ensures ctx in n.readOnly.pending && idx == n.readOnly.pending[ctx].index
    ensures exists i, j :: 0 <= i <= j < |n.readOnly.queue| && n.readOnly.queue[i] == ctx && n.readOnly.queue[j] == m.context
  {
    hide ReadsOk, ReleaseAll, AdvanceReads;
    var ro := RecvAck(n.readOnly, m.context, m.from);
    assert n.readOnly.queue != [] && m.context in ro.pending && |ro.pending[m.context].acks| >= Quorum(n);
    var n1 := n.(readOnly := ro);
    RecvAckOk(n, m.context, m.from);
    AdvanceReadsOk(n1, m.context);
    var r := AdvanceReads(ro, m.context).value;
    ReleaseAnswers(n.(readOnly := r.0), r.1, ctx, idx);
    var i: nat :| 0 <= i < |r.1| && AnswersTo(r.1[i], ctx, idx);
    ReleasedAt(n1, m.context, i);
  }

  /** What a completed prefix releases stands in the queue in front of the completed request. */
  lemma ReleasedAt(n: Node, ack: Bytes, i: nat)
    requires ReadsOk(n) && ack in n.readOnly.pending && AdvanceReads(n.readOnly, ack).Ok? && i < |AdvanceReads(n.readOnly, ack).value.1|
    ensures var ro := n.readOnly; var rs := AdvanceReads(ro, ack).value.1[i];
            && i < |ro.queue| && ro.queue[i] in ro.pending && rs == ro.pending[ro.queue[i]]
            && rs.req.entries != [] && rs.req.entries[0].data == ro.queue[i]
    ensures exists j :: i <= j < |n.readOnly.queue| && n.readOnly.queue[j] == ack
  {
    hide ReadsOk, AdvanceReads;
    AdvanceReadsValue(n, ack);
    var k := QueuePrefix(n.readOnly.queue, ack);
    QueuedContext(n, i);
    assert n.readOnly.queue[k - 1] == ack;
  }

  lemma QueuedContext(n: Node, i: nat)
    requires ReadsOk(n) && i < |n.readOnly.queue|
    ensures n.readOnly.queue[i] in n.readOnly.pending
    ensures n.readOnly.pending[n.readOnly.queue[i]].req.entries != []
    ensures n.readOnly.pending[n.readOnly.queue[i]].req.entries[0].data == n.readOnly.queue[i]
  {
  }

  /** A leader of two or more members answers reads only when it gets a heartbeat acknowledgement. */
  lemma AnswersByAck(n: Node, m: Message, n': Node, ctx: Bytes, idx: nat)
    requires ReadCase(n, m, n') && n.role == Leader && n'.term == n.term && |n.prs| > 1
    requires Answers(n, n', ctx, idx)
    ensures AckStep(n, m, n')
  {
  }

  lemma NotMajority(tm: Terms, a: set<NodeId>, b: set<NodeId>)
    requires Majority(tm, a) && a !! b
    ensures !Majority(tm, b)
  {
    if Majority(tm, b) {
      var j := MajoritiesMeet(tm, a, b);
      assert false;
    }
  }

  lemma StaleGrows(ss: seq<Cluster>, evs: seq<(NodeId, Event)>, hs: seq<History>, r: Registration, r': Registration)
    requires Witnessed(ss, evs, hs) && Known(ss, r) && Known(ss, r') && r.at <= r'.at && TermOf(ss, r) == TermOf(ss, r')
    ensures Stale(ss, r) <= Stale(ss, r')
  {
    hide Witnessed;
    forall j | j in Stale(ss, r) ensures j in Stale(ss, r') {
      StaleStays(ss, evs, hs, r, r'.at, j);
    }
  }

  /** What the invariant says of two reads pending at one node, the first not queued after the second. */
  lemma TwoPending(ss: seq<Cluster>, b: nat, regs: Registry, n: Node, i: nat, j: nat)
    requires FreshReads(ss) && RegsOk(ss, b, regs) && PendingOk(ss, regs, n) && ReadsOk(n)
    requires i <= j < |n.readOnly.queue|
    ensures var c, c' := n.readOnly.queue[i], n.readOnly.queue[j];
            && c in n.readOnly.pending && c' in n.readOnly.pending && ReadOk(ss, regs, n, c) && ReadOk(ss, regs, n, c')
            && Known(ss, Mine(regs, n.id, c)) && Known(ss, Mine(regs, n.id, c')) && c' != []
            && Mine(regs, n.id, c).at <= Mine(regs, n.id, c').at
  {
    hide FreshReads, RegsOk, ReadsOk, Mine, ReadOk;
    var c, c' := n.readOnly.queue[i], n.readOnly.queue[j];
    QueuedContext(n, i);
    QueuedContext(n, j);
    if i < j { assert Before(regs, n.id, c, c'); }
    assert ReadOk(ss, regs, n, c) && ReadOk(ss, regs, n, c');
    hide PendingOk;
    PendingContext(ss, b, regs, n, c);
    PendingContext(ss, b, regs, n, c');
  }

  /** The acknowledgements that complete a read come from a majority that was not past the leader's term. */
  lemma AckMajority(ss: seq<Cluster>, evs: seq<(NodeId, Event)>, hs: seq<History>, b: nat, regs: Registry, tm: Terms, n: Node, m: Message, n': Node, ctx: Bytes, idx: nat)
    requires Witnessed(ss, evs, hs) && FreshReads(ss) && RegsOk(ss, b, regs) && PendingOk(ss, regs, n) && TrafficOk(ss, regs, m)
    requires b < |ss| && n.id in ss[b].nodes && ss[b].nodes[n.id] == n
    requires ReadsOk(n) && AckStep(n, m, n') && Answers(n, n', ctx, idx) && n.prs.Keys == tm.Keys && Registered(regs, n.term, ctx)
    ensures idx == IndexOf(ss, Of(regs, n.term, ctx)) && !Majority(tm, Stale(ss, Of(regs, n.term, ctx)))
  {
    hide Witnessed, FreshReads, RegsOk, PendingOk, ReadsOk, Answers, Stale, HandleHeartbeatResp, IndexOf, Known, Mine, Registered, Of;
    AckAnswers(n, m, n', ctx, idx);
    var i, j :| 0 <= i <= j < |n.readOnly.queue| && n.readOnly.queue[i] == ctx && n.readOnly.queue[j] == m.context;
    TwoPending(ss, b, regs, n, i, j);
    HeldNow(ss, evs, hs, b, regs, n.id, ctx);
    HeldNow(ss, evs, hs, b, regs, n.id, m.context);
    var r, r' := Of(regs, n.term, ctx), Of(regs, n.term, m.context);
    assert m.from !in Stale(ss, r');
    hide TrafficOk, AckStep;
    StaleGrows(ss, evs, hs, r, r');
    assert |n.prs| == |n.prs.Keys|;
    NotMajority(tm, n.readOnly.pending[m.context].acks + {m.from}, Stale(ss, r));
  }

  lemma ContextNotEmpty(ss: seq<Cluster>, k: nat, t: nat, ctx: Bytes, r: Registration)
    requires FreshReads(ss) && RegistrationOk(ss, k, t, ctx, r)
    ensures ctx != []
  {
  }

  /** A read is registered only by a register step of a leader of two or more members. */
  lemma RegistersByStep(ss: seq<Cluster>, evs: seq<(NodeId, Event)>, hs: seq<History>, a: nat, id: NodeId, ctx: Bytes)
    requires Witnessed(ss, evs, hs) && RegistersAt(ss, a, id, ctx)
    ensures |ss[a].nodes[id].prs| > 1
  {
    hide Inv, StepOk, Processes, BeatStep, ReplyStep, AckStep, ReadsOk;
    var ev := evs[a].1;
    assert StepOk(ss[a], evs[a].0, ev, ss[a + 1]);
    if ev == Ready || ev == Advance {
      LoopAddsNone(ss[a], evs[a].0, ev, ss[a + 1], id);
    } else {
      DeliversProcess(ss[a], evs[a].0, ev, ss[a + 1], ss, a);
      OnlyActor(ss, a, evs[a].0, ev.m, id, ctx);
      hide Witnessed;
      ProcessCase(ss, evs, hs, a, id, ev.m);
      var n, n' := ss[a].nodes[id], ss[a + 1].nodes[id];
      if AckStep(n, ev.m, n') { AckAddsNone(n, ev.m, n'); }
      else if !RegisterStep(n, ev.m, n') { QuietAddsNone(n, ev.m, n'); }
    }
  }

  lemma LoopAddsNone(s: Cluster, id: NodeId, ev: Event, s': Cluster, j: NodeId)
    requires StepOk(s, id, ev, s') && (ev == Ready || ev == Advance) && j in s.nodes
    ensures j in s'.nodes && s'.nodes[j].readOnly == s.nodes[j].readOnly
  {
  }

  lemma MembersAt(ss: seq<Cluster>, evs: seq<(NodeId, Event)>, hs: seq<History>, k: nat, id: NodeId)
    requires Witnessed(ss, evs, hs) && k < |ss| && id in ss[k].nodes
    ensures ss[k].nodes[id].prs.Keys == ss[k].nodes.Keys == ss[0].nodes.Keys && TermsOf(ss[k].nodes).Keys == ss[0].nodes.Keys
    ensures |ss[k].nodes[id].prs| == |ss[0].nodes.Keys|
  {
    hide Inv, NodeOk, HistoryOk;
    RunKeys(ss, evs, 0, k);
    NodeAt(ss[k], hs[k], id);
    NodeFacts(hs[k], TermsOf(ss[k].nodes), ss[k].nodes[id]);
  }

  /** ReadIndex safety: in a run whose read contexts are non-empty and not reused in one leadership, take a read that node id
      registers at step a and answers at step b without leaving its term. Whether it was acknowledged
      itself or completed as part of the queue before a later read, the index it returns is at least the
      commit index every node had when it was registered. */
  lemma ReadIndexSafety(ss: seq<Cluster>, evs: seq<(NodeId, Event)>, a: nat, b: nat, id: NodeId, ctx: Bytes, idx: nat, j: NodeId)
    requires Run(ss, evs) && FreshReads(ss) && a < b < |evs| && RegistersAt(ss, a, id, ctx)
    requires evs[b].0 == id && id in ss[b].nodes && id in ss[b + 1].nodes && Answers(ss[b].nodes[id], ss[b + 1].nodes[id], ctx, idx)
    requires ss[b].nodes[id].role == Leader
    requires ss[a].nodes[id].term == ss[b].nodes[id].term == ss[b + 1].nodes[id].term
    requires j in ss[a].nodes
    ensures idx >= ss[a].nodes[j].commit
  {
    hide Inv, StepOk, FreshReads, RegistersAt, ReadInv, Answers, Extends;
    var hs := RunHistories(ss, evs);
    var regs := ReadsInRun(ss, evs, hs, b);
    assert Witnessed(ss, evs, hs);
    assert InRegistry(ss, regs, a, id, ctx);
    assert StepOk(ss[b], id, evs[b].1, ss[b + 1]);
    hide Witnessed, Run, Complete;
    RegisterNode(ss, a, id, ctx);
    var m := AnswerMessage(ss, evs, hs, a, b, id, ctx, idx);
    AnswerSafe(ss, evs, hs, a, b, regs, id, m, ctx, idx, j);
  }

  lemma RegistersLeader(ss: seq<Cluster>, k: nat, regs: Registry, ctx: Bytes, a: nat, id: NodeId)
    requires ReadInv(ss, k, regs) && InRegistry(ss, regs, a, id, ctx) && a < |ss|
    ensures id in ss[a].nodes && ss[a].nodes[id].role == Leader && Known(ss, Registration(a, id))
    ensures TermAt(ss[a].nodes[id].log, ss[a].nodes[id].commit) == ss[a].nodes[id].term == TermOf(ss, Registration(a, id))
  {
    hide PendingOk, TrafficOk, Registered, Of, HeldOk, KeptOk;
    assert RegistrationOk(ss, k, TermOf(ss, Registration(a, id)), ctx, Registration(a, id));
  }

  lemma AnswerMessage(ss: seq<Cluster>, evs: seq<(NodeId, Event)>, hs: seq<History>, a: nat, b: nat, id: NodeId, ctx: Bytes, idx: nat)
      returns (m: Message)
    requires a < b < |ss| - 1 && b < |evs| && evs[b].0 == id && id in ss[b].nodes && id in ss[b + 1].nodes
    requires ss[b].nodes[id].role == Leader && ss[b].nodes[id].term == ss[b + 1].nodes[id].term
    requires RegistersAt(ss, a, id, ctx) && StepOk(ss[b], id, evs[b].1, ss[b + 1])
    requires Answers(ss[b].nodes[id], ss[b + 1].nodes[id], ctx, idx) && Witnessed(ss, evs, hs)
    ensures m in ss[b].net && AckStep(ss[b].nodes[id], m, ss[b + 1].nodes[id]) && ReadsOk(ss[b].nodes[id])
  {
    hide Witnessed, StepOk, RegistersAt, Answers, Processes, ReadCase, ReadsOk, AckStep;
    SeveralMembers(ss, evs, hs, a, b, id, ctx);
    var ev := evs[b].1;
    if ev == Ready || ev == Advance {
      LoopAnswersNone(ss[b], id, ev, ss[b + 1], ctx, idx);
    } else {
      m := ev.m;
      DeliversProcess(ss[b], id, ev, ss[b + 1], ss, b);
      ProcessCase(ss, evs, hs, b, id, m);
      AnswersByAck(ss[b].nodes[id], m, ss[b + 1].nodes[id], ctx, idx);
      AckFromNet(ss, b, id, m);
    }
  }

  /** Where a read is registered there are two or more members, then and later. */
  lemma SeveralMembers(ss: seq<Cluster>, evs: seq<(NodeId, Event)>, hs: seq<History>, a: nat, b: nat, id: NodeId, ctx: Bytes)
    requires b < |ss| && id in ss[b].nodes && RegistersAt(ss, a, id, ctx) && Witnessed(ss, evs, hs)
    ensures |ss[b].nodes[id].prs| > 1
  {
    hide Witnessed, RegistersAt, Inv, Run;
    RegisterNode(ss, a, id, ctx);
    RegistersByStep(ss, evs, hs, a, id, ctx);
    MembersAt(ss, evs, hs, a, id);
    MembersAt(ss, evs, hs, b, id);
  }

  lemma RegisterNode(ss: seq<Cluster>, a: nat, id: NodeId, ctx: Bytes)
    requires RegistersAt(ss, a, id, ctx)
    ensures a < |ss| && id in ss[a].nodes
  {
  }

  lemma AckFromNet(ss: seq<Cluster>, k: nat, id: NodeId, m: Message)
    requires Processes(ss, k, id, m) && AckStep(ss[k].nodes[id], m, ss[k + 1].nodes[id])
    ensures m in ss[k].net
  {
    hide Step, HandleHeartbeatResp;
  }

  lemma LoopAnswersNone(s: Cluster, id: NodeId, ev: Event, s': Cluster, ctx: Bytes, idx: nat)
    requires StepOk(s, id, ev, s') && (ev == Ready || ev == Advance)
    ensures id in s.nodes && id in s'.nodes && !Answers(s.nodes[id], s'.nodes[id], ctx, idx)
  {
  }

  lemma AnswerSafe(ss: seq<Cluster>, evs: seq<(NodeId, Event)>, hs: seq<History>, a: nat, b: nat, regs: Registry, id: NodeId, m: Message, ctx: Bytes, idx: nat, j: NodeId)
    requires Witnessed(ss, evs, hs) && FreshReads(ss) && a < b < |ss| - 1 && ReadInv(ss, b, regs) && InRegistry(ss, regs, a, id, ctx)
    requires id in ss[a].nodes && id in ss[b].nodes && id in ss[b + 1].nodes && j in ss[a].nodes
    requires ss[a].nodes[id].term == ss[b].nodes[id].term
    requires var n, n' := ss[b].nodes[id], ss[b + 1].nodes[id];
             m in ss[b].net && AckStep(n, m, n') && ReadsOk(n) && Answers(n, n', ctx, idx)
    ensures idx >= ss[a].nodes[j].commit
  {
    var r := Registration(a, id);
    hide FreshReads, RegsOk, PendingOk, TrafficOk, Answers, AckStep, ReadsOk, Inv, Registered, Of;
    RegistersLeader(ss, b, regs, ctx, a, id);
    MembersAt(ss, evs, hs, a, id);
    MembersAt(ss, evs, hs, b, id);
    ReadsAt(ss, evs, hs, b, id);
    AckMajority(ss, evs, hs, b, regs, TermsOf(ss[b].nodes), ss[b].nodes[id], m, ss[b + 1].nodes[id], ctx, idx);
    RegistrationSafe(ss[a], hs[a], id, j);
    if Majority(TermsOf(ss[a].nodes), Stale(ss, r)) {
      MajorityFrame(TermsOf(ss[a].nodes), TermsOf(ss[b].nodes), Stale(ss, r));
    }
  }

  /** In a cluster of one member a read is answered at once, with an index that no node's commit index exceeds. */
  lemma OneMemberRead(ss: seq<Cluster>, evs: seq<(NodeId, Event)>, k: nat, id: NodeId, m: Message, j: NodeId)
    requires Run(ss, evs) && k < |evs| && evs[k] == (id, Local(m)) && m.typ == MsgReadIndex && |ss[0].nodes.Keys| == 1
    requires id in ss[k].nodes && ss[k].nodes[id].role == Leader && j in ss[k].nodes
    ensures id in ss[k + 1].nodes && m.entries != []
    ensures var n := ss[k].nodes[id];
            ss[k + 1].nodes[id].readStates == n.readStates + [ReadState(n.commit, m.entries[0].data)] && n.commit >= ss[k].nodes[j].commit
  {
    hide Inv, Extends, StepOk, Init, Processes;
    var hs := RunHistories(ss, evs);
    assert Witnessed(ss, evs, hs);
    assert StepOk(ss[k], id, Local(m), ss[k + 1]);
    hide Witnessed, Run;
    DeliversProcess(ss[k], id, Local(m), ss[k + 1], ss, k);
    LocalRead(ss, k, id, m);
    MembersAt(ss, evs, hs, k, id);
    InputAt(ss[k], hs[k], id, m);
    OnlyMember(ss[0].nodes.Keys, id, j);
    LoneAnswer(ss[k].nodes[id], m);
  }

  lemma LocalRead(ss: seq<Cluster>, k: nat, id: NodeId, m: Message)
    requires k + 1 < |ss| && StepOk(ss[k], id, Local(m), ss[k + 1]) && Processes(ss, k, id, m) && m.typ == MsgReadIndex
    ensures m.entries != [] && LocalInput(id, m)
    ensures id in ss[k + 1].nodes && Step(ss[k].nodes[id], m) == Ok(ss[k + 1].nodes[id])
  {
    hide Step;
  }

  lemma OnlyMember(members: set<NodeId>, id: NodeId, j: NodeId)
    requires |members| == 1 && id in members && j in members
    ensures id == j
  {
    if id != j {
      assert {id, j} <= members;
      CardinalityMonotone({id, j}, members);
    }
  }

  lemma LoneAnswer(n: Node, m: Message)
    requires n.role == Leader && |n.prs| == 1 && n.id in n.prs && m.typ == MsgReadIndex && m.term == 0 && m.entries != []
    ensures Step(n, m) == Ok(n.(readStates := n.readStates + [ReadState(n.commit, m.entries[0].data)]))
  {
  }
}
