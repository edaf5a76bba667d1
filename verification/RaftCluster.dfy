/** A cluster of nodes with fixed membership over a network that may lose, repeat and reorder messages. */
module RaftCluster {
  import opened RaftTypes
  import opened RaftFlatLog
  import opened RaftSpec

  /** What `Node.run` remembers between a Ready and its Advance, plus everything delivered so far. */
  datatype Loop = Loop(awaiting: bool, readyLog: Log, readyCommit: nat, delivered: seq<Entry>)

  /** `net` holds every message ever queued for sending. */
  datatype Cluster = Cluster(nodes: map<NodeId, Node>, loops: map<NodeId, Loop>, net: set<Message>)

  datatype Event =
    | Deliver(m: Message)   // a message from a peer, possibly not for the first time
    | Local(m: Message)     // a timer or a client request of this node
    | Ready                 // the application takes a Ready
    | Advance               // the application has processed it

  /** `newRaft` and `StartNode` on empty storage, with the same peers everywhere. */
  predicate InitialNode(n: Node, members: set<NodeId>) {
    && n.term == 1 && n.vote == NONE && n.role == Follower && n.lead == NONE
    && n.votes == map[] && n.prs == (map id | id in members :: Progress(0, 1))
    && n.log == [] && n.commit == 0 && n.applied == 0 && !n.pendingConf
    && n.readOnly == ReadOnly(map[], []) && n.readStates == [] && n.msgs == {}
  }

  predicate Init(s: Cluster) {
    && NONE !in s.nodes
    && s.loops.Keys == s.nodes.Keys
    && (forall id :: id in s.nodes ==> s.nodes[id].id == id && InitialNode(s.nodes[id], s.nodes.Keys))
    && (forall id :: id in s.loops ==> s.loops[id] == Loop(false, [], 0, []))
    && s.net == {}
  }

  /** Inputs that reach a node without the network: timers, campaign, proposals and reads. */
  predicate LocalInput(id: NodeId, m: Message) {
    && m.term == 0
    && (m.from == NONE || m.from == id)
    && (m.typ == MsgHup || m.typ == MsgBeat || ((m.typ == MsgProp || m.typ == MsgReadIndex) && m.entries != []))
  }

  predicate Enabled(s: Cluster, id: NodeId, ev: Event) {
    && id in s.nodes && id in s.loops
    && match ev
       case Deliver(m) => m in s.net && m.to == id
       case Local(m) => LocalInput(id, m)
       case Ready => !s.loops[id].awaiting
       case Advance => s.loops[id].awaiting
  }

  /** `nextEntries`: committed but not applied. */
  function NextEntries(n: Node): Outcome<seq<Entry>> {
    if n.commit <= n.applied then Ok([])
    else if n.commit > |n.log| then Panic
    else Ok(n.log[n.applied..n.commit])
  }

  function AppliedTo(n: Node, i: nat): Outcome<Node> {
    if i == 0 then Ok(n)
    else if n.commit < i || i < n.applied then Panic
    else Ok(n.(applied := i))
  }

  ghost function StepNode(s: Cluster, id: NodeId, m: Message): Outcome<Cluster>
    requires id in s.nodes
  {
    var n :- Step(s.nodes[id], m);
    Ok(s.(nodes := s.nodes[id := n], net := s.net + n.msgs))
  }

  ghost function Apply(s: Cluster, id: NodeId, ev: Event): Outcome<Cluster>
    requires id in s.nodes && id in s.loops
  {
    var n := s.nodes[id];
    var l := s.loops[id];
    match ev
    case Deliver(m) => StepNode(s, id, m)
    case Local(m) => StepNode(s, id, m)
    case Ready =>
      var es :- NextEntries(n);
      Ok(s.(nodes := s.nodes[id := n.(msgs := {}, readStates := [])],
            loops := s.loops[id := Loop(true, n.log, n.commit, l.delivered + es)]))
    case Advance =>
      var n' :- AppliedTo(n, l.readyCommit);
      Ok(s.(nodes := s.nodes[id := n'], loops := s.loops[id := l.(awaiting := false)]))
  }

  /** A run: states, and the node and event that lead from each to the next. */
  ghost predicate Run(ss: seq<Cluster>, evs: seq<(NodeId, Event)>) {
    && |ss| == |evs| + 1
    && Init(ss[0])
    && (forall k :: 0 <= k < |evs| ==> StepOk(ss[k], evs[k].0, evs[k].1, ss[k + 1]))
  }

  ghost predicate StepOk(s: Cluster, id: NodeId, ev: Event, s': Cluster) {
    Enabled(s, id, ev) && Apply(s, id, ev) == Ok(s')
  }
}
