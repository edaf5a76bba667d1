/** Pre-vote: it is asked for in the term the asker is in, so members that have all voted in one term never elect anyone. */
module RaftPreVote {
  import opened RaftTypes
  import opened RaftFlatLog
  import opened RaftSpec
  import opened RaftInvariant
  import opened RaftReplication
  import opened RaftCluster
  import opened RaftCommits
  import opened RaftSteps
  import opened RaftForward
  import opened RaftSafety
  import opened RaftReads
  import opened RaftHandlers
  import opened RaftProgress
  import opened RaftAnswers

  // ---------------------------------------------------------- stuck for ever

  /** A message that helps no one who has voted in term t. */
  ghost predicate Dull(m: Message, t: nat) {
    && m.term <= t
    && (if m.typ == MsgProp || m.typ == MsgReadIndex then m.term == 0 else 1 <= m.term)
    && (m.term == t ==>
          || ((m.typ == MsgVote || m.typ == MsgPreVote) && m.from != m.to) || m.typ == MsgAppResp
          || ((m.typ == MsgVoteResp || m.typ == MsgPreVoteResp) && m.reject))
  }

  /** A member that has voted for itself in term t, does not lead and has no other vote. */
  ghost predicate Settles(n: Node, t: nat) {
    && n.preVote && n.term == t && n.vote == n.id && n.id != NONE && n.id in n.prs && n.role != Leader
    && forall j :: j in n.votes && n.votes[j] ==> j == n.id
  }

  ghost predicate Stuck(s: Cluster, t: nat) {
    && 1 <= t
    && (forall id :: id in s.nodes ==> Settles(s.nodes[id], t) && s.nodes[id].id == id && s.nodes[id].msgs <= s.net)
    && (forall m :: m in s.net ==> Dull(m, t))
  }

  /** The log, its commit index and the term stay, and only dull messages are sent. */
  ghost predicate Nothing(n: Node, n': Node, t: nat) {
    && Settles(n', t) && n'.id == n.id && n'.log == n.log && n'.commit == n.commit && n'.prs == n.prs
    && forall x :: x in n'.msgs ==> x in n.msgs || Dull(x, t)
  }

  /** The only vote for a member is its own. */
  lemma OwnVote(n: Node)
    requires forall j :: j in n.votes && n.votes[j] ==> j == n.id
    ensures Granted(n) <= 1
  {
    RaftSpec.CardinalityMonotone(Ayes(n.votes), {n.id});
  }

  lemma HupNothing(n: Node, t: nat)
    requires Settles(n, t) && 1 <= t && |n.prs| >= 2 && Hup(n).Ok?
    ensures Nothing(n, Hup(n).value, t)
  {
    var n2 := RaftSpec.Poll(BecomePreCandidate(n).value, n.id, true);
    assert n2.votes == map[n.id := true] && Ayes(n2.votes) == {n.id};
    assert |Ayes(n2.votes)| == 1;
  }

  lemma BallotNothing(n: Node, m: Message, t: nat)
    requires Settles(n, t) && 1 <= t && m.term == t && m.from != n.id
    ensures Nothing(n, HandleVote(n, m), t) && Nothing(n, HandlePreVote(n, m), t)
  {
  }

  lemma TallyNothing(n: Node, m: Message, t: nat)
    requires Settles(n, t) && 1 <= t && |n.prs| >= 2 && m.reject
    ensures Tally(n, m).Ok? && Nothing(n, Tally(n, m).value, t)
  {
    hide CampaignElection, BecomeLeader, Granted;
    var n1 := RaftSpec.Poll(n, m.from, false);
    OwnVote(n1);
  }

  lemma RoleNothing(n: Node, m: Message, t: nat)
    requires Settles(n, t) && 1 <= t && |n.prs| >= 2 && StepRole(n, m).Ok?
    requires m.typ == MsgProp || m.typ == MsgReadIndex || m.typ == MsgAppResp || m.typ == MsgBeat
          || ((m.typ == MsgVoteResp || m.typ == MsgPreVoteResp) && m.reject)
    requires m.typ == MsgProp || m.typ == MsgReadIndex ==> m.term == 0
    ensures Nothing(n, StepRole(n, m).value, t)
  {
    hide Tally;
    if n.role != Follower && (m.typ == MsgVoteResp || m.typ == MsgPreVoteResp) { TallyNothing(n, m, t); }
  }

  /** Whatever reaches a member of a stuck cluster changes nothing that matters. */
  lemma StepNothing(n: Node, m: Message, t: nat)
    requires Settles(n, t) && 1 <= t && |n.prs| >= 2 && Step(n, m).Ok?
    requires (Dull(m, t) && m.to == n.id) || LocalInput(n.id, m)
    ensures Nothing(n, Step(n, m).value, t)
  {
    hide Hup, StepRole, HandleVote, HandlePreVote, Nothing, Settles;
    assert n.term == t by { SettledTerm(n, t); }
    if 0 < m.term < n.term {
      StaleNothing(n, m, t);
    } else {
      assert ObserveTerm(n, m) == n;
      match m.typ
      case MsgHup => HupNothing(n, t);
      case MsgVote => BallotNothing(n, m, t);
      case MsgPreVote => BallotNothing(n, m, t);
      case _ => RoleNothing(n, m, t);
    }
  }

  lemma SettledTerm(n: Node, t: nat)
    requires Settles(n, t)
    ensures n.term == t
  {
  }

  lemma StaleNothing(n: Node, m: Message, t: nat)
    requires Settles(n, t) && 0 < m.term < t && ((Dull(m, t) && m.to == n.id) || LocalInput(n.id, m))
    ensures Step(n, m).Ok? && Nothing(n, Step(n, m).value, t)
  {
  }

  lemma StepStuck(s: Cluster, id: NodeId, m: Message, t: nat, n': Node)
    requires Stuck(s, t) && id in s.nodes && Nothing(s.nodes[id], n', t)
    ensures Stuck(s.(nodes := s.nodes[id := n'], net := s.net + n'.msgs), t)
  {
    hide Dull, Settles;
  }

  lemma LoopStuck(s: Cluster, id: NodeId, ev: Event, s': Cluster, t: nat)
    requires Stuck(s, t) && StepOk(s, id, ev, s') && (ev.Ready? || ev.Advance?)
    ensures Stuck(s', t)
  {
    hide NextEntries, Dull;
  }

  lemma StuckAt(s: Cluster, t: nat, id: NodeId)
    requires Stuck(s, t) && id in s.nodes
    ensures Settles(s.nodes[id], t) && s.nodes[id].id == id && 1 <= t
    ensures forall m :: m in s.net ==> Dull(m, t)
  {
    hide Dull, Settles;
  }

  lemma EventStuck(s: Cluster, h: History, id: NodeId, ev: Event, s': Cluster, t: nat)
    requires Inv(s, h) && |s.nodes| >= 2 && Stuck(s, t) && StepOk(s, id, ev, s')
    ensures Stuck(s', t) && |s'.nodes| == |s.nodes|
  {
    hide Inv, Step, LocalInput, Stuck, NextEntries, Dull, Settles, Nothing;
    StuckAt(s, t, id);
    if ev.Deliver? || ev.Local? {
      SeveralAt(s, h, id);
      StepNothing(s.nodes[id], ev.m, t);
      StepStuck(s, id, ev.m, t, Step(s.nodes[id], ev.m).value);
    } else {
      LoopStuck(s, id, ev, s', t);
    }
    assert s'.nodes.Keys == s.nodes.Keys && |s.nodes| == |s.nodes.Keys| && |s'.nodes| == |s'.nodes.Keys|;
  }

  lemma SeveralAt(s: Cluster, h: History, id: NodeId)
    requires Inv(s, h) && id in s.nodes
    ensures |s.nodes[id].prs| == |s.nodes|
  {
    hide Inv, NodeOk, HistoryOk;
    NodeAt(s, h, id);
    NodeFacts(h, TermsOf(s.nodes), s.nodes[id]);
    assert TermsOf(s.nodes).Keys == s.nodes.Keys;
    assert |s.nodes[id].prs| == |s.nodes[id].prs.Keys| && |s.nodes| == |s.nodes.Keys|;
  }

  lemma {:induction false} StuckOn(ss: seq<Cluster>, evs: seq<(NodeId, Event)>, hs: seq<History>, a: nat, b: nat, t: nat)
    requires Witnessed(ss, evs, hs) && a <= b < |ss| && |ss[a].nodes| >= 2 && Stuck(ss[a], t)
    ensures Stuck(ss[b], t) && |ss[b].nodes| >= 2
    decreases b - a
  {
    hide Inv, Stuck;
    if a < b {
      StuckOn(ss, evs, hs, a, b - 1, t);
      assert StepOk(ss[b - 1], evs[b - 1].0, evs[b - 1].1, ss[b]);
      hide StepOk;
      EventStuck(ss[b - 1], hs[b - 1], evs[b - 1].0, evs[b - 1].1, ss[b], t);
    }
  }

  /** Once all members have voted for themselves in one term, no run goes on to elect a leader. */
  lemma NeverLeads(ss: seq<Cluster>, evs: seq<(NodeId, Event)>, a: nat, b: nat, t: nat, id: NodeId)
    requires Run(ss, evs) && a <= b < |ss| && |ss[a].nodes| >= 2 && Stuck(ss[a], t) && id in ss[b].nodes
    ensures ss[b].nodes[id].role != Leader && ss[b].nodes[id].term == t
  {
    hide Inv, Extends, Init, Dull;
    var hs := RunHistories(ss, evs);
    assert Witnessed(ss, evs, hs);
    hide Run, Witnessed;
    StuckOn(ss, evs, hs, a, b, t);
  }

  // ------------------------------------------------------ how it gets there

  /** A member as it starts, but for the role and what it has sent. */
  ghost predicate New(n: Node, id: NodeId) {
    n.id == id && n.preVote && n.term == 1 && n.vote == NONE && n.log == [] && n.commit == n.applied == 0 && n.role != Leader
  }

  /** Member i has asked all others for a pre-vote, and all have said yes. */
  ghost predicate Preferred(s: Cluster, i: NodeId) {
    && i in s.nodes && New(s.nodes[i], i) && s.nodes[i].role == PreCandidate && s.nodes[i].votes == map[i := true]
    && forall j :: j in s.nodes && j != i ==> PreVoteYes(j, i, 1) in s.net
  }

  ghost predicate Early(m: Message) {
    || (m.term == 1 && (m.typ == MsgPreVote || m.typ == MsgPreVoteResp))
    || (m.term == 2 && m.typ == MsgVote && m.from != m.to)
  }

  ghost predicate Traffic(s: Cluster) {
    (forall x :: x in s.net ==> Early(x)) && forall j :: j in s.nodes ==> s.nodes[j].msgs <= s.net
  }

  /** Members have only sent messages. */
  ghost predicate OnlySent(s: Cluster, s': Cluster) {
    s'.nodes.Keys == s.nodes.Keys && s.net <= s'.net && Traffic(s')
    && forall j :: j in s.nodes ==> s'.nodes[j] == s.nodes[j].(msgs := s'.nodes[j].msgs)
  }

  ghost predicate AllNew(s: Cluster) { Traffic(s) && forall j :: j in s.nodes ==> New(s.nodes[j], j) }

  lemma SayYes(s: Cluster, i: NodeId, j: NodeId) returns (s': Cluster)
    requires Live(s) && AllNew(s) && i in s.nodes && j in s.nodes && j != i && PreVoteMsg(s.nodes[i], j) in s.net
    ensures Live(s') && Reaches(s, s') && OnlySent(s, s') && AllNew(s') && PreVoteYes(j, i, 1) in s'.net
  {
    hide Live, Reaches, Step, Tidy;
    RequesterKnown(s, j);
    MembersKnown(s, j);
    var n, m := s.nodes[j], PreVoteMsg(s.nodes[i], j);
    assert New(n, j) && New(s.nodes[i], i);
    PreVoteDecided(n, m);
    s' := Handle(s, j, m);
    assert s'.nodes[j] == n.(msgs := n.msgs + {PreVoteYes(j, i, 1)});
    hide PreVoteMsg;
    OneSent(s, s', j, PreVoteYes(j, i, 1));
  }

  lemma OneSent(s: Cluster, s': Cluster, j: NodeId, x: Message)
    requires AllNew(s) && j in s.nodes && Early(x) && j in s'.nodes && s'.nodes == s.nodes[j := s'.nodes[j]]
    requires s'.nodes[j] == s.nodes[j].(msgs := s.nodes[j].msgs + {x}) && s'.net == s.net + s'.nodes[j].msgs
    ensures OnlySent(s, s') && AllNew(s') && x in s'.net
  {
    hide Early;
    assert New(s.nodes[j], j);
  }

  ghost predicate PreAsked(s: Cluster, i: NodeId, ids: set<NodeId>) {
    i in s.nodes && ids <= s.nodes.Keys - {i} && forall j :: j in ids ==> PreVoteMsg(s.nodes[i], j) in s.net
  }

  ghost predicate SaidYes(s: Cluster, i: NodeId, ids: set<NodeId>) { forall j :: j in ids ==> PreVoteYes(j, i, 1) in s.net }

  lemma NoneSent(s: Cluster, i: NodeId)
    requires AllNew(s)
    ensures OnlySent(s, s) && SaidYes(s, i, {})
  {
  }

  lemma OneAsked(s: Cluster, s1: Cluster, i: NodeId, ids: set<NodeId>, j: NodeId)
    requires PreAsked(s, i, ids) && j in ids && OnlySent(s, s1)
    ensures i in s1.nodes && j in s1.nodes && j != i && PreVoteMsg(s1.nodes[i], j) in s1.net
  {
    assert PreVoteMsg(s1.nodes[i], j) == PreVoteMsg(s.nodes[i], j);
  }

  lemma FewerAsked(s: Cluster, i: NodeId, ids: set<NodeId>, j: NodeId)
    requires PreAsked(s, i, ids)
    ensures PreAsked(s, i, ids - {j})
  {
    hide PreVoteMsg;
  }

  lemma SentThen(s: Cluster, s1: Cluster, s': Cluster, i: NodeId, ids: set<NodeId>, j: NodeId)
    requires OnlySent(s, s1) && OnlySent(s1, s') && SaidYes(s1, i, ids - {j}) && PreVoteYes(j, i, 1) in s'.net
    ensures OnlySent(s, s') && SaidYes(s', i, ids)
  {
    hide PreVoteYes, Traffic;
    forall k | k in ids ensures PreVoteYes(k, i, 1) in s'.net {
      if k != j { assert k in ids - {j}; }
    }
  }

  lemma Yeses(s: Cluster, i: NodeId, ids: set<NodeId>) returns (s': Cluster)
    requires Live(s) && AllNew(s) && PreAsked(s, i, ids)
    ensures Live(s') && Reaches(s, s') && OnlySent(s, s') && AllNew(s') && SaidYes(s', i, ids)
  {
    hide *;
    if ids == {} {
      s' := s;
      Stay(s);
      NoneSent(s, i);
    } else {
      var j :| j in ids;
      FewerAsked(s, i, ids, j);
      var s1 := Yeses(s, i, ids - {j});
      OneAsked(s, s1, i, ids, j);
      s' := SayYes(s1, i, j);
      Then(s, s1, s');
      SentThen(s, s1, s', i, ids, j);
    }
  }

  /** Member i times out and asks everyone. */
  lemma PreAsk(s: Cluster, i: NodeId) returns (s': Cluster)
    requires Live(s) && AllNew(s) && i in s.nodes && |s.nodes| >= 2
    ensures Live(s') && Reaches(s, s') && AllNew(s') && s.net <= s'.net && Except(s, s', {i}) && PreAsked(s', i, s'.nodes.Keys - {i})
    ensures s'.nodes[i].role == PreCandidate && s'.nodes[i].votes == map[i := true]
  {
    hide Live, Reaches, Step;
    RequesterKnown(s, i);
    MembersKnown(s, i);
    assert New(s.nodes[i], i);
    PreHup(s.nodes[i]);
    s' := Handle(s, i, HUP);
    hide Queued;
    PreAskedNow(s, s', i);
  }

  lemma PreAskedNow(s: Cluster, s': Cluster, i: NodeId)
    requires AllNew(s) && i in s.nodes && s.nodes[i].prs.Keys == s.nodes.Keys
    requires i in s'.nodes && s'.nodes == s.nodes[i := s'.nodes[i]] && s'.net == s.net + s'.nodes[i].msgs
    requires var n, n' := s.nodes[i], s'.nodes[i];
             && n' == n.(role := PreCandidate, votes := map[i := true], msgs := n'.msgs)
             && (forall j :: j in n.prs && j != i ==> PreVoteMsg(n, j) in n'.msgs)
             && (forall x :: x in n'.msgs ==> x in n.msgs || (x.to != i && x == PreVoteMsg(n, x.to)))
    ensures AllNew(s') && Except(s, s', {i}) && PreAsked(s', i, s'.nodes.Keys - {i})
  {
    var n, n' := s.nodes[i], s'.nodes[i];
    assert New(n, i);
    forall x | x in s'.net ensures Early(x) {}
    forall j | j in s'.nodes && j != i ensures PreVoteMsg(n', j) in s'.net { assert PreVoteMsg(n', j) == PreVoteMsg(n, j); }
  }

  ghost predicate AllPreferred(s: Cluster, ids: set<NodeId>) { forall i :: i in ids ==> Preferred(s, i) }

  lemma PreferredNow(s: Cluster, s1: Cluster, s': Cluster, ids: set<NodeId>, i: NodeId)
    requires AllPreferred(s, ids - {i}) && Except(s, s1, {i}) && s.net <= s1.net && OnlySent(s1, s') && AllNew(s')
    requires i in s1.nodes && s1.nodes[i].role == PreCandidate && s1.nodes[i].votes == map[i := true] && SaidYes(s', i, s1.nodes.Keys - {i})
    ensures AllPreferred(s', ids) && s'.nodes.Keys == s.nodes.Keys
  {
    hide PreVoteYes, Traffic;
    forall k | k in ids ensures Preferred(s', k) {
      assert k != i ==> k in ids - {i} && Preferred(s, k);
      assert New(s'.nodes[k], k);
    }
  }

  lemma PreRound(s: Cluster, ids: set<NodeId>) returns (s': Cluster)
    requires Live(s) && AllNew(s) && ids <= s.nodes.Keys && |s.nodes| >= 2
    ensures Live(s') && Reaches(s, s') && AllNew(s') && AllPreferred(s', ids) && s'.nodes.Keys == s.nodes.Keys
  {
    hide *;
    if ids == {} {
      s' := s;
      Stay(s);
      NonePreferred(s);
    } else {
      var i :| i in ids;
      var s1 := PreRound(s, ids - {i});
      SameCount(s, s1);
      var s2 := PreAsk(s1, i);
      Then(s, s1, s2);
      ExceptKeysIn(s1, s2, i);
      s' := Yeses(s2, i, s2.nodes.Keys - {i});
      Then(s, s2, s');
      PreferredNow(s1, s2, s', ids, i);
    }
  }

  lemma NonePreferred(s: Cluster)
    ensures AllPreferred(s, {})
  {
  }

  lemma ExceptKeysIn(s: Cluster, s': Cluster, i: NodeId)
    requires Except(s, s', {i}) && i in s.nodes
    ensures i in s'.nodes && s'.nodes.Keys == s.nodes.Keys
  {
  }

  /** A member that campaigns in term 2 and has no vote but its own. */
  ghost predicate Alone(n: Node, id: NodeId) {
    n.id == id && n.preVote && n.term == 2 && n.vote == id && n.role == Candidate && n.votes == map[id := true]
  }

  /** Members done campaign; the others can. */
  ghost predicate Mixed(s: Cluster, done: set<NodeId>) {
    && Traffic(s) && forall j :: j in s.nodes ==> if j in done then Alone(s.nodes[j], j) else Preferred(s, j)
  }

  /** Member i has the pre-votes of ids, and nothing else has happened. */
  ghost predicate PreCountedBy(s: Cluster, s': Cluster, i: NodeId, ids: set<NodeId>) {
    && i in s.nodes && i in s'.nodes && s'.net == s.net && Except(s, s', {i})
    && s'.nodes[i] == s.nodes[i].(votes := s'.nodes[i].votes)
    && s'.nodes[i].votes.Keys == ids && forall j :: j in ids ==> s'.nodes[i].votes[j]
  }

  lemma PreCountOne(s: Cluster, i: NodeId, j: NodeId) returns (s': Cluster)
    requires Live(s) && i in s.nodes && New(s.nodes[i], i) && s.nodes[i].role == PreCandidate && PreVoteYes(j, i, 1) in s.net
    requires j !in s.nodes[i].votes && (forall k :: k in s.nodes[i].votes ==> s.nodes[i].votes[k])
    requires 2 * (|s.nodes[i].votes| + 1) <= |s.nodes| && s.nodes[i].msgs <= s.net
    ensures Live(s') && Reaches(s, s') && s'.net == s.net && Except(s, s', {i})
    ensures s'.nodes[i] == s.nodes[i].(votes := s.nodes[i].votes[j := true])
  {
    hide Live, Reaches, Step, Queued;
    MembersKnown(s, i);
    PreCounted(s.nodes[i], j);
    s' := Handle(s, i, PreVoteYes(j, i, 1));
  }

  ghost predicate Yet(s: Cluster, i: NodeId, ids: set<NodeId>) {
    Traffic(s) && Preferred(s, i) && ids <= s.nodes.Keys - {i}
  }

  lemma NonePreCounted(s: Cluster, i: NodeId, ids: set<NodeId>)
    requires Yet(s, i, ids)
    ensures PreCountedBy(s, s, i, {i})
  {
  }

  lemma NextPreVote(s: Cluster, s1: Cluster, i: NodeId, ids: set<NodeId>, j: NodeId)
    requires Yet(s, i, ids) && PreCountedBy(s, s1, i, {i} + (ids - {j})) && j in s.nodes && j != i
    ensures i in s1.nodes && New(s1.nodes[i], i) && s1.nodes[i].role == PreCandidate && PreVoteYes(j, i, 1) in s1.net
    ensures j !in s1.nodes[i].votes && (forall k :: k in s1.nodes[i].votes ==> s1.nodes[i].votes[k])
    ensures s1.nodes[i].msgs <= s1.net && |s1.nodes| == |s.nodes| && |s1.nodes[i].votes| == |ids - {j}| + 1
  {
    hide PreVoteYes, Early;
    var votes := s1.nodes[i].votes;
    assert |votes| == |votes.Keys| && |s.nodes| == |s.nodes.Keys| && |s1.nodes| == |s1.nodes.Keys|;
    assert |{i} + (ids - {j})| == |ids - {j}| + 1;
  }

  lemma OneMorePre(s: Cluster, s1: Cluster, s': Cluster, i: NodeId, ids: set<NodeId>, j: NodeId)
    requires PreCountedBy(s, s1, i, {i} + (ids - {j})) && j in ids && s'.net == s1.net && Except(s1, s', {i})
    requires s'.nodes[i] == s1.nodes[i].(votes := s1.nodes[i].votes[j := true])
    ensures PreCountedBy(s, s', i, {i} + ids)
  {
    assert {i} + ids == {i} + (ids - {j}) + {j};
  }

  lemma PreCount(s: Cluster, i: NodeId, ids: set<NodeId>) returns (s': Cluster)
    requires Live(s) && Yet(s, i, ids) && 2 * (|ids| + 1) <= |s.nodes|
    ensures Live(s') && Reaches(s, s') && PreCountedBy(s, s', i, {i} + ids)
  {
    hide *;
    if ids == {} {
      s' := s;
      Stay(s);
      NonePreCounted(s, i, ids);
      assert {i} + ids == {i};
    } else {
      var j :| j in ids;
      assert |ids - {j}| == |ids| - 1;
      FewerYet(s, i, ids, j);
      var s1 := PreCount(s, i, ids - {j});
      NextPreVote(s, s1, i, ids, j);
      s' := PreCountOne(s1, i, j);
      Then(s, s1, s');
      OneMorePre(s, s1, s', i, ids, j);
    }
  }

  lemma FewerYet(s: Cluster, i: NodeId, ids: set<NodeId>, j: NodeId)
    requires Yet(s, i, ids) && j in ids
    ensures Yet(s, i, ids - {j}) && j in s.nodes && j != i
  {
    hide Traffic, Preferred;
  }

  lemma PreElectOne(s: Cluster, i: NodeId, j: NodeId) returns (s': Cluster)
    requires Live(s) && i in s.nodes && New(s.nodes[i], i) && s.nodes[i].role == PreCandidate && PreVoteYes(j, i, 1) in s.net
    requires j !in s.nodes[i].votes && (forall k :: k in s.nodes[i].votes ==> s.nodes[i].votes[k])
    requires |s.nodes| / 2 == |s.nodes[i].votes| && |s.nodes| >= 2
    ensures Live(s') && Reaches(s, s') && Except(s, s', {i}) && s.net <= s'.net && Alone(s'.nodes[i], i)
    ensures s'.net == s.net + s'.nodes[i].msgs && forall x :: x in s'.nodes[i].msgs ==> x in s.nodes[i].msgs || Early(x)
  {
    hide Live, Reaches, Step, Queued;
    MembersKnown(s, i);
    PreElects(s.nodes[i], j);
    s' := Handle(s, i, PreVoteYes(j, i, 1));
  }

  lemma HalfPre(s: Cluster, i: NodeId) returns (ids: set<NodeId>, j: NodeId)
    requires Traffic(s) && Preferred(s, i) && |s.nodes| >= 2
    ensures Yet(s, i, ids) && |ids| + 1 == |s.nodes| / 2 && j in s.nodes && j != i && j !in ids && ids - {j} == ids
  {
    hide Traffic;
    assert |s.nodes| == |s.nodes.Keys|;
    ids := Some(s.nodes.Keys - {i}, |s.nodes| / 2 - 1);
    var rest := s.nodes.Keys - {i} - ids;
    assert |rest| == |s.nodes| - 1 - |ids|;
    j :| j in rest;
  }

  lemma OneCampaigns(s: Cluster, done: set<NodeId>, i: NodeId) returns (s': Cluster)
    requires Live(s) && Mixed(s, done - {i}) && i in s.nodes && |s.nodes| >= 2
    ensures Live(s') && Reaches(s, s') && Mixed(s', done + {i}) && s'.nodes.Keys == s.nodes.Keys
  {
    hide *;
    CanCampaign(s, done, i);
    var ids, j := HalfPre(s, i);
    var s1 := PreCount(s, i, ids);
    NextPreVote(s, s1, i, ids, j);
    s' := PreElectOne(s1, i, j);
    Then(s, s1, s');
    MixedNow(s, s1, s', done, {i} + ids, i);
  }

  lemma CanCampaign(s: Cluster, done: set<NodeId>, i: NodeId)
    requires Mixed(s, done - {i}) && i in s.nodes
    ensures Traffic(s) && Preferred(s, i)
  {
    hide Traffic, Preferred;
  }

  lemma MixedNow(s: Cluster, s1: Cluster, s': Cluster, done: set<NodeId>, ids: set<NodeId>, i: NodeId)
    requires Mixed(s, done - {i}) && i in s.nodes && PreCountedBy(s, s1, i, ids) && Except(s1, s', {i}) && Alone(s'.nodes[i], i)
    requires s'.net == s1.net + s'.nodes[i].msgs && forall x :: x in s'.nodes[i].msgs ==> x in s1.nodes[i].msgs || Early(x)
    ensures Mixed(s', done + {i}) && s'.nodes.Keys == s.nodes.Keys
  {
    hide PreVoteYes, Early, New, Alone;
    forall j | j in s'.nodes && j != i ensures s'.nodes[j] == s.nodes[j] {}
    forall j | j in s'.nodes ensures if j in done + {i} then Alone(s'.nodes[j], j) else Preferred(s', j) {
      if j != i { assert if j in done - {i} then Alone(s.nodes[j], j) else Preferred(s, j); }
    }
  }

  lemma AllCampaign(s: Cluster, done: set<NodeId>) returns (s': Cluster)
    requires Live(s) && Mixed(s, {}) && done <= s.nodes.Keys && |s.nodes| >= 2
    ensures Live(s') && Reaches(s, s') && Mixed(s', done) && s'.nodes.Keys == s.nodes.Keys
  {
    hide *;
    if done == {} {
      s' := s;
      Stay(s);
      assert done == {};
    } else {
      var i :| i in done;
      var s1 := AllCampaign(s, done - {i});
      SameCount(s, s1);
      s' := OneCampaigns(s1, done, i);
      assert done + {i} == done;
      Then(s, s1, s');
    }
  }

  lemma MixedStuck(s: Cluster)
    requires Live(s) && Mixed(s, s.nodes.Keys)
    ensures Stuck(s, 2)
  {
    hide Live;
    forall id | id in s.nodes ensures Settles(s.nodes[id], 2) && s.nodes[id].id == id {
      assert Alone(s.nodes[id], id);
      RequesterKnown(s, id);
      MembersKnown(s, id);
    }
    forall m | m in s.net ensures Dull(m, 2) { assert Early(m); }
  }

  lemma InitNew(s: Cluster)
    requires Init(s) && forall j :: j in s.nodes ==> s.nodes[j].preVote
    ensures AllNew(s) && Live(s)
  {
    assert RunTo([s], [], s);
  }

  lemma AllMixed(s: Cluster)
    requires AllNew(s) && AllPreferred(s, s.nodes.Keys)
    ensures Mixed(s, {})
  {
    hide New, Preferred;
  }

  /** From every start with pre-vote and two members or more, some run gets stuck. */
  lemma GetsStuck(s: Cluster) returns (s': Cluster)
    requires Init(s) && |s.nodes| >= 2 && forall j :: j in s.nodes ==> s.nodes[j].preVote
    ensures Reaches(s, s') && Stuck(s', 2) && |s'.nodes| == |s.nodes|
  {
    hide *;
    InitNew(s);
    var s1 := PreRound(s, s.nodes.Keys);
    SameCount(s, s1);
    AllMixed(s1);
    s' := AllCampaign(s1, s1.nodes.Keys);
    SameCount(s1, s');
    Then(s, s1, s');
    MixedStuck(s');
  }

  // ---------------------------------------------------- when elections work

  /** The configuration stays. */
  ghost predicate SameConfig(n: Node, n': Node) { n'.preVote == n.preVote }

  lemma CommitConfig(n: Node)
    requires MaybeCommit(n).Ok?
    ensures SameConfig(n, MaybeCommit(n).value)
  {
  }

  lemma AppendConfig(n: Node, es: seq<Entry>)
    requires AppendEntry(n, es).Ok?
    ensures SameConfig(n, AppendEntry(n, es).value)
  {
    hide MaybeCommit, Stamped;
    var log := Append(n.log, n.commit, Stamped(n.term, |n.log|, es)).value;
    CommitConfig(n.(log := log, prs := n.prs[n.id := MaybeUpdate(n.prs[n.id], |log|)]));
  }

  lemma CampaignConfig(n: Node)
    ensures CampaignElection(n).Ok? ==> SameConfig(n, CampaignElection(n).value)
    ensures CampaignPreElection(n).Ok? ==> SameConfig(n, CampaignPreElection(n).value)
  {
    ElectionConfig(n);
    hide CampaignElection;
    if n.role != Leader { ElectionConfig(RaftSpec.Poll(BecomePreCandidate(n).value, n.id, true)); }
  }

  lemma ElectionConfig(n: Node)
    ensures CampaignElection(n).Ok? ==> SameConfig(n, CampaignElection(n).value)
  {
    hide AppendEntry;
    if n.role != Leader {
      var n2 := RaftSpec.Poll(BecomeCandidate(n).value, n.id, true);
      if BecomeLeader(n2).Ok? { AppendConfig(TakeLeadership(n2), [NOOP]); }
    }
  }

  lemma LeaderConfig(n: Node, m: Message)
    requires StepLeader(n, m).Ok?
    ensures SameConfig(n, StepLeader(n, m).value)
  {
    hide AppendEntry, MaybeCommit, ReleaseAll, AdvanceReads, AppendMessages, HeartbeatMessages, Demote;
    match m.typ
    case MsgProp =>
      if m.entries != [] && n.id in n.prs {
        AppendConfig(n.(pendingConf := n.pendingConf || HasConfChange(m.entries)), Demote(n.pendingConf, m.entries));
      }
    case MsgAppResp =>
      if m.from in n.prs && !m.reject && n.prs[m.from].matched < m.logIndex {
        CommitConfig(n.(prs := n.prs[m.from := MaybeUpdate(n.prs[m.from], m.logIndex)]));
      }
    case MsgHeartbeatResp => if m.from in n.prs { HandleHeartbeatRespForward(n, m); }
    case _ =>
  }

  lemma TallyConfig(n: Node, m: Message)
    requires Tally(n, m).Ok?
    ensures SameConfig(n, Tally(n, m).value)
  {
    hide AppendEntry, CampaignElection, AppendMessages, Granted;
    var n1 := RaftSpec.Poll(n, m.from, !m.reject);
    CampaignConfig(n1);
    if n1.role != PreCandidate && BecomeLeader(n1).Ok? { AppendConfig(TakeLeadership(n1), [NOOP]); }
  }

  lemma CandidateConfig(n: Node, m: Message)
    requires StepCandidate(n, m).Ok?
    ensures SameConfig(n, StepCandidate(n, m).value)
  {
    hide MaybeAppend, Tally;
    if Tally(n, m).Ok? { TallyConfig(n, m); }
  }

  lemma FollowerConfig(n: Node, m: Message)
    requires StepFollower(n, m).Ok?
    ensures SameConfig(n, StepFollower(n, m).value)
  {
    hide MaybeAppend;
  }

  lemma StepConfig(n: Node, m: Message)
    requires Step(n, m).Ok?
    ensures SameConfig(n, Step(n, m).value)
  {
    hide StepRole, CampaignElection, CampaignPreElection, ObserveTerm;
    var n1 := ObserveTerm(n, m);
    assert SameConfig(n, n1) by { ObservedConfig(n, m); }
    CampaignConfig(n1);
    if StepRole(n1, m).Ok? { RoleConfig(n1, m); }
  }

  lemma ObservedConfig(n: Node, m: Message)
    ensures SameConfig(n, ObserveTerm(n, m))
  {
  }

  lemma RoleConfig(n: Node, m: Message)
    requires StepRole(n, m).Ok?
    ensures SameConfig(n, StepRole(n, m).value)
  {
    hide StepLeader, StepFollower, StepCandidate;
    match n.role
    case Leader => LeaderConfig(n, m);
    case Follower => FollowerConfig(n, m);
    case _ => CandidateConfig(n, m);
  }

  ghost predicate Uniform(s: Cluster, p: bool) { forall j :: j in s.nodes ==> s.nodes[j].preVote == p }

  lemma EventUniform(s: Cluster, id: NodeId, ev: Event, s': Cluster, p: bool)
    requires Uniform(s, p) && StepOk(s, id, ev, s')
    ensures Uniform(s', p)
  {
    hide Step, NextEntries, LocalInput;
    if ev.Deliver? || ev.Local? { StepConfig(s.nodes[id], ev.m); }
  }

  lemma {:induction false} RunUniform(ss: seq<Cluster>, evs: seq<(NodeId, Event)>, a: nat, p: bool)
    requires Run(ss, evs) && a < |ss| && Uniform(ss[0], p)
    ensures Uniform(ss[a], p)
  {
    hide Init;
    if a > 0 {
      RunUniform(ss, evs, a - 1, p);
      assert StepOk(ss[a - 1], evs[a - 1].0, evs[a - 1].1, ss[a]);
      hide StepOk;
      EventUniform(ss[a - 1], evs[a - 1].0, evs[a - 1].1, ss[a], p);
    }
  }

  ghost predicate Elects(ss: seq<Cluster>, evs: seq<(NodeId, Event)>, ss': seq<Cluster>, evs': seq<(NodeId, Event)>, id: NodeId) {
    Run(ss', evs') && ss <= ss' && evs <= evs' && id in ss'[|evs'|].nodes && ss'[|evs'|].nodes[id].role == Leader
  }

  /** Some further events end with a leader. */
  ghost predicate CanElect(ss: seq<Cluster>, evs: seq<(NodeId, Event)>) {
    exists ss', evs', id :: Elects(ss, evs, ss', evs', id)
  }

  lemma Electable(s: Cluster) returns (s': Cluster, c: NodeId)
    requires Live(s) && s.nodes != map[] && (|s.nodes| == 1 || Uniform(s, false))
    ensures Reaches(s, s') && c in s'.nodes && s'.nodes[c].role == Leader
  {
    hide Live, Reaches;
    assert |s.nodes| == |s.nodes.Keys| && s.nodes.Keys != {};
    if |s.nodes| == 1 {
      c :| c in s.nodes;
      s' := AloneLeads(s, c);
    } else {
      var s1 := Settle(s, s.nodes.Keys);
      assert |s1.nodes| == |s1.nodes.Keys|;
      forall j | j in s.nodes ensures OnlyLoop(s.nodes[j], s1.nodes[j]) && Settled(s1, j) {}
      s', c := NewLeader(s1);
      Then(s, s1, s');
    }
  }

  lemma ElectsFrom(ss: seq<Cluster>, evs: seq<(NodeId, Event)>, p: bool)
    requires Run(ss, evs) && Uniform(ss[0], p) && ss[0].nodes != map[] && (|ss[0].nodes| == 1 || !p)
    ensures CanElect(ss, evs)
  {
    RunLength(ss, evs);
    RunUniform(ss, evs, |evs|, p);
    SameMembers(ss, evs, 0, |evs|);
    RunsTo(ss, evs);
    hide Run, Reaches, Live;
    var s', c := Electable(ss[|evs|]);
    var ss', evs' := Continue(ss, evs, s');
    assert Elects(ss, evs, ss', evs', c);
  }

  lemma StuckRun(s: Cluster) returns (ss: seq<Cluster>, evs: seq<(NodeId, Event)>)
    requires Init(s) && |s.nodes| >= 2 && Uniform(s, true)
    ensures Run(ss, evs) && ss[0] == s && !CanElect(ss, evs)
  {
    hide Init, Stuck;
    var s1 := GetsStuck(s);
    hide Reaches;
    assert Run([s], []);
    ss, evs := Continue([s], [], s1);
    assert ss[0] == s;
    hide Run;
    if CanElect(ss, evs) {
      var ss': seq<Cluster>, evs': seq<(NodeId, Event)>, id: NodeId :| Elects(ss, evs, ss', evs', id);
      RunLength(ss, evs);
      RunLength(ss', evs');
      assert ss'[|evs|] == ss[|evs|] == s1;
      NeverLeads(ss', evs', |evs|, |evs'|, 2, id);
      assert false;
    }
  }

  ghost predicate StartsAt(ss: seq<Cluster>, evs: seq<(NodeId, Event)>, s: Cluster) { Run(ss, evs) && ss[0] == s }

  /** A cluster can elect a leader after every run exactly when it does not pre-vote or has only one member. */
  lemma ElectsIffNoPreVote(s: Cluster, p: bool)
    requires Init(s) && s.nodes != map[] && Uniform(s, p)
    ensures (forall ss, evs :: StartsAt(ss, evs, s) ==> CanElect(ss, evs)) <==> !p || |s.nodes| == 1
  {
    hide Run, CanElect, Init;
    if !p || |s.nodes| == 1 {
      forall ss, evs | StartsAt(ss, evs, s) ensures CanElect(ss, evs) { ElectsFrom(ss, evs, p); }
    } else {
      assert |s.nodes| >= 2 by { assert |s.nodes| != 0; }
      var ss, evs := StuckRun(s);
      assert StartsAt(ss, evs, s);
    }
  }
}
