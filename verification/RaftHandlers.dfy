/** What one message does to one node, field by field: campaigns, votes, appends, acknowledgements, heartbeats, requests. */
module RaftHandlers {
  import opened RaftTypes
  import opened RaftFlatLog
  import opened RaftSpec
  import opened RaftSteps
  import opened RaftCommits

  ghost function LastTermOf(log: Log): nat { if log == [] then 0 else log[|log| - 1].term }

  /** The first log is at least as recent as the second. */
  ghost predicate Recent(log: Log, than: Log) {
    LastTermOf(log) > LastTermOf(than) || (LastTermOf(log) == LastTermOf(than) && |log| >= |than|)
  }

  ghost function VoteMsg(n: Node, to: NodeId): Message {
    Message(MsgVote, to, n.id, n.term, LastTermOf(n.log), |n.log|, [], 0, false, 0, [])
  }

  ghost function VoteReply(n: Node, to: NodeId): Message {
    Message(MsgVoteResp, to, n.id, n.term, 0, 0, [], 0, false, 0, [])
  }

  /** The log from index `next` on. */
  ghost function AppMsg(n: Node, to: NodeId, next: nat): Message
    requires 1 <= next <= |n.log| + 1
  {
    Message(MsgApp, to, n.id, n.term, if next == 1 then 0 else n.log[next - 2].term, next - 1, n.log[next - 1..], n.commit, false, 0, [])
  }

  ghost function AckMsg(n: Node, to: NodeId, index: nat): Message {
    Message(MsgAppResp, to, n.id, n.term, 0, index, [], 0, false, 0, [])
  }

  ghost function NackMsg(n: Node, to: NodeId, index: nat): Message {
    Message(MsgAppResp, to, n.id, n.term, 0, index, [], 0, true, |n.log|, [])
  }

  ghost function BeatMsg(n: Node, to: NodeId, commit: nat, ctx: Bytes): Message {
    Message(MsgHeartbeat, to, n.id, n.term, 0, 0, [], commit, false, 0, ctx)
  }

  ghost function BeatReply(n: Node, to: NodeId, ctx: Bytes): Message {
    Message(MsgHeartbeatResp, to, n.id, n.term, 0, 0, [], 0, false, 0, ctx)
  }

  ghost function PropMsg(to: NodeId, from: NodeId, data: Bytes): Message {
    Message(MsgProp, to, from, 0, 0, 0, [Entry(0, 0, EntryNormal, data)], 0, false, 0, [])
  }

  ghost function ReadMsg(to: NodeId, from: NodeId, ctx: Bytes): Message {
    Message(MsgReadIndex, to, from, 0, 0, 0, [Entry(0, 0, EntryNormal, ctx)], 0, false, 0, [])
  }

  const HUP: Message := Message(MsgHup, NONE, NONE, 0, 0, 0, [], 0, false, 0, [])
  const BEAT: Message := Message(MsgBeat, NONE, NONE, 0, 0, 0, [], 0, false, 0, [])

  /** Log, commit index and configuration stay. */
  ghost predicate KeepsLog(n: Node, n': Node) {
    n'.id == n.id && n'.prs.Keys == n.prs.Keys && n'.log == n.log && n'.commit == n.commit && n'.applied == n.applied
    && n'.preVote == n.preVote && n'.readOnly == n.readOnly
  }

  // ------------------------------------------------------------ elections

  /** No committed configuration change waits to be applied. */
  ghost predicate NoneToApply(n: Node) {
    n.applied <= n.commit <= |n.log| && forall i :: n.applied <= i < n.commit ==> n.log[i].typ != EntryConfChange
  }

  /** Without pre-vote a member that does not lead and has no configuration change to apply campaigns in the next term: it
      votes for itself and asks every other member. */
  lemma HupCampaigns(n: Node)
    requires n.role != Leader && !n.preVote && n.id in n.prs && |n.prs| >= 2 && NoneToApply(n)
    ensures Step(n, HUP).Ok?
    ensures var n' := Step(n, HUP).value;
            && KeepsLog(n, n') && n'.prs == n.prs && n'.term == n.term + 1 && n'.role == Candidate && n'.vote == n.id
            && n'.votes == map[n.id := true]
            && (forall j :: j in n.prs && j != n.id ==> VoteMsg(n', j) in n'.msgs)
  {
    var n2 := Poll(BecomeCandidate(n).value, n.id, true);
    assert n2.votes == map[n.id := true];
    assert Ayes(n2.votes) == {n.id};
    assert Step(n, HUP) == Hup(n) == CampaignElection(n);
    var n' := Step(n, HUP).value;
    forall j | j in n.prs && j != n.id ensures VoteMsg(n', j) in n'.msgs {
      assert VoteRequest(n2, MsgVote, j) == VoteMsg(n', j);
      assert VoteRequest(n2, MsgVote, j) in VoteRequests(n2, MsgVote, n2.prs.Keys);
    }
  }

  /** A request of a later term makes its receiver a follower of that term, whatever it was. */
  lemma VoteObserved(n: Node, m: Message)
    requires m.typ == MsgVote && m.term > n.term
    ensures Step(n, m).Ok?
    ensures var n' := Step(n, m).value; KeepsLog(n, n') && n'.prs == n.prs && n'.term == m.term && n'.role == Follower
  {
    VoteSteps(n, m);
    hide Step, Grants;
  }

  lemma VoteSteps(n: Node, m: Message)
    requires m.typ == MsgVote && m.term >= n.term
    ensures Step(n, m) == Ok(HandleVote(ObserveTerm(n, m), m))
  {
    hide HandleVote, ObserveTerm;
  }

  /** If the candidate's log is at least as recent, it gets the vote and a reply that says so. */
  lemma VoteGranted(n: Node, c: Node)
    requires c.term > n.term && Recent(c.log, n.log)
    ensures Step(n, VoteMsg(c, n.id)).Ok?
    ensures var n' := Step(n, VoteMsg(c, n.id)).value;
            && KeepsLog(n, n') && n'.prs == n.prs && n'.term == c.term && n'.role == Follower && n'.vote == c.id
            && (n.id != NONE ==> VoteReply(n', c.id) in n'.msgs)
  {
  }

  /** A vote that does not make a majority is counted. */
  lemma VoteCounted(n: Node, j: NodeId)
    requires n.role == Candidate && 1 <= n.term && j !in n.votes && (forall i :: i in n.votes ==> n.votes[i])
    requires 2 * (|n.votes| + 1) <= |n.prs|
    ensures Step(n, VoteReply(n.(id := j), n.id)) == Ok(n.(votes := n.votes[j := true]))
  {
    var m := VoteReply(n.(id := j), n.id);
    CandidateHears(n, m);
    hide Step;
    OneMoreYes(n, j);
  }

  /** What a candidate does with an answer in its term. */
  lemma CandidateHears(n: Node, m: Message)
    requires (n.role == Candidate && m.typ == MsgVoteResp) || (n.role == PreCandidate && m.typ == MsgPreVoteResp)
    requires m.term == n.term && 1 <= n.term
    ensures Step(n, m) == Tally(n, m)
  {
    InTerm(n, m);
    hide Step, Tally;
  }

  /** One more vote, after nothing but votes. */
  lemma OneMoreYes(n: Node, j: NodeId)
    requires j !in n.votes && forall i :: i in n.votes ==> n.votes[i]
    ensures var n1 := n.(votes := n.votes[j := true]); RaftSpec.Poll(n, j, true) == n1 && Granted(n1) == |n1.votes| == |n.votes| + 1
  {
    var n1 := n.(votes := n.votes[j := true]);
    assert Ayes(n1.votes) == n1.votes.Keys && n1.votes.Keys == n.votes.Keys + {j};
    assert |n1.votes| == |n.votes| + 1;
  }

  /** The vote that makes a majority makes a leader: it appends an empty entry of its term, takes every other member's log to
      end where its own did, and sends them what follows. */
  lemma VoteElects(n: Node, j: NodeId)
    requires n.role == Candidate && 1 <= n.term && j !in n.votes && (forall i :: i in n.votes ==> n.votes[i])
    requires |n.prs| / 2 + 1 == |n.votes| + 1 && |n.prs| >= 2 && n.id in n.prs && n.commit <= |n.log|
    requires Step(n, VoteReply(n.(id := j), n.id)).Ok?
    ensures var n', last := Step(n, VoteReply(n.(id := j), n.id)).value, |n.log|;
            && n'.id == n.id && n'.prs.Keys == n.prs.Keys && n'.applied == n.applied && n'.preVote == n.preVote && n'.commit >= n.commit
            && n'.readOnly == n.readOnly && n'.prs[n.id].matched >= |n'.log| && n'.term == n.term && n'.role == Leader
            && n'.log == n.log + [Entry(n.term, last + 1, EntryNormal, [])]
            && (forall i :: i in n.prs && i != n.id ==> n'.prs[i] == Progress(0, last + 1) && AppMsg(n', i, last + 1) in n'.msgs)
  {
    var m, n1 := VoteReply(n.(id := j), n.id), n.(votes := n.votes[j := true]);
    CandidateHears(n, m);
    OneMoreYes(n, j);
    hide Step, BecomeLeader, BroadcastAppend, CampaignElection, Granted, AppMsg;
    assert Tally(n, m) == if BecomeLeader(n1).Ok? then BroadcastAppend(BecomeLeader(n1).value) else Panic;
    hide Tally, VoteReply;
    LeaderStarts(n1);
    BroadcastSends(BecomeLeader(n1).value);
  }

  lemma LeaderStarts(n: Node)
    requires n.role == Candidate && n.id in n.prs && n.commit <= |n.log| && BecomeLeader(n).Ok?
    ensures var n' := BecomeLeader(n).value;
            && n' == n.(lead := n.id, votes := map[], pendingConf := false, role := Leader, log := n'.log, prs := n'.prs, commit := n'.commit)
            && n'.prs.Keys == n.prs.Keys && n'.commit >= n.commit && n'.prs[n.id].matched >= |n'.log|
            && n'.log == n.log + [Entry(n.term, |n.log| + 1, EntryNormal, [])]
            && (forall i :: i in n.prs && i != n.id ==> n'.prs[i] == Progress(0, |n.log| + 1))
  {
    var n1 := TakeLeadership(n);
    AppendAtEnd(n1.log, n1.commit, n1.term, [NOOP]);
    assert Stamped(n.term, |n.log|, [NOOP]) == [Entry(n.term, |n.log| + 1, EntryNormal, [])];
    var log := n.log + [Entry(n.term, |n.log| + 1, EntryNormal, [])];
    hide MaybeCommit;
    CommitOnly(n1.(log := log, prs := n1.prs[n.id := MaybeUpdate(n1.prs[n.id], |log|)]));
  }

  lemma BroadcastSends(n: Node)
    requires forall i :: i in n.prs ==> n.prs[i].next <= |n.log| + 1 || i == n.id
    ensures BroadcastAppend(n).Ok?
    ensures var n' := BroadcastAppend(n).value;
            n.msgs <= n'.msgs && n' == n.(msgs := n'.msgs) && forall i :: i in n.prs && i != n.id ==> AppMsg(n', i, n.prs[i].next) in n'.msgs
  {
    var n' := BroadcastAppend(n).value;
    forall i | i in n.prs && i != n.id ensures AppMsg(n', i, n.prs[i].next) in n'.msgs {
      assert AppendMessageTo(n, i) in AppendMessages(n, n.prs.Keys);
      MessageIs(n, i);
    }
  }

  // ------------------------------------------------- decisions and pre-votes

  ghost function PreVoteMsg(n: Node, to: NodeId): Message {
    Message(MsgPreVote, to, n.id, n.term, LastTermOf(n.log), |n.log|, [], 0, false, 0, [])
  }

  /** The asker's log is at least as recent, and the node has no other vote in the asker's term. */
  ghost predicate Favours(n: Node, m: Message) {
    && (m.logTerm > LastTermOf(n.log) || (m.logTerm == LastTermOf(n.log) && m.logIndex >= |n.log|))
    && (m.term > n.term || n.vote == NONE || n.vote == m.from)
  }

  /** A request of the node's term or a later one gets the vote exactly when the node favours it; the reply says which. */
  lemma VoteDecided(n: Node, m: Message)
    requires m.typ == MsgVote && 1 <= n.term <= m.term && n.id != NONE
    ensures Step(n, m).Ok?
    ensures var n' := Step(n, m).value;
            && n'.vote == (if Favours(n, m) then m.from else if m.term > n.term then NONE else n.vote)
            && n'.msgs == n.msgs + {Message(MsgVoteResp, m.from, n.id, m.term, 0, 0, [], 0, !Favours(n, m), 0, [])}
            && n'.term == m.term && KeepsLog(n, n') && n'.prs == n.prs && (m.term == n.term ==> n' == n.(vote := n'.vote, msgs := n'.msgs))
  {
    VoteSteps(n, m);
    hide Step;
    var n1 := ObserveTerm(n, m);
    ObservedVote(n, m);
    hide ObserveTerm;
    VoteHere(n1, m);
    assert Favours(n1, m) <==> Favours(n, m);
    hide HandleVote, Favours;
  }

  lemma ObservedVote(n: Node, m: Message)
    requires m.typ == MsgVote && m.term >= n.term
    ensures var n1 := ObserveTerm(n, m);
            && KeepsLog(n, n1) && n1.prs == n.prs && n1.msgs == n.msgs && n1.term == m.term && (m.term == n.term ==> n1 == n)
            && n1.vote == if m.term > n.term then NONE else n.vote
  {
  }

  lemma VoteHere(n: Node, m: Message)
    requires m.term == n.term && n.id != NONE
    ensures var n' := HandleVote(n, m);
            && n' == n.(vote := if Favours(n, m) then m.from else n.vote, msgs := n'.msgs)
            && n'.msgs == n.msgs + {Message(MsgVoteResp, m.from, n.id, n.term, 0, 0, [], 0, !Favours(n, m), 0, [])}
  {
  }

  /** A pre-vote request of the node's term or a later one is answered in the same way, and changes nothing. */
  lemma PreVoteDecided(n: Node, m: Message)
    requires m.typ == MsgPreVote && 1 <= n.term <= m.term && n.id != NONE
    ensures Step(n, m) == Ok(n.(msgs := n.msgs + {Message(MsgPreVoteResp, m.from, n.id, n.term, 0, 0, [], 0, !Favours(n, m), 0, [])}))
  {
  }

  /** With pre-vote a member first asks for votes in the term it is in. */
  lemma PreHup(n: Node)
    requires n.role != Leader && n.preVote && n.id in n.prs && |n.prs| >= 2 && NoneToApply(n)
    ensures Step(n, HUP).Ok?
    ensures var n' := Step(n, HUP).value;
            && n' == n.(role := PreCandidate, votes := map[n.id := true], msgs := n'.msgs) && n.msgs <= n'.msgs
            && (forall j :: j in n.prs && j != n.id ==> PreVoteMsg(n, j) in n'.msgs)
            && (forall x :: x in n'.msgs ==> x in n.msgs || (x.to != n.id && x == PreVoteMsg(n, x.to)))
  {
    var n2 := RaftSpec.Poll(BecomePreCandidate(n).value, n.id, true);
    assert n2.votes == map[n.id := true] && Ayes(n2.votes) == {n.id};
    assert Step(n, HUP) == Hup(n) == CampaignPreElection(n);
    forall j | j in n.prs && j != n.id ensures PreVoteMsg(n, j) in Step(n, HUP).value.msgs {
      assert VoteRequest(n2, MsgPreVote, j) == PreVoteMsg(n, j);
      assert VoteRequest(n2, MsgPreVote, j) in VoteRequests(n2, MsgPreVote, n2.prs.Keys);
    }
  }

  ghost function PreVoteYes(j: NodeId, to: NodeId, term: nat): Message {
    Message(MsgPreVoteResp, to, j, term, 0, 0, [], 0, false, 0, [])
  }

  lemma PreCounted(n: Node, j: NodeId)
    requires n.role == PreCandidate && 1 <= n.term && j !in n.votes && (forall i :: i in n.votes ==> n.votes[i])
    requires 2 * (|n.votes| + 1) <= |n.prs|
    ensures Step(n, PreVoteYes(j, n.id, n.term)) == Ok(n.(votes := n.votes[j := true]))
  {
    CandidateHears(n, PreVoteYes(j, n.id, n.term));
    hide Step;
    OneMoreYes(n, j);
  }

  /** The pre-vote that makes a majority starts the campaign. */
  lemma PreElects(n: Node, j: NodeId)
    requires n.role == PreCandidate && 1 <= n.term && j !in n.votes && (forall i :: i in n.votes ==> n.votes[i])
    requires |n.prs| / 2 == |n.votes| && |n.prs| >= 2
    ensures Step(n, PreVoteYes(j, n.id, n.term)).Ok?
    ensures var n' := Step(n, PreVoteYes(j, n.id, n.term)).value;
            && KeepsLog(n, n') && n'.prs == n.prs && n'.term == n.term + 1 && n'.role == Candidate && n'.vote == n.id
            && n'.votes == map[n.id := true] && n.msgs <= n'.msgs
            && (forall i :: i in n.prs && i != n.id ==> VoteMsg(n', i) in n'.msgs)
            && (forall x :: x in n'.msgs ==> x in n.msgs || (x.to != n.id && x == VoteMsg(n', x.to)))
  {
    var m, n1 := PreVoteYes(j, n.id, n.term), n.(votes := n.votes[j := true]);
    CandidateHears(n, m);
    OneMoreYes(n, j);
    hide Step, BecomeLeader, CampaignElection, Granted, VoteMsg;
    assert Tally(n, m) == CampaignElection(n1);
    hide Tally, PreVoteYes;
    CampaignAsks(n1);
  }

  lemma CampaignAsks(n: Node)
    requires n.role == PreCandidate && |n.prs| >= 2
    ensures CampaignElection(n).Ok?
    ensures var n' := CampaignElection(n).value;
            && KeepsLog(n, n') && n'.prs == n.prs && n'.term == n.term + 1 && n'.role == Candidate && n'.vote == n.id
            && n'.votes == map[n.id := true] && n.msgs <= n'.msgs
            && (forall i :: i in n.prs && i != n.id ==> VoteMsg(n', i) in n'.msgs)
            && (forall x :: x in n'.msgs ==> x in n.msgs || (x.to != n.id && x == VoteMsg(n', x.to)))
  {
    var n2 := RaftSpec.Poll(BecomeCandidate(n).value, n.id, true);
    assert n2.votes == map[n.id := true] && Ayes(n2.votes) == {n.id};
    var n' := CampaignElection(n).value;
    forall i | i in n.prs && i != n.id ensures VoteMsg(n', i) in n'.msgs {
      assert VoteRequest(n2, MsgVote, i) == VoteMsg(n', i);
      assert VoteRequest(n2, MsgVote, i) in VoteRequests(n2, MsgVote, n2.prs.Keys);
    }
  }

  /** A majority of refusals ends a campaign. */
  lemma VoteLost(n: Node, m: Message)
    requires n.role == Candidate && m.typ == MsgVoteResp && m.reject && m.term == n.term && 1 <= n.term && m.from !in n.votes
    requires |n.prs| / 2 == |Noes(n.votes)| && 2 * |Ayes(n.votes)| <= |n.prs|
    ensures Step(n, m) == Ok(n.(lead := NONE, votes := map[], pendingConf := false, role := Follower))
  {
    InTerm(n, m);
    hide Step;
    var n1 := n.(votes := n.votes[m.from := false]);
    OneMoreNo(n.votes, m.from);
    assert StepRole(n, m) == Tally(n, m) by { hide Tally; }
    hide StepRole, BroadcastAppend, BecomeLeader, CampaignElection;
    assert RaftSpec.Poll(n, m.from, false) == n1;
  }

  ghost function Noes(votes: map<NodeId, bool>): set<NodeId> { set j | j in votes && !votes[j] }

  lemma OneMoreNo(votes: map<NodeId, bool>, j: NodeId)
    requires j !in votes
    ensures Ayes(votes[j := false]) == Ayes(votes) && |votes[j := false]| == |Ayes(votes)| + |Noes(votes)| + 1
  {
    var votes' := votes[j := false];
    assert Ayes(votes') == Ayes(votes);
    var yes, no := Ayes(votes), Noes(votes);
    assert yes !! no && j !in yes + no && votes'.Keys == yes + no + {j};
    hide Ayes, Noes;
    assert |votes'| == |votes'.Keys| && |yes + no| == |yes| + |no|;
  }

  // ---------------------------------------------------------- replication

  /** Entries have their indices and a term. */
  ghost predicate Numbered(log: Log) { forall i :: 0 <= i < |log| ==> log[i].index == i + 1 && 1 <= log[i].term }

  /** Both logs have an entry of one term at index k, or k is 0. */
  ghost predicate MeetAt(log: Log, l: Log, k: nat) { k == 0 || (k <= |log| && k <= |l| && log[k - 1].term == l[k - 1].term) }

  /** The first index past p at which `log` has no entry of l's term is k + 1: from there on l replaces it. */
  ghost predicate Merges(log: Log, l: Log, p: nat, k: nat, log': Log) {
    && p <= k <= |l| && (forall i :: p < i <= k ==> MeetAt(log, l, i))
    && if k == |l| then log' == log else !MeetAt(log, l, k + 1) && k <= |log| && log' == log[..k] + l[k..]
  }

  lemma {:induction false} ConflictIs(log: Log, l: Log, p: nat)
    requires Numbered(l) && p <= |l|
    ensures var c := FindConflict(log, l[p..]);
            && (c == 0 ==> forall i :: p < i <= |l| ==> MeetAt(log, l, i))
            && (c != 0 ==> p < c <= |l| && !MeetAt(log, l, c) && forall i :: p < i < c ==> MeetAt(log, l, i))
    decreases |l| - p
  {
    if p < |l| {
      assert l[p..][0] == l[p] && l[p..][1..] == l[p + 1..];
      ConflictIs(log, l, p + 1);
    }
  }

  lemma MergedBy(log: Log, commit: nat, l: Log, p: nat, c: nat) returns (k: nat, log': Log)
    requires Numbered(l) && p <= |l| && MeetAt(log, l, p) && MaybeAppend(log, commit, p, TermAt(l, p), c, l[p..]).Ok?
    ensures Merges(log, l, p, k, log')
    ensures MaybeAppend(log, commit, p, TermAt(l, p), c, l[p..]) == Ok(Accepted(log', Max(commit, Min(c, |l|)), |l|))
  {
    var conflict := FindConflict(log, l[p..]);
    ConflictIs(log, l, p);
    assert MatchTerm(log, p, TermAt(l, p)) && forall i :: 0 <= i < |l| ==> l[i].index == i + 1;
    hide FindConflict, Numbered, MatchTerm, TermAt, MeetAt, MaybeAppend;
    if conflict == 0 {
      k, log' := |l|, log;
      NoConflict(log, commit, l, p, c);
    } else {
      k, log' := conflict - 1, log[..conflict - 1] + l[conflict - 1..];
      Conflicting(log, commit, l, p, c, k);
    }
  }

  lemma NoConflict(log: Log, commit: nat, l: Log, p: nat, c: nat)
    requires p <= |l| && MatchTerm(log, p, TermAt(l, p)) && FindConflict(log, l[p..]) == 0
    requires MaybeAppend(log, commit, p, TermAt(l, p), c, l[p..]).Ok?
    ensures MaybeAppend(log, commit, p, TermAt(l, p), c, l[p..]) == Ok(Accepted(log, Max(commit, Min(c, |l|)), |l|))
  {
    hide FindConflict, MatchTerm, TermAt, Append;
  }

  lemma Conflicting(log: Log, commit: nat, l: Log, p: nat, c: nat, k: nat)
    requires p <= k < |l| && l[k].index == k + 1 && MatchTerm(log, p, TermAt(l, p)) && FindConflict(log, l[p..]) == k + 1
    requires MaybeAppend(log, commit, p, TermAt(l, p), c, l[p..]).Ok?
    ensures k <= |log|
    ensures MaybeAppend(log, commit, p, TermAt(l, p), c, l[p..]) == Ok(Accepted(log[..k] + l[k..], Max(commit, Min(c, |l|)), |l|))
  {
    hide FindConflict, MatchTerm, TermAt, Append;
    assert l[p..][k - p..] == l[k..];
    CutAt(log, commit, l, k);
  }

  lemma CutAt(log: Log, commit: nat, l: Log, k: nat)
    requires k < |l| && l[k].index == k + 1 && Append(log, commit, l[k..]).Ok?
    ensures k <= |log| && commit <= k && Append(log, commit, l[k..]) == Ok(log[..k] + l[k..])
  {
    assert l[k..][0] == l[k];
  }

  /** What reaches the handlers of a node in the message's term. */
  lemma InTerm(n: Node, m: Message)
    requires m.term == n.term || m.term == 0
    requires m.typ != MsgHup && m.typ != MsgVote && m.typ != MsgPreVote
    ensures Step(n, m) == StepRole(n, m)
  {
    hide StepRole;
  }

  /** A follower whose log meets the leader's at the index before the entries sent merges them, commits what the leader has
      committed of them, and confirms the leader's whole log. */
  lemma AppendAccepted(n: Node, c: Node, next: nat) returns (k: nat)
    requires n.role == Follower && n.term == c.term && 1 <= n.term && Numbered(c.log) && n.id != NONE
    requires 1 <= next <= |c.log| + 1 && MeetAt(n.log, c.log, next - 1) && Step(n, AppMsg(c, n.id, next)).Ok?
    ensures var n' := Step(n, AppMsg(c, n.id, next)).value;
            && n' == n.(lead := c.id, log := n'.log, commit := Max(n.commit, Min(c.commit, |c.log|)), msgs := n.msgs + {AckMsg(n', c.id, |c.log|)})
            && Merges(n.log, c.log, next - 1, k, n'.log)
  {
    var m := AppMsg(c, n.id, next);
    assert m.typ == MsgApp && m.term == n.term && m.from == c.id && m.commitIndex == c.commit && m.logIndex == next - 1;
    assert m.logTerm == TermAt(c.log, next - 1) && m.entries == c.log[next - 1..];
    hide AppMsg;
    InTerm(n, m);
    FollowerAppends(n, m);
    hide Step, StepRole, HandleAppendEntries, MaybeAppend, Merges, Numbered, MeetAt, TermAt;
    assert MaybeAppend(n.log, n.commit, m.logIndex, m.logTerm, m.commitIndex, m.entries).Ok? by { AppendReturns(n.(lead := c.id), m); }
    var log';
    k, log' := MergedBy(n.log, n.commit, c.log, next - 1, c.commit);
    Confirms(n.(lead := c.id), m, log', Max(n.commit, Min(c.commit, |c.log|)), |c.log|);
  }

  lemma FollowerAppends(n: Node, m: Message)
    requires n.role == Follower && m.typ == MsgApp
    ensures StepRole(n, m) == HandleAppendEntries(n.(lead := m.from), m)
  {
    hide HandleAppendEntries;
  }

  lemma AppendReturns(n: Node, m: Message)
    requires HandleAppendEntries(n, m).Ok?
    ensures MaybeAppend(n.log, n.commit, m.logIndex, m.logTerm, m.commitIndex, m.entries).Ok?
  {
    hide MaybeAppend;
  }

  lemma Confirms(n: Node, m: Message, log: Log, commit: nat, last: nat)
    requires MaybeAppend(n.log, n.commit, m.logIndex, m.logTerm, m.commitIndex, m.entries) == Ok(Accepted(log, commit, last)) && n.id != NONE
    ensures HandleAppendEntries(n, m) == Ok(n.(log := log, commit := commit, msgs := n.msgs + {AckMsg(n, m.from, last)}))
  {
    hide MaybeAppend;
  }

  /** Otherwise it says so, with the length of its log as a hint, and changes nothing but the leader it knows. */
  lemma AppendRejected(n: Node, c: Node, next: nat)
    requires n.role == Follower && n.term == c.term && 1 <= n.term && Numbered(c.log) && n.id != NONE
    requires 1 <= next <= |c.log| + 1 && !MeetAt(n.log, c.log, next - 1)
    ensures Step(n, AppMsg(c, n.id, next)) == Ok(n.(lead := c.id, msgs := n.msgs + {NackMsg(n, c.id, next - 1)}))
  {
    var m := AppMsg(c, n.id, next);
    assert m.typ == MsgApp && m.term == n.term && m.from == c.id && m.logIndex == next - 1 && !MatchTerm(n.log, m.logIndex, m.logTerm);
    hide AppMsg;
    InTerm(n, m);
    FollowerAppends(n, m);
    hide Step, StepRole, MatchTerm, FindConflict, Append;
  }

  /** What a leader does with an answer to an append of its term. */
  lemma LeaderHears(n: Node, m: Message)
    requires n.role == Leader && m.typ == MsgAppResp && m.term == n.term && m.from in n.prs
    ensures Step(n, m) == HandleAppResp(n, m)
  {
    InTerm(n, m);
    hide Step, HandleAppResp;
  }

  /** A confirmation raises what the leader knows of its sender; when it commits more, everyone is sent what follows. */
  lemma AckHandled(n: Node, j: Node, k: nat)
    requires n.role == Leader && n.term == j.term && 1 <= n.term && j.id in n.prs && j.id != n.id && k <= |n.log|
    requires (forall i :: i in n.prs && i != n.id ==> n.prs[i].next <= |n.log| + 1) && Step(n, AckMsg(j, n.id, k)).Ok?
    ensures var n' := Step(n, AckMsg(j, n.id, k)).value;
            && n' == n.(prs := n'.prs, commit := n'.commit, msgs := n'.msgs)
            && n'.prs == n.prs[j.id := Progress(Max(n.prs[j.id].matched, k), Max(n.prs[j.id].next, k + 1))]
            && n.commit <= n'.commit && n.msgs <= n'.msgs
            && (n.commit < n'.commit ==> forall i :: i in n.prs && i != n.id ==> AppMsg(n', i, n'.prs[i].next) in n'.msgs)
  {
    var m := AckMsg(j, n.id, k);
    assert m.typ == MsgAppResp && m.term == n.term && m.from == j.id && !m.reject && m.logIndex == k;
    hide AckMsg;
    LeaderHears(n, m);
    hide Step;
    AckRaises(n, m);
  }

  lemma AckRaises(n: Node, m: Message)
    requires m.from in n.prs && m.from != n.id && !m.reject && HandleAppResp(n, m).Ok?
    requires forall i :: i in n.prs && i != n.id ==> n.prs[i].next <= |n.log| + 1
    requires m.logIndex <= |n.log|
    ensures var n', pr := HandleAppResp(n, m).value, n.prs[m.from];
            && n' == n.(prs := n'.prs, commit := n'.commit, msgs := n'.msgs)
            && n'.prs == n.prs[m.from := Progress(Max(pr.matched, m.logIndex), Max(pr.next, m.logIndex + 1))]
            && n.commit <= n'.commit && n.msgs <= n'.msgs
            && (n.commit < n'.commit ==> forall i :: i in n.prs && i != n.id ==> AppMsg(n', i, n'.prs[i].next) in n'.msgs)
  {
    hide MaybeCommit, BroadcastAppend, AppMsg;
    var n1 := n.(prs := n.prs[m.from := MaybeUpdate(n.prs[m.from], m.logIndex)]);
    if n.prs[m.from].matched < m.logIndex {
      CommitOnly(n1);
      var n2 := MaybeCommit(n1).value;
      BroadcastSends(n2);
      SameSends(n2, BroadcastAppend(n2).value);
    }
  }

  lemma SameSends(n: Node, n': Node)
    requires n' == n.(msgs := n'.msgs)
    ensures forall i, next | 1 <= next <= |n.log| + 1 :: AppMsg(n', i, next) == AppMsg(n, i, next)
  {
  }

  /** A rejection of the last message sent moves the next index back, to the hint at most, and sends from there. */
  lemma NackHandled(n: Node, j: Node)
    requires n.role == Leader && n.term == j.term && 1 <= n.term && j.id in n.prs && 2 <= n.prs[j.id].next <= |n.log| + 1
    ensures var next := n.prs[j.id].next;
            var n' := n.(prs := n.prs[j.id := Progress(n.prs[j.id].matched, if next - 1 <= |j.log| + 1 then next - 1 else |j.log| + 1)]);
            Step(n, NackMsg(j, n.id, next - 1)) == Ok(n'.(msgs := n.msgs + {AppMsg(n', j.id, n'.prs[j.id].next)}))
  {
    hide *;
    var m := NackMsg(j, n.id, n.prs[j.id].next - 1);
    NackFields(j, n.id, n.prs[j.id].next - 1);
    LeaderHears(n, m);
    NackLowers(n, m);
  }

  lemma NackFields(j: Node, to: NodeId, index: nat)
    ensures var m := NackMsg(j, to, index);
            m.typ == MsgAppResp && m.term == j.term && m.from == j.id && m.reject && m.logIndex == index && m.rejectHint == |j.log|
  {
  }

  lemma NackLowers(n: Node, m: Message)
    requires m.from in n.prs && m.reject && m.logIndex == n.prs[m.from].next - 1 && 1 <= m.logIndex <= |n.log|
    ensures var pr := n.prs[m.from];
            var n' := n.(prs := n.prs[m.from := Progress(pr.matched, if m.logIndex <= m.rejectHint + 1 then m.logIndex else m.rejectHint + 1)]);
            HandleAppResp(n, m) == Ok(n'.(msgs := n.msgs + {AppMsg(n', m.from, n'.prs[m.from].next)}))
  {
    hide SendAppend, AppMsg;
    var pr := n.prs[m.from];
    var n' := n.(prs := n.prs[m.from := MayDecreaseTo(pr, m.logIndex, m.rejectHint)]);
    assert n'.prs[m.from] == Progress(pr.matched, if m.logIndex <= m.rejectHint + 1 then m.logIndex else m.rejectHint + 1);
    SendIs(n', m.from);
  }

  lemma SendIs(n: Node, j: NodeId)
    requires j in n.prs && n.prs[j].next <= |n.log| + 1
    ensures SendAppend(n, j) == Ok(n.(msgs := n.msgs + {AppMsg(n, j, n.prs[j].next)}))
  {
    MessageIs(n, j);
    hide AppendMessageTo, AppMsg;
  }

  lemma MessageIs(n: Node, j: NodeId)
    requires j in n.prs && n.prs[j].next <= |n.log| + 1
    ensures AppendMessageTo(n, j) == AppMsg(n, j, n.prs[j].next)
  {
    assert AppendMessageTo(n, j) == AppendMessage(n, j) by { hide AppendMessage; }
    hide AppendMessageTo;
  }

  /** A leader gives a client's entry its term and the next index, and sends everyone what they miss. */
  lemma ProposalTaken(n: Node, from: NodeId, data: Bytes)
    requires n.role == Leader && n.id in n.prs && n.commit <= |n.log|
    requires (forall i :: i in n.prs && i != n.id ==> n.prs[i].next <= |n.log| + 1) && Step(n, PropMsg(n.id, from, data)).Ok?
    ensures var n' := Step(n, PropMsg(n.id, from, data)).value;
            && n'.id == n.id && n'.prs.Keys == n.prs.Keys && n'.applied == n.applied && n'.preVote == n.preVote && n'.commit >= n.commit
            && n'.readOnly == n.readOnly && n'.term == n.term && n'.role == Leader
            && n'.log == n.log + [Entry(n.term, |n.log| + 1, EntryNormal, data)] && n'.prs[n.id].matched >= |n'.log|
            && (forall i :: i in n.prs && i != n.id ==> n'.prs[i] == n.prs[i] && AppMsg(n', i, n.prs[i].next) in n'.msgs)
  {
    var m := PropMsg(n.id, from, data);
    InTerm(n, m);
    assert StepRole(n, m) == HandleProposal(n, m) by { hide Step, HandleProposal; }
    hide Step, StepRole, MaybeCommit, HandleProposal, BroadcastAppend;
    var n2 := ProposalIs(n, m, data);
    CommitOnly(n2);
    BroadcastSends(MaybeCommit(n2).value);
  }

  lemma ProposalIs(n: Node, m: Message, data: Bytes) returns (n2: Node)
    requires n.id in n.prs && n.commit <= |n.log| && m.entries == [Entry(0, 0, EntryNormal, data)] && HandleProposal(n, m).Ok?
    ensures var log := n.log + [Entry(n.term, |n.log| + 1, EntryNormal, data)];
            n2 == n.(log := log, prs := n.prs[n.id := MaybeUpdate(n.prs[n.id], |log|)])
    ensures MaybeCommit(n2).Ok? && HandleProposal(n, m) == BroadcastAppend(MaybeCommit(n2).value)
  {
    var es := m.entries;
    assert !HasConfChange(es) && Demote(n.pendingConf, es) == es by { assert es[1..] == []; assert es == [es[0]] + []; }
    AppendAtEnd(n.log, n.commit, n.term, es);
    assert Stamped(n.term, |n.log|, es) == [Entry(n.term, |n.log| + 1, EntryNormal, data)];
    hide MaybeCommit, Demote, Stamped, BroadcastAppend;
    var log := n.log + [Entry(n.term, |n.log| + 1, EntryNormal, data)];
    assert n.(pendingConf := n.pendingConf || HasConfChange(es)) == n;
    n2 := n.(log := log, prs := n.prs[n.id := MaybeUpdate(n.prs[n.id], |log|)]);
    assert AppendEntry(n, es) == MaybeCommit(n2);
  }

  /** A follower passes clients' entries and reads on to the leader it knows. */
  lemma Forwarded(n: Node, data: Bytes)
    requires n.role == Follower && n.lead != NONE
    ensures Step(n, PropMsg(NONE, NONE, data)) == Ok(n.(msgs := n.msgs + {PropMsg(n.lead, n.id, data)}))
    ensures Step(n, ReadMsg(NONE, NONE, data)) == Ok(n.(msgs := n.msgs + {ReadMsg(n.lead, n.id, data)}))
  {
  }

  // ------------------------------------------------- heartbeats and reads

  /** A beat sends everyone the commit index as far as they have confirmed it. */
  lemma BeatSent(n: Node)
    requires n.role == Leader
    ensures Step(n, BEAT).Ok?
    ensures var n' := Step(n, BEAT).value;
            && n' == n.(msgs := n'.msgs) && n.msgs <= n'.msgs
            && (forall j :: j in n.prs && j != n.id ==> BeatMsg(n, j, Min(n.commit, n.prs[j].matched), []) in n'.msgs)
  {
    BeatsAre(n, []);
  }

  lemma BeatsAre(n: Node, ctx: Bytes)
    ensures var n' := BroadcastHeartbeat(n, ctx);
            && n' == n.(msgs := n'.msgs) && n.msgs <= n'.msgs
            && (forall j :: j in n.prs && j != n.id ==> BeatMsg(n, j, Min(n.commit, n.prs[j].matched), ctx) in n'.msgs)
  {
    forall j | j in n.prs && j != n.id ensures BeatMsg(n, j, Min(n.commit, n.prs[j].matched), ctx) in BroadcastHeartbeat(n, ctx).msgs {
      assert HeartbeatMessage(n, j, ctx) in HeartbeatMessages(n, ctx, n.prs.Keys);
    }
  }

  /** A follower commits what a heartbeat tells it of its log, and returns the heartbeat's context. */
  lemma BeatHandled(n: Node, c: Node, commit: nat, ctx: Bytes)
    requires n.role == Follower && n.term == c.term && 1 <= n.term && n.id != NONE && commit <= |n.log|
    ensures Step(n, BeatMsg(c, n.id, commit, ctx))
         == Ok(n.(lead := c.id, commit := if commit > n.commit then commit else n.commit, msgs := n.msgs + {BeatReply(n, c.id, ctx)}))
  {
  }

  /** A leader that has committed an entry of its term notes a new read with its commit index, and asks who still follows it. */
  lemma ReadRegistered(n: Node, from: NodeId, ctx: Bytes)
    requires n.role == Leader && n.id in n.prs && |n.prs| >= 2 && ctx !in n.readOnly.pending
    requires 1 <= n.commit <= |n.log| && n.log[n.commit - 1].term == n.term
    ensures Step(n, ReadMsg(n.id, from, ctx)).Ok?
    ensures var n', ro := Step(n, ReadMsg(n.id, from, ctx)).value, n.readOnly;
            && n' == n.(readOnly := n'.readOnly, msgs := n'.msgs) && n.msgs <= n'.msgs
            && n'.readOnly == ReadOnly(ro.pending[ctx := ReadStatus(ReadMsg(n.id, from, ctx), n.commit, {})], ro.queue + [ctx])
            && (forall j :: j in n.prs && j != n.id ==> BeatMsg(n, j, Min(n.commit, n.prs[j].matched), ctx) in n'.msgs)
  {
    var m := ReadMsg(n.id, from, ctx);
    InTerm(n, m);
    hide Step;
    assert StepRole(n, m) == HandleReadIndex(n, m);
    hide StepRole;
    BeatsAre(n.(readOnly := AddRequest(n.readOnly, ctx, n.commit, m)), ctx);
  }

  ghost function AnswerMsg(n: Node, to: NodeId, index: nat, es: seq<Entry>): Message {
    Message(MsgReadIndexResp, to, n.id, n.term, 0, index, es, 0, false, 0, [])
  }

  /** The read has gone to its client here, or to the member that passed it on. */
  ghost predicate Answered(n: Node, rs: ReadStatus)
    requires rs.req.entries != []
  {
    if rs.req.from == NONE || rs.req.from == n.id then ReadState(rs.index, rs.req.entries[0].data) in n.readStates
    else AnswerMsg(n, rs.req.from, rs.index, rs.req.entries) in n.msgs
  }

  /** Below a quorum an answer to a read's heartbeat is noted. */
  lemma ReadAcked(n: Node, j: Node, ctx: Bytes)
    requires n.role == Leader && n.term == j.term && 1 <= n.term && j.id in n.prs && ctx in n.readOnly.pending && n.readOnly.queue != []
    requires 2 * |n.readOnly.pending[ctx].acks + {j.id}| <= |n.prs|
    ensures var ro := n.readOnly; var rs := ro.pending[ctx];
            Step(n, BeatReply(j, n.id, ctx))
            == Ok(n.(readOnly := ReadOnly(ro.pending[ctx := ReadStatus(rs.req, rs.index, rs.acks + {j.id})], ro.queue)))
  {
    var m := BeatReply(j, n.id, ctx);
    LeaderHearsBeat(n, m);
    hide Step;
  }

  /** The one that makes a quorum answers the read and all before it, and takes them off the queue. */
  lemma ReadReleased(n: Node, j: Node, k: nat)
    requires n.role == Leader && n.term == j.term && 1 <= n.term && j.id in n.prs && Queued(n.readOnly)
    requires 1 <= k <= |n.readOnly.queue|
    requires 2 * |n.readOnly.pending[n.readOnly.queue[k - 1]].acks + {j.id}| > |n.prs|
    ensures Step(n, BeatReply(j, n.id, n.readOnly.queue[k - 1])).Ok?
    ensures var n', ro := Step(n, BeatReply(j, n.id, n.readOnly.queue[k - 1])).value, n.readOnly;
            && n' == n.(readOnly := n'.readOnly, readStates := n'.readStates, msgs := n'.msgs)
            && n'.readOnly.queue == ro.queue[k..] && n'.readOnly.pending.Keys == ro.pending.Keys - (set i | 0 <= i < k :: ro.queue[i])
            && (forall i :: 0 <= i < k ==> Answered(n', ro.pending[ro.queue[i]]))
  {
    var ctx := n.readOnly.queue[k - 1];
    var m := BeatReply(j, n.id, ctx);
    assert m.typ == MsgHeartbeatResp && m.term == n.term && m.from == j.id && m.context == ctx;
    hide BeatReply;
    LeaderHearsBeat(n, m);
    hide Step;
    var ro', rss := Advanced(n.readOnly, j.id, k);
    assert n.readOnly.queue != [] && ctx in RecvAck(n.readOnly, ctx, j.id).pending;
    assert HandleHeartbeatResp(n, m) == ReleaseAll(n.(readOnly := ro'), rss) by { hide AdvanceReads, ReleaseAll; }
    hide HandleHeartbeatResp, RecvAck, Queued, AdvanceReads;
    AllReleased(n.(readOnly := ro'), rss);
    var n' := Step(n, m).value;
    forall i | 0 <= i < k ensures Answered(n', n.readOnly.pending[n.readOnly.queue[i]]) {
      SameAnswer(n', rss[i], n.readOnly.pending[n.readOnly.queue[i]]);
    }
  }

  lemma SameAnswer(n: Node, rs: ReadStatus, rs': ReadStatus)
    requires rs'.req == rs.req && rs'.index == rs.index && rs.req.entries != [] && Answered(n, rs)
    ensures Answered(n, rs')
  {
  }

  /** What a leader does with an answer to a heartbeat of its term. */
  lemma LeaderHearsBeat(n: Node, m: Message)
    requires n.role == Leader && m.typ == MsgHeartbeatResp && m.term == n.term && m.from in n.prs
    ensures Step(n, m) == HandleHeartbeatResp(n, m)
  {
    InTerm(n, m);
    hide Step, HandleHeartbeatResp;
  }

  /** The queue is in step with the map of pending reads. */
  ghost predicate Queued(ro: ReadOnly) {
    && (forall c :: c in ro.pending <==> c in ro.queue)
    && (forall c :: c in ro.pending ==> ro.pending[c].req.entries != [] && ro.pending[c].req.entries[0].data == c)
    && (forall i, j :: 0 <= i < j < |ro.queue| ==> ro.queue[i] != ro.queue[j])
  }

  lemma Advanced(ro: ReadOnly, j: NodeId, k: nat) returns (ro': ReadOnly, rss: seq<ReadStatus>)
    requires Queued(ro) && 1 <= k <= |ro.queue|
    ensures AdvanceReads(RecvAck(ro, ro.queue[k - 1], j), ro.queue[k - 1]) == Ok((ro', rss))
    ensures ro'.queue == ro.queue[k..] && ro'.pending.Keys == ro.pending.Keys - set i | 0 <= i < k :: ro.queue[i]
    ensures |rss| == k && HaveEntries(rss)
    ensures forall i :: 0 <= i < k ==> rss[i].req == ro.pending[ro.queue[i]].req && rss[i].index == ro.pending[ro.queue[i]].index
  {
    var ro1 := RecvAck(ro, ro.queue[k - 1], j);
    QueuePlace(ro, k);
    hide QueuePrefix;
    rss := Statuses(ro1, k);
    assert PrefixPending(ro1, k);
    assert forall i :: 0 <= i < k ==> rss[i].req == ro.pending[ro.queue[i]].req && rss[i].index == ro.pending[ro.queue[i]].index;
    hide RecvAck, Statuses, PrefixPending;
    assert forall i :: 0 <= i < k ==> rss[i].req.entries[0].data == ro.queue[i];
    assert Contexts(rss) == set i | 0 <= i < k :: ro.queue[i];
    ro' := ReadOnly(ro1.pending - Contexts(rss), ro1.queue[k..]);
  }

  lemma QueuePlace(ro: ReadOnly, k: nat)
    requires 1 <= k <= |ro.queue| && forall i, j :: 0 <= i < j < |ro.queue| ==> ro.queue[i] != ro.queue[j]
    ensures QueuePrefix(ro.queue, ro.queue[k - 1]) == k
  {
    var p := QueuePrefix(ro.queue, ro.queue[k - 1]);
    assert p > 0 ==> ro.queue[p - 1] == ro.queue[k - 1];
    hide QueuePrefix;
    if p > 0 && p - 1 < k - 1 {} else if p > 0 && k - 1 < p - 1 {}
  }

  lemma {:induction false} AllReleased(n: Node, rss: seq<ReadStatus>)
    requires HaveEntries(rss)
    ensures ReleaseAll(n, rss).Ok?
    ensures var n' := ReleaseAll(n, rss).value;
            && n' == n.(readStates := n'.readStates, msgs := n'.msgs) && n.readStates <= n'.readStates && n.msgs <= n'.msgs
            && forall i :: 0 <= i < |rss| ==> Answered(n', rss[i])
    decreases |rss|
  {
    if rss != [] {
      var n1 := Release(n, rss[0]).value;
      OneReleased(n, rss[0]);
      assert HaveEntries(rss[1..]);
      AllReleased(n1, rss[1..]);
      var n' := ReleaseAll(n, rss).value;
      AnsweredStays(n1, n', rss[0]);
      hide Answered, Release;
      forall i | 0 <= i < |rss| ensures Answered(n', rss[i]) {
        if i > 0 { assert rss[i] == rss[1..][i - 1]; }
      }
    }
  }

  lemma OneReleased(n: Node, rs: ReadStatus)
    requires rs.req.entries != []
    ensures Release(n, rs).Ok?
    ensures var n' := Release(n, rs).value;
            n' == n.(readStates := n'.readStates, msgs := n'.msgs) && n.readStates <= n'.readStates && n.msgs <= n'.msgs && Answered(n', rs)
  {
  }

  lemma AnsweredStays(n: Node, n': Node, rs: ReadStatus)
    requires rs.req.entries != [] && Answered(n, rs)
    requires n' == n.(readStates := n'.readStates, msgs := n'.msgs) && n.readStates <= n'.readStates && n.msgs <= n'.msgs
    ensures Answered(n', rs)
  {
  }

  /** A member that passed a read on hands its answer to its client. */
  lemma AnswerReceived(n: Node, c: Node, index: nat, ctx: Bytes)
    requires n.role == Follower && n.term == c.term && 1 <= n.term
    ensures Step(n, AnswerMsg(c, n.id, index, [Entry(0, 0, EntryNormal, ctx)])) == Ok(n.(readStates := n.readStates + [ReadState(index, ctx)]))
  {
  }

  // ------------------------------------------------- everything else

  /** A message of an earlier term is dropped; under checkQuorum an old leader is told the term. */
  lemma StaleDropped(n: Node, m: Message)
    requires 0 < m.term < n.term && m.from != NONE && n.id != NONE
    ensures Step(n, m) == Ok(if n.checkQuorum && (m.typ == MsgHeartbeat || m.typ == MsgApp)
                             then n.(msgs := n.msgs + {Message(MsgAppResp, m.from, n.id, n.term, 0, 0, [], 0, false, 0, [])}) else n)
  {
  }

  /** A leader of a later term is followed there, and then its message is handled. */
  lemma LaterLeader(n: Node, m: Message)
    requires m.term > n.term && (m.typ == MsgApp || m.typ == MsgHeartbeat)
    ensures Step(n, m) == Step(n.(term := m.term, vote := NONE, votes := map[], pendingConf := false, lead := m.from, role := Follower), m)
  {
    var n1 := n.(term := m.term, vote := NONE, votes := map[], pendingConf := false, lead := m.from, role := Follower);
    assert ObserveTerm(n, m) == n1 && ObserveTerm(n1, m) == n1;
    hide StepRole, ObserveTerm;
  }

  /** A candidate that hears from the leader of its term follows it, and then handles the message. */
  lemma CandidateYields(n: Node, m: Message)
    requires (n.role == Candidate || n.role == PreCandidate) && m.term == n.term && 1 <= n.term && (m.typ == MsgApp || m.typ == MsgHeartbeat)
    ensures Step(n, m) == Step(n.(votes := map[], pendingConf := false, lead := m.from, role := Follower), m)
  {
    var n1 := n.(votes := map[], pendingConf := false, lead := m.from, role := Follower);
    InTerm(n, m);
    InTerm(n1, m);
    hide Step, HandleAppendEntries, HandleHeartbeat;
    assert n1.(lead := m.from) == n1;
  }

  /** A member with a committed configuration change to apply does not campaign. */
  lemma HupWaits(n: Node, i: nat)
    requires n.role == Leader || (n.applied <= i < n.commit <= |n.log| && n.log[i].typ == EntryConfChange)
    ensures Step(n, HUP) == Ok(n)
  {
    assert Step(n, HUP) == Hup(n);
    if n.role != Leader { assert PendingConf(n); }
  }

  /** Without a leader to pass it to, a client's request is dropped. */
  lemma NoLeaderDrops(n: Node, m: Message)
    requires (n.role == Follower && n.lead == NONE) || n.role == Candidate || n.role == PreCandidate
    requires m.term == 0 && (m.typ == MsgProp || m.typ == MsgReadIndex)
    ensures Step(n, m) == Ok(n)
  {
  }

  /** A read is dropped by a leader that has committed nothing of its term, and one that waits already is not noted again. */
  lemma ReadIgnored(n: Node, from: NodeId, ctx: Bytes)
    requires n.role == Leader && n.id in n.prs && |n.prs| >= 2 && n.commit <= |n.log|
    requires (if n.commit == 0 then n.term != 0 else n.log[n.commit - 1].term != n.term) || ctx in n.readOnly.pending
    ensures Step(n, ReadMsg(n.id, from, ctx)) == Ok(n)
  {
    InTerm(n, ReadMsg(n.id, from, ctx));
    hide Step;
  }

  /** A rejection of anything but the last message sent is dropped. */
  lemma NackIgnored(n: Node, j: Node, index: nat)
    requires n.role == Leader && n.term == j.term && 1 <= n.term && j.id in n.prs && n.prs[j.id].next != index + 1
    ensures Step(n, NackMsg(j, n.id, index)) == Ok(n)
  {
    var m := NackMsg(j, n.id, index);
    LeaderHears(n, m);
    hide Step;
  }

  /** What a leader makes of a client's entry: its term, the next index, and the client's data, except that a configuration
      change behind another one, or while one is in flight, becomes an empty entry. */
  ghost predicate TakenAt(n: Node, es: seq<Entry>, log: Log, i: nat)
    requires i < |es| && |log| == |n.log| + |es|
  {
    log[|n.log| + i] == if es[i].typ == EntryConfChange && (n.pendingConf || exists j :: 0 <= j < i && es[j].typ == EntryConfChange)
                        then Entry(n.term, |n.log| + i + 1, EntryNormal, [])
                        else Entry(n.term, |n.log| + i + 1, es[i].typ, es[i].data)
  }

  ghost predicate Taken(n: Node, es: seq<Entry>, log: Log) {
    |log| == |n.log| + |es| && n.log <= log && forall i :: 0 <= i < |es| ==> TakenAt(n, es, log, i)
  }

  lemma {:induction false} Demotes(pending: bool, es: seq<Entry>, i: nat)
    requires i < |es|
    ensures |Demote(pending, es)| == |es|
    ensures Demote(pending, es)[i] == if es[i].typ == EntryConfChange && (pending || exists j :: 0 <= j < i && es[j].typ == EntryConfChange)
                                      then NOOP else es[i]
    decreases |es|
  {
    var first := es[0].typ == EntryConfChange;
    if i > 0 {
      Demotes(pending || first, es[1..], i - 1);
      assert (exists j :: 0 <= j < i && es[j].typ == EntryConfChange)
        <==> first || exists j :: 0 <= j < i - 1 && es[1..][j].typ == EntryConfChange by {
        if j :| 0 <= j < i && es[j].typ == EntryConfChange { assert j > 0 ==> es[1..][j - 1] == es[j]; }
        if j :| 0 <= j < i - 1 && es[1..][j].typ == EntryConfChange { assert es[j + 1] == es[1..][j]; }
      }
    } else if |es| > 1 {
      Demotes(pending || first, es[1..], 0);
    }
  }

  lemma ProposalsTaken(n: Node, m: Message)
    requires n.role == Leader && n.id in n.prs && n.commit <= |n.log| && m.typ == MsgProp && m.term == 0 && m.entries != [] && Step(n, m).Ok?
    ensures var n' := Step(n, m).value;
            && Taken(n, m.entries, n'.log) && n'.term == n.term && n'.role == Leader && n'.id == n.id
            && n'.pendingConf == (n.pendingConf || exists i :: 0 <= i < |m.entries| && m.entries[i].typ == EntryConfChange)
  {
    InTerm(n, m);
    assert StepRole(n, m) == HandleProposal(n, m) by { hide Step, HandleProposal; }
    hide Step, StepRole, MaybeCommit, BroadcastAppend;
    TakenBy(n, m.entries);
    var log := n.log + Stamped(n.term, |n.log|, Demote(n.pendingConf, m.entries));
    hide Taken, Stamped, Demote;
    HandledProposal(n, m);
    assert HasConfChange(m.entries) <==> exists i :: 0 <= i < |m.entries| && m.entries[i].typ == EntryConfChange;
  }

  lemma HandledProposal(n: Node, m: Message)
    requires n.id in n.prs && n.commit <= |n.log| && m.entries != [] && HandleProposal(n, m).Ok?
    ensures var n' := HandleProposal(n, m).value;
            && n'.log == n.log + Stamped(n.term, |n.log|, Demote(n.pendingConf, m.entries)) && n'.term == n.term && n'.role == n.role && n'.id == n.id
            && n'.pendingConf == (n.pendingConf || HasConfChange(m.entries))
  {
    var es := Demote(n.pendingConf, m.entries);
    var n1 := n.(pendingConf := n.pendingConf || HasConfChange(m.entries));
    AppendAtEnd(n.log, n.commit, n.term, es);
    var log := n.log + Stamped(n.term, |n.log|, es);
    hide Stamped, Demote, HasConfChange, MaybeCommit, BroadcastAppend;
    var n2 := n1.(log := log, prs := n.prs[n.id := MaybeUpdate(n.prs[n.id], |log|)]);
    assert AppendEntry(n1, es) == MaybeCommit(n2);
    CommitOnly(n2);
    AnyBroadcast(MaybeCommit(n2).value);
  }

  lemma TakenBy(n: Node, es: seq<Entry>)
    ensures Taken(n, es, n.log + Stamped(n.term, |n.log|, Demote(n.pendingConf, es)))
  {
    var es' := Demote(n.pendingConf, es);
    var log := n.log + Stamped(n.term, |n.log|, es');
    if es != [] { Demotes(n.pendingConf, es, 0); }
    hide Demote;
    forall i | 0 <= i < |es| ensures TakenAt(n, es, log, i) {
      Demotes(n.pendingConf, es, i);
      assert log[|n.log| + i] == es'[i].(term := n.term, index := |n.log| + i + 1);
    }
  }

  lemma AnyBroadcast(n: Node)
    ensures BroadcastAppend(n).Ok? && BroadcastAppend(n).value == n.(msgs := BroadcastAppend(n).value.msgs)
  {
  }
}
