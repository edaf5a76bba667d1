/** The raft object of apps/raft_demo/raft/raft.go, leader.go, candidate.go, follower.go and read.go, with its
    fields updated in place. Every method is proved against the handler it implements in RaftSpec. */
module RaftNode {
  import opened RaftTypes
  import opened RaftFlatLog
  import opened RaftSpec
  import opened RaftLog

  // ------------------------------------------------------------- majority index

  function CountAtLeast(s: seq<nat>, k: nat): nat {
    if s == [] then 0 else (if s[0] >= k then 1 else 0) + CountAtLeast(s[1..], k)
  }

  ghost predicate Descending(s: seq<nat>) { forall i, j :: 0 <= i <= j < |s| ==> s[i] >= s[j] }

  function InsertDescending(x: nat, s: seq<nat>): seq<nat> {
    if s == [] || x >= s[0] then [x] + s else [s[0]] + InsertDescending(x, s[1..])
  }

  lemma {:induction false} InsertCounts(x: nat, s: seq<nat>, k: nat)
    ensures CountAtLeast(InsertDescending(x, s), k) == CountAtLeast(s, k) + (if x >= k then 1 else 0)
    ensures |InsertDescending(x, s)| == |s| + 1
  {
    if s == [] || x >= s[0] {
      assert ([x] + s)[1..] == s;
    } else {
      InsertCounts(x, s[1..], k);
      assert ([s[0]] + InsertDescending(x, s[1..]))[1..] == InsertDescending(x, s[1..]);
    }
  }

  lemma {:induction false} InsertSorts(x: nat, s: seq<nat>)
    requires Descending(s)
    ensures Descending(InsertDescending(x, s))
    ensures forall y :: y in InsertDescending(x, s) ==> y == x || y in s
  {
    if s != [] && x < s[0] {
      InsertSorts(x, s[1..]);
      var t := InsertDescending(x, s[1..]);
      forall i | 0 <= i < |t| ensures s[0] >= t[i] { assert t[i] in t; }
    }
  }

  lemma {:induction false} CountTail(s: seq<nat>, q: nat, k: nat)
    requires Descending(s) && 1 <= q <= |s|
    ensures k <= s[q - 1] ==> CountAtLeast(s, k) >= q
    ensures k > s[q - 1] ==> CountAtLeast(s, k) < q
  {
    assert s[0] >= s[q - 1];
    if q > 1 {
      CountTail(s[1..], q - 1, k);
    } else if k > s[0] {
      CountNone(s, k);
    }
  }

  lemma {:induction false} CountNone(s: seq<nat>, k: nat)
    requires Descending(s) && (s != [] ==> k > s[0])
    ensures CountAtLeast(s, k) == 0
  {
    if |s| > 1 {
      CountNone(s[1..], k);
    }
  }

  /** matches holds, in descending order, the confirmed indices of all members outside todo. */
  ghost predicate Tallied(prs: map<NodeId, Progress>, todo: set<NodeId>, matches: seq<nat>) {
    && todo <= prs.Keys && Descending(matches) && |matches| == |prs.Keys - todo|
    && forall k: nat :: CountAtLeast(matches, k) == |AtLeast(prs, k) - todo|
  }

  lemma TallyNext(prs: map<NodeId, Progress>, todo: set<NodeId>, matches: seq<nat>, id: NodeId)
    requires Tallied(prs, todo, matches) && id in todo
    ensures Tallied(prs, todo - {id}, InsertDescending(prs[id].matched, matches))
  {
    InsertSorts(prs[id].matched, matches);
    forall k: nat ensures CountAtLeast(InsertDescending(prs[id].matched, matches), k) == |AtLeast(prs, k) - (todo - {id})| {
      InsertCounts(prs[id].matched, matches, k);
      if prs[id].matched >= k {
        assert AtLeast(prs, k) - (todo - {id}) == (AtLeast(prs, k) - todo) + {id};
      } else {
        assert AtLeast(prs, k) - (todo - {id}) == AtLeast(prs, k) - todo;
      }
    }
    InsertCounts(prs[id].matched, matches, 0);
    assert prs.Keys - (todo - {id}) == (prs.Keys - todo) + {id};
  }

  lemma TallyComplete(prs: map<NodeId, Progress>, matches: seq<nat>)
    requires prs != map[] && Tallied(prs, {}, matches)
    ensures |matches| == |prs| && 0 < |prs| && matches[|prs| / 2] == QuorumMatch(prs)
  {
    assert prs.Keys - {} == prs.Keys && |prs| == |prs.Keys|;
    forall k: nat ensures CountAtLeast(matches, k) == |AtLeast(prs, k)| {
      assert AtLeast(prs, k) - {} == AtLeast(prs, k);
    }
    var mid, q := matches[|prs| / 2], QuorumMatch(prs);
    CountTail(matches, |prs| / 2 + 1, mid);
    CountTail(matches, |prs| / 2 + 1, q);
  }

  /** Collect the confirmed indices, sort them downwards and take the quorum-th. */
  method MajorityIndex(prs: map<NodeId, Progress>) returns (mid: nat)
    requires prs != map[]
    ensures mid == QuorumMatch(prs)
  {
    var matches: seq<nat> := [];
    var todo := prs.Keys;
    assert forall k: nat :: AtLeast(prs, k) - prs.Keys == {};
    while todo != {}
      invariant Tallied(prs, todo, matches)
      decreases todo
    {
      hide Tallied;
      var id :| id in todo;
      assert id in prs by { Member(prs, todo, matches, id); }
      TallyNext(prs, todo, matches, id);
      matches := InsertDescending(prs[id].matched, matches);
      todo := todo - {id};
    }
    TallyComplete(prs, matches);
    mid := matches[|prs| / 2];
  }

  lemma Member(prs: map<NodeId, Progress>, todo: set<NodeId>, matches: seq<nat>, id: NodeId)
    requires Tallied(prs, todo, matches) && id in todo
    ensures id in prs
  {
  }

  // -------------------------------------------------------------------- reads

  class ReadTracker {
    var pending: map<Bytes, ReadStatus>
    var queue: seq<Bytes>

    constructor ()
      ensures pending == map[] && queue == []
    {
      pending, queue := map[], [];
    }

    ghost function View(): ReadOnly
      reads this
    {
      ReadOnly(pending, queue)
    }

    method AddRequest(ctx: Bytes, index: nat, m: Message) returns (added: bool)
      modifies this
      ensures added <==> ctx !in old(pending)
      ensures View() == if added then RaftSpec.AddRequest(old(View()), ctx, index, m) else old(View())
    {
      if ctx in pending { return false; }
      pending := pending[ctx := ReadStatus(m, index, {})];
      queue := queue + [ctx];
      return true;
    }

    method RecvAck(ctx: Bytes, from: NodeId) returns (acks: set<NodeId>)
      modifies this`pending
      ensures View() == RaftSpec.RecvAck(old(View()), ctx, from)
      ensures acks == if ctx in pending then pending[ctx].acks else {}
    {
      if ctx !in pending { return {}; }
      pending := pending[ctx := pending[ctx].(acks := pending[ctx].acks + {from})];
      return pending[ctx].acks;
    }

    /** Scan the queue up to ctx, then drop what was scanned from queue and map. */
    method Advance(ctx: Bytes) returns (rss: seq<ReadStatus>)
      requires AdvanceReads(View(), ctx).Ok?
      modifies this
      ensures (View(), rss) == AdvanceReads(old(View()), ctx).value
    {
      var i, found := 0, false;
      ghost var k := QueuePrefix(queue, ctx);
      ghost var scanned := if k == 0 then |queue| else k;
      rss := [];
      while i < |queue| && !found
        invariant 0 <= i <= scanned && |rss| == i && PrefixPending(View(), scanned)
        invariant found <==> k != 0 && i == k
        invariant !found ==> ctx !in queue[..i]
        invariant forall j :: 0 <= j < i ==> rss[j] == pending[queue[j]]
      {
        rss := rss + [pending[queue[i]]];
        if queue[i] == ctx {
          found := true;
          assert k == i + 1 by { PrefixEnds(queue, ctx, i); }
        } else {
          assert queue[..i + 1] == queue[..i] + [queue[i]];
        }
        i := i + 1;
      }
      if found {
        assert rss == Statuses(View(), k);
        var gone := set j | 0 <= j < |rss| :: rss[j].req.entries[0].data;
        queue := queue[i..];
        pending := pending - gone;
        return;
      }
      assert queue[..i] == queue || i == k;
      rss := [];
    }

    static lemma PrefixEnds(queue: seq<Bytes>, ctx: Bytes, i: nat)
      requires i < |queue| && queue[i] == ctx && ctx !in queue[..i]
      ensures QueuePrefix(queue, ctx) == i + 1
    {
      var k := QueuePrefix(queue, ctx);
      assert forall j :: 0 <= j < i ==> queue[..i][j] != ctx;
      if k > 0 {
        var before := queue[..k - 1];
        assert forall j :: 0 <= j < |before| ==> before[j] == queue[j];
      }
    }
  }

  // --------------------------------------------------------------- the node

  class Raft {
    const id: NodeId
    const preVote: bool
    const checkQuorum: bool
    var term: nat
    var vote: NodeId
    var role: Role
    var lead: NodeId
    var votes: map<NodeId, bool>
    var prs: map<NodeId, Progress>
    const log: LogStore
    const reads_: ReadTracker
    var readStates: seq<ReadState>
    var pendingConf: bool
    var msgs: seq<Message>
    const electionTimeout: int
    const heartbeatTimeout: int
    var randomizedElectionTimeout: int
    var electionElapsed: int
    var heartbeatElapsed: int

    ghost predicate Valid()
      reads this, log, log.storage, log.unstable
    {
      log.Valid() && 1 <= term
    }

    /** The node as a value: flat log, message queue as a set, timers left out. */
    ghost function View(): Node
      requires Valid()
      reads this, log, log.storage, log.unstable, reads_
    {
      Node(id, preVote, checkQuorum, term, vote, role, lead, votes, prs, log.Flat(), log.commitIndex, log.applyIndex,
           pendingConf, reads_.View(), readStates, set m | m in msgs)
    }

    /** The unpersisted part may start lower and never becomes empty. */
    twostate predicate Unpersisted()
      reads log, log.unstable
    {
      log.unstable.offset <= old(log.unstable.offset) && (old(log.unstable.entries) != [] ==> log.unstable.entries != [])
    }

    /** `newRaft` and `StartNode` with empty storage. */
    constructor (id: NodeId, peers: set<NodeId>, preVote: bool, electionTick: int, heartbeatTick: int)
      ensures Valid() && fresh(log) && fresh(log.storage) && fresh(log.unstable) && fresh(reads_)
      ensures log.storage.entries[1..] == []
      ensures View() == Node(id, preVote, false, 1, NONE, Follower, NONE, map[], map p | p in peers :: Progress(0, 1),
                             [], 0, 0, false, ReadOnly(map[], []), [], {})
    {
      this.id, this.preVote, this.checkQuorum := id, preVote, false;
      electionTimeout, heartbeatTimeout := electionTick, heartbeatTick;
      term, vote, role, lead, votes := 1, NONE, Follower, NONE, map[];
      prs := map p | p in peers :: Progress(0, 1);
      var storage := new MemoryStorage();
      log := new LogStore(storage);
      reads_ := new ReadTracker();
      readStates, pendingConf, msgs := [], false, [];
      var n := if electionTick <= 0 then 1 else electionTick;
      var r: int :| 0 <= r < n;
      randomizedElectionTimeout, electionElapsed, heartbeatElapsed := n + r, 0, 0;
      new;
      assert (set m | m in msgs) == {};
    }

    method Send(m: Message)
      requires Valid()
      modifies this`msgs
      ensures Valid() && View() == RaftSpec.Send(old(View()), m)
    {
      var m1 := if m.from == NONE then m.(from := id) else m;
      if m1.typ != MsgProp && m1.typ != MsgReadIndex { m1 := m1.(term := term); }
      msgs := msgs + [m1];
      assert (set x | x in msgs) == old(set x | x in msgs) + {m1};
    }

    method Reset(t: nat)
      requires Valid() && 1 <= t
      modifies this
      ensures Valid() && View() == RaftSpec.Reset(old(View()), t)
    {
      if term != t { term, vote := t, NONE; }
      lead := NONE;
      ResetTimers();
      votes := map[];
      pendingConf := false;
    }

    /** The next election timeout is drawn between one and two times the configured one. */
    method ResetTimers()
      modifies this`electionElapsed, this`heartbeatElapsed, this`randomizedElectionTimeout
      ensures electionElapsed == heartbeatElapsed == 0
      ensures electionTimeout > 0 ==> electionTimeout <= randomizedElectionTimeout < 2 * electionTimeout
    {
      electionElapsed, heartbeatElapsed := 0, 0;
      var n := if electionTimeout <= 0 then 1 else electionTimeout;
      var r: int :| 0 <= r < n;
      randomizedElectionTimeout := n + r;
    }

    method BecomeFollower(t: nat, l: NodeId)
      requires Valid() && 1 <= t
      modifies this
      ensures Valid() && View() == RaftSpec.BecomeFollower(old(View()), t, l)
    {
      Reset(t);
      lead := l;
      role := Follower;
    }

    method BecomePreCandidate()
      requires Valid() && RaftSpec.BecomePreCandidate(View()).Ok?
      modifies this
      ensures Valid() && View() == RaftSpec.BecomePreCandidate(old(View())).value
    {
      votes := map[];
      role := PreCandidate;
    }

    method BecomeCandidate()
      requires Valid() && RaftSpec.BecomeCandidate(View()).Ok?
      modifies this
      ensures Valid() && View() == RaftSpec.BecomeCandidate(old(View())).value
    {
      Reset(term + 1);
      vote := id;
      role := Candidate;
    }

    /** Record the answer of a peer unless it answered before, and count the ayes. */
    method Poll(peer: NodeId, v: bool) returns (granted: nat)
      requires Valid()
      modifies this`votes
      ensures Valid() && View() == RaftSpec.Poll(old(View()), peer, v) && granted == Granted(View())
    {
      if peer !in votes { votes := votes[peer := v]; }
      granted := CountAyes(votes);
    }

    static method CountAyes(votes: map<NodeId, bool>) returns (granted: nat)
      ensures granted == |Ayes(votes)|
    {
      granted := 0;
      var todo := votes.Keys;
      ghost var ayes := Ayes(votes);
      assert ayes - todo == {};
      while todo != {}
        invariant todo <= votes.Keys && granted == |ayes - todo|
        decreases todo
      {
        var j :| j in todo;
        if votes[j] {
          granted := granted + 1;
          assert ayes - (todo - {j}) == (ayes - todo) + {j};
        } else {
          assert ayes - (todo - {j}) == ayes - todo;
        }
        todo := todo - {j};
      }
      assert ayes - todo == ayes;
    }

    function QuorumSize(): nat
      reads this
    {
      |prs| / 2 + 1
    }

    method MaybeCommit() returns (done: bool)
      requires Valid() && prs != map[]
      modifies log`commitIndex
      ensures Valid() && RaftSpec.MaybeCommit(old(View())) == Ok(View())
      ensures done <==> View().commit != old(View()).commit
    {
      var mid := MajorityIndex(prs);
      done := log.MaybeCommit(mid, term);
    }

    method AppendEntry(es: seq<Entry>)
      requires Valid() && RaftSpec.AppendEntry(View(), es).Ok?
      modifies this`prs, log`commitIndex, log.unstable
      ensures Valid() && View() == RaftSpec.AppendEntry(old(View()), es).value && Unpersisted()
    {
      hide RaftSpec.MaybeCommit;
      var last := log.LastIndex();
      var stamped := Stamped(term, last, es);
      var _ := log.Append(stamped);
      prs := prs[id := MaybeUpdate(prs[id], log.LastIndex())];
      assert id in prs.Keys;
      var _ := MaybeCommit();
    }

    method BecomeLeader()
      requires Valid() && RaftSpec.BecomeLeader(View()).Ok?
      modifies this, log`commitIndex, log.unstable
      ensures Valid() && View() == RaftSpec.BecomeLeader(old(View())).value && Unpersisted()
    {
      hide RaftSpec.AppendEntry;
      ghost var n := View();
      Reset(term);
      lead := id;
      role := Leader;
      var last := log.LastIndex();
      var todo, fresh_ := prs.Keys, prs;
      while todo != {}
        invariant todo <= prs.Keys && fresh_.Keys == prs.Keys
        invariant forall p :: p in prs ==> fresh_[p] == if p == id || p in todo then prs[p] else Progress(0, last + 1)
        decreases todo
      {
        var p :| p in todo;
        if p != id { fresh_ := fresh_[p := Progress(0, last + 1)]; }
        todo := todo - {p};
      }
      prs := fresh_;
      assert prs == FreshProgress(n);
      AppendEntry([NOOP]);
    }

    method SendAppend(to: NodeId)
      requires Valid() && to in prs
      modifies this`msgs
      ensures Valid() && View() == RaftSpec.SendAppend(old(View()), to).value
    {
      hide Numbered;
      var pr := prs[to];
      var t := log.Term(pr.next - 1);
      var es := EntriesFrom(pr.next);
      Send(Blank(MsgApp, to).(logTerm := t, logIndex := pr.next - 1, entries := es, commitIndex := log.commitIndex));
    }

    method EntriesFrom(i: nat) returns (es: seq<Entry>)
      requires Valid() && 1 <= i
      ensures es == if i > |log.Flat()| + 1 then [] else log.Flat()[i - 1..]
    {
      es := log.Entries(i);
      assert i == |log.Flat()| + 1 ==> es == log.Flat()[i - 1..];
    }

    lemma OneMore(a: set<Message>, b: set<Message>, m: Message)
      ensures (a + b) + {m} == a + (b + {m})
    {
    }

    lemma AppendFrame(n: Node, n': Node, p: NodeId)
      requires n' == n.(msgs := n'.msgs) && p in n.prs
      ensures AppendMessageTo(n', p) == AppendMessageTo(n, p)
    {
    }

    lemma AppendsNext(n: Node, ids: set<NodeId>, p: NodeId)
      requires p in n.prs
      ensures AppendMessages(n, ids + {p}) == if p == n.id then AppendMessages(n, ids) else AppendMessages(n, ids) + {AppendMessageTo(n, p)}
    {
    }

    lemma AppendsEmpty(n: Node)
      ensures AppendMessages(n, {}) == {}
    {
    }

    method BroadcastAppend()
      requires Valid()
      modifies this`msgs
      ensures Valid() && View() == RaftSpec.BroadcastAppend(old(View())).value
    {
      hide AppendMessages, AppendMessageTo, LogStore.Flat;
      ghost var n := View();
      var todo := prs.Keys;
      ghost var sent: set<NodeId> := {};
      assert AppendMessages(n, {}) == {} by { AppendsEmpty(n); }
      while todo != {}
        invariant todo <= prs.Keys && sent == prs.Keys - todo && Valid()
        invariant View() == n.(msgs := n.msgs + AppendMessages(n, sent))
        decreases todo
      {
        var p :| p in todo;
        AppendsNext(n, sent, p);
        AppendFrame(n, View(), p);
        OneMore(n.msgs, AppendMessages(n, sent), AppendMessageTo(n, p));
        if p != id { SendAppend(p); }
        sent := sent + {p};
        todo := todo - {p};
      }
      assert sent == prs.Keys;
    }

    method SendHeartbeat(to: NodeId, ctx: Bytes)
      requires Valid() && to in prs
      modifies this`msgs
      ensures Valid() && View() == (var n := old(View()); n.(msgs := n.msgs + {HeartbeatMessage(n, to, ctx)}))
    {
      var commit := Min(log.commitIndex, prs[to].matched);
      Send(Blank(MsgHeartbeat, to).(commitIndex := commit, context := ctx));
    }

    lemma HeartbeatFrame(n: Node, n': Node, p: NodeId, ctx: Bytes)
      requires n' == n.(msgs := n'.msgs) && p in n.prs
      ensures HeartbeatMessage(n', p, ctx) == HeartbeatMessage(n, p, ctx)
    {
    }

    lemma HeartbeatsNext(n: Node, ids: set<NodeId>, p: NodeId, ctx: Bytes)
      requires p in n.prs
      ensures HeartbeatMessages(n, ctx, ids + {p}) ==
              if p == n.id then HeartbeatMessages(n, ctx, ids) else HeartbeatMessages(n, ctx, ids) + {HeartbeatMessage(n, p, ctx)}
    {
    }

    lemma HeartbeatsEmpty(n: Node, ctx: Bytes)
      ensures HeartbeatMessages(n, ctx, {}) == {}
    {
    }

    method BroadcastHeartbeat(ctx: Bytes)
      requires Valid()
      modifies this`msgs
      ensures Valid() && View() == RaftSpec.BroadcastHeartbeat(old(View()), ctx)
    {
      hide HeartbeatMessages, HeartbeatMessage, LogStore.Flat;
      ghost var n := View();
      var todo := prs.Keys;
      ghost var sent: set<NodeId> := {};
      assert HeartbeatMessages(n, ctx, {}) == {} by { HeartbeatsEmpty(n, ctx); }
      while todo != {}
        invariant todo <= prs.Keys && sent == prs.Keys - todo && Valid()
        invariant View() == n.(msgs := n.msgs + HeartbeatMessages(n, ctx, sent))
        decreases todo
      {
        var p :| p in todo;
        HeartbeatsNext(n, sent, p, ctx);
        HeartbeatFrame(n, View(), p, ctx);
        OneMore(n.msgs, HeartbeatMessages(n, ctx, sent), HeartbeatMessage(n, p, ctx));
        if p != id { SendHeartbeat(p, ctx); }
        sent := sent + {p};
        todo := todo - {p};
      }
      assert sent == prs.Keys;
    }

    lemma RequestsNext(n: Node, ids: set<NodeId>, p: NodeId, typ: MessageType)
      requires p in n.prs
      ensures VoteRequests(n, typ, ids + {p}) ==
              if p == n.id then VoteRequests(n, typ, ids) else VoteRequests(n, typ, ids) + {VoteRequest(n, typ, p)}
    {
    }

    lemma RequestFrame(n: Node, n': Node, typ: MessageType, p: NodeId)
      requires n' == n.(msgs := n'.msgs)
      ensures VoteRequest(n', typ, p) == VoteRequest(n, typ, p)
    {
    }

    lemma RequestsEmpty(n: Node, typ: MessageType)
      ensures VoteRequests(n, typ, {}) == {}
    {
    }

    method SendVoteRequest(to: NodeId, typ: MessageType)
      requires Valid()
      modifies this`msgs
      ensures Valid() && View() == (var n := old(View()); n.(msgs := n.msgs + {VoteRequest(n, typ, to)}))
    {
      Send(Blank(typ, to).(logTerm := log.LastTerm(), logIndex := log.LastIndex()));
    }

    method RequestVotes(typ: MessageType)
      requires Valid()
      modifies this`msgs
      ensures Valid() && View() == (var n := old(View()); n.(msgs := n.msgs + VoteRequests(n, typ, n.prs.Keys)))
    {
      hide VoteRequests, VoteRequest, LogStore.Flat;
      ghost var n := View();
      var todo := prs.Keys;
      ghost var sent: set<NodeId> := {};
      assert VoteRequests(n, typ, {}) == {} by { RequestsEmpty(n, typ); }
      while todo != {}
        invariant todo <= prs.Keys && sent == prs.Keys - todo && Valid()
        invariant View() == n.(msgs := n.msgs + VoteRequests(n, typ, sent))
        decreases todo
      {
        var p :| p in todo;
        RequestsNext(n, sent, p, typ);
        RequestFrame(n, View(), typ, p);
        OneMore(n.msgs, VoteRequests(n, typ, sent), VoteRequest(n, typ, p));
        if p != id { SendVoteRequest(p, typ); }
        sent := sent + {p};
        todo := todo - {p};
      }
      assert sent == prs.Keys;
    }

    method CampaignElection()
      requires Valid() && RaftSpec.CampaignElection(View()).Ok?
      modifies this, log`commitIndex, log.unstable
      ensures Valid() && View() == RaftSpec.CampaignElection(old(View())).value && Unpersisted()
    {
      hide RaftSpec.BecomeLeader, Granted, VoteRequests;
      BecomeCandidate();
      var granted := Poll(id, true);
      if granted == QuorumSize() {
        BecomeLeader();
      } else {
        RequestVotes(MsgVote);
      }
    }

    method CampaignPreElection()
      requires Valid() && RaftSpec.CampaignPreElection(View()).Ok?
      modifies this, log`commitIndex, log.unstable
      ensures Valid() && View() == RaftSpec.CampaignPreElection(old(View())).value && Unpersisted()
    {
      hide RaftSpec.CampaignElection, Granted, VoteRequests;
      BecomePreCandidate();
      var granted := Poll(id, true);
      if granted == QuorumSize() {
        CampaignElection();
      } else {
        RequestVotes(MsgPreVote);
      }
    }

    /** Count the configuration changes among entries. */
    static method NumOfPendingConf(es: seq<Entry>) returns (n: nat)
      ensures n > 0 <==> exists i :: 0 <= i < |es| && es[i].typ == EntryConfChange
    {
      n := 0;
      for i := 0 to |es|
        invariant n > 0 <==> exists j :: 0 <= j < i && es[j].typ == EntryConfChange
      {
        if es[i].typ == EntryConfChange { n := n + 1; }
      }
    }

    method Hup()
      requires Valid() && RaftSpec.Hup(View()).Ok?
      modifies this, log`commitIndex, log.unstable
      ensures Valid() && View() == RaftSpec.Hup(old(View())).value && Unpersisted()
    {
      hide RaftSpec.CampaignElection, RaftSpec.CampaignPreElection;
      if role == Leader || id !in prs { return; }
      var es := log.Slice(log.applyIndex + 1, log.commitIndex + 1);
      var pending := NumOfPendingConf(es);
      assert pending > 0 <==> PendingConf(View()) by { SamePending(View(), es); }
      if pending > 0 { return; }
      if preVote { CampaignPreElection(); } else { CampaignElection(); }
    }

    static lemma SamePending(n: Node, es: seq<Entry>)
      requires n.applied <= n.commit <= |n.log| && es == n.log[n.applied..n.commit]
      ensures PendingConf(n) <==> exists i :: 0 <= i < |es| && es[i].typ == EntryConfChange
    {
      if PendingConf(n) {
        var i :| n.applied <= i < n.commit && n.log[i].typ == EntryConfChange;
        assert es[i - n.applied].typ == EntryConfChange;
      }
    }

    method HandleAppendEntries(m: Message)
      requires Valid() && RaftSpec.HandleAppendEntries(View(), m).Ok? && Numbered(m.entries, m.logIndex + 1)
      modifies this`msgs, log`commitIndex, log.unstable
      ensures Valid() && View() == RaftSpec.HandleAppendEntries(old(View()), m).value && Unpersisted()
    {
      hide RaftFlatLog.MaybeAppend, Numbered;
      var last, ok := log.MaybeAppend(m.logIndex, m.logTerm, m.commitIndex, m.entries);
      if ok {
        Send(Blank(MsgAppResp, m.from).(logIndex := last));
      } else {
        Send(Blank(MsgAppResp, m.from).(logIndex := m.logIndex, reject := true, rejectHint := log.LastIndex()));
      }
    }

    method HandleHeartbeat(m: Message)
      requires Valid() && RaftSpec.HandleHeartbeat(View(), m).Ok?
      modifies this`msgs, log`commitIndex
      ensures Valid() && View() == RaftSpec.HandleHeartbeat(old(View()), m).value
    {
      log.CommitTo(Min(m.commitIndex, log.LastIndex()));
      Send(Blank(MsgHeartbeatResp, m.from).(context := m.context));
    }

    method StepFollower(m: Message)
      requires Valid() && RaftSpec.StepFollower(View(), m).Ok?
      requires m.typ == MsgApp ==> Numbered(m.entries, m.logIndex + 1)
      modifies this, log`commitIndex, log.unstable
      ensures Valid() && View() == RaftSpec.StepFollower(old(View()), m).value && Unpersisted()
    {
      hide RaftSpec.HandleAppendEntries, RaftSpec.HandleHeartbeat, Numbered;
      match m.typ
      case MsgProp => if lead != NONE { Send(m.(to := lead)); }
      case MsgApp =>
        electionElapsed := 0;
        lead := m.from;
        HandleAppendEntries(m);
      case MsgHeartbeat =>
        electionElapsed := 0;
        lead := m.from;
        HandleHeartbeat(m);
      case MsgReadIndex => if lead != NONE { Send(m.(to := lead)); }
      case MsgReadIndexResp => readStates := readStates + [ReadState(m.logIndex, m.entries[0].data)];
      case _ =>
    }

    method Tally(m: Message)
      requires Valid() && RaftSpec.Tally(View(), m).Ok?
      modifies this, log`commitIndex, log.unstable
      ensures Valid() && View() == RaftSpec.Tally(old(View()), m).value && Unpersisted()
    {
      hide RaftSpec.CampaignElection, RaftSpec.BecomeLeader, Granted, RaftSpec.BroadcastAppend;
      var granted := Poll(m.from, !m.reject);
      if granted == QuorumSize() {
        if role == PreCandidate {
          CampaignElection();
        } else {
          BecomeLeader();
          BroadcastAppend();
        }
      } else if |votes| - granted == QuorumSize() {
        BecomeFollower(term, NONE);
      }
    }

    method StepCandidate(m: Message)
      requires Valid() && RaftSpec.StepCandidate(View(), m).Ok?
      requires m.typ == MsgApp ==> Numbered(m.entries, m.logIndex + 1)
      requires m.typ == MsgHeartbeat ==> 1 <= m.term
      modifies this, log`commitIndex, log.unstable
      ensures Valid() && View() == RaftSpec.StepCandidate(old(View()), m).value && Unpersisted()
    {
      hide RaftSpec.HandleAppendEntries, RaftSpec.HandleHeartbeat, RaftSpec.Tally, Numbered;
      match m.typ
      case MsgApp =>
        BecomeFollower(term, m.from);
        HandleAppendEntries(m);
      case MsgHeartbeat =>
        BecomeFollower(m.term, m.from);
        HandleHeartbeat(m);
      case MsgVoteResp => if role != PreCandidate { Tally(m); }
      case MsgPreVoteResp => if role == PreCandidate { Tally(m); }
      case _ =>
    }

    /** Of several configuration changes at most one survives, the first, and none while one is pending;
        everything else is kept in place. */
    static lemma {:induction false} DemoteKeepsOne(pending: bool, es: seq<Entry>)
      ensures |Demote(pending, es)| == |es|
      ensures forall i :: 0 <= i < |es| && es[i].typ != EntryConfChange ==> Demote(pending, es)[i] == es[i]
      ensures forall i :: 0 <= i < |es| && es[i].typ == EntryConfChange ==>
                Demote(pending, es)[i] == if pending || HasConfChange(es[..i]) then NOOP else es[i]
      decreases |es|
    {
      if es != [] {
        var conf := es[0].typ == EntryConfChange;
        DemoteKeepsOne(pending || conf, es[1..]);
        forall i | 1 <= i < |es| ensures HasConfChange(es[..i]) <==> conf || HasConfChange(es[1..][..i - 1]) {
          assert es[..i] == [es[0]] + es[1..][..i - 1];
        }
      }
    }

    static lemma DemoteNone(pending: bool)
      ensures Demote(pending, []) == [] && !HasConfChange([])
    {
    }

    static lemma DemoteNext(pending: bool, es: seq<Entry>, i: nat)
      requires i < |es|
      ensures var conf := es[i].typ == EntryConfChange;
              && Demote(pending, es[i..]) == [if conf && pending then NOOP else es[i]] + Demote(pending || conf, es[i + 1..])
              && (HasConfChange(es[i..]) <==> conf || HasConfChange(es[i + 1..]))
    {
      assert es[i..] == [es[i]] + es[i + 1..];
    }

    static method DemoteAll(pending: bool, es: seq<Entry>) returns (out: seq<Entry>, pending': bool)
      ensures out == Demote(pending, es) && (pending' <==> pending || HasConfChange(es))
    {
      out, pending' := [], pending;
      hide Demote, HasConfChange;
      assert es[0..] == es;
      for i := 0 to |es|
        invariant Demote(pending, es) == out + Demote(pending', es[i..])
        invariant (pending' || HasConfChange(es[i..])) <==> (pending || HasConfChange(es))
      {
        DemoteNext(pending', es, i);
        if es[i].typ == EntryConfChange {
          out := out + [if pending' then NOOP else es[i]];
          pending' := true;
        } else {
          out := out + [es[i]];
        }
      }
      assert es[|es|..] == [];
      DemoteNone(pending');
    }

    method HandleProposal(m: Message)
      requires Valid() && RaftSpec.HandleProposal(View(), m).Ok?
      modifies this, log`commitIndex, log.unstable
      ensures Valid() && View() == RaftSpec.HandleProposal(old(View()), m).value && Unpersisted()
    {
      hide RaftSpec.AppendEntry, RaftSpec.BroadcastAppend, Demote, HasConfChange;
      if id !in prs { return; }
      var es, pending := DemoteAll(pendingConf, m.entries);
      pendingConf := pending;
      AppendEntry(es);
      BroadcastAppend();
    }

    method HandleReadIndex(m: Message)
      requires Valid() && RaftSpec.HandleReadIndex(View(), m).Ok?
      modifies this, reads_
      ensures Valid() && View() == RaftSpec.HandleReadIndex(old(View()), m).value
    {
      hide RaftSpec.BroadcastHeartbeat;
      if id !in prs { return; }
      if |prs| > 1 {
        if log.Term(log.commitIndex) != term { return; }
        var ctx := m.entries[0].data;
        var added := reads_.AddRequest(ctx, log.commitIndex, m);
        if added { BroadcastHeartbeat(ctx); }
      } else {
        readStates := readStates + [ReadState(log.commitIndex, m.entries[0].data)];
      }
    }

    method HandleAppResp(m: Message)
      requires Valid() && m.from in prs && RaftSpec.HandleAppResp(View(), m).Ok?
      modifies this, log`commitIndex
      ensures Valid() && View() == RaftSpec.HandleAppResp(old(View()), m).value
    {
      hide RaftSpec.MaybeCommit, RaftSpec.BroadcastAppend, RaftSpec.SendAppend;
      var pr := prs[m.from];
      if m.reject {
        if pr.next - 1 == m.logIndex {
          prs := prs[m.from := MayDecreaseTo(pr, m.logIndex, m.rejectHint)];
          SendAppend(m.from);
        }
        return;
      }
      prs := prs[m.from := MaybeUpdate(pr, m.logIndex)];
      if pr.matched < m.logIndex {
        assert m.from in prs.Keys;
        var done := MaybeCommit();
        if done { BroadcastAppend(); }
      }
    }

    method HandleHeartbeatResp(m: Message)
      requires Valid() && RaftSpec.HandleHeartbeatResp(View(), m).Ok?
      modifies this, reads_
      ensures Valid() && View() == RaftSpec.HandleHeartbeatResp(old(View()), m).value
    {
      hide AdvanceReads;
      if |reads_.queue| == 0 { return; }
      var acks := reads_.RecvAck(m.context, m.from);
      if |acks| < QuorumSize() { return; }
      assert m.context in reads_.pending;
      var rss := reads_.Advance(m.context);
      ghost var n := View();
      for i := 0 to |rss|
        invariant Valid() && ReleaseAll(n, rss).Ok?
        invariant reads_.View() == n.readOnly && log.Flat() == n.log
        invariant ReleaseAll(View(), rss[i..]) == ReleaseAll(n, rss)
      {
        var rs := rss[i];
        assert rss[i..][0] == rs && rss[i..][1..] == rss[i + 1..];
        if rs.req.from == NONE || rs.req.from == id {
          readStates := readStates + [ReadState(rs.index, rs.req.entries[0].data)];
        } else {
          Send(Blank(MsgReadIndexResp, rs.req.from).(logIndex := rs.index, entries := rs.req.entries));
        }
      }
      assert rss[|rss|..] == [];
    }

    method StepLeader(m: Message)
      requires Valid() && RaftSpec.StepLeader(View(), m).Ok?
      modifies this, log`commitIndex, log.unstable, reads_
      ensures Valid() && View() == RaftSpec.StepLeader(old(View()), m).value && Unpersisted()
    {
      hide RaftSpec.HandleProposal, RaftSpec.HandleReadIndex, RaftSpec.HandleAppResp, RaftSpec.HandleHeartbeatResp, RaftSpec.BroadcastHeartbeat;
      match m.typ
      case MsgBeat => BroadcastHeartbeat([]);
      case MsgProp => HandleProposal(m);
      case MsgReadIndex => HandleReadIndex(m);
      case MsgAppResp => if m.from in prs { HandleAppResp(m); }
      case MsgHeartbeatResp => if m.from in prs { HandleHeartbeatResp(m); }
      case _ =>
    }

    method HandleVote(m: Message)
      requires Valid()
      modifies this
      ensures Valid() && View() == (if m.typ == MsgVote then RaftSpec.HandleVote(old(View()), m) else HandlePreVote(old(View()), m))
      ensures log.Flat() == old(log.Flat())
    {
      if log.IsUpToDate(m.logIndex, m.logTerm) && (vote == NONE || m.term > term || m.from == vote) {
        if m.typ == MsgVote {
          vote := m.from;
          Send(Blank(MsgVoteResp, m.from));
          return;
        }
        Send(Blank(MsgPreVoteResp, m.from));
        return;
      }
      if m.typ == MsgVote {
        Send(Blank(MsgVoteResp, m.from).(reject := true));
        return;
      }
      Send(Blank(MsgPreVoteResp, m.from).(reject := true));
    }

    /** The whole of `Step`, for every message type in every role, computes the specified node. */
    method Step(m: Message)
      requires Valid() && RaftSpec.Step(View(), m).Ok?
      requires m.typ == MsgApp ==> Numbered(m.entries, m.logIndex + 1)
      requires m.typ == MsgHeartbeat ==> 1 <= m.term
      modifies this, log`commitIndex, log.unstable, reads_
      ensures Valid() && View() == RaftSpec.Step(old(View()), m).value && Unpersisted()
    {
      hide RaftSpec.Hup, RaftSpec.HandleVote, HandlePreVote, RaftSpec.StepLeader, RaftSpec.StepFollower, RaftSpec.StepCandidate, Numbered;
      if 0 < m.term < term {
        if checkQuorum && (m.typ == MsgHeartbeat || m.typ == MsgApp) {
          Send(Blank(MsgAppResp, m.from));
        }
        return;
      }
      if m.term > term {
        var l := if m.typ == MsgVote || m.typ == MsgPreVote then NONE else m.from;
        if m.typ != MsgPreVote && (m.typ != MsgPreVoteResp || m.reject) {
          BecomeFollower(m.term, l);
        }
      }
      assert View() == ObserveTerm(old(View()), m);
      if m.typ == MsgHup {
        Hup();
      } else if m.typ == MsgVote || m.typ == MsgPreVote {
        HandleVote(m);
      } else {
        match role
        case Leader => StepLeader(m);
        case Follower => StepFollower(m);
        case _ => StepCandidate(m);
      }
    }

    /** A timer tick counts up; when the timeout is reached it is a heartbeat request for a leader, and a
        campaign request for any other member. */
    method Tick()
      requires Valid() && RaftSpec.Step(View(), Blank(MsgHup, NONE).(from := id)).Ok?
      requires RaftSpec.Step(View(), Blank(MsgBeat, NONE).(from := id)).Ok?
      modifies this, log`commitIndex, log.unstable, reads_
      ensures Valid() && Unpersisted()
      ensures old(role) == Leader ==>
                if old(heartbeatElapsed) + 1 >= heartbeatTimeout
                then View() == RaftSpec.Step(old(View()), Blank(MsgBeat, NONE).(from := id)).value
                else View() == old(View()) && heartbeatElapsed == old(heartbeatElapsed) + 1
      ensures old(role) != Leader ==>
                if id in old(prs) && old(electionElapsed) + 1 >= old(randomizedElectionTimeout)
                then View() == RaftSpec.Step(old(View()), Blank(MsgHup, NONE).(from := id)).value
                else View() == old(View()) && electionElapsed == old(electionElapsed) + 1
    {
      hide RaftSpec.Step;
      if role == Leader {
        heartbeatElapsed := heartbeatElapsed + 1;
        if heartbeatElapsed >= heartbeatTimeout {
          heartbeatElapsed := 0;
          Step(Blank(MsgBeat, NONE).(from := id));
        }
      } else {
        electionElapsed := electionElapsed + 1;
        if id in prs && electionElapsed >= randomizedElectionTimeout {
          electionElapsed := 0;
          Step(Blank(MsgHup, NONE).(from := id));
        }
      }
    }
  }
}
