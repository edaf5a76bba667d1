# Verified models of swifty.go

A Dafny 4.11 project that models the protocol and data-structure cores of the swifty.go repository and
proves what they are for. `dafny verify dfyconfig.toml` checks everything; there are no assumptions, no
bodiless members and no bounds on the inputs beyond those named below.

**Raft** (`Raft*.dfy`, modelling `apps/raft_demo/raft`). `RaftSpec` gives every message handler as a function on
a node value, panics included; `RaftLog`, `RaftNode` and `RaftLoop` are the objects of the source (storage,
unstable log, raft log, read tracker, raft, node loop) as classes whose methods are proved to compute those
functions. `RaftCluster` puts the nodes into a cluster whose network keeps every message ever queued and may
deliver it at any time, any number of times or never; timers may fire at any time. `RaftInvariant` states the
inductive invariant over a ghost history of elected leaders' logs, ballots, acknowledgements and commit marks;
`RaftActions`, `RaftReplication` and `RaftSteps` show that every handler keeps it; `RaftSafety` and `RaftReads` draw
the conclusions about whole runs: election safety, log matching, leader completeness, state machine safety,
absence of panics, exactly-once delivery and ReadIndex safety (sections 5.2 to 5.4 of "In Search of an
Understandable Consensus Algorithm", section 6.4 of Ongaro's dissertation).
Safety alone would hold of a cluster that does nothing. `RaftCommits` shows that leaders commit what a majority has
confirmed, `RaftHandlers` says field by field what each message does, without the step function's own terms, and
`RaftProgress` builds from these a schedule that takes any reachable cluster to an elected leader, a new entry delivered
everywhere and a read answered. `RaftAnswers` and `RaftPreVote` give the exact clusters for which that is possible.

**Hash ring** (`Ring*.dfy`, modelling `apps/consistent_hash`). `RingSpec` states ownership by clockwise distance on
a circle of 2^31 - 1 scores. `RingOwnership`, `RingRemoval` and `RingRuns` prove that the migrations keep every
tracked key at its owner over every run, and for exactly which node names. `RingList` is the pointer-level skip
list, for every choice of levels; `RingService` is the service with its int32 arc arithmetic.

**Two-level LRU cache** (`Lru*.dfy`, modelling `swifty_cache/lru.go`). `LruSpec`, `LruProofs` and `LruRuns` treat a level
as a list of slots in recency order, over runs with any deadlines; `LruKeeps` says what stays readable for how long, and
`LruLeaks` exactly what deadlines past int64 break. `LruLinks` and `LruCache` are the arrays that encode the list; `LruStore` is a bucket of two levels.

**LSM storage** (`Lsm*.dfy` and `MemList.dfy`, modelling `apps/lsm_tree`). Byte order, separators and uvarints;
prefix-compressed blocks; the Bloom filter; the table writer, the file format and table lookup; the write-ahead
log. `MemList` is the memtable's skip list down to its pointers, for every choice of heights. `LsmStore` runs the
whole: puts with rotation decided by the memtable's size, tables written from memtables, and reads that overlap
with flushes and go through real tables. `LsmTree` is the same tree with tables taken as maps; every run of the
store with safe flushes is one of its runs.

**Smaller refinements.** `TimeWheel` and `TimeWheelRuns` (`apps/time_wheel`) are slots and turns against a book of
pending tasks, over runs of adds, removals and ticks in any order. `OrmFilter` (`swifty_orm/filter.go`) preserves
the meaning of conditions. `RouteTrie`, `RouteOrder`, `RoutePaths` and `HttpRouter` (`swifty_http`) refine the list of
registered patterns, with the order of registration deciding between wild segments.

Where a promised property does not hold for all inputs, the model keeps the code as it is and the project
proves the exact condition: `RaftPreVote.ElectsIffNoPreVote` (`campaign` computes a raised term for a pre-vote, but
`send` stamps the current one on it, raft.go lines 295 to 344, so members that have all voted in one term refuse each
other for ever), `RaftAnswers.AnswerableIffNotTwo` (a leader's own acknowledgement is not counted, leader.go lines 140
to 142, so one follower is never a quorum), `RingRuns.OwnershipIffSafeNames` (a node named like another node's virtual node
loses its keys, and a node with the empty name is taken for no node), `LsmTable.LookupIff` and
`LsmStore.ReadsIffFindable` (a smallest key that is empty or ends in a zero byte is lost by a flush),
`LruLeaks.BytesIffInTime`, `LruLeaks.BudgetIffLeakFits` and `LruLeaks.VictimsIff` (a deadline beyond int64 wraps to a
negative one: the entry is counted for good without being live, and its dead slot stays in front of live ones),
`LruCache.LinksIffNotLargest` (a capacity of 65535 leaves a level without links), `OrmFilter.CompileIffNoAndField` (a
demand on a field called `$and` is overwritten by the list of that name), `RoutePaths.ParamsRoundTrip` (what a bare
star took is not kept) and `HttpRouter.HandlersIffNoClash` (two methods, one of them with a slash, can share a handler
key).

Proofs are split into small lemmas; `hide` statements keep definitions a lemma does not need out of its proof.

## Model

| member | source | states |
|---|---|---|
| `RaftSafety.StateMachineSafety` | apps/raft_demo/raft/raft.go:395-420 | In every run, two nodes at any two times hold the same entries up to any index both have committed. |
| `RaftSafety.LeaderCompleteness` | apps/raft_demo/raft/raft.go:183-200 | In every run, a leader holds every entry that any node of the same or an earlier term had committed at that time or before. |
| `RaftSafety.NoPanic` | apps/raft_demo/raft/log.go:202-213 | In every state of every run, every event that can occur returns: no append below the commit index, no conflict with a committed entry, no commit or apply index out of range, no missing progress. |
| `RaftSafety.ElectionSafety` | apps/raft_demo/raft/raft.go:306-362 | In a whole run, with pre-vote on or off, at most one node leads a given term. |
| `RaftSafety.LogMatchingInRuns` | apps/raft_demo/raft/log.go:315-348 | In every run, two logs that hold the same index and term, at any two times, are identical up to that index. |
| `RaftSafety.DeliveredExactlyOnce` | apps/raft_demo/raft/node.go:83-148 | In every run, what a node's application was given is its log from index 1 to the commit index of the last Ready, in order, with no gap and no repeat; all of it is applied once the Ready is advanced. |
| `RaftSafety.DeliveriesAgree` | apps/raft_demo/raft/ready.go:43-62 | The applications of any two nodes, at any two times, were given prefixes of one sequence. |
| `RaftSafety.ReadyLogMatches` | apps/raft_demo/raft/node.go:83-148 | A node's log at its last Ready and its log now agree wherever they hold the same index and term, which is what persisting the batch needs. |
| `RaftSafety.EventKeeps` | apps/raft_demo/raft/node.go:70-148 | Every event of a cluster that satisfies the invariant succeeds and keeps it; the history of elected leaders, ballots and acknowledgements only grows. |
| `RaftSafety.RunHistories` | apps/raft_demo/raft/node.go:70-148 | Every state of every run has a history that satisfies the invariant, and histories extend one another along the run. |
| `RaftCommits.ConfirmedIsCommitted` | apps/raft_demo/raft/raft.go:410-420 | In every state of every run, a leader has committed every entry of its own term that a majority of the members has confirmed, its own log counted. |
| `RaftCommits.AcknowledgedIsCommitted` | apps/raft_demo/raft/leader.go:129-133 | In every run, the acknowledgement of its term that completes a majority for an entry of its term makes the leader commit that entry, and is recorded as the sender's progress. |
| `RaftProgress.MakesProgress` | apps/raft_demo/raft/raft.go:306-346 | From the end of every run of two members or more without pre-vote, some further events elect a leader, give it a client's entry through any member, and leave every member with one log that holds what the leader had and ends with the entry, all of it committed and delivered; with three members or more they also hand a client's read, asked of any member, back to it with the index of that entry, unless its context was waiting already. |
| `RaftAnswers.AnswerableIffNotTwo` | apps/raft_demo/raft/leader.go:140-148 | A new read can still be answered after any run without pre-vote if and only if the cluster does not have two members: a leader does not count itself among those that answer its heartbeat. |
| `RaftAnswers.PairsAnswerNothing` | apps/raft_demo/raft/leader.go:140-148 | In a cluster of two members no run ever answers a read. |
| `RaftPreVote.ElectsIffNoPreVote` | apps/raft_demo/raft/raft.go:294-346 | For every start of a cluster: after every run a leader can still be elected if and only if the members do not pre-vote or there is only one. |
| `RaftPreVote.NeverLeads` | apps/raft_demo/raft/raft.go:183-200 | Once all members of a pre-voting cluster have voted for themselves in one term, no run goes on to elect a leader or to leave the term: requests for pre-votes carry that same term, and each member refuses all but its own. |
| `RaftPreVote.GetsStuck` | apps/raft_demo/raft/raft.go:171-181 | Every start of a cluster with pre-vote and two members or more has a run that ends like that. |
| `RaftReads.ReadIndexSafety` | apps/raft_demo/raft/leader.go:81-164 | With non-empty contexts registered at most once in one leadership, a read registered and answered within one term's leadership returns an index at least as large as every node's commit index when it was registered, whether acknowledged itself or released as part of the queue before a later read. |
| `RaftReads.OneMemberRead` | apps/raft_demo/raft/leader.go:101-108 | In a cluster of one member a read is answered at once, with an index that no node's commit index exceeds. |
| `RaftReads.HeldNow` | apps/raft_demo/raft/read.go:54-69 | The registration of a context in a leader's term was made by that leader and is the one it holds, although requests of earlier leaderships stay in its map. |
| `RaftReads.RegistrationSafe` | apps/raft_demo/raft/leader.go:81-117 | When a leader that has committed in its own term registers a read, no node has committed more than it unless a majority has moved to a later term. |
| `RaftReads.AckMajority` | apps/raft_demo/raft/leader.go:135-164 | A released read returns the index it was registered with, and the nodes that were past the leader's term when it was registered were no majority. |
| `RaftReads.StepReadCase` | apps/raft_demo/raft/raft.go:124-208 | Every step of a node touches pending reads and heartbeat contexts in one of four ways: it registers one read, answers a heartbeat, acknowledges a read, or does neither. |
| `RaftReads.ReleasedAt` | apps/raft_demo/raft/read.go:83-111 | Completing a request releases exactly requests that stand before it in the queue, each with its own registered index. |
| `RaftHandlers.HupCampaigns` | apps/raft_demo/raft/raft.go:147-181 | A member that does not lead and has no committed configuration change to apply campaigns in the next term: it votes for itself and asks every other member with its last index and term. |
| `RaftHandlers.HupWaits` | apps/raft_demo/raft/raft.go:158-169 | A leader, or a member with a committed configuration change to apply, does not campaign. |
| `RaftHandlers.PreHup` | apps/raft_demo/raft/raft.go:311-345 | With pre-vote the member becomes a pre-candidate in its term, keeps its vote, and asks every other member in that term. |
| `RaftHandlers.VoteDecided` | apps/raft_demo/raft/raft.go:183-200 | A vote is granted exactly if the candidate's log is at least as recent and the voter has no other vote in the candidate's term; voter, term and reply say so. |
| `RaftHandlers.PreVoteDecided` | apps/raft_demo/raft/raft.go:183-200 | A pre-vote is answered by the same rule, in the voter's own term, and changes nothing. |
| `RaftHandlers.VoteElects` | apps/raft_demo/raft/candidate.go:68-80 | The vote that makes a majority makes a leader: it appends an empty entry of its term, takes all logs to end where its own did, and sends everyone what follows. |
| `RaftHandlers.VoteLost` | apps/raft_demo/raft/candidate.go:81-84 | Refusals from a majority end the campaign. |
| `RaftHandlers.PreElects` | apps/raft_demo/raft/candidate.go:71-76 | The pre-vote that makes a majority starts the campaign. |
| `RaftHandlers.LaterLeader` | apps/raft_demo/raft/raft.go:129-139 | An append or heartbeat of a later term makes any member a follower of its sender in that term, and is then handled. |
| `RaftHandlers.CandidateYields` | apps/raft_demo/raft/candidate.go:59-67 | A candidate that hears from the leader of its term follows it, and then handles the message. |
| `RaftHandlers.StaleDropped` | apps/raft_demo/raft/raft.go:140-148 | A message of an earlier term is dropped; under check-quorum an old leader is told the term. |
| `RaftHandlers.AppendAccepted` | apps/raft_demo/raft/follower.go:73-83 | A follower whose log has the entry before those sent keeps its log up to the first entry that differs, takes the leader's from there, commits what the leader has committed of it, and confirms the leader's last index. |
| `RaftHandlers.AppendRejected` | apps/raft_demo/raft/follower.go:73-83 | Otherwise it says so with the length of its log and changes nothing else. |
| `RaftHandlers.AckHandled` | apps/raft_demo/raft/leader.go:129-133 | A confirmation raises the sender's progress to it and no other; when the commit index rises, everyone is sent what follows. |
| `RaftHandlers.NackHandled` | apps/raft_demo/raft/leader.go:119-127 | A rejection of the last message sent moves the next index back by one, or to the sender's hint, and sends from there. |
| `RaftHandlers.NackIgnored` | apps/raft_demo/raft/progress.go:48-56 | A rejection of any other message changes nothing. |
| `RaftHandlers.ProposalsTaken` | apps/raft_demo/raft/leader.go:52-79 | A leader's log grows by one entry of its term for each entry proposed, with the client's type and data, except that configuration changes beyond one in flight become empty entries. |
| `RaftHandlers.Forwarded` | apps/raft_demo/raft/follower.go:32-64 | A follower passes proposals and reads on to its leader. |
| `RaftHandlers.NoLeaderDrops` | apps/raft_demo/raft/follower.go:32-37 | A follower that knows no leader, and a candidate, drops proposals and reads. |
| `RaftHandlers.BeatSent` | apps/raft_demo/raft/leader.go:167-190 | A beat sends everyone the commit index as far as they have confirmed the log. |
| `RaftHandlers.BeatHandled` | apps/raft_demo/raft/follower.go:85-91 | A follower commits what a heartbeat tells it, never less than it had, and returns the context. |
| `RaftHandlers.ReadRegistered` | apps/raft_demo/raft/leader.go:81-117 | A leader that has committed in its term queues a new read with its commit index and sends its context to everyone. |
| `RaftHandlers.ReadIgnored` | apps/raft_demo/raft/leader.go:88-98 | It drops a read before it has committed in its term, and one whose context already waits. |
| `RaftHandlers.ReadAcked` | apps/raft_demo/raft/leader.go:135-144 | Below a quorum an answer to a read's heartbeat is only noted. |
| `RaftHandlers.ReadReleased` | apps/raft_demo/raft/leader.go:135-164 | The answer that makes a quorum hands out the read and all before it in the queue, each with its own index and to the member it came from, and takes exactly these off the queue. |
| `RaftSteps.StepKeeps` | apps/raft_demo/raft/raft.go:124-208 | Any message the network or the node itself can present is handled without panic and keeps the cluster invariant. |
| `RaftSteps.HandleAppendEntriesKeeps` | apps/raft_demo/raft/follower.go:73-83 | Handling an append, accepted or rejected, keeps the invariant; its reply acknowledges only what the log then holds. |
| `RaftSteps.HandleHeartbeatKeeps` | apps/raft_demo/raft/follower.go:85-91 | Handling a heartbeat commits only entries the term's leader has committed. |
| `RaftSteps.BecomeLeaderKeeps` | apps/raft_demo/raft/leader.go:23-45 | Taking over leadership of a term nobody else leads keeps the invariant. |
| `RaftSteps.AppendEntryKeeps` | apps/raft_demo/raft/raft.go:395-408 | Appending to the leader's own log keeps the invariant of every other node and of every message in flight. |
| `RaftSteps.HandleVoteKeeps` | apps/raft_demo/raft/raft.go:183-200 | Granting or refusing a vote keeps the invariant: a ballot is never changed within a term. |
| `RaftSteps.HandleAppRespKeeps` | apps/raft_demo/raft/leader.go:119-133 | Handling an acknowledgement or a rejection keeps the progress of every peer below what it has acknowledged, late rejections included. |
| `RaftSteps.AdvanceReadsOk` | apps/raft_demo/raft/read.go:83-111 | Completing a queue prefix never meets a missing request and leaves queue and pending map in step. |
| `RaftReplication.NoRival` | apps/raft_demo/raft/raft.go:346-362 | Two majorities of one term meet, so a candidate that wins finds no other leader of its term. |
| `RaftReplication.WinnerHolds` | apps/raft_demo/raft/log.go:228-239 | The winner of an election holds every entry that an earlier term can still commit. |
| `RaftReplication.RecentHolds` | apps/raft_demo/raft/log.go:228-239 | A log as up to date as an entry that can still be committed holds that entry and all before it. |
| `RaftReplication.TooLate` | apps/raft_demo/raft/raft.go:395-408 | An entry appended when a later term already has a leader can never be committed. |
| `RaftReplication.ConflictSplits` | apps/raft_demo/raft/log.go:339-348 | findConflict returns the first index at which the log leaves the leader's log, and 0 exactly when the entries are all there. |
| `RaftReplication.AcceptEffect` | apps/raft_demo/raft/log.go:315-337 | Accepting a leader's entries never panics, makes the log agree with the leader's up to the last of them, and keeps every agreement there was. |
| `RaftActions.LogMatching` | apps/raft_demo/raft/log.go:350-354 | Two logs built from leaders' logs that hold the same index and term are identical up to it. |
| `RaftActions.MajoritiesMeet` | apps/raft_demo/raft/raft.go:360-362 | Any two majorities of the members share a member. |
| `RaftForward.StepForward` | apps/raft_demo/raft/raft.go:124-224 | A step that returns never lowers the node's term or commit index and never changes a committed entry, whatever the node and the message; a heartbeat must carry a positive term. |
| `RaftSpec.QuorumMatch` | apps/raft_demo/raft/raft.go:410-420 | The largest index that a majority of the members has reached: at least a quorum has it and no larger one does. |
| `RaftNode.MajorityIndex` | apps/raft_demo/raft/raft.go:410-420 | Sorting the members' indexes and taking the quorum-th gives the largest index a majority has reached. |
| `RaftNode.Raft.Step` | apps/raft_demo/raft/raft.go:124-208 | The object, with its loops over peers and votes, its message queue, its read tracker and its two-part log, does to its fields what the step function does to the node value, for every message type and role. |
| `RaftNode.Raft.Tick` | apps/raft_demo/raft/raft.go:364-393 | A tick counts up; at the timeout it is exactly a heartbeat request to a leader and a campaign request to any other member. |
| `RaftNode.Raft.DemoteKeepsOne` | apps/raft_demo/raft/leader.go:52-79 | Of several configuration changes in one proposal only the first survives, and none while one is pending; all other entries are kept in place. |
| `RaftLog.LogStore.Persist` | apps/raft_demo/raft/node.go:83-148 | Storing a delivered batch leaves the log unchanged, even if later appends truncated or replaced it, and storage then holds exactly the log of the Ready. |
| `RaftLog.LogStore.Append` | apps/raft_demo/raft/log.go:202-213 | The two-part log after an append is the flat log cut before the first new index and continued with the entries. |
| `RaftLog.LogStore.MaybeAppend` | apps/raft_demo/raft/log.go:315-337 | Accepts exactly when the previous index and term match, then appends from the first conflict on and advances the commit index. |
| `RaftLog.LogStore.Slice` | apps/raft_demo/raft/log.go:177-200 | Entries gathered from storage and the unstable part are the slice of the flat log. |
| `RaftLog.LogStore.Term` | apps/raft_demo/raft/log.go:267-290 | The term of any index is the flat log's, 0 past the end. |
| `RaftLog.LogStore.FindConflict` | apps/raft_demo/raft/log.go:339-348 | The first entry the log does not hold with the same term. |
| `RaftLog.LogStore.CommitTo` | apps/raft_demo/raft/log.go:292-302 | The commit index never decreases. |
| `RaftLog.LogStore.NextEntries` | apps/raft_demo/raft/log.go:140-150 | The committed entries not applied yet. |
| `RaftLog.MemoryStorage.Append` | apps/raft_demo/raft/storage.go:114-135 | Overwrites from the first new index on, the dummy entry included when the batch starts there; an older batch is skipped and a gap is an error. |
| `RaftLog.MemoryStorage.Entries` | apps/raft_demo/raft/storage.go:67-86 | A range of stored entries, or the error for a range that starts too low or ends too high. |
| `RaftLog.Unstable.TruncateAndAppend` | apps/raft_demo/raft/log.go:46-58 | Replaces the tail from the first new index; below the offset it replaces everything. |
| `RaftLog.Unstable.StableTo` | apps/raft_demo/raft/log.go:84-94 | Drops the persisted prefix only if the term still matches. |
| `RaftLoop.NodeLoop.TakeReady` | apps/raft_demo/raft/node.go:83-120 | A Ready carries everything that changed, is delivered only if there is something in it, and moves the loop on as the cluster model says. |
| `RaftLoop.NodeLoop.NewReady` | apps/raft_demo/raft/ready.go:43-62 | The contents of a Ready: changed soft and hard state, unstable entries, committed entries, messages, reads. |
| `RaftLoop.NodeLoop.FinishReady` | apps/raft_demo/raft/node.go:121-148 | Advance applies the delivered commit index and persists the batch without changing the log. |
| `RaftLoop.FinishReadySafe` | apps/raft_demo/raft/node.go:121-148 | In every run the conditions that FinishReady needs hold. |
| `RaftLoop.ProcessSafe` | apps/raft_demo/raft/node.go:83-120 | In every run the conditions that processing a message needs hold. |
| `RingRuns.OwnershipConserved` | apps/consistent_hash/migration.go:32-281 | After every run of successful AddNode, RemoveNode and GetNode calls with safe names, each key ever looked up is recorded at exactly one node, the one a lookup gives, and nothing else is recorded. |
| `RingRuns.OwnershipIffSafeNames` | apps/consistent_hash/local/hash_ring.go:233-282 | Ownership is conserved in all runs, for all hashes and weights, if and only if no node is named like a virtual node of another and the empty name is not used beside other names. |
| `RingRuns.ClashingNames` | apps/consistent_hash/local/hash_ring.go:254-254 | For every node and every one of its virtual-node names: a run in which a node bearing that name loses its keys. |
| `RingRuns.EmptyName` | apps/consistent_hash/migration.go:143-156 | For every node beside one with the empty name: a run in which removing it leaves a key recorded at the removed node. |
| `RingRuns.RemoveNodeKeeps` | apps/consistent_hash/consistent_hash.go:123-189 | RemoveNode succeeds exactly when the node is there and either another node is there or it has no keys; then the ring holds exactly the other nodes' virtual nodes, records follow owners, and no key is lost. |
| `RingRuns.AddNodeKeeps` | apps/consistent_hash/consistent_hash.go:56-119 | AddNode fails exactly for a node that is there; otherwise the ring gains exactly the virtual nodes of RingRuns.VirtualNodesByWeight, records follow owners, and no key is lost. |
| `RingRuns.VirtualNodesByWeight` | apps/consistent_hash/consistent_hash.go:252-262 | After a node is added its virtual nodes on the ring are its first weight times replicas raw keys, with weights below 1 counted as 1 and weights above 10 as 10, each at its hash; those of other nodes stay. |
| `RingRuns.AddWithoutMigrator` | apps/consistent_hash/consistent_hash.go:79-116 | Without a migrator a node gets the same virtual nodes and no record moves. |
| `RingRuns.GetNodeKeeps` | apps/consistent_hash/consistent_hash.go:209-250 | GetNode fails exactly on a ring without nodes; otherwise the key is recorded at its owner and nothing else changes. |
| `RingRuns.ClashingRemoval` | apps/consistent_hash/local/hash_ring.go:254-254 | Removing a node without keys loses every key of a node named like one of its virtual nodes. |
| `RingOwnership.AddVirtualKeeps` | apps/consistent_hash/migration.go:32-135 | One more virtual node: records follow owners, whether the score is new, shared, or next to another virtual node of the same node. |
| `RingOwnership.ArcIsCeiling` | apps/consistent_hash/migration.go:50-85 | The arc from the previous score to a score is exactly the part of the circle whose first score clockwise is that score, wrap-around included. |
| `RingOwnership.CeilingWithout` | apps/consistent_hash/migration.go:62-72 | Taking a score off the circle gives its arc to the next score and changes nothing else. |
| `RingOwnership.NodeOfRawKey` | apps/consistent_hash/consistent_hash.go:264-274 | Stripping a raw key gives its physical node back, whatever underscores the name has. |
| `RingOwnership.RawKeyInjective` | apps/consistent_hash/consistent_hash.go:264-266 | No two virtual nodes share a raw key. |
| `RingOwnership.RawKeyText` | apps/consistent_hash/consistent_hash.go:264-266 | A raw key is the node's name, an underscore and the index in decimal. |
| `RingOwnership.CeilingByOrder` | apps/consistent_hash/local/hash_ring.go:207-218 | The first score clockwise is the least one not below, or the least of all. |
| `RingRemoval.MigrateOutKeeps` | apps/consistent_hash/migration.go:137-240 | Before a virtual node leaves, its arc's keys go to the node that will own them in the end, or stay where the leaving node still owns them: shared scores, adjacent scores of the same node and a single score included. |
| `RingRemoval.MigrateOutFails` | apps/consistent_hash/migration.go:192-237 | The hand-over fails only when the node has keys and no other node is on the ring. |
| `RingRemoval.HeirElsewhere` | apps/consistent_hash/migration.go:242-281 | The node found by skipping the leaving node's own scores owns the arc once the node is gone. |
| `RingService.ConsistentHash.AddNode` | apps/consistent_hash/consistent_hash.go:56-119 | The method with its loop, whatever levels the skip list rolls, computes the AddNode step of the ring model, whose virtual nodes and records RingRuns.VirtualNodesByWeight and RingRuns.AddNodeKeeps give. |
| `RingService.ConsistentHash.RemoveNode` | apps/consistent_hash/consistent_hash.go:123-189 | The method with its loop computes the RemoveNode step, including where it stops on failure. |
| `RingService.ConsistentHash.GetNode` | apps/consistent_hash/consistent_hash.go:209-250 | Returns the key's owner and records the key there. |
| `RingService.ConsistentHash.MigrateIn` | apps/consistent_hash/migration.go:32-135 | Moves exactly the keys of the arc before the new virtual node. |
| `RingService.ConsistentHash.MigrateOut` | apps/consistent_hash/migration.go:137-240 | Moves exactly the keys of the arc before the leaving virtual node, or fails. |
| `RingService.ConsistentHash.KeysIn` | apps/consistent_hash/migration.go:105-123 | The int32 tests after unrolling the circle never overflow and select exactly the keys on the cyclic arc. |
| `RingService.ConsistentHash.GetValidNextNode` | apps/consistent_hash/migration.go:242-281 | The recursive walk ends and finds the first score after the start that is not the leaving node's alone, or reports that there is none. |
| `RingService.WalkStep` | apps/consistent_hash/migration.go:242-281 | One step of the walk: it has come round exactly when the next score was passed before. |
| `RingService.OneWrap` | apps/consistent_hash/migration.go:74-85 | The two wrap-around patterns never hold together. |
| `RingList.SkiplistHashRing.Add` | apps/consistent_hash/local/hash_ring.go:169-205 | For every level rolled, splicing a node in at all its levels gives a well-linked skip list that stands for the ring with the key added. |
| `RingList.SkiplistHashRing.Rem` | apps/consistent_hash/local/hash_ring.go:233-282 | Unlinking on all levels and trimming the empty ones gives a well-linked skip list that stands for the ring without the key, or fails if the key is not there. |
| `RingList.SkiplistHashRing.Ceiling` | apps/consistent_hash/local/hash_ring.go:207-218 | The search down the levels finds the first score clockwise, -1 on an empty ring. |
| `RingList.SkiplistHashRing.Floor` | apps/consistent_hash/local/hash_ring.go:220-231 | The search down the levels finds the first score anticlockwise, -1 on an empty ring. |
| `RingList.SkiplistHashRing.Get` | apps/consistent_hash/local/hash_ring.go:452-465 | Finds the node at a score exactly when there is one. |
| `RingList.SkiplistHashRing.Node` | apps/consistent_hash/local/hash_ring.go:312-325 | The raw keys at a score, or the error for a score that is not there. |
| `RingList.SkiplistHashRing.Last` | apps/consistent_hash/local/hash_ring.go:436-450 | The largest score, -1 on an empty ring. |
| `RingList.SkiplistHashRing.AddNodeToDataKeys` | apps/consistent_hash/local/hash_ring.go:343-356 | Adds keys to a node's record. |
| `RingList.SkiplistHashRing.DeleteNodeToDataKeys` | apps/consistent_hash/local/hash_ring.go:358-373 | Takes keys out of a node's record, which goes when it is empty. |
| `RingList.LevelSpliced` | apps/consistent_hash/local/hash_ring.go:194-202 | Putting a node between its neighbours completes one level of the list. |
| `RingList.LevelUnlinked` | apps/consistent_hash/local/hash_ring.go:261-271 | Bypassing a node completes one level of the list without it. |
| `RingList.Trimmed` | apps/consistent_hash/local/hash_ring.go:273-279 | Cutting the root's levels at the first empty one leaves a skip list. |
| `LruRuns.ReadsLastSet` | swifty_cache/lru.go:95-180 | After every run of Set, Get, Delete and clean-up on a bucket, whatever the deadlines, a read returns a miss or exactly the value last set and not expired, and no key is live in both levels; if all deadlines fit int64, the bytes are those of the live entries and within the budget. |
| `LruRuns.EvictsLeastRecent` | swifty_cache/lru.go:356-441 | After every run of a bucket, whatever the deadlines, a live entry that a level gives up to an eviction or to a new key is the one whose last set (first level) or last read (second level) lies furthest back; to a new key the second level, and with deadlines that fit int64 the first, gives up a live entry only if every slot is live. |
| `LruLeaks.BytesIffInTime` | swifty_cache/lru.go:139-165 | After every run of a bucket, the bytes are those of the live entries if and only if every set had a deadline within the int64 range, or an empty key and value. |
| `LruLeaks.BudgetIffLeakFits` | swifty_cache/lru.go:139-172 | After every run of a bucket with a budget, the bytes are within it if and only if the sets whose deadlines had wrapped fit in it. |
| `LruLeaks.VictimsIffInTime` | swifty_cache/lru.go:356-371 | For every set in int64 arithmetic and a first level of two or more slots without a budget: in all runs built from it and from sets whose deadlines fit, a new key takes a live entry only if every slot is live, if and only if its own deadline fits. |
| `LruLeaks.VictimsIff` | swifty_cache/lru.go:356-371 | The same for any budget: if and only if the deadline fits or the budget has no room for the entry and distinct keys in all other slots. |
| `LruLeaks.EarlyVictim` | swifty_cache/lru.go:356-371 | For every wrapped deadline with that room: a run after which the level is full, its last slot live and its first one dead. |
| `LruLeaks.BytesLeaked` | swifty_cache/lru.go:347-394 | Over every run, the first level counts the live entries and, for good, every set whose deadline had wrapped; the second level counts its live entries. |
| `LruRuns.RunRecent` | swifty_cache/lru.go:95-172 | Over every run, whatever the deadlines, slots in front of a live one in the first level were set later and in the second read later. |
| `LruRuns.SetThenGet` | swifty_cache/lru.go:95-165 | A value set within the budget is read back. |
| `LruProofs.PutGood` | swifty_cache/lru.go:347-394 | Storing keeps live slots before deleted ones, keys distinct and bytes exact; another entry is lost only if all slots are live, and then it is the last one. |
| `LruProofs.KillGood` | swifty_cache/lru.go:403-413 | Deleting a live slot removes exactly its entry and bytes and moves the slot behind all live ones. |
| `LruProofs.EvictGood` | swifty_cache/lru.go:423-441 | Evicting removes exactly the last live entry. |
| `LruProofs.ShrinkKeeps` | swifty_cache/lru.go:156-172 | The eviction loop ends, within the budget, having added nothing. |
| `LruProofs.SetKeeps` | swifty_cache/lru.go:139-165 | A set leaves in the bucket only the new value for its key, and otherwise only what was there. |
| `LruProofs.SetNeat` | swifty_cache/lru.go:139-165 | Whatever the deadline, a set leaves keys distinct in each level, no key live in both, and as live entries at most the new one and old ones of other keys. |
| `LruKeeps.HitKeeps` | swifty_cache/lru.go:95-133 | After a hit the second level has the entry in front, with its value and deadline, and the first level has all it had but that key; another entry is lost only to a promotion into a second level full of live entries, and then it is the last one. |
| `LruKeeps.MissKeeps` | swifty_cache/lru.go:95-133 | A miss loses at most the key's own entry, and that only if it has expired. |
| `LruKeeps.HitsAgain` | swifty_cache/lru.go:95-180 | Over every run that follows a hit, the key is hit again with the same value until it is set or deleted, its deadline passes, or it is evicted. |
| `LruKeeps.SetHits` | swifty_cache/lru.go:135-165 | Over every run that follows a set without pressure on the budget, the key is hit with that value until the deadline now plus expiration, unless it is set, deleted or evicted before. |
| `LruKeeps.ApplyLeaves` | swifty_cache/lru.go:95-180 | A live entry leaves a bucket only by a set or delete of its key, by its deadline, or by an eviction from the last live slot of its level. |
| `LruKeeps.ShrinkMinimal` | swifty_cache/lru.go:156-172 | Eviction for the budget takes no entry more than it needs. |
| `LruKeeps.ShrinkFirstLevelFirst` | swifty_cache/lru.go:167-172 | The second level gives up entries for the budget only when the first has none left. |
| `LruKeeps.EvictionsCount` | swifty_cache/lru.go:347-394 | A live entry of another key that a put takes is counted as an eviction. |
| `LruKeeps.NoEvictionsCount` | swifty_cache/lru.go:347-394 | A put that takes none is not. |
| `LruKeeps.EvictCounts` | swifty_cache/lru.go:423-441 | An eviction for the budget is counted. |
| `LruProofs.GetAnswers` | swifty_cache/lru.go:95-133 | A read hits exactly when a level holds the key unexpired, and returns what it holds. |
| `LruProofs.DeleteKeeps` | swifty_cache/lru.go:462-483 | A delete takes exactly the key away and says whether it was live. |
| `LruLinks.UnlinkedRing` | swifty_cache/lru.go:451-454 | Two writes take a slot out of the circular doubly linked list. |
| `LruLinks.FrontRing` | swifty_cache/lru.go:455-458 | Four writes put a slot at the front of the circular doubly linked list. |
| `LruLinks.Mirror` | swifty_cache/lru.go:451-460 | Seen in the other direction the list is a circular doubly linked list in reverse order. |
| `LruCache.Cache.Put` | swifty_cache/lru.go:347-394 | The array code stores a key in its own slot, a new slot or the last slot, as the list model says. |
| `LruCache.Cache.Adjust` | swifty_cache/lru.go:451-460 | The six array writes move a slot to the front in either direction and keep the list circular and doubly linked. |
| `LruCache.Cache.Del` | swifty_cache/lru.go:403-420 | The array code of del, with the value released as every caller does. |
| `LruCache.Cache.EvictOldest` | swifty_cache/lru.go:423-441 | The scan from the back finds the last live slot, or none. |
| `LruCache.Cache.Walk` | swifty_cache/lru.go:443-449 | Visits the live entries, most recent first, up to and including the first that the walker refuses. |
| `LruCache.Cache.Peek` | swifty_cache/lru.go:396-401 | Finds the slot of a key, live or deleted, exactly when there is one. |
| `LruCache.Cache.constructor` | swifty_cache/lru.go:331-338 | An empty level of the given 16-bit capacity; it is well linked if and only if the capacity is not 65535. |
| `LruCache.LinksIffNotLargest` | swifty_cache/lru.go:331-338 | Every slot has its link if and only if the capacity is not 65535; at 65535 not even the anchor has one. |
| `LruCache.Position` | swifty_cache/lru.go:322-329 | The map from keys to slots is the exact inverse of the keys in the slots. |
| `LruStore.BucketStore.Get` | swifty_cache/lru.go:95-133 | The method computes the Get step of the bucket model, which LruKeeps.HitKeeps and LruKeeps.MissKeeps describe. |
| `LruStore.BucketStore.SetWithExpiration` | swifty_cache/lru.go:139-165 | The method computes the Set step, with the deadline added in int64. |
| `LruStore.BucketStore.FitBudget` | swifty_cache/lru.go:156-172 | The eviction loop terminates and computes the shrinking of the bucket. |
| `LruStore.BucketStore.Delete` | swifty_cache/lru.go:462-483 | The method computes the Delete step. |
| `LsmTable.LookupIff` | apps/lsm_tree/node.go:63-144 | For a table of ascending keys, every key is looked up correctly, present or absent, if and only if the first key is not empty and does not end in a zero byte. |
| `LsmTable.LookupFinds` | apps/lsm_tree/node.go:63-144 | With the first separator below the first key, lookup returns exactly the written value of a key and not-found for every other key: index search, filter, block decoding and scan together. |
| `LsmTable.FirstKeyLost` | apps/lsm_tree/util/string.go:34-49 | With the first separator above the first key, that key is not found although it was written. |
| `LsmTable.EmptyKeyLost` | apps/lsm_tree/node.go:63-144 | An empty first key is not found although it was written. |
| `LsmTable.SearchFinds` | apps/lsm_tree/node.go:132-144 | The binary search finds the first index entry that is not below the key, or reports that there is none. |
| `LsmTable.OnlyInBlock` | apps/lsm_tree/node.go:63-103 | A key between the last keys of two neighbouring blocks is in the second of them or nowhere. |
| `LsmTable.GetInBlock` | apps/lsm_tree/node.go:75-103 | What is read through an index entry is what a scan of its block finds; a key turned away by the filter is not in the block. |
| `LsmBytes.FirstSeparator` | apps/lsm_tree/util/string.go:34-49 | In front of the first key the separator is below the key exactly when the key does not end in a zero byte, and above it otherwise. |
| `LsmBytes.SharedPrefixLen` | apps/lsm_tree/util/string.go:23-31 | The counting loop computes the length of the longest common prefix. |
| `LsmBytes.UvarintRoundTrip` | apps/lsm_tree/sst_reader.go:300-318 | A number below 2^64 is read back and nothing behind it is touched. |
| `LsmBytes.UvarintGroups` | apps/lsm_tree/block.go:49-69 | A number is written in groups of seven bits, lowest first, all but the last marked. |
| `LsmBytes.CutUvarint` | apps/lsm_tree/sst_reader.go:300-318 | A number cut short is an error, unless nothing of it is there. |
| `LsmBytes.LessTransitive` | apps/lsm_tree/node.go:132-144 | The byte order of the index search is transitive. |
| `LsmBlocks.RecordRoundTrip` | apps/lsm_tree/sst_reader.go:300-336 | A prefix-compressed record is read back given any previous key that shares the recorded prefix. |
| `LsmBlocks.BlockRoundTrip` | apps/lsm_tree/block.go:49-93 | Decoding a block gives back the appended pairs. |
| `LsmBlocks.DataRoundTrip` | apps/lsm_tree/sst_reader.go:172-191 | Decoding all data blocks in one go gives back all pairs in order, because every block restarts prefix sharing. |
| `LsmBlocks.Block.Append` | apps/lsm_tree/block.go:49-69 | Appending a pair to a block extends its encoding by one record. |
| `LsmBlocks.ReadBlockData` | apps/lsm_tree/sst_reader.go:272-297 | The parse loop computes the decoding of a block, or reports that it is malformed. |
| `LsmFilter.NoFalseNegative` | apps/lsm_tree/filter/bloom_filter.go:57-85 | A key added to a filter passes it, in 32-bit wrap-around arithmetic, for every hash. |
| `LsmFilter.BloomFilter.Hash` | apps/lsm_tree/filter/bloom_filter.go:88-111 | The loops compute the bitmap function HashBits, which has exactly the bits some added key picks and the number of functions in its last byte. |
| `LsmFilter.HashIsFilter` | apps/lsm_tree/filter/bloom_filter.go:88-111 | The bitmap of a list of keys has exactly the bits some key picks, and the number of functions in its last byte. |
| `LsmFilter.BloomFilter.Exist` | apps/lsm_tree/filter/bloom_filter.go:57-85 | Passes a key exactly when all its bits are set. |
| `LsmFilter.SetBitExactly` | apps/lsm_tree/filter/bloom_filter.go:106-107 | Setting a bit sets that bit and no other. |
| `LsmFilter.BestKIs` | apps/lsm_tree/filter/bloom_filter.go:134-142 | The number of functions is 69/100 of the bits per key, cut to its low byte and then to between 1 and 30. |
| `LsmFilter.TargetIs` | apps/lsm_tree/filter/bloom_filter.go:57-85 | The i-th function is the hash plus i times its rotation by 17 bits, in 32 bits, taken modulo the bitmap's length. |
| `LsmFilter.HashCount` | apps/lsm_tree/filter/bloom_filter.go:88-111 | The last byte of the bitmap is the number of functions for its keys. |
| `LsmWriter.SSTWriter.Append` | apps/lsm_tree/sst_writer.go:116-133 | A pair is added to the block begun; a new block gets the index entry of the one before, and a block is flushed, with its filter, exactly when its encoding has reached the block size. |
| `LsmWriter.SSTWriter.RefreshBlock` | apps/lsm_tree/sst_writer.go:160-176 | Flushing keeps blocks, index, filters and offsets in step. |
| `LsmWriter.SSTWriter.Finish` | apps/lsm_tree/sst_writer.go:81-113 | The node handed out holds exactly the appended pairs in the form lookup needs, the file has data, filters, index and footer in order, and below 2^56 it reopens to the same index, filters and size. |
| `LsmWriter.FinishReopens` | apps/lsm_tree/sst_reader.go:99-191 | Whatever table the writer can produce reopens to its own index, filter map and size if it ends below 2^56: that its entries and filters fit follows from the table. |
| `LsmWriter.OffsetsAscend` | apps/lsm_tree/sst_writer.go:160-176 | Blocks start at ascending offsets, so no filter replaces another. |
| `LsmFile.ReopenRoundTrip` | apps/lsm_tree/sst_reader.go:99-191 | Reopening a file whose parts end below 2^56 yields the index, the filter map and the size that Finish returned. |
| `LsmFile.FooterRead` | apps/lsm_tree/sst_reader.go:99-125 | Four numbers below 2^56 fit the 32-byte footer and are read back. |
| `LsmFile.IndexRead` | apps/lsm_tree/sst_reader.go:240-269 | The index block is read back entry by entry. |
| `LsmFile.FiltersRead` | apps/lsm_tree/sst_reader.go:216-237 | The filter block is read back as the map from block offsets to bitmaps. |
| `LsmWal.ReplayRoundTrip` | apps/lsm_tree/wal/reader.go:83-121 | Parsing a log gives back the puts it logged, in order. |
| `LsmWal.ReplayIsLast` | apps/lsm_tree/wal/reader.go:56-80 | Replaying puts gives every key the value of its last put, and no other key. |
| `LsmWal.RestoreToMemtable` | apps/lsm_tree/wal/reader.go:56-121 | The parse and replay loops rebuild the map of a well-formed log and report an error for any other. |
| `LsmWal.CutLog` | apps/lsm_tree/wal/reader.go:83-121 | A log that ends inside a record restores with an error, whatever came before. |
| `LsmWal.WALWriter.Write` | apps/lsm_tree/wal/writer.go:52-71 | The file is the log of all puts written. |
| `LsmStore.ReadsIffFindable` | apps/lsm_tree/tree.go:150-208 | In every store, with any filter length, hash and table size that the configuration allows, and for every set of keys: every read of every run that puts only these keys is current, whatever is flushed in between, if and only if none of them is empty or ends in a zero byte. |
| `LsmStore.ReadsNothingOlder` | apps/lsm_tree/tree.go:174-208 | In every run whose flushed memtables have findable smallest keys, a Get whose memtable half sees one state and whose level-0 half, reading real tables through index and filter, sees a later one finds the key if a Put of it was finished by the first, and returns something really put and at least as new as every such Put. |
| `LsmStore.LostKey` | apps/lsm_tree/tree_compact.go:197-243 | In every store, for every key that is empty or ends in a zero byte: a run in which it is put with a value larger than a table, flushed to the file that its filter and index give, and then not found. |
| `LsmStore.TableAnswers` | apps/lsm_tree/tree_compact.go:219-243 | A table that lists a memtable whose smallest key is findable answers like the memtable. |
| `LsmStore.Simulates` | apps/lsm_tree/tree.go:150-252 | Every run with safe flushes, rotation decided by the memtable's size, is a run of the tree whose tables are maps. |
| `LsmStore.FlushMemTable` | apps/lsm_tree/tree_compact.go:219-243 | Writing all pairs of the skip list gives a table that lists exactly the memtable, in ascending order, and that reopens to itself. |
| `LsmStore.PutRotates` | apps/lsm_tree/tree.go:150-172 | A put goes into the memtable and the history; the memtable then becomes read-only, and an empty one takes its place, exactly when 5/4 of its listing's bytes, rounded down, exceed the table size. |
| `LsmTree.ReadsNothingOlder` | apps/lsm_tree/tree.go:174-208 | The same for tables taken as maps: whatever is flushed between the two halves of a Get, nothing older than a finished Put is returned. |
| `LsmTree.RunGood` | apps/lsm_tree/tree_compact.go:197-243 | In every run of the tree of maps the layers, oldest table first, hold exactly the history of puts, newest layer winning. |
| `MemList.Skiplist.Put` | apps/lsm_tree/memtable/skiplist.go:51-91 | For every height rolled, a put overwrites in place or splices a node in on all its levels; the well-linked list then stands for the map with the pair, and the size and the entry count are those of that map. |
| `MemList.Skiplist.Get` | apps/lsm_tree/memtable/skiplist.go:94-100 | Finds exactly what the map holds. |
| `MemList.Skiplist.GetNode` | apps/lsm_tree/memtable/skiplist.go:131-146 | The search down the levels finds a key's node exactly when there is one. |
| `MemList.Skiplist.All` | apps/lsm_tree/memtable/skiplist.go:103-118 | The bottom level lists exactly the pairs of the map, keys strictly ascending. |
| `MemList.ListedBytes` | apps/lsm_tree/memtable/skiplist.go:121-123 | The size kept is the sum of key and value lengths over the listing, and the entry count its length. |
| `MemList.TotalPut` | apps/lsm_tree/memtable/skiplist.go:51-62 | What a put changes in the sum of key and value lengths. |
| `MemList.LevelSpliced` | apps/lsm_tree/memtable/skiplist.go:80-90 | Putting a node between its neighbours completes one level of the list. |
| `TimeWheel.FiresOnTime` | apps/time_wheel/time_wheel.go:157-166 | The slot and the number of turns computed for a delay make a key fire on tick floor(delay / interval) + 1. |
| `TimeWheelRuns.FiresExactlyOnce` | apps/time_wheel/time_wheel.go:102-192 | In every run of adds, removals and ticks in any order, the task that an add gives out is run by a tick if and only if the tick comes later, nothing has added or removed its key in between, and the ticks in between number t with t * interval <= delay < (t + 1) * interval, or none for a negative delay; no tick runs a task twice. |
| `TimeWheelRuns.StepBook` | apps/time_wheel/time_wheel.go:102-121 | Every round of the loop keeps slots, keys and elements linked and does to the book of pending tasks what the event says. |
| `TimeWheelRuns.History` | apps/time_wheel/time_wheel.go:123-188 | At any time after an add, its task is pending with as many ticks left as its delay spans intervals, less those gone, or gone for good because its key was named or its tick has come. |
| `TimeWheel.TurnedBook` | apps/time_wheel/time_wheel.go:123-154 | A tick drops exactly the tasks that are due and brings every other one a tick nearer, through slot lists and turns. |
| `TimeWheel.FiredBook` | apps/time_wheel/time_wheel.go:129-154 | A tick runs exactly the tasks whose last tick it is, each once. |
| `TimeWheel.AddedBook` | apps/time_wheel/time_wheel.go:168-178 | A new task replaces the one of its key and is due after t more ticks with t * interval <= delay < (t + 1) * interval, on the next tick for a negative delay; no other task changes. |
| `TimeWheel.RemovedBook` | apps/time_wheel/time_wheel.go:180-188 | Removing a key drops its task and no other. |
| `TimeWheel.Wheel.Tick` | apps/time_wheel/time_wheel.go:123-154 | The method runs those tasks and leaves the wheel one slot on. |
| `TimeWheel.Wheel.AddTask` | apps/time_wheel/time_wheel.go:157-178 | The method leaves the wheel and the book of the add, with the new task due when its delay says and all other tasks as they were. |
| `TimeWheel.Wheel.RemoveTask` | apps/time_wheel/time_wheel.go:180-188 | The method leaves the wheel and the book of the removal. |
| `TimeWheel.Wheel.Execute` | apps/time_wheel/time_wheel.go:129-154 | The loop over the current slot fires and removes what has no turns left and takes a turn off the rest. |
| `OrmFilter.CompileAllMeans` | swifty_orm/filter.go:194-262 | For every interpretation of the operators, the compiled filter matches exactly when all conditions hold, however often a field or an operator occurs. |
| `OrmFilter.OperatorMeans` | swifty_orm/filter.go:234-262 | What each operator asks of a document: equality, null, not null, both bounds of a range, its negation, the LIKE pattern with or without case, and any other operator under its own name. |
| `OrmFilter.CompileIffNoAndField` | swifty_orm/filter.go:194-262 | For every set of fields: all lists of conditions over it keep their meaning under all interpretations of the operators if and only if $and is not one of the fields. |
| `OrmFilter.QueryIffNoAndField` | swifty_orm/filter.go:166-262 | The same for whole queries: the built filter matches exactly when all plain conditions or all conditions of some non-empty or-group hold, for all queries over a set of fields, if and only if $and is not in it. |
| `OrmFilter.QueryFilterMeans` | swifty_orm/filter.go:166-188 | Without a field $and the built filter matches exactly the documents the query asks for; with neither conditions nor groups it matches everything. |
| `OrmFilter.BuildFilter` | swifty_orm/filter.go:166-188 | The loops over conditions and or-groups build the filter whose meaning QueryIffNoAndField states, for any conditions. |
| `OrmFilter.SetEqualityMeans` | swifty_orm/filter.go:201-215 | Adding an equality adds exactly that equality to what the filter demands, merged or under $and. |
| `OrmFilter.SetOpMeans` | swifty_orm/filter.go:217-232 | Adding an operator adds exactly that demand, merged or under $and. |
| `OrmFilter.AndFieldLost` | swifty_orm/filter.go:258-261 | Two equalities on a field called $and and a document that the compiled filter accepts although the first does not hold. |
| `RouteTrie.LookupIff` | swifty_http/trie.go:54-73 | A route is found exactly when a registered pattern matches the request, and the one found is registered and matches. |
| `RouteOrder.BestRoute` | swifty_http/trie.go:54-106 | After any sequence of registrations a request is answered if and only if a registered pattern matches, and then by the one that beats all others: where two patterns first differ the exact segment wins, and of two wild ones the one whose segments were registered first. |
| `RouteOrder.BestIsOne` | swifty_http/trie.go:54-106 | There is only one such pattern. |
| `RouteOrder.InsertInOrder` | swifty_http/trie.go:39-52 | Inserting keeps the children of every node in the order in which their segments were first registered. |
| `RouteOrder.Holds` | swifty_http/trie.go:39-52 | The trie holds exactly the registered patterns. |
| `RouteTrie.RouteFound` | swifty_http/trie.go:54-73 | Backtracking never misses a route that matches. |
| `RouteTrie.InsertRoutes` | swifty_http/trie.go:39-52 | Inserting adds exactly the one route and keeps all others. |
| `RouteTrie.InsertFormed` | swifty_http/trie.go:39-52 | Inserting keeps children distinct and star segments at the end. |
| `RoutePaths.CanonicalParses` | swifty_http/router.go:54-66 | The stored pattern parses to the segments it is stored under. |
| `RoutePaths.ParseSegments` | swifty_http/router.go:40-52 | Parsing yields non-empty segments without slashes, a star segment only at the end. |
| `RoutePaths.ParseConcat` | swifty_http/router.go:40-52 | As long as there is no star segment before it, a slash divides a path into parts that are parsed by themselves, so repeated and trailing slashes do not matter. |
| `RoutePaths.ParseOne` | swifty_http/router.go:40-52 | A text without slashes is one segment, and the empty text none. |
| `RoutePaths.ParseStar` | swifty_http/router.go:40-52 | Nothing follows a star segment. |
| `RoutePaths.ParamsAre` | swifty_http/router.go:82-91 | The parameters are exactly what the colon segments and a named star bind, the last one for a repeated name. |
| `RouteTrie.MatchesIff` | swifty_http/trie.go:54-73 | A pattern fits a request part by part, colon and star segments fitting anything, a final star segment one part or more. |
| `RoutePaths.ParamsRoundTrip` | swifty_http/router.go:82-91 | With distinct parameter names, filling the parameters into the matched pattern gives back the request path if and only if the pattern does not end in a bare star or that star took a single star. |
| `RoutePaths.CollectParams` | swifty_http/router.go:82-91 | The loop computes the parameters of a match. |
| `HttpRouter.Router.AddRoute` | swifty_http/router.go:54-66 | The tries and the handler table are those of the earlier registrations followed by this one, its pattern taken by the laws of RoutePaths.ParseConcat, ParseOne and ParseStar. |
| `HttpRouter.Router.GetRoute` | swifty_http/router.go:68-92 | A route is found if and only if a registered pattern of the method matches; it is the best one in the order of registration, has a handler, and its parameters are those of the match. |
| `HttpRouter.HandlersIffNoClash` | swifty_http/router.go:54-66 | For every set of methods: in all lists of registrations for them every route leads to the handler given last for its method and segments, if and only if no method of the set reads like another one followed by a dash and the beginning of a pattern. |
| `HttpRouter.HandlerIsLast` | swifty_http/router.go:54-110 | Among methods that do not clash, the handler a found route leads to is the one registered last for the method and the segments. |
| `HttpRouter.KeyInjective` | swifty_http/router.go:54-66 | Between methods that do not clash, a handler key determines the method and the segments. |
| `HttpRouter.ClashingMethods` | swifty_http/router.go:54-66 | For every two methods that clash: two registrations of which the second takes the handler key of the first. |
| `HttpRouter.PlainNoClash` | swifty_http/group.go:76-110 | Methods without slashes, as all registering calls have them, never clash. |

## Left out

- Raft membership change, restart and crash recovery: membership is fixed and storage is fresh, because `newRaft` does not restore the vote, `StartNode` marks the stored log committed, and `reset` clears the pending-change flag.
- Raft progress without a friendly schedule: `RaftProgress.MakesProgress` and the two exact conditions say what some further events can reach, not that timers and a fair network reach it. Reads that stay pending across a change of leadership (`reset` does not clear them) are outside `RaftReads.ReadIndexSafety`, which is about one leadership.
- RaftProgress.MakesProgress: for a read whose context is not waiting at any member, because a leader drops a second request under one context. A cluster with pre-vote is covered as far as `RaftPreVote.ElectsIffNoPreVote` says that some of its runs cannot go on; which ones is not.
- RaftAnswers.AnswerableIffNotTwo: for clusters without pre-vote, since with it there may be no leader to answer.
- RaftReads.ReadIndexSafety: a context may be used again under another leadership, but not twice in one, and not be empty. Reads registered under a context that the same leadership has used before, such as a request delivered again after its answer, are not covered.
- Raft timers: the cluster model lets campaigns and heartbeats happen at any time; only `RaftNode.Raft.Tick` ties them to elapsed ticks. Check-quorum is only what the code has: a flag that makes a node answer appends and heartbeats of an earlier term.
- Raft messages may be delivered as soon as they are queued, not only after the Ready that carries them; the theorems hold for this larger set of runs.
- Raft object details: progress entries and read requests are values in maps, slices do not alias, and uint64 counters do not overflow; an append at index 0, which would wrap, is a panic.
- The joining of several node-loop objects into one run: `RaftLoop.FinishReadySafe` and `RaftLoop.ProcessSafe` give each object what it needs in every reachable cluster, and the runs themselves are over node values.
- RaftNode.Raft.Step: requires that the step function does not panic, which `RaftSteps.StepKeeps` and `RaftLoop.ProcessSafe` establish for every reachable state.
- The locks of the hash ring, the redis-backed ring, the FNV hash (any hash into the circle will do) and the calls to the migrator: the model keeps the index of data keys that the calls report.
- A RemoveNode call that fails stops half-way, with the node's replica count already gone; runs after such a call are not covered.
- RingService.ConsistentHash.KeysIn: the two loops of migrateIn and migrateOut that select keys on an arc are one method, because they differ only in the second wrap-around pattern.
- Cache eviction callbacks, statistics other than the eviction count, the clock goroutine, the clean-up ticker and the routing of keys to buckets by `HashBKRD`; a bucket is modelled, and the clean-up is a deletion of any key at any time.
- LruCache.Cache.Del: combines del with releasing the slot's value, as every caller does right after it.
- LruCache.Cache: operations are modelled for capacities from 1 to 65534; at 65535 the constructor yields a level without links.
- LsmFile.ReopenRoundTrip: the end of the index must lie below 2^56, because the footer has eight bytes for each number.
- LSM level compaction and levels 1 and up, out-of-order hand-over of memtables, failed flushes and recovery of the directory; reads are proved for flushes in rotation order. In the runs of `LsmStore` a memtable is the map its skip list stands for, and memtable sizes do not overflow.
- LsmStore.ReadsIffFindable: for table sizes below 2^63 - 1, since a memtable's size is an int; keys are shorter than 2^63 bytes.
- TimeWheel.Wheel: list elements are values with serial numbers, and delays and intervals do not overflow; the goroutines that run callbacks, the ticker and the channels are left out.
- OrmFilter.CompileAll: equality values that are operator documents are excluded by their type. Regular expressions are kept as the LIKE text they come from, and the parsing of Where arguments is left out.
- RouteTrie.Insert: trie nodes are values, so update in place and sharing of nodes are not captured; a request path of `RouteOrder.BestRoute` is taken as its parsed segments, which stop at a segment that starts with a star.
- WebSockets, middleware, RPC, the message queue, the transaction and lock demos, agents, chat, dashboards, front ends and scripts: input and output, clocks, Redis or wrappers.
