/** The values of apps/raft_demo/raft/model.go: entries, messages and the state one node keeps. */
module RaftTypes {
  /** Node identifiers; 0 is the source's `None`. */
  type NodeId = nat
  const NONE: NodeId := 0

  newtype Byte = b: int | 0 <= b < 256
  type Bytes = seq<Byte>

  type Positive = k: nat | 1 <= k witness 1

  datatype EntryType = EntryNormal | EntryConfChange

  datatype Entry = Entry(term: nat, index: nat, typ: EntryType, data: Bytes)

  /** A flat log: the entry with index i sits at position i - 1. */
  type Log = seq<Entry>

  datatype MessageType =
    | MsgHup | MsgBeat | MsgProp | MsgApp | MsgAppResp | MsgVote | MsgVoteResp
    | MsgHeartbeat | MsgHeartbeatResp | MsgReadIndex | MsgReadIndexResp | MsgPreVote | MsgPreVoteResp

  datatype Message = Message(
    typ: MessageType, to: NodeId, from: NodeId, term: nat,
    logTerm: nat, logIndex: nat, entries: seq<Entry>, commitIndex: nat,
    reject: bool, rejectHint: nat, context: Bytes)

  /** Go's zero Message with only the type and the destination filled in. */
  function Blank(typ: MessageType, to: NodeId): Message {
    Message(typ, to, NONE, 0, 0, 0, [], 0, false, 0, [])
  }

  datatype Role = Follower | Candidate | Leader | PreCandidate

  /** `match` is a Dafny keyword, so the confirmed index is called `matched`. */
  datatype Progress = Progress(matched: nat, next: Positive)

  datatype ReadState = ReadState(index: nat, ctx: Bytes)
  datatype ReadStatus = ReadStatus(req: Message, index: nat, acks: set<NodeId>)
  datatype ReadOnly = ReadOnly(pending: map<Bytes, ReadStatus>, queue: seq<Bytes>)

  datatype HardState = HardState(term: nat, vote: NodeId, commit: nat)
  datatype SoftState = SoftState(lead: NodeId, role: Role)

  /** A raft node as a value. The log is flat here and the message queue a set. */
  datatype Node = Node(
    id: NodeId, preVote: bool, checkQuorum: bool,
    term: nat, vote: NodeId, role: Role, lead: NodeId,
    votes: map<NodeId, bool>, prs: map<NodeId, Progress>,
    log: Log, commit: nat, applied: nat,
    pendingConf: bool, readOnly: ReadOnly, readStates: seq<ReadState>, msgs: set<Message>)

  /** A Go call that either returns or panics. */
  datatype Outcome<+T> = Ok(value: T) | Panic {
    predicate IsFailure() { Panic? }
    function PropagateFailure<U>(): Outcome<U>
      requires Panic?
    {
      Panic
    }
    function Extract(): T
      requires Ok?
    {
      value
    }
  }
}
