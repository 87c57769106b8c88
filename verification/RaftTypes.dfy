/** Values shared by every part of the Raft model: peers, log entries, hashes
    and messages.  Indexes and terms are unbounded naturals; where the width of
    a machine word matters it is written out. */
module RaftTypes {

  datatype Option<+T> = None | Some(value: T)

  datatype Result<+T> = Success(value: T) | Failure(error: Error)

  /** The error codes this part of the enclave returns; `NoError` is OK. */
  datatype Error =
    | NoError
    | InvalidPeerId
    | DuplicateReplicaInReplicaGroup
    | SuperMajorityLost
    | EmptySet
    | TooManyMembershipChanges
    | NoMembershipChanges
    | LeaderRemovedFromVoting
    | LeaderRemovedFromAll
    | VotingNotSubset
    | CancelingBeforeFirst
    | AppendWithoutTerm
    | NoHashChainInAppend
    | LogOutOfSpace
    | LogEntryTooLarge
    | SetNextOnNonemptyLog
    | AppendEntryNotLeader
    | MembershipAlreadyChanging
    | MsgWrongGroup
    | MsgNotPeer
    | MsgInvalidType
    | MsgTruncated
    | MsgInFuture
    | MsgTermPromised
    | MsgHashMismatch
    | MsgAppendEntryIndex
    | MsgLogIndexOrdering
    | ReplicateLogIndexMismatch
    | ReplicateMissingCommittedMembership
    | ReplicateReplicationId
    | ReplicateReplicationSequence
    | ReplicationOutOfOrder
    | ReplicatedLogSerialization
    | ClientLogInvalid

  /** Peer IDs are 32-byte strings compared as bytes; a natural number read
      big-endian has the same order. */
  type PeerId = nat

  const U64: nat := 0x1_0000_0000_0000_0000

  function Min(a: int, b: int): int { if a <= b then a else b }

  function Max(a: int, b: int): int { if a <= b then b else a }

  /** One line of a ReplicaGroup message.  A peer ID string that is not 32
      bytes long is `None`. */
  datatype ReplicaProto = ReplicaProto(peerId: Option<PeerId>, voting: bool)

  /** A repeated protobuf field has an `int` number of elements. */
  type Group = g: seq<ReplicaProto> | |g| <= 0x7fff_ffff witness []

  datatype Payload =
    | Noop
    | Data(bytes: seq<nat>)
    | MembershipChange(replicas: Group)
    | Minimums(limits: seq<nat>)

  /** HMAC-SHA256, idealised: a digest determines its key and its input.
      `Absent` is the empty string, which is not a 32-byte hash. */
  datatype Hash = Absent | Zeros | Mac(key: Hash, input: seq<nat>)

  datatype Entry = Entry(term: nat, payload: Payload, hash: Hash)

  datatype Message =
    | VoteRequest(lastIdx: nat, lastTerm: nat, lastHash: Hash)
    | VoteResponse(granted: bool)
    | AppendRequest(prevIdx: nat, prevTerm: nat, prevHash: Hash, entries: seq<Entry>,
                    leaderCommit: nat, leaderPromise: nat)
    | AppendResponse(success: bool, matchIdx: nat, matchHash: Hash, promiseIdx: nat, lastIdx: nat)
    | TimeoutNow
    | NotSet

  datatype RaftMessage = RaftMessage(group: nat, term: nat, inner: Message)

  /** A queued message; `to.None?` is a broadcast to every peer. */
  datatype Sendable = Sendable(to: Option<PeerId>, msg: RaftMessage)
}
