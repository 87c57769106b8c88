/** One Raft replica as a value: what each handler of the replica does to its
    state and to its queue of outgoing messages.  The class in RaftReplica.dfy
    does the same in place; the proofs about whole groups use these functions. */
module ReplicaSpec {
  import opened RaftTypes
  import opened HashChain
  import opened Quorum
  import opened GroupMembership
  import opened BoundedLog

  datatype Role = Follower | Candidate | Leader

  /** What a leader knows of one follower.  `nextIdx` starts at 1 or more and
      never falls below it. */
  datatype Replication = Replication(
    nextIdx: pos, matchIdx: nat, promiseIdx: nat, inflight: Option<nat>,
    sendProbe: bool, sendHeartbeat: bool)

  type pos = n: nat | 1 <= n witness 1

  datatype Replica = Replica(
    // fixed
    group: nat, me: PeerId, superMajority: nat, chunkBytes: nat,
    // membership
    membership: Membership, uncommitted: seq<(nat, Membership)>,
    // terms and votes
    term: nat, votedFor: Option<PeerId>,
    // role, and the state that goes with it
    role: Role, knownLeader: Option<PeerId>, votes: set<PeerId>,
    followers: map<PeerId, Replication>, relinquishing: bool,
    // log
    log: LogState, lastApplied: nat, commitIdx: nat, promiseIdx: nat,
    // messages queued for sending
    outbox: set<Sendable>)

  function Current(r: Replica): Membership {
    if r.uncommitted == [] then r.membership else r.uncommitted[|r.uncommitted| - 1].1
  }

  function MembershipQuorum(r: Replica): nat {
    QuorumSize(|Current(r).voting|, r.superMajority)
  }

  predicate IsVoting(r: Replica) { r.me in Current(r).voting }

  function Send(r: Replica, to: Option<PeerId>, m: Message): Replica {
    r.(outbox := r.outbox + {Sendable(to, RaftMessage(r.group, r.term, m))})
  }

  function SetRole(r: Replica, role: Role): Replica {
    r.(role := role, knownLeader := None, votes := {}, followers := map[], relinquishing := false)
  }

  // ---------------------------------------------------------------- elections

  function VoteRequestMessage(r: Replica): Message {
    VoteRequest(r.log.LastIdx(), r.log.LastTerm(), r.log.HashAt(r.log.LastIdx()))
  }

  /** A broadcast is not queued when the replica is alone in its group. */
  function Broadcast(r: Replica, m: Message): Replica {
    if Current(r).all == {r.me} then r else Send(r, None, m)
  }

  function ElectionTimeout(r: Replica): Replica {
    if !IsVoting(r) || r.role == Leader then r
    else
      var c := SetRole(r.(term := r.term + 1, votedFor := Some(r.me)), Candidate).(votes := {r.me});
      Broadcast(c, VoteRequestMessage(c))
  }

  function NewReplication(r: Replica): Replication {
    Replication(r.log.NextIdx(), 0, 0, None, false, false)
  }

  function MaybeBecomeLeader(r: Replica): Replica {
    if r.role != Candidate || |r.votes| < MembershipQuorum(r) then r
    else ClientRequest(TakeOffice(r), Noop).0
  }

  function TakeOffice(r: Replica): Replica {
    SetRole(r, Leader).(followers := map p | p in Current(r).all - {r.me} :: NewReplication(r))
  }

  function UpdateTerm(r: Replica, term: nat): Replica {
    if term <= r.term then r
    else SetRole(r.(term := term), Follower).(votedFor := None)
  }

  function HandleVoteRequest(r: Replica, msgTerm: nat, m: Message, from: PeerId): Replica
    requires m.VoteRequest?
  {
    var logOk := m.lastTerm > r.log.LastTerm() || (m.lastTerm == r.log.LastTerm() && m.lastIdx >= r.log.LastIdx());
    var grant := msgTerm == r.term && logOk && (r.votedFor.None? || r.votedFor.value == from);
    if msgTerm > r.term then r
    else
      Send(if grant then r.(votedFor := Some(from)) else r, Some(from), VoteResponse(grant))
  }

  function HandleVoteResponse(r: Replica, msgTerm: nat, m: Message, from: PeerId): Replica
    requires m.VoteResponse?
  {
    if msgTerm != r.term || r.role != Candidate || !m.granted || from !in Current(r).voting then r
    else r.(votes := r.votes + {from})
  }

  // --------------------------------------------------------------- membership

  /** A leader tracks exactly the other members of its current group. */
  function HandleMembershipChange(r: Replica): Replica {
    if r.role != Leader then r
    else
      r.(followers := map p | p in Current(r).all - {r.me} ::
           if p in r.followers then r.followers[p] else NewFollower(r))
  }

  /** A member that joins while we lead is probed first. */
  function NewFollower(r: Replica): Replication {
    NewReplication(r).(sendProbe := true, sendHeartbeat := true)
  }

  function AddUncommitted(r: Replica, idx: nat, m: Membership): Replica {
    HandleMembershipChange(r.(uncommitted := r.uncommitted + [(idx, m)]))
  }

  /** Memberships at or below the commit index become canonical. */
  function PromoteCommitted(r: Replica): Replica
    decreases |r.uncommitted|
  {
    if r.uncommitted != [] && r.uncommitted[0].0 <= r.commitIdx then
      PromoteCommitted(r.(membership := r.uncommitted[0].1, uncommitted := r.uncommitted[1..]))
    else r
  }

  /** Memberships beyond the end of the log are forgotten. */
  function DiscardCancelled(r: Replica): Replica
    decreases |r.uncommitted|
  {
    var n := |r.uncommitted|;
    if n > 0 && r.uncommitted[n - 1].0 > r.log.LastIdx() then
      DiscardCancelled(r.(uncommitted := r.uncommitted[..n - 1]))
    else r
  }

  function SyncMemberships(r: Replica): Replica {
    var s := DiscardCancelled(PromoteCommitted(r));
    if s.uncommitted == r.uncommitted then s else HandleMembershipChange(s)
  }

  // ------------------------------------------------------------------ the log

  function NextHash(log: LogState, e: Entry): Hash {
    Next(log.MostRecentHash(), log.NextIdx(), e.term, e.payload)
  }

  function LogAppend(r: Replica, e: Entry): (Replica, Error) {
    if e.payload.MembershipChange? && FromGroup(e.payload.replicas).Failure? then
      (r, FromGroup(e.payload.replicas).error)
    else
      var (log, err) := r.log.Append(e, r.lastApplied);
      (TrackAppended(r.(log := log), e, err), err)
  }

  function TrackAppended(r: Replica, e: Entry, err: Error): Replica {
    if err == NoError && e.payload.MembershipChange? && FromGroup(e.payload.replicas).Success? then
      AddUncommitted(r, r.log.LastIdx(), FromGroup(e.payload.replicas).value)
    else r
  }

  function ClientRequest(r: Replica, p: Payload): (Replica, Error) {
    if r.role != Leader || r.relinquishing then (r, AppendEntryNotLeader)
    else
      var e := Entry(r.term, p, Absent);
      LogAppend(r, e.(hash := NextHash(r.log, e)))
  }

  /** Whether a requested entry may be logged at all; only changes of the group
      are refused. */
  function CheckRequest(r: Replica, p: Payload): Error {
    if !p.MembershipChange? then NoError
    else if r.role != Leader || r.relinquishing then AppendEntryNotLeader
    else if r.uncommitted != [] then MembershipAlreadyChanging
    else
      match FromGroup(p.replicas)
      case Failure(err) => err
      case Success(next) => ValidProgressionForLeader(r.me, r.membership, next, r.superMajority)
  }

  /** Entries from `idx` on, until the log ends or they add up to `limit` bytes. */
  function TakeEntries(log: LogState, idx: nat, size: nat, limit: nat): seq<Entry>
    decreases log.NextIdx() - idx
  {
    if idx > log.LastIdx() || log.At(idx).None? then []
    else
      var e := log.At(idx).value;
      if size + SerializedSize(e) >= limit then [e]
      else [e] + TakeEntries(log, idx + 1, size + SerializedSize(e), limit)
  }

  predicate ShouldSend(log: LogState, s: Replication) {
    && (log.LastIdx() >= s.nextIdx || s.sendHeartbeat || s.sendProbe)
    && s.inflight.None?
    && (s.nextIdx == 1 || log.TermAt(s.nextIdx - 1) != 0)
  }

  function AppendRequestFor(r: Replica, s: Replication): (m: Message)
    ensures m.AppendRequest?
  {
    var prev := s.nextIdx - 1;
    var entries := if s.sendProbe then [] else TakeEntries(r.log, s.nextIdx, 0, r.chunkBytes);
    AppendRequest(prev, r.log.TermAt(prev), r.log.HashAt(prev), entries,
                  Min(r.commitIdx, prev + |entries|), Min(r.promiseIdx, prev + |entries|))
  }

  /** The leader sends to every follower that is due something and has no
      request in flight. */
  function AppendEntriesToAll(r: Replica): Replica {
    if r.role != Leader then r
    else
      var due := set p | p in Current(r).all && p != r.me && p in r.followers && ShouldSend(r.log, r.followers[p]);
      r.(followers := map p | p in r.followers ::
           if p in due then Sent(r, r.followers[p]) else r.followers[p],
         outbox := r.outbox + set p | p in due ::
           Sendable(Some(p), RaftMessage(r.group, r.term, AppendRequestFor(r, r.followers[p]))))
  }

  function Sent(r: Replica, s: Replication): Replication {
    var m := AppendRequestFor(r, s);
    s.(sendHeartbeat := false, inflight := Some(m.prevIdx + |m.entries|))
  }

  // ------------------------------------------------------ promises and commits

  function Matches(f: map<PeerId, Replication>, voting: set<PeerId>): map<PeerId, nat> {
    map p | p in f && p in voting :: f[p].matchIdx
  }

  function Promises(f: map<PeerId, Replication>, voting: set<PeerId>): map<PeerId, nat> {
    map p | p in f && p in voting :: f[p].promiseIdx
  }

  /** What each voter is known to have stored, or promised; the replica speaks
      for itself. */
  function StoredBy(r: Replica): map<PeerId, nat> {
    Matches(r.followers, Current(r).voting)[r.me := r.log.LastIdx()]
  }

  function PromisedBy(r: Replica, own: nat): map<PeerId, nat> {
    Promises(r.followers, Current(r).voting)[r.me := own]
  }

  ghost function NewPromise(r: Replica): nat {
    Max(r.promiseIdx, Pick(StoredBy(r), MembershipQuorum(r)))
  }

  ghost function NewCommit(r: Replica): nat {
    Max(r.commitIdx, Pick(PromisedBy(r, NewPromise(r)), MembershipQuorum(r)))
  }

  ghost function MaybeAdvanceCommitIndex(r: Replica): Replica {
    if r.role != Leader then r
    else
      var s := r.(promiseIdx := NewPromise(r), commitIdx := NewCommit(r));
      if s == r then r
      else Heartbeats(if s.commitIdx > r.commitIdx then SyncMemberships(s) else s)
  }

  function Heartbeats(r: Replica): Replica {
    r.(followers := map p | p in r.followers :: r.followers[p].(sendHeartbeat := true))
  }

  function HandleAppendResponse(r: Replica, msgTerm: nat, m: Message, from: PeerId): Replica
    requires m.AppendResponse?
  {
    if msgTerm != r.term || r.role != Leader || from !in r.followers then r
    else
      var s := r.followers[from];
      r.(followers := r.followers[from := if m.success then Accepted(s, m) else Rejected(r, s, m)])
  }

  function Accepted(s: Replication, m: Message): Replication
    requires m.AppendResponse?
  {
    Replication(
      Max(m.matchIdx + 1, s.nextIdx), Max(m.matchIdx, s.matchIdx), Max(m.promiseIdx, s.promiseIdx),
      if s.inflight.Some? && m.matchIdx >= s.inflight.value then None else s.inflight,
      false, s.sendHeartbeat)
  }

  function Rejected(r: Replica, s: Replication, m: Message): Replication
    requires m.AppendResponse?
  {
    var next := Max(m.matchIdx + 1, Min(s.nextIdx - 1, m.lastIdx + 1));
    s.(nextIdx := BackOff(r.log, next, m.matchIdx, r.chunkBytes), sendProbe := true, inflight := None)
  }

  /** Steps back from `next` towards `matchIdx`, a chunk of bytes at most, and never to
      what is matched. */
  function BackOff(log: LogState, next: pos, matchIdx: nat, remaining: nat): (n: pos)
    ensures n <= next && (next > matchIdx ==> n > matchIdx)
  {
    var size := match log.At(next) case None => 0 case Some(e) => SerializedSize(e);
    if next - 1 <= matchIdx || size > remaining then next
    else BackOff(log, next - 1, matchIdx, remaining - size)
  }

  // ----------------------------------------------------------- append requests

  function HandleAppendRequest(r: Replica, msgTerm: nat, m: Message, from: PeerId, merkleOk: bool): Replica
    requires m.AppendRequest?
  {
    if msgTerm > r.term || (msgTerm == r.term && r.role == Leader) then r
    else
      var f := if msgTerm == r.term then FollowLeader(r, from) else r;
      if msgTerm < r.term || !PrevMatches(r.log, m) then
        Send(f, Some(from),
             AppendResponse(false, f.commitIdx, f.log.HashAt(f.commitIdx), f.promiseIdx, f.log.LastIdx()))
      else AcceptAppend(f, m, from, merkleOk)
  }

  function AcceptAppend(r: Replica, m: Message, from: PeerId, merkleOk: bool): Replica
    requires m.AppendRequest?
  {
    var (s, last) := StoreEntries(r, m.prevIdx, m.entries);
    FinishAppend(s, Min(m.leaderCommit, last), Min(m.leaderPromise, last), last, from, merkleOk)
  }

  predicate PrevMatches(log: LogState, m: Message)
    requires m.AppendRequest?
  {
    m.prevIdx == 0 || (log.At(m.prevIdx).Some? && log.TermAt(m.prevIdx) == m.prevTerm)
  }

  function FollowLeader(r: Replica, from: PeerId): Replica {
    (if r.role == Candidate then SetRole(r, Follower) else r).(knownLeader := Some(from))
  }

  /** Stores the entries after `prev` one by one and stops at the first that
      cannot be stored.  Returns the last index processed. */
  function StoreEntries(r: Replica, prev: nat, entries: seq<Entry>): (Replica, nat)
    decreases |entries|
  {
    if entries == [] then (r, prev)
    else
      var (s, ok) := StoreEntry(r, prev + 1, entries[0]);
      if ok then StoreEntries(s, prev + 1, entries[1..]) else (s, prev)
  }

  function StoreEntry(r: Replica, idx: nat, e: Entry): (Replica, bool) {
    var ours := r.log.TermAt(idx);
    if ours == 0 || ours == e.term then AppendIfNext(r, idx, e)
    else if idx <= r.commitIdx || idx <= r.promiseIdx || r.log.CancelFrom(idx).Failure? then (r, false)
    else AppendIfNext(SyncMemberships(r.(log := r.log.CancelFrom(idx).value)), idx, e)
  }

  function AppendIfNext(r: Replica, idx: nat, e: Entry): (Replica, bool) {
    if idx != r.log.NextIdx() then (r, true)
    else if NextHash(r.log, e) != e.hash then (r, false)
    else
      var (s, err) := LogAppend(r, e);
      (s, err == NoError)
  }

  /** Advances the commit and promise indexes and answers the leader, unless the
      Merkle check of the old indexes fails. */
  function FinishAppend(r: Replica, commit: nat, promise: nat, last: nat, from: PeerId, merkleOk: bool): Replica {
    if (commit > r.commitIdx || promise > r.promiseIdx) && !merkleOk then r
    else
      var t := Advanced(r, commit, promise);
      Send(t, Some(from), AppendResponse(true, last, t.log.HashAt(last), Min(t.promiseIdx, last), t.log.LastIdx()))
  }

  function Advanced(r: Replica, commit: nat, promise: nat): Replica {
    var s := if commit > r.commitIdx then SyncMemberships(r.(commitIdx := commit)) else r;
    s.(promiseIdx := Max(s.promiseIdx, promise))
  }

  // --------------------------------------------------------------- validation

  function CheckLogHash(r: Replica, idx: nat, term: nat, hash: Hash, allowFuture: bool): Error {
    if idx == 0 then NoError
    else if idx < r.log.OldestStored() then MsgTruncated
    else if idx > r.log.LastIdx() then if allowFuture then NoError else MsgInFuture
    else
      var ours := r.log.TermAt(idx);
      if term != 0 && term > ours then if idx > r.promiseIdx then NoError else MsgTermPromised
      else if term != 0 && term < ours then NoError
      else if hash != r.log.HashAt(idx) then MsgHashMismatch
      else NoError
  }

  function CheckEntries(r: Replica, prev: nat, entries: seq<Entry>): Error
    decreases |entries|
  {
    if entries == [] then NoError
    else
      var err := CheckLogHash(r, prev + 1, entries[0].term, entries[0].hash, true);
      if err != NoError then err else CheckEntries(r, prev + 1, entries[1..])
  }

  function ValidateReceived(r: Replica, msg: RaftMessage, from: PeerId): Error {
    if msg.group != r.group then MsgWrongGroup
    else if from !in Current(r).all then MsgNotPeer
    else
      match msg.inner
      case VoteRequest(idx, term, hash) => CheckLogHash(r, idx, term, hash, true)
      case VoteResponse(_) => NoError
      case AppendRequest(_, _, _, _, _, _) => CheckAppendRequest(r, msg.inner)
      case AppendResponse(_, _, _, _, _) => CheckAppendResponse(r, msg.inner)
      case TimeoutNow => NoError
      case NotSet => MsgInvalidType
  }

  function CheckAppendRequest(r: Replica, m: Message): Error
    requires m.AppendRequest?
  {
    var last, err := m.prevIdx + |m.entries|, CheckLogHash(r, m.prevIdx, m.prevTerm, m.prevHash, true);
    if err != NoError then err
    else if m.leaderCommit > last || m.leaderPromise > last then MsgAppendEntryIndex
    else if m.leaderCommit > m.leaderPromise then MsgLogIndexOrdering
    else CheckEntries(r, m.prevIdx, m.entries)
  }

  function CheckAppendResponse(r: Replica, m: Message): Error
    requires m.AppendResponse?
  {
    var err := CheckLogHash(r, m.matchIdx, 0, m.matchHash, false);
    if err != NoError then err
    else if m.matchIdx > m.lastIdx || m.promiseIdx > m.lastIdx then MsgLogIndexOrdering
    else NoError
  }

  // -------------------------------------------------------------- entry points

  function Dispatch(r: Replica, msg: RaftMessage, from: PeerId, merkleOk: bool): Replica {
    match msg.inner
    case VoteRequest(_, _, _) => HandleVoteRequest(r, msg.term, msg.inner, from)
    case VoteResponse(_) => HandleVoteResponse(r, msg.term, msg.inner, from)
    case AppendRequest(_, _, _, _, _, _) => HandleAppendRequest(r, msg.term, msg.inner, from, merkleOk)
    case AppendResponse(_, _, _, _, _) => HandleAppendResponse(r, msg.term, msg.inner, from)
    case TimeoutNow => if msg.term < r.term then r else ElectionTimeout(r)
    case NotSet => r
  }

  ghost function ChangeStateAndSend(r: Replica, merkleOk: bool): Replica {
    var a := MaybeBecomeLeader(r);
    var b := if merkleOk then MaybeAdvanceCommitIndex(a) else a;
    TryToRelinquish(AppendEntriesToAll(b))
  }

  /** Voters other than the leader that store the whole log. */
  function Successors(r: Replica): set<PeerId> {
    set p | p in Current(r).voting && p != r.me && p in r.followers && r.followers[p].matchIdx == r.log.LastIdx()
  }

  function TryToRelinquish(r: Replica): Replica {
    if r.role != Leader || !r.relinquishing || Successors(r) == {} then r
    else SetRole(Send(r, Some(Least(Successors(r))), TimeoutNow), Follower)
  }

  /** The two Merkle verifications a received message can cause are inputs. */
  ghost function Receive(r: Replica, msg: RaftMessage, from: PeerId, merkleOk: bool, merkleOk': bool): Replica {
    if ValidateReceived(r, msg, from) != NoError then r
    else ChangeStateAndSend(Dispatch(UpdateTerm(r, msg.term), msg, from, merkleOk), merkleOk')
  }

  /** `fires` says whether the election or heartbeat timer runs out now. */
  ghost function TimerTick(r: Replica, fires: bool, merkleOk: bool): Replica {
    var s := if !fires then r else if r.role == Leader then Heartbeats(r) else ElectionTimeout(r);
    ChangeStateAndSend(s, merkleOk)
  }

  ghost function LogRequest(r: Replica, p: Payload, merkleOk: bool): (Replica, Error) {
    var refused := CheckRequest(r, p);
    if refused != NoError then (r, refused)
    else
      var (s, err) := ClientRequest(r, p);
      (ChangeStateAndSend(s, merkleOk), err)
  }

  ghost function RelinquishLeadership(r: Replica, merkleOk: bool): Replica {
    if r.role != Leader || r.relinquishing then r
    else ChangeStateAndSend(ClientRequest(r, Noop).0.(relinquishing := true), merkleOk)
  }

  function ResetPeer(r: Replica, id: PeerId): Replica {
    if id !in Current(r).all then r
    else
      match r.role
      case Follower => r
      case Candidate => Send(r, Some(id), VoteRequestMessage(r))
      case Leader =>
        if id !in r.followers then r
        else
          r.(followers := r.followers[id := r.followers[id].(
               nextIdx := r.log.NextIdx(), sendProbe := true, sendHeartbeat := true, inflight := None)])
  }

  /** The next committed entry, if there is one that has not been taken. */
  function TakeCommittedLog(r: Replica): (Replica, Option<(nat, Entry)>)
    requires r.lastApplied < r.commitIdx ==> r.log.At(r.lastApplied + 1).Some?
  {
    if r.lastApplied >= r.commitIdx then (r, None)
    else (r.(lastApplied := r.lastApplied + 1), Some((r.lastApplied + 1, r.log.At(r.lastApplied + 1).value)))
  }

  /** A replica built around a log.  A committed log, which is what a state transfer
      leaves, counts as promised, committed and applied. */
  function Built(group: nat, me: PeerId, m: Membership, superMajority: nat, chunkBytes: nat, log: LogState, committed: bool): Replica {
    var done := if committed then log.LastIdx() else 0;
    Replica(group, me, superMajority, chunkBytes, m, [], 0, None, Follower, None, {}, map[], false,
            log, done, done, done, {})
  }

  /** The only voter of a group makes itself leader at once. */
  ghost function Started(r: Replica, merkleOk: bool): Replica {
    if IsVoting(r) && |Current(r).voting| == 1 then ChangeStateAndSend(ElectionTimeout(r), merkleOk) else r
  }
}
