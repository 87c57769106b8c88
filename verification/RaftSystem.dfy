/** A group of replicas with a fixed set of voters, and a network that may lose,
    duplicate and reorder messages.  A message once sent stays available for
    delivery any number of times and need never be delivered. */
module RaftSystem {
  import opened RaftTypes
  import opened Quorum
  import opened GroupMembership
  import opened BoundedLog
  import opened ReplicaSpec
  import opened ReplicaInvariant
  import opened HashChain

  /** `first` is the membership the group was founded with, and `base` the committed log
      from which every replica of the group starts; it is empty in a new group. */
  datatype Config = Config(group: nat, first: Membership, superMajority: nat, base: seq<Entry>) {
    const voters: set<PeerId> := first.voting
  }

  predicate ConfigOk(c: Config) {
    0 < |c.voters| && SmallGroup(c.first) && c.superMajority < U32
  }

  function QuorumOf(c: Config): nat { QuorumSize(|c.voters|, c.superMajority) }

  datatype Packet = Packet(from: PeerId, to: PeerId, msg: RaftMessage)

  /** A vote: for whom, and the term and index of the last entry that the voter had. */
  datatype Ballot = Ballot(candidate: PeerId, lastTerm: nat, lastIdx: nat)

  /** `taken` is what each replica has handed to its database so far, and `ballots` the
      vote of each replica in each term. */
  datatype System = System(replicas: map<PeerId, Replica>, net: set<Packet>, taken: map<PeerId, seq<Entry>>,
                           ballots: map<(PeerId, nat), Ballot>)

  /** Queued messages turn into packets; a broadcast goes to everyone else. */
  function Packets(r: Replica, ids: set<PeerId>): set<Packet> {
    set m, to | m in r.outbox && to in ids && to != r.me && (m.to.None? || m.to.value == to) :: Packet(r.me, to, m.msg)
  }

  function Flushed(r: Replica): Replica { r.(outbox := {}) }

  /** Replica `i` becomes `r` and sends what it has queued. */
  function Put(s: System, i: PeerId, r: Replica): System
    requires i in s.replicas
  {
    s.(replicas := s.replicas[i := Flushed(r)], net := s.net + Packets(r, s.replicas.Keys))
  }

  /** A membership change that leaves the voters as they are. */
  predicate SameVoters(c: Config, p: Payload) {
    p.MembershipChange? && FromGroup(p.replicas).Success? ==> FromGroup(p.replicas).value.voting == c.voters
  }

  predicate BaseOk(c: Config) {
    EntriesOk(c.base) && Chained(c.base) && forall k | 0 <= k < |c.base| :: SameVoters(c, c.base[k].payload)
  }

  /** Every replica has just been built around the end of the committed log the group
      starts from; in a new group that log is empty. */
  ghost predicate Init(c: Config, s: System) {
    && BaseOk(c) && c.voters <= s.replicas.Keys == s.taken.Keys && s.net == {} && s.ballots == map[]
    && forall i | i in s.replicas :: NewReplica(c, i, s.replicas[i]) && s.taken[i] == c.base
  }

  ghost predicate NewReplica(c: Config, i: PeerId, r: Replica) {
    && r == Built(c.group, i, r.membership, c.superMajority, r.chunkBytes, r.log, true)
    && Stores(r.log, c.base) && r.log.Bounded()
    && r.membership == GroupAt(c.base, |c.base|, c.first)
  }

  /** How a replica joins: under a new id, without a vote, around the log that a state
      transfer from replica `from` has left.  That log stores the end of the first `n`
      entries `from` has handed to its database, and the membership sent along is the
      newest among them. */
  datatype Joining = Joining(from: PeerId, n: nat, m: Membership, log: LogState, chunkBytes: nat)

  ghost predicate CanJoin(c: Config, s: System, i: PeerId, j: Joining) {
    && i !in s.replicas && i !in s.taken && j.from in s.taken && j.n <= |s.taken[j.from]|
    && Stores(j.log, s.taken[j.from][..j.n]) && j.log.Bounded()
    && j.m == GroupAt(s.taken[j.from], j.n, c.first)
  }

  function Joiner(c: Config, i: PeerId, j: Joining): Replica {
    Built(c.group, i, j.m, c.superMajority, j.chunkBytes, j.log, true)
  }

  datatype Action =
    | Deliver(packet: Packet, merkleOk: bool, merkleOk': bool)
    | Tick(i: PeerId, fires: bool, merkleOk: bool)
    | Request(i: PeerId, payload: Payload, merkleOk: bool)
    | Relinquish(i: PeerId, merkleOk: bool)
    | Reset(i: PeerId, peer: PeerId)
    | Take(i: PeerId)
    | Join(i: PeerId, how: Joining)

  function Actor(a: Action): PeerId {
    if a.Deliver? then a.packet.to else a.i
  }

  ghost predicate Enabled(c: Config, s: System, a: Action) {
    && (a.Join? ==> CanJoin(c, s, a.i, a.how))
    && (!a.Join? ==> Actor(a) in s.replicas && Actor(a) in s.taken)
    && (a.Deliver? ==> a.packet in s.net)
    && (a.Reset? ==> a.peer != a.i || s.replicas[a.i].role != Candidate)
    && (a.Request? ==> SameVoters(c, a.payload))
    && (a.Take? ==> var r := s.replicas[a.i]; r.lastApplied < r.commitIdx && r.log.At(r.lastApplied + 1).Some?)
  }

  /** What the acting replica becomes. */
  ghost function Act(r: Replica, a: Action): Replica
    requires !a.Join?
    requires a.Take? ==> r.lastApplied < r.commitIdx && r.log.At(r.lastApplied + 1).Some?
  {
    match a
    case Deliver(p, ok, ok') => Receive(r, p.msg, p.from, ok, ok')
    case Tick(_, fires, ok) => TimerTick(r, fires, ok)
    case Request(_, payload, ok) => LogRequest(r, payload, ok).0
    case Relinquish(_, ok) => RelinquishLeadership(r, ok)
    case Reset(_, peer) => ResetPeer(r, peer)
    case Take(_) => TakeCommittedLog(r).0
  }

  ghost predicate Step(c: Config, s: System, a: Action, s': System) {
    && Enabled(c, s, a)
    && s' == if a.Join? then Enrolled(c, s, a.i, a.how) else Acted(s, a)
  }

  ghost function Acted(s: System, a: Action): System
    requires !a.Join? && Actor(a) in s.replicas && Actor(a) in s.taken
    requires a.Take? ==> var r := s.replicas[a.i]; r.lastApplied < r.commitIdx && r.log.At(r.lastApplied + 1).Some?
  {
    var i := Actor(a);
    var r := s.replicas[i];
    var t := Put(s, i, Act(r, a)).(ballots := Recorded(s.ballots, r, Act(r, a)));
    if a.Take? then t.(taken := s.taken[i := s.taken[i] + [TakeCommittedLog(r).1.value.1]]) else t
  }

  /** When `r` becomes `s` with a first vote in a term, the vote goes on record with the
      end of the log that `r` had. */
  function Recorded(ballots: map<(PeerId, nat), Ballot>, r: Replica, s: Replica): map<(PeerId, nat), Ballot> {
    if s.votedFor.None? || (s.me, s.term) in ballots then ballots
    else ballots[(s.me, s.term) := Ballot(s.votedFor.value, r.log.LastTerm(), r.log.LastIdx())]
  }

  /** What was handed to the sender's database counts as handed to the joiner's. */
  function Enrolled(c: Config, s: System, i: PeerId, j: Joining): System
    requires j.from in s.taken && j.n <= |s.taken[j.from]|
  {
    s.(replicas := s.replicas[i := Joiner(c, i, j)], taken := s.taken[i := s.taken[j.from][..j.n]])
  }

  ghost predicate CanStep(c: Config, s: System, s': System) {
    exists a :: Step(c, s, a, s')
  }

  /** Every state of `run` follows from the one before it by an action. */
  ghost predicate Run(c: Config, run: seq<System>) {
    && run != [] && Init(c, run[0])
    && forall k | 0 <= k < |run| - 1 :: CanStep(c, run[k], run[k + 1])
  }
}
