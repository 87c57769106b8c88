/** Every step of a group with a fixed voter set keeps the group in good standing:
    what one replica does with a message, a tick or a request, and what a replica
    that joins brings with it. */
module RaftSafety {
  import opened RaftTypes
  import opened HashChain
  import opened Quorum
  import opened GroupMembership
  import opened BoundedLog
  import opened ReplicaSpec
  import opened ReplicaInvariant
  import opened RaftSystem
  import opened RaftHistory
  import opened RaftSteps

  // -------------------------------------------------------- one replica's step

  lemma ChangeStateStep(c: Config, r: Replica, h: History, ok: bool) returns (h': History)
    requires Good(c, r, h)
    ensures Moves(c, r, h, ChangeStateAndSend(r, ok), h')
  {
    hide Good, Evolves, TakeOffice, ClientRequest, MaybeAdvanceCommitIndex, AppendEntriesToAll, TryToRelinquish;
    var h1 := LeaderStep(c, r, h);
    var a := MaybeBecomeLeader(r);
    var h2 := h1;
    if ok {
      h2 := AdvanceStep(c, a, h1);
    } else {
      StayStep(c, a, h1);
    }
    var b := if ok then MaybeAdvanceCommitIndex(a) else a;
    MovesTrans(c, r, h, a, h1, b, h2);
    SendAllStep(c, b, h2);
    RelinquishStep(c, AppendEntriesToAll(b), h2);
    MovesTrans(c, r, h, b, h2, AppendEntriesToAll(b), h2);
    MovesTrans(c, r, h, AppendEntriesToAll(b), h2, TryToRelinquish(AppendEntriesToAll(b)), h2);
    h' := h2;
  }

  lemma StayStep(c: Config, r: Replica, h: History)
    requires Good(c, r, h)
    ensures Moves(c, r, h, r, h)
  {
    EvolvesSelf(c, h, r.me);
  }

  lemma LeaderStep(c: Config, r: Replica, h: History) returns (h': History)
    requires Good(c, r, h)
    ensures Moves(c, r, h, MaybeBecomeLeader(r), h')
  {
    hide Good, Evolves, TakeOffice, ClientRequest;
    if r.role != Candidate || |r.votes| < MembershipQuorum(r) {
      StayStep(c, r, h);
      h' := h;
    } else {
      var h1 := TakeOfficeStep(c, r, h);
      h' := ClientRequestStep(c, TakeOffice(r), h1, Noop);
      MovesTrans(c, r, h, TakeOffice(r), h1, ClientRequest(TakeOffice(r), Noop).0, h');
    }
  }

  lemma DispatchStep(c: Config, r: Replica, h: History, msg: RaftMessage, from: PeerId, ok: bool) returns (h': History)
    requires Good(c, r, h) && MessageOk(c, h, from, r.me, msg) && from != r.me
    requires msg.inner.AppendResponse? ==> msg.inner.matchIdx <= |h.full[r.me]|
    requires msg.inner.AppendRequest? && msg.inner.entries != [] ==> r.log.OldestStored() <= msg.inner.prevIdx + 1
    requires msg.inner.AppendRequest? ==> msg.inner.leaderCommit <= msg.inner.leaderPromise
    ensures Moves(c, r, h, Dispatch(r, msg, from, ok), h')
  {
    hide Good, Evolves, HandleVoteRequest, HandleVoteResponse, HandleAppendRequest, HandleAppendResponse, ElectionTimeout;
    StayStep(c, r, h);
    h' := h;
    match msg.inner
    case VoteRequest(_, _, _) => h' := VoteRequestStep(c, r, h, msg.term, msg.inner, from);
    case VoteResponse(_) => VoteResponseStep(c, r, h, msg.term, msg.inner, from);
    case AppendRequest(_, _, _, _, _, _) => h' := AppendRequestStep(c, r, h, msg.term, msg.inner, from, ok);
    case AppendResponse(_, _, _, _, _) => ResponseStep(c, r, h, msg.term, msg.inner, from);
    case TimeoutNow => if msg.term >= r.term { h' := ElectionStep(c, r, h); }
    case NotSet =>
  }

  lemma ReceiveStep(c: Config, r: Replica, h: History, msg: RaftMessage, from: PeerId, ok: bool, ok': bool) returns (h': History)
    requires Good(c, r, h) && MessageOk(c, h, from, r.me, msg) && from != r.me
    ensures Moves(c, r, h, Receive(r, msg, from, ok, ok'), h')
  {
    if ValidateReceived(r, msg, from) != NoError {
      StayStep(c, r, h);
      h' := h;
    } else {
      if msg.inner.AppendResponse? { MatchInLog(r, h.full[r.me], msg, from); }
      if msg.inner.AppendRequest? { ValidatedRequest(r, msg, from); }
      h' := AcceptedStep(c, r, h, msg, from, ok, ok');
    }
  }

  lemma AcceptedStep(c: Config, r: Replica, h: History, msg: RaftMessage, from: PeerId, ok: bool, ok': bool)
    returns (h': History)
    requires Good(c, r, h) && MessageOk(c, h, from, r.me, msg) && from != r.me
    requires msg.inner.AppendResponse? ==> msg.inner.matchIdx <= |h.full[r.me]|
    requires msg.inner.AppendRequest? && msg.inner.entries != [] ==> r.log.OldestStored() <= msg.inner.prevIdx + 1
    requires msg.inner.AppendRequest? ==> msg.inner.leaderCommit <= msg.inner.leaderPromise
    ensures Moves(c, r, h, ChangeStateAndSend(Dispatch(UpdateTerm(r, msg.term), msg, from, ok), ok'), h')
  {
    hide Good, Evolves, Dispatch, ChangeStateAndSend, MessageOk;
    UpdateTermStep(c, r, h, msg.term);
    var u := UpdateTerm(r, msg.term);
    var h1 := DispatchStep(c, u, h, msg, from, ok);
    var d := Dispatch(u, msg, from, ok);
    h' := ChangeStateStep(c, d, h1, ok');
    MovesTrans(c, r, h, u, h, d, h1);
    MovesTrans(c, r, h, d, h1, ChangeStateAndSend(d, ok'), h');
  }

  lemma TickStep(c: Config, r: Replica, h: History, fires: bool, ok: bool) returns (h': History)
    requires Good(c, r, h)
    ensures Moves(c, r, h, TimerTick(r, fires, ok), h')
  {
    hide Good, Evolves, ElectionTimeout, Heartbeats, ChangeStateAndSend;
    var s := if !fires then r else if r.role == Leader then Heartbeats(r) else ElectionTimeout(r);
    var h1 := h;
    if !fires {
      StayStep(c, r, h);
    } else if r.role == Leader {
      HeartbeatStep(c, r, h);
    } else {
      h1 := ElectionStep(c, r, h);
    }
    h' := ChangeStateStep(c, s, h1, ok);
    MovesTrans(c, r, h, s, h1, ChangeStateAndSend(s, ok), h');
  }

  lemma RequestStep(c: Config, r: Replica, h: History, p: Payload, ok: bool) returns (h': History)
    requires Good(c, r, h) && SameVoters(c, p)
    ensures Moves(c, r, h, LogRequest(r, p, ok).0, h')
  {
    hide Good, Evolves, ClientRequest, ChangeStateAndSend;
    if CheckRequest(r, p) != NoError {
      StayStep(c, r, h);
      h' := h;
    } else {
      var h1 := ClientRequestStep(c, r, h, p);
      h' := ChangeStateStep(c, ClientRequest(r, p).0, h1, ok);
      MovesTrans(c, r, h, ClientRequest(r, p).0, h1, ChangeStateAndSend(ClientRequest(r, p).0, ok), h');
    }
  }

  lemma RelinquishingStep(c: Config, r: Replica, h: History)
    requires Good(c, r, h)
    ensures Moves(c, r, h, r.(relinquishing := true), h)
  {
    QuietChange(c, r, r.(relinquishing := true), h);
  }

  lemma StepDownStep(c: Config, r: Replica, h: History, ok: bool) returns (h': History)
    requires Good(c, r, h)
    ensures Moves(c, r, h, RelinquishLeadership(r, ok), h')
  {
    hide Good, Evolves, ClientRequest, ChangeStateAndSend;
    if r.role != Leader || r.relinquishing {
      StayStep(c, r, h);
      h' := h;
    } else {
      var h1 := ClientRequestStep(c, r, h, Noop);
      var s := ClientRequest(r, Noop).0;
      RelinquishingStep(c, s, h1);
      var t := s.(relinquishing := true);
      MovesTrans(c, r, h, s, h1, t, h1);
      h' := ChangeStateStep(c, t, h1, ok);
      MovesTrans(c, r, h, t, h1, ChangeStateAndSend(t, ok), h');
    }
  }

  lemma ResetStep(c: Config, r: Replica, h: History, peer: PeerId)
    requires Good(c, r, h)
    ensures Moves(c, r, h, ResetPeer(r, peer), h)
  {
    hide HistoryOk, OutboxOk, LogOk, MembershipOk, Evolves;
    var s := ResetPeer(r, peer);
    if r.role == Candidate {
      SendKeeps(c, r, h, Some(peer), VoteRequestMessage(r));
    } else if r.role == Leader && peer in r.followers {
      assert FollowerOk(r.followers[peer], |h.full[r.me]|);
      assert Current(s) == Current(r);
      QuietChange(c, r, s, h);
    }
    EvolvesSelf(c, h, r.me);
  }

  lemma ActStep(c: Config, s: System, a: Action, h: History) returns (h': History)
    requires SystemOk(c, s, h) && Enabled(c, s, a) && !a.Take? && !a.Join?
    ensures Moves(c, s.replicas[Actor(a)], h, Act(s.replicas[Actor(a)], a), h')
  {
    hide Good, Receive, TimerTick, LogRequest, RelinquishLeadership, ResetPeer, Evolves, MessageOk, HistoryOk, Moves;
    var r := s.replicas[Actor(a)];
    assert MemberOk(c, s, h, Actor(a));
    match a
    case Deliver(p, ok, ok') =>
      assert PacketOk(c, h, p);
      h' := ReceiveStep(c, r, h, p.msg, p.from, ok, ok');
    case Tick(_, fires, ok) => h' := TickStep(c, r, h, fires, ok);
    case Request(_, p, ok) => h' := RequestStep(c, r, h, p, ok);
    case Relinquish(_, ok) => h' := StepDownStep(c, r, h, ok);
    case Reset(_, peer) =>
      ResetStep(c, r, h, peer);
      h' := h;
  }

  // ------------------------------------------------------------ the whole group

  ghost predicate MemberOk(c: Config, s: System, h: History, i: PeerId)
    requires i in s.replicas
  {
    var r := s.replicas[i];
    && r.me == i && Good(c, r, h) && r.outbox == {}
    && i in s.taken && s.taken[i] == h.full[i][..r.lastApplied]
  }

  ghost predicate PacketOk(c: Config, h: History, p: Packet) {
    p.from != p.to && MessageOk(c, h, p.from, p.to, p.msg)
  }

  ghost predicate SystemOk(c: Config, s: System, h: History) {
    && ConfigOk(c) && HistoryOk(c, h) && Known(h) && s.replicas.Keys == h.full.Keys == s.taken.Keys
    && (forall i | i in s.replicas :: MemberOk(c, s, h, i))
    && (forall p | p in s.net :: PacketOk(c, h, p))
  }

  function FirstHistory(c: Config, s: System): History {
    History(c.base, map i | i in s.replicas :: c.base, map i | i in s.replicas :: |c.base|, map[], map[])
  }

  lemma InitOk(c: Config, s: System)
    requires ConfigOk(c) && Init(c, s)
    ensures SystemOk(c, s, FirstHistory(c, s))
  {
    hide Good, Built, EntriesOk, Chained, Stores;
    var h := FirstHistory(c, s);
    assert HistoryOk(c, h);
    assert c.base[..|c.base|] == c.base;
    forall i | i in s.replicas ensures MemberOk(c, s, h, i) {
      assert NewReplica(c, i, s.replicas[i]) && s.taken[i] == c.base;
      NewReplicaOk(c, s.replicas[i], h, i);
    }
  }

  lemma NewReplicaOk(c: Config, r: Replica, h: History, i: PeerId)
    requires ConfigOk(c) && BaseOk(c) && HistoryOk(c, h) && NewReplica(c, i, r)
    requires h.base == c.base && i in h.full && h.full[i] == c.base && h.promise[i] == |c.base|
    requires h.leaders == map[] && h.votes == map[]
    ensures Good(c, r, h) && r.me == i && r.outbox == {} && r.lastApplied == |c.base|
  {
    hide EntriesOk, Chained;
    GroupSmall(c.base, |c.base|, c.first);
    BuiltOk(c.group, i, r.membership, c.superMajority, r.chunkBytes, r.log, true, c.base, c.first);
    hide ReplicaOk, Stores;
    QuorumSizeValue(|c.voters|, c.superMajority);
    assert c.base[..|c.base|] == c.base;
    assert ChosenBy(c, h, c.voters, c.base);
    forall k | 0 <= k < |c.base| ensures MatchAt(h, c.base, k) {
    }
    assert LogMatching(h, c.base) && FixedLog(c, c.base);
  }

  /** A founder that makes itself leader when it is built does what its first timeout
      would do, so runs from its state are ends of runs from a new replica. */
  lemma FounderTicks(r: Replica, ok: bool)
    requires r.role == Follower && IsVoting(r) && |Current(r).voting| == 1
    ensures Started(r, ok) == TimerTick(r, true, ok)
  {
  }

  /** A replica's new packets are right because what it queued was. */
  lemma PacketsOk(c: Config, s: System, r: Replica, h: History, h': History)
    requires OutboxOk(c, r.me, r.outbox, h') && Evolves(h, h', r.me) && r.me in s.replicas
    requires forall p | p in s.net :: PacketOk(c, h, p)
    ensures forall p | p in Put(s, r.me, r).net :: PacketOk(c, h', p)
  {
    forall p | p in Put(s, r.me, r).net ensures PacketOk(c, h', p) {
      if p in s.net {
        assert PacketOk(c, h, p);
        MessageStays(c, h, h', r.me, p.from, p.to, p.msg);
      } else {
        var m :| m in r.outbox && (m.to.None? || m.to.value == p.to) && p == Packet(r.me, p.to, m.msg);
        assert QueuedOk(c, h', r.me, m);
      }
    }
  }

  lemma BystanderOk(c: Config, s: System, h: History, h': History, i: PeerId, j: PeerId)
    requires Evolves(h, h', i) && HistoryOk(c, h') && j in s.replicas && j != i && MemberOk(c, s, h, j)
    ensures MemberOk(c, s, h', j)
  {
    OthersStay(c, h, h', i, s.replicas[j]);
  }

  lemma FlushedGood(c: Config, r: Replica, h: History)
    requires Good(c, r, h)
    ensures Good(c, Flushed(r), h)
  {
    QuietChange(c, r, Flushed(r), h);
  }

  /** What has been taken is committed, hence promised, hence unchanged. */
  lemma TakenStays(c: Config, r: Replica, h: History, h': History)
    requires Good(c, r, h) && Evolves(h, h', r.me)
    ensures r.me in h'.full && r.lastApplied <= |h'.full[r.me]|
    ensures h'.full[r.me][..r.lastApplied] == h.full[r.me][..r.lastApplied]
  {
    hide HistoryOk, OutboxOk, LogMatching, VotesOk, ReignsOk, LeaderOk, Chosen, ReignsGrow, VotesGrow, MembershipOk, RoleOk;
    PrefixAgrees(h.full[r.me], h'.full[r.me], r.promiseIdx, r.lastApplied);
  }

  lemma ActorOk(c: Config, s: System, r: Replica, h: History, h': History, i: PeerId)
    requires i in s.replicas && MemberOk(c, s, h, i) && Moves(c, s.replicas[i], h, r, h')
    ensures MemberOk(c, Put(s, i, r), h', i)
  {
    TakenStays(c, s.replicas[i], h, h');
    FlushedGood(c, r, h');
  }

  lemma MovesMeans(c: Config, r: Replica, h: History, s: Replica, h': History)
    requires Moves(c, r, h, s, h') && r.me in h.full && Known(h)
    ensures HistoryOk(c, h') && Known(h') && OutboxOk(c, s.me, s.outbox, h') && Evolves(h, h', r.me) && s.me == r.me
    ensures h'.full.Keys == h.full.Keys
  {
    hide InGroup, ReplicaOk, HistoryOk, OutboxOk, Known, ReignsGrow, VotesGrow;
    KnownStays(h, h', r.me);
  }

  lemma PutOk(c: Config, s: System, h: History, i: PeerId, r: Replica, h': History)
    requires SystemOk(c, s, h) && i in s.replicas && Moves(c, s.replicas[i], h, r, h')
    ensures SystemOk(c, Put(s, i, r), h')
  {
    hide Good, Evolves, MessageOk, HistoryOk, OutboxOk, Moves, Packets;
    assert MemberOk(c, s, h, i);
    MovesMeans(c, s.replicas[i], h, r, h');
    PacketsOk(c, s, r, h, h');
    var s' := Put(s, i, r);
    forall j | j in s'.replicas ensures MemberOk(c, s', h', j) {
      if j == i {
        ActorOk(c, s, r, h, h', i);
      } else {
        assert MemberOk(c, s, h, j);
        BystanderOk(c, s, h, h', i, j);
      }
    }
  }

  lemma TakeOk(c: Config, s: System, a: Action, s': System, h: History)
    requires SystemOk(c, s, h) && a.Take? && Step(c, s, a, s')
    ensures SystemOk(c, s', h)
  {
    hide MemberOk, HistoryOk, PacketOk, Known;
    assert MemberOk(c, s, h, a.i);
    TakeMember(c, s, a, h);
    hide Acted;
    forall j | j in s'.replicas ensures MemberOk(c, s', h, j) {
      assert MemberOk(c, s, h, j);
      if j != a.i { SameMember(c, s, s', h, j); }
    }
  }

  lemma TakeMember(c: Config, s: System, a: Action, h: History)
    requires a.Take? && Enabled(c, s, a) && a.i in s.replicas && MemberOk(c, s, h, a.i)
    ensures var s' := Acted(s, a);
            && a.i in s'.replicas && a.i in s'.taken && MemberOk(c, s', h, a.i) && s'.net == s.net
            && s'.replicas == s.replicas[a.i := s'.replicas[a.i]] && s'.taken == s.taken[a.i := s'.taken[a.i]]
  {
    hide Good;
    var r := s.replicas[a.i];
    TakeGood(c, r, h);
    OneMoreTaken(h.full[a.i], r.lastApplied);
    assert Packets(TakeCommittedLog(r).0, s.replicas.Keys) == {};
  }

  lemma OneMoreTaken(full: seq<Entry>, n: nat)
    requires n < |full|
    ensures full[..n] + [full[n]] == full[..n + 1]
  {
  }

  lemma TakeGood(c: Config, r: Replica, h: History)
    requires Good(c, r, h) && r.lastApplied < r.commitIdx
    ensures Good(c, r.(lastApplied := r.lastApplied + 1), h)
    ensures r.me in h.full && r.lastApplied < |h.full[r.me]| && r.log.At(r.lastApplied + 1) == Some(h.full[r.me][r.lastApplied])
  {
    CommittedStored(r, h.full[r.me], c.first);
  }

  // ---------------------------------------------------------------------- joining

  /** The joiner's log is the prefix it took over, all of it promised. */
  function JoinHistory(h: History, i: PeerId, prefix: seq<Entry>): History {
    h.(full := h.full[i := prefix], promise := h.promise[i := |prefix|])
  }

  lemma JoinEvolves(c: Config, h: History, i: PeerId, prefix: seq<Entry>)
    requires HistoryOk(c, h) && i !in h.full
    ensures var h' := JoinHistory(h, i, prefix); Evolves(h, h', i) && HistoryOk(c, h')
  {
    hide LogMatching, FixedLog;
    var h' := JoinHistory(h, i, prefix);
    forall t | t in h'.leaders ensures ReignOk(c, h', t) {
      assert ReignOk(c, h, t);
      assert ElectedBy(c, h', h.leaders[t].electors, t, h.leaders[t].leader);
      assert Evolves(h, h', i);
      MatchingStays(h, h', i, h.leaders[t].log);
    }
    BaseStays(c, h, h', i);
  }

  /** A prefix of what a replica has applied is matched, fixed and chosen. */
  lemma AppliedPrefix(c: Config, r: Replica, h: History, n: nat)
    requires Good(c, r, h) && n <= r.lastApplied
    ensures var prefix := h.full[r.me][..n];
            && LogMatching(h, prefix) && FixedLog(c, prefix) && Chosen(c, h, prefix)
            && EntriesOk(prefix) && Chained(prefix)
  {
    hide HistoryOk, OutboxOk, VotesOk, ReignsOk, LeaderOk, MembershipOk, RoleOk, LogMatching, Chosen;
    var full := h.full[r.me];
    MatchingPrefix(h, full, n);
    ChosenPrefix(c, h, full[..r.commitIdx], n);
    assert full[..r.commitIdx][..n] == full[..n];
    CutChain(full, n);
  }

  lemma JoinerReplicaOk(c: Config, i: PeerId, j: Joining, prefix: seq<Entry>)
    requires ConfigOk(c) && Stores(j.log, prefix) && j.log.Bounded() && EntriesOk(prefix) && Chained(prefix)
    requires j.m == GroupAt(prefix, |prefix|, c.first)
    ensures ReplicaOk(Joiner(c, i, j), prefix, c.first) && Joiner(c, i, j).commitIdx == |prefix|
  {
    GroupSmall(prefix, |prefix|, c.first);
    BuiltOk(c.group, i, j.m, c.superMajority, j.chunkBytes, j.log, true, prefix, c.first);
  }

  lemma JoinerGood(c: Config, i: PeerId, j: Joining, h: History, prefix: seq<Entry>)
    requires ConfigOk(c) && HistoryOk(c, h) && i in h.full && h.full[i] == prefix && h.promise[i] == |prefix|
    requires ReplicaOk(Joiner(c, i, j), prefix, c.first) && Joiner(c, i, j).commitIdx == |prefix|
    requires LogMatching(h, prefix) && FixedLog(c, prefix) && Chosen(c, h, prefix)
    requires forall k | k in h.votes :: k.0 != i
    requires forall t | t in h.leaders :: h.leaders[t].leader != i
    ensures Good(c, Joiner(c, i, j), h)
  {
    assert prefix[..|prefix|] == prefix;
  }

  lemma JoinerOk(c: Config, s: System, i: PeerId, j: Joining, h: History)
    requires SystemOk(c, s, h) && CanJoin(c, s, i, j)
    ensures var h' := JoinHistory(h, i, s.taken[j.from][..j.n]);
            Evolves(h, h', i) && HistoryOk(c, h') && MemberOk(c, Enrolled(c, s, i, j), h', i)
  {
    hide Good, HistoryOk, Evolves, LogMatching, FixedLog, Chosen, ReplicaOk, Stores;
    assert MemberOk(c, s, h, j.from);
    var sender, prefix := s.replicas[j.from], s.taken[j.from][..j.n];
    AppliedWithin(c, sender, h);
    assert prefix == h.full[j.from][..j.n];
    AppliedPrefix(c, sender, h, j.n);
    var h' := JoinHistory(h, i, prefix);
    JoinEvolves(c, h, i, prefix);
    assert LogMatching(h', prefix) by { JoinMatching(h, h', i, prefix); }
    ChosenStays(c, h, h', i, prefix);
    GroupBefore(s.taken[j.from], prefix, j.n, c.first);
    JoinerReplicaOk(c, i, j, prefix);
    JoinerGood(c, i, j, h', prefix);
    assert prefix[..|prefix|] == prefix;
  }

  lemma AppliedWithin(c: Config, r: Replica, h: History)
    requires Good(c, r, h)
    ensures r.lastApplied <= |h.full[r.me]|
  {
  }

  lemma JoinMatching(h: History, h': History, i: PeerId, prefix: seq<Entry>)
    requires Evolves(h, h', i) && LogMatching(h, prefix)
    ensures LogMatching(h', prefix)
  {
    MatchingStays(h, h', i, prefix);
  }

  lemma SameMember(c: Config, s: System, s': System, h: History, k: PeerId)
    requires k in s.replicas && MemberOk(c, s, h, k) && k in s'.replicas && s'.replicas[k] == s.replicas[k]
    requires k in s.taken && k in s'.taken && s'.taken[k] == s.taken[k]
    ensures MemberOk(c, s', h, k)
  {
  }

  /** A replica that joins is in good standing, and so is everyone else after. */
  lemma JoinOk(c: Config, s: System, i: PeerId, j: Joining, h: History) returns (h': History)
    requires SystemOk(c, s, h) && CanJoin(c, s, i, j)
    ensures SystemOk(c, Enrolled(c, s, i, j), h') && Evolves(h, h', i)
  {
    hide Good, HistoryOk, Evolves, MessageOk;
    h' := JoinHistory(h, i, s.taken[j.from][..j.n]);
    JoinerOk(c, s, i, j, h);
    KnownStays(h, h', i);
    var s' := Enrolled(c, s, i, j);
    forall k | k in s'.replicas ensures MemberOk(c, s', h', k) {
      if k != i {
        assert MemberOk(c, s, h, k);
        BystanderOk(c, s, h, h', i, k);
        SameMember(c, s, s', h', k);
      }
    }
    forall p | p in s'.net ensures PacketOk(c, h', p) {
      assert PacketOk(c, h, p);
      MessageStays(c, h, h', i, p.from, p.to, p.msg);
    }
  }

  lemma StepOk(c: Config, s: System, a: Action, s': System, h: History) returns (h': History)
    requires SystemOk(c, s, h) && Step(c, s, a, s')
    ensures SystemOk(c, s', h') && Evolves(h, h', Actor(a))
  {
    hide Good, Evolves, HistoryOk, Moves, Act, CanJoin, PacketOk;
    if a.Take? {
      TakeOk(c, s, a, s', h);
      h' := h;
      EvolvesSelf(c, h, Actor(a));
    } else if a.Join? {
      h' := JoinOk(c, s, a.i, a.how, h);
    } else {
      h' := ActStep(c, s, a, h);
      assert MemberOk(c, s, h, Actor(a));
      PutOk(c, s, h, Actor(a), Act(s.replicas[Actor(a)], a), h');
      MovesMeans(c, s.replicas[Actor(a)], h, Act(s.replicas[Actor(a)], a), h');
    }
  }
}
