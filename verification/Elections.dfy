/** Who may lead: over every run, a leader stood with a log at least as far as the log
    of each voter that elected it, as that log was when it voted. */
module Elections {
  import opened RaftTypes
  import opened Quorum
  import opened GroupMembership
  import opened BoundedLog
  import opened ReplicaSpec
  import opened ReplicaInvariant
  import opened ReplicaLaws
  import opened RaftSystem
  import opened RaftHistory
  import opened RaftSteps
  import opened RaftSafety
  import opened RaftTheorems

  type Ballots = map<(PeerId, nat), Ballot>

  // --------------------------------------------------------------------- invariant

  predicate Cast(b: Ballots, v: PeerId, term: nat, candidate: PeerId) {
    (v, term) in b && b[(v, term)].candidate == candidate
  }

  /** A vote goes to someone who stood, with a log at least as far. */
  predicate FairAt(b: Ballots, v: PeerId, term: nat)
    requires (v, term) in b
  {
    var i := b[(v, term)].candidate;
    Cast(b, i, term, i) && AtLeast(b[(i, term)].lastTerm, b[(i, term)].lastIdx, b[(v, term)].lastTerm, b[(v, term)].lastIdx)
  }

  ghost predicate BallotsFair(b: Ballots) {
    forall v, t | (v, t) in b :: FairAt(b, v, t)
  }

  /** `electors` are a quorum that voted for `i`. */
  predicate Elects(c: Config, b: Ballots, electors: set<PeerId>, term: nat, i: PeerId) {
    electors <= c.voters && |electors| >= QuorumOf(c) && forall v | v in electors :: Cast(b, v, term, i)
  }

  ghost predicate Elected(c: Config, b: Ballots, term: nat, i: PeerId) {
    exists electors :: Elects(c, b, electors, term, i)
  }

  /** What a replica remembers of its votes is on record; a candidate's log has stayed as
      it was when it stood. */
  ghost predicate VoterOk(c: Config, b: Ballots, r: Replica) {
    && (r.votedFor.Some? ==> Cast(b, r.me, r.term, r.votedFor.value))
    && (r.votedFor.None? ==> (r.me, r.term) !in b)
    && (forall t | (r.me, t) in b :: t <= r.term)
    && (r.role == Candidate ==> Standing(b, r) && forall v | v in r.votes :: Cast(b, v, r.term, r.me))
    && (r.role == Leader ==> Elected(c, b, r.term, r.me))
  }

  predicate Standing(b: Ballots, r: Replica) {
    (r.me, r.term) in b && b[(r.me, r.term)] == Ballot(r.me, r.log.LastTerm(), r.log.LastIdx())
  }

  predicate MessageFair(b: Ballots, from: PeerId, to: PeerId, msg: RaftMessage) {
    match msg.inner
    case VoteRequest(idx, term, _) => (from, msg.term) in b && b[(from, msg.term)] == Ballot(from, term, idx)
    case VoteResponse(granted) => granted ==> Cast(b, from, msg.term, to)
    case _ => true
  }

  predicate QueuedFair(b: Ballots, from: PeerId, m: Sendable) {
    match m.to
    case Some(to) => MessageFair(b, from, to, m.msg)
    case None => m.msg.inner.VoteRequest? && MessageFair(b, from, 0, m.msg)
  }

  ghost predicate Fair(c: Config, b: Ballots, r: Replica) {
    VoterOk(c, b, r) && forall m | m in r.outbox :: QueuedFair(b, r.me, m)
  }

  ghost predicate SystemFair(c: Config, s: System) {
    && BallotsFair(s.ballots) && (forall v, t | (v, t) in s.ballots :: v in s.replicas)
    && (forall i | i in s.replicas :: s.replicas[i].me == i && VoterOk(c, s.ballots, s.replicas[i]))
    && (forall p | p in s.net :: MessageFair(s.ballots, p.from, p.to, p.msg))
  }

  // --------------------------------------------------------- what the record does

  predicate Grows(b: Ballots, b': Ballots) {
    forall k | k in b :: k in b' && b'[k] == b[k]
  }

  lemma MessageStaysFair(b: Ballots, b': Ballots, from: PeerId, to: PeerId, msg: RaftMessage)
    requires Grows(b, b') && MessageFair(b, from, to, msg)
    ensures MessageFair(b', from, to, msg)
  {
  }

  lemma ElectedStays(c: Config, b: Ballots, b': Ballots, term: nat, i: PeerId)
    requires Grows(b, b') && Elected(c, b, term, i)
    ensures Elected(c, b', term, i)
  {
    var q :| Elects(c, b, q, term, i);
    forall v | v in q ensures Cast(b', v, term, i) { assert Cast(b, v, term, i); }
    assert Elects(c, b', q, term, i);
  }

  /** A vote of another replica changes nothing for this one. */
  lemma OtherVoterOk(c: Config, b: Ballots, b': Ballots, r: Replica, i: PeerId)
    requires VoterOk(c, b, r) && Grows(b, b') && (forall k | k in b' && k !in b :: k.0 == i) && r.me != i
    ensures VoterOk(c, b', r)
  {
    hide Elected;
    if r.role == Leader { ElectedStays(c, b, b', r.term, r.me); }
  }

  lemma OutboxStaysFair(b: Ballots, b': Ballots, me: PeerId, outbox: set<Sendable>)
    requires Grows(b, b') && forall m | m in outbox :: QueuedFair(b, me, m)
    ensures forall m | m in outbox :: QueuedFair(b', me, m)
  {
    forall m | m in outbox ensures QueuedFair(b', me, m) {
      assert QueuedFair(b, me, m);
      MessageStaysFair(b, b', me, if m.to.Some? then m.to.value else 0, m.msg);
    }
  }

  /** A first vote in a term for someone who stood, or for oneself when standing. */
  lemma RecordFair(b: Ballots, v: PeerId, t: nat, x: Ballot)
    requires BallotsFair(b) && (v, t) !in b
    requires x.candidate == v || (Cast(b, x.candidate, t, x.candidate) && AtLeast(b[(x.candidate, t)].lastTerm, b[(x.candidate, t)].lastIdx, x.lastTerm, x.lastIdx))
    ensures BallotsFair(b[(v, t) := x]) && Grows(b, b[(v, t) := x])
  {
    var b' := b[(v, t) := x];
    forall w, u | (w, u) in b' ensures FairAt(b', w, u) {
      if (w, u) != (v, t) { assert FairAt(b, w, u); }
    }
  }

  /** When `r` becomes `s`, what is on record then is fair, and so is `s`. */
  ghost predicate FairStep(c: Config, b: Ballots, r: Replica, s: Replica) {
    var b' := Recorded(b, r, s);
    Fair(c, b', s) && BallotsFair(b') && Grows(b, b') && s.me == r.me
  }

  // --------------------------------------------------------------- steps without votes

  /** No vote is cast, asked for or granted. */
  predicate NoVote(r: Replica, s: Replica) {
    && s.me == r.me && s.term == r.term && s.votedFor == r.votedFor
    && (s.role == Candidate ==> r.role == Candidate && s.votes == r.votes && s.log == r.log)
    && (s.role == Leader ==> r.role == Leader)
    && (forall m | m in s.outbox && m !in r.outbox :: m.to.Some? && !m.msg.inner.VoteRequest? && !m.msg.inner.VoteResponse?)
  }

  lemma NoVoteFair(c: Config, b: Ballots, r: Replica, s: Replica)
    requires Fair(c, b, r) && NoVote(r, s)
    ensures Fair(c, b, s)
  {
    hide Elected, Cast;
    forall m | m in s.outbox ensures QueuedFair(b, s.me, m) {
      if m in r.outbox { assert QueuedFair(b, r.me, m); }
    }
  }

  /** Only log, memberships and followers differ. */
  lemma {:induction false} PromoteFrame(r: Replica)
    ensures PromoteCommitted(r) == r.(membership := PromoteCommitted(r).membership, uncommitted := PromoteCommitted(r).uncommitted)
    decreases |r.uncommitted|
  {
    if r.uncommitted != [] && r.uncommitted[0].0 <= r.commitIdx {
      PromoteFrame(r.(membership := r.uncommitted[0].1, uncommitted := r.uncommitted[1..]));
    }
  }

  lemma {:induction false} DiscardFrame(r: Replica)
    ensures DiscardCancelled(r) == r.(uncommitted := DiscardCancelled(r).uncommitted)
    decreases |r.uncommitted|
  {
    var n := |r.uncommitted|;
    if n > 0 && r.uncommitted[n - 1].0 > r.log.LastIdx() {
      DiscardFrame(r.(uncommitted := r.uncommitted[..n - 1]));
    }
  }

  lemma SyncFrame(r: Replica)
    ensures OnlyLog(r, SyncMemberships(r)) && SyncMemberships(r).log == r.log
  {
    hide PromoteCommitted, DiscardCancelled;
    PromoteFrame(r);
    DiscardFrame(PromoteCommitted(r));
  }

  lemma LogAppendFrame(r: Replica, e: Entry)
    ensures OnlyLog(r, LogAppend(r, e).0)
  {
    hide LogState.Append;
  }

  lemma StoreEntryFrame(r: Replica, idx: nat, e: Entry)
    ensures OnlyLog(r, StoreEntry(r, idx, e).0)
  {
    hide SyncMemberships, LogAppend, NextHash, LogState.CancelFrom;
    LogAppendFrame(r, e);
    if r.log.CancelFrom(idx).Success? {
      var c := r.(log := r.log.CancelFrom(idx).value);
      SyncFrame(c);
      LogAppendFrame(SyncMemberships(c), e);
    }
  }

  lemma {:induction false} StoreFrame(r: Replica, prev: nat, entries: seq<Entry>)
    ensures OnlyLog(r, StoreEntries(r, prev, entries).0)
    decreases |entries|
  {
    hide StoreEntry;
    if entries != [] {
      StoreEntryFrame(r, prev + 1, entries[0]);
      StoreFrame(StoreEntry(r, prev + 1, entries[0]).0, prev + 1, entries[1..]);
    }
  }

  lemma AppendRequestNoVote(r: Replica, term: nat, m: Message, from: PeerId, ok: bool)
    requires m.AppendRequest?
    ensures NoVote(r, HandleAppendRequest(r, term, m, from, ok))
  {
    hide StoreEntries, SyncMemberships, PrevMatches;
    var f := FollowLeader(r, from);
    StoreFrame(f, m.prevIdx, m.entries);
    var (s, last) := StoreEntries(f, m.prevIdx, m.entries);
    SyncFrame(s.(commitIdx := Min(m.leaderCommit, last)));
  }

  lemma ClientRequestNoVote(r: Replica, p: Payload)
    requires r.role != Candidate
    ensures NoVote(r, ClientRequest(r, p).0)
  {
    hide LogAppend, NextHash;
    var e := Entry(r.term, p, Absent);
    LogAppendFrame(r, e.(hash := NextHash(r.log, e)));
  }

  lemma AdvanceNoVote(r: Replica)
    ensures NoVote(r, MaybeAdvanceCommitIndex(r))
  {
    hide SyncMemberships, NewPromise, NewCommit;
    SyncFrame(r.(promiseIdx := NewPromise(r), commitIdx := NewCommit(r)));
  }

  lemma SendAllNoVote(r: Replica)
    ensures NoVote(r, AppendEntriesToAll(r))
  {
    hide ShouldSend, TakeEntries;
  }

  lemma HandoverNoVote(r: Replica)
    ensures NoVote(r, TryToRelinquish(r))
  {
    hide Successors;
  }

  // ------------------------------------------------------------ steps with votes

  lemma TermFair(c: Config, b: Ballots, r: Replica, term: nat)
    requires Fair(c, b, r)
    ensures Fair(c, b, UpdateTerm(r, term))
  {
    hide Elected;
    var s := UpdateTerm(r, term);
    forall m | m in s.outbox ensures QueuedFair(b, s.me, m) { assert QueuedFair(b, r.me, m); }
  }

  /** A voter records a vote only for a candidate that is at least as far. */
  lemma GrantFair(c: Config, b: Ballots, r: Replica, term: nat, m: Message, from: PeerId)
    requires Fair(c, b, r) && BallotsFair(b) && m.VoteRequest? && MessageFair(b, from, r.me, RaftMessage(r.group, term, m)) && from != r.me
    ensures var s := HandleVoteRequest(r, term, m, from);
            var b' := Recorded(b, r, s);
            Fair(c, b', s) && BallotsFair(b') && Grows(b, b')
  {
    hide Elected;
    var s := HandleVoteRequest(r, term, m, from);
    var b' := Recorded(b, r, s);
    if r.votedFor.None? && s.votedFor.Some? {
      RecordFair(b, r.me, r.term, Ballot(from, r.log.LastTerm(), r.log.LastIdx()));
    }
    OutboxStaysFair(b, b', r.me, r.outbox);
    if r.role == Leader { ElectedStays(c, b, b', r.term, r.me); }
    assert VoterOk(c, b', s);
  }

  lemma StandFair(c: Config, b: Ballots, r: Replica)
    requires Fair(c, b, r) && BallotsFair(b)
    ensures var s := ElectionTimeout(r);
            var b' := Recorded(b, r, s);
            Fair(c, b', s) && BallotsFair(b') && Grows(b, b')
  {
    hide Elected;
    var s := ElectionTimeout(r);
    var b' := Recorded(b, r, s);
    if IsVoting(r) && r.role != Leader {
      RecordFair(b, r.me, r.term + 1, Ballot(r.me, r.log.LastTerm(), r.log.LastIdx()));
      OutboxStaysFair(b, b', r.me, r.outbox);
      assert VoterOk(c, b', s);
    }
  }

  lemma CountFair(c: Config, b: Ballots, r: Replica, term: nat, m: Message, from: PeerId)
    requires Fair(c, b, r) && m.VoteResponse? && (m.granted ==> Cast(b, from, term, r.me))
    ensures Fair(c, b, HandleVoteResponse(r, term, m, from))
  {
    hide Elected;
    var s := HandleVoteResponse(r, term, m, from);
    forall x | x in s.outbox ensures QueuedFair(b, s.me, x) { assert QueuedFair(b, r.me, x); }
  }

  lemma LeadFair(c: Config, b: Ballots, r: Replica, h: History)
    requires Fair(c, b, r) && Good(c, r, h)
    ensures Fair(c, b, MaybeBecomeLeader(r)) && MaybeBecomeLeader(r).votedFor == r.votedFor && MaybeBecomeLeader(r).term == r.term
    ensures MaybeBecomeLeader(r).me == r.me
  {
    hide Good, ClientRequest, Cast;
    if r.role == Candidate && |r.votes| >= MembershipQuorum(r) {
      VotesAreVoters(c, r, h);
      assert Elects(c, b, r.votes, r.term, r.me);
      var t := TakeOffice(r);
      hide Elected;
      forall m | m in t.outbox ensures QueuedFair(b, t.me, m) { assert QueuedFair(b, r.me, m); }
      ClientRequestNoVote(t, Noop);
      NoVoteFair(c, b, t, ClientRequest(t, Noop).0);
    }
  }

  lemma VotesAreVoters(c: Config, r: Replica, h: History)
    requires Good(c, r, h) && r.role == Candidate
    ensures r.votes <= c.voters && MembershipQuorum(r) == QuorumOf(c)
  {
    CurrentVoters(c, r, h);
    hide HistoryOk, OutboxOk, LogOk, MembershipOk, LogMatching, Chosen, VotesOk, ReignsOk, LeaderOk;
  }

  lemma ChangeStateFair(c: Config, b: Ballots, r: Replica, h: History, ok: bool)
    requires Fair(c, b, r) && Good(c, r, h)
    ensures var s := ChangeStateAndSend(r, ok); Fair(c, b, s) && s.votedFor == r.votedFor && s.term == r.term && s.me == r.me
  {
    hide Good, Fair, MaybeBecomeLeader, MaybeAdvanceCommitIndex, AppendEntriesToAll, TryToRelinquish;
    LeadFair(c, b, r, h);
    var a := MaybeBecomeLeader(r);
    var d := if ok then MaybeAdvanceCommitIndex(a) else a;
    AdvanceNoVote(a);
    if ok { NoVoteFair(c, b, a, d); }
    SendAllNoVote(d);
    NoVoteFair(c, b, d, AppendEntriesToAll(d));
    HandoverNoVote(AppendEntriesToAll(d));
    NoVoteFair(c, b, AppendEntriesToAll(d), TryToRelinquish(AppendEntriesToAll(d)));
  }

  lemma ResetFair(c: Config, b: Ballots, r: Replica, peer: PeerId)
    requires Fair(c, b, r) && BallotsFair(b)
    ensures FairStep(c, b, r, ResetPeer(r, peer))
  {
    hide Elected, BallotsFair;
    var s := ResetPeer(r, peer);
    QuietRecord(c, b, r, s);
    forall m | m in s.outbox ensures QueuedFair(b, s.me, m) {
      if m in r.outbox { assert QueuedFair(b, r.me, m); }
    }
  }

  lemma DispatchFair(c: Config, b: Ballots, r: Replica, msg: RaftMessage, from: PeerId, ok: bool)
    requires Fair(c, b, r) && BallotsFair(b) && MessageFair(b, from, r.me, msg) && from != r.me
    ensures FairStep(c, b, r, Dispatch(r, msg, from, ok))
  {
    hide Fair, HandleVoteRequest, HandleVoteResponse, HandleAppendRequest, HandleAppendResponse, ElectionTimeout, BallotsFair, FairAt;
    match msg.inner
    case VoteRequest(_, _, _) =>
      GrantFair(c, b, r, msg.term, msg.inner, from);
      SameVoter(r, msg, from, ok);
    case VoteResponse(_) =>
      CountFair(c, b, r, msg.term, msg.inner, from);
      SameVoter(r, msg, from, ok);
      QuietRecord(c, b, r, Dispatch(r, msg, from, ok));
    case AppendRequest(_, _, _, _, _, _) =>
      AppendRequestNoVote(r, msg.term, msg.inner, from, ok);
      NoVoteFair(c, b, r, Dispatch(r, msg, from, ok));
      QuietRecord(c, b, r, Dispatch(r, msg, from, ok));
    case AppendResponse(_, _, _, _, _) =>
      ResponseNoVote(r, msg.term, msg.inner, from);
      NoVoteFair(c, b, r, Dispatch(r, msg, from, ok));
      QuietRecord(c, b, r, Dispatch(r, msg, from, ok));
    case TimeoutNow =>
      if msg.term < r.term {
        QuietRecord(c, b, r, r);
      } else {
        StandFair(c, b, r);
        SameVoter(r, msg, from, ok);
      }
    case NotSet => QuietRecord(c, b, r, r);
  }

  lemma ResponseNoVote(r: Replica, term: nat, m: Message, from: PeerId)
    requires m.AppendResponse?
    ensures NoVote(r, HandleAppendResponse(r, term, m, from))
  {
    hide BackOff;
  }

  lemma SameVoter(r: Replica, msg: RaftMessage, from: PeerId, ok: bool)
    requires msg.inner.VoteRequest? || msg.inner.VoteResponse? || msg.inner.TimeoutNow?
    ensures Dispatch(r, msg, from, ok).me == r.me
    ensures msg.inner.VoteResponse? ==> Dispatch(r, msg, from, ok).votedFor == r.votedFor && Dispatch(r, msg, from, ok).term == r.term
  {
  }

  lemma QuietRecord(c: Config, b: Ballots, r: Replica, s: Replica)
    requires Fair(c, b, r) && s.me == r.me && s.votedFor == r.votedFor && s.term == r.term
    ensures Recorded(b, r, s) == b && Grows(b, b)
  {
  }

  /** The record of a whole step is that of the part in which the vote was cast. */
  lemma SameRecord(b: Ballots, r: Replica, u: Replica, d: Replica, t: Replica)
    requires u.log == r.log && t.votedFor == d.votedFor && t.term == d.term && t.me == d.me
    ensures Recorded(b, r, t) == Recorded(b, u, d)
  {
  }

  lemma ReceiveFair(c: Config, b: Ballots, r: Replica, h: History, msg: RaftMessage, from: PeerId, ok: bool, ok': bool)
    requires Fair(c, b, r) && BallotsFair(b) && MessageFair(b, from, r.me, msg) && from != r.me
    requires Good(c, r, h) && MessageOk(c, h, from, r.me, msg)
    ensures FairStep(c, b, r, Receive(r, msg, from, ok, ok'))
  {
    hide Good, Fair, BallotsFair, MessageOk, ValidateReceived, ChangeStateAndSend, Dispatch, MessageFair;
    if ValidateReceived(r, msg, from) != NoError {
      QuietRecord(c, b, r, r);
    } else {
      var u := UpdateTerm(r, msg.term);
      TermFair(c, b, r, msg.term);
      DispatchFair(c, b, u, msg, from, ok);
      var d := Dispatch(u, msg, from, ok);
      var h' := DispatchedGood(c, r, h, msg, from, ok);
      ChangeStateFair(c, Recorded(b, u, d), d, h', ok');
      SameRecord(b, r, u, d, ChangeStateAndSend(d, ok'));
    }
  }

  lemma DispatchedGood(c: Config, r: Replica, h: History, msg: RaftMessage, from: PeerId, ok: bool) returns (h': History)
    requires Good(c, r, h) && MessageOk(c, h, from, r.me, msg) && from != r.me && ValidateReceived(r, msg, from) == NoError
    ensures Good(c, Dispatch(UpdateTerm(r, msg.term), msg, from, ok), h')
  {
    if msg.inner.AppendResponse? { MatchInLog(r, h.full[r.me], msg, from); }
    if msg.inner.AppendRequest? { ValidatedRequest(r, msg, from); }
    hide Good, Dispatch, MessageOk, ValidateReceived;
    UpdateTermStep(c, r, h, msg.term);
    h' := DispatchStep(c, UpdateTerm(r, msg.term), h, msg, from, ok);
  }

  lemma TickFair(c: Config, b: Ballots, r: Replica, h: History, fires: bool, ok: bool)
    requires Fair(c, b, r) && BallotsFair(b) && Good(c, r, h)
    ensures FairStep(c, b, r, TimerTick(r, fires, ok))
  {
    hide Good, Fair, BallotsFair, ChangeStateAndSend, ElectionTimeout, Heartbeats;
    var t := if !fires then r else if r.role == Leader then Heartbeats(r) else ElectionTimeout(r);
    var h' := h;
    if fires && r.role != Leader {
      StandFair(c, b, r);
      h' := ElectionStep(c, r, h);
    } else {
      HeartbeatsNoVote(r);
      if fires { HeartbeatStep(c, r, h); NoVoteFair(c, b, r, t); }
      QuietRecord(c, b, r, t);
    }
    ChangeStateFair(c, Recorded(b, r, t), t, h', ok);
    SameRecord(b, r, r, t, ChangeStateAndSend(t, ok));
  }

  lemma HeartbeatsNoVote(r: Replica)
    ensures NoVote(r, Heartbeats(r))
  {
  }

  /** A client's request or a wish to step down casts no vote. */
  lemma QuietFair(c: Config, b: Ballots, r: Replica, s: Replica, h: History, ok: bool)
    requires Fair(c, b, r) && BallotsFair(b) && NoVote(r, s) && Good(c, s, h)
    ensures FairStep(c, b, r, ChangeStateAndSend(s, ok))
  {
    hide Good, Fair, BallotsFair, ChangeStateAndSend;
    NoVoteFair(c, b, r, s);
    ChangeStateFair(c, b, s, h, ok);
    QuietRecord(c, b, r, ChangeStateAndSend(s, ok));
  }

  lemma RequestFair(c: Config, b: Ballots, r: Replica, h: History, p: Payload, ok: bool)
    requires Fair(c, b, r) && BallotsFair(b) && Good(c, r, h) && SameVoters(c, p)
    ensures FairStep(c, b, r, LogRequest(r, p, ok).0)
  {
    hide Good, Fair, BallotsFair, ChangeStateAndSend, ClientRequest, CheckRequest;
    if CheckRequest(r, p) != NoError {
      QuietRecord(c, b, r, r);
    } else {
      var h' := ClientRequestStep(c, r, h, p);
      RequestNoVote(r, p);
      QuietFair(c, b, r, ClientRequest(r, p).0, h', ok);
    }
  }

  /** Only a leader logs requests. */
  lemma RequestNoVote(r: Replica, p: Payload)
    ensures NoVote(r, ClientRequest(r, p).0)
  {
    hide LogAppend;
    if r.role == Leader { ClientRequestNoVote(r, p); }
  }

  lemma StepDownFair(c: Config, b: Ballots, r: Replica, h: History, ok: bool)
    requires Fair(c, b, r) && BallotsFair(b) && Good(c, r, h)
    ensures FairStep(c, b, r, RelinquishLeadership(r, ok))
  {
    hide Good, Fair, BallotsFair, ChangeStateAndSend, ClientRequest;
    if r.role != Leader || r.relinquishing {
      QuietRecord(c, b, r, r);
    } else {
      var h' := ClientRequestStep(c, r, h, Noop);
      var s := ClientRequest(r, Noop).0;
      RequestNoVote(r, Noop);
      RelinquishingStep(c, s, h');
      QuietFair(c, b, r, s.(relinquishing := true), h', ok);
    }
  }

  // ----------------------------------------------------------------- whole systems

  lemma ActFair(c: Config, b: Ballots, r: Replica, h: History, a: Action)
    requires Fair(c, b, r) && BallotsFair(b) && Good(c, r, h) && !a.Join?
    requires a.Deliver? ==> a.packet.from != r.me && MessageFair(b, a.packet.from, r.me, a.packet.msg) && MessageOk(c, h, a.packet.from, r.me, a.packet.msg)
    requires a.Request? ==> SameVoters(c, a.payload)
    requires a.Take? ==> r.lastApplied < r.commitIdx && r.log.At(r.lastApplied + 1).Some?
    ensures FairStep(c, b, r, Act(r, a))
  {
    hide Good, Fair, BallotsFair, Receive, TimerTick, LogRequest, RelinquishLeadership, ResetPeer, MessageOk, MessageFair, FairStep;
    match a
    case Deliver(p, ok, ok') => ReceiveFair(c, b, r, h, p.msg, p.from, ok, ok');
    case Tick(_, fires, ok) => TickFair(c, b, r, h, fires, ok);
    case Request(_, p, ok) => RequestFair(c, b, r, h, p, ok);
    case Relinquish(_, ok) => StepDownFair(c, b, r, h, ok);
    case Reset(_, peer) => ResetFair(c, b, r, peer);
    case Take(_) => TakeFair(c, b, r);
  }

  lemma TakeFair(c: Config, b: Ballots, r: Replica)
    requires Fair(c, b, r) && BallotsFair(b) && r.lastApplied < r.commitIdx && r.log.At(r.lastApplied + 1).Some?
    ensures FairStep(c, b, r, TakeCommittedLog(r).0)
  {
    hide Fair, BallotsFair;
    NoVoteFair(c, b, r, TakeCommittedLog(r).0);
    QuietRecord(c, b, r, TakeCommittedLog(r).0);
  }

  /** What a fair replica sends is fair. */
  lemma PacketsFair(s: System, i: PeerId, r: Replica, b': Ballots)
    requires i in s.replicas && r.me == i && (forall m | m in r.outbox :: QueuedFair(b', i, m)) && Grows(s.ballots, b')
    requires forall p | p in s.net :: MessageFair(s.ballots, p.from, p.to, p.msg)
    ensures forall p | p in Put(s, i, r).net :: MessageFair(b', p.from, p.to, p.msg)
  {
    forall p | p in Put(s, i, r).net ensures MessageFair(b', p.from, p.to, p.msg) {
      if p in s.net {
        MessageStaysFair(s.ballots, b', p.from, p.to, p.msg);
      } else {
        var m :| m in r.outbox && (m.to.None? || m.to.value == p.to) && p == Packet(r.me, p.to, m.msg);
        assert QueuedFair(b', i, m);
      }
    }
  }

  /** What the group becomes when one of it acts. */
  lemma ActedMeans(s: System, a: Action)
    requires !a.Join? && Actor(a) in s.replicas && Actor(a) in s.taken
    requires a.Take? ==> var r := s.replicas[a.i]; r.lastApplied < r.commitIdx && r.log.At(r.lastApplied + 1).Some?
    ensures var i := Actor(a);
            var s', t := Acted(s, a), Act(s.replicas[i], a);
            && s'.replicas == s.replicas[i := Flushed(t)] && s'.ballots == Recorded(s.ballots, s.replicas[i], t)
            && s'.net == Put(s, i, t).net
  {
    hide Act, Packets;
  }

  lemma ActorFair(c: Config, s: System, h: History, a: Action)
    requires SystemOk(c, s, h) && SystemFair(c, s) && Enabled(c, s, a) && !a.Join?
    ensures FairStep(c, s.ballots, s.replicas[Actor(a)], Act(s.replicas[Actor(a)], a)) && s.replicas[Actor(a)].me == Actor(a)
  {
    hide Good, VoterOk, BallotsFair, Act, MessageOk, HistoryOk, MessageFair, FairStep;
    var r, b := s.replicas[Actor(a)], s.ballots;
    assert MemberOk(c, s, h, Actor(a));
    assert Fair(c, b, r);
    if a.Deliver? { assert PacketOk(c, h, a.packet) && MessageFair(b, a.packet.from, a.packet.to, a.packet.msg); }
    ActFair(c, b, r, h, a);
  }

  lemma MovedFair(c: Config, s: System, s': System, i: PeerId, t: Replica)
    requires SystemFair(c, s) && i in s.replicas && FairStep(c, s.ballots, s.replicas[i], t)
    requires s'.replicas == s.replicas[i := Flushed(t)] && s'.ballots == Recorded(s.ballots, s.replicas[i], t) && s'.net == Put(s, i, t).net
    ensures SystemFair(c, s')
  {
    hide VoterOk, BallotsFair, MessageFair, Packets;
    PacketsFair(s, i, t, s'.ballots);
    forall j | j in s'.replicas ensures s'.replicas[j].me == j && VoterOk(c, s'.ballots, s'.replicas[j]) {
      if j == i {
        FlushedVoter(c, s'.ballots, t);
      } else {
        OtherVoterOk(c, s.ballots, s'.ballots, s.replicas[j], i);
      }
    }
  }

  lemma FlushedVoter(c: Config, b: Ballots, r: Replica)
    requires VoterOk(c, b, r)
    ensures VoterOk(c, b, Flushed(r)) && Flushed(r).me == r.me
  {
    hide Elected;
  }

  lemma JoinFair(c: Config, s: System, i: PeerId, j: Joining)
    requires SystemFair(c, s) && CanJoin(c, s, i, j)
    ensures SystemFair(c, Enrolled(c, s, i, j))
  {
    hide BallotsFair, MessageFair, Elected;
    var s' := Enrolled(c, s, i, j);
    forall k | k in s'.replicas ensures s'.replicas[k].me == k && VoterOk(c, s'.ballots, s'.replicas[k]) {
    }
  }

  lemma InitFair(c: Config, s: System)
    requires Init(c, s)
    ensures SystemFair(c, s)
  {
    hide BaseOk, Stores, GroupAt, Elected;
    forall i | i in s.replicas ensures s.replicas[i].me == i && VoterOk(c, s.ballots, s.replicas[i]) {
      assert NewReplica(c, i, s.replicas[i]);
    }
  }

  lemma StepFair(c: Config, s: System, s': System, h: History)
    requires SystemOk(c, s, h) && SystemFair(c, s) && CanStep(c, s, s')
    ensures SystemFair(c, s')
  {
    hide SystemOk, SystemFair, CanJoin, Acted, Enrolled, Act, FairStep;
    var a :| Step(c, s, a, s');
    if a.Join? {
      JoinFair(c, s, a.i, a.how);
    } else {
      ActorFair(c, s, h, a);
      ActedMeans(s, a);
      MovedFair(c, s, s', Actor(a), Act(s.replicas[Actor(a)], a));
    }
  }

  lemma {:induction false} RunFair(c: Config, run: seq<System>, hs: seq<History>, a: nat)
    requires Run(c, run) && Explains(c, run, hs) && a < |run|
    ensures SystemFair(c, run[a])
  {
    hide Init, CanStep, SystemOk, SystemFair, Later;
    if a == 0 {
      InitFair(c, run[0]);
    } else {
      RunFair(c, run, hs, a - 1);
      assert CanStep(c, run[a - 1], run[a - 1 + 1]) && SystemOk(c, run[a - 1], hs[a - 1]);
      StepFair(c, run[a - 1], run[a], hs[a - 1]);
    }
  }

  // ---------------------------------------------------------------------- theorems

  /** In the step from moment `b` replica `v` votes for `i` in term `t`. */
  ghost predicate VotesAt(run: seq<System>, b: nat, v: PeerId, i: PeerId, t: nat) {
    && b + 1 < |run| && v in run[b].replicas && v in run[b + 1].replicas
    && var before, after := run[b].replicas[v], run[b + 1].replicas[v];
    && after.term == t && after.votedFor == Some(i) && !(before.term == t && before.votedFor.Some?)
  }

  /** A vote on record was cast at some moment, and its end is the end of the log that the
      voter had then. */
  lemma {:induction false} BallotCast(c: Config, run: seq<System>, hs: seq<History>, a: nat, v: PeerId, t: nat) returns (b: nat)
    requires Run(c, run) && Explains(c, run, hs) && a < |run| && (v, t) in run[a].ballots
    ensures b < a && VotesAt(run, b, v, run[a].ballots[(v, t)].candidate, t)
    ensures var log := run[b].replicas[v].log; run[a].ballots[(v, t)] == Ballot(run[a].ballots[(v, t)].candidate, log.LastTerm(), log.LastIdx())
  {
    hide CanStep, SystemOk, Later, VotesAt;
    assert a > 0;
    assert CanStep(c, run[a - 1], run[a - 1 + 1]);
    if (v, t) in run[a - 1].ballots {
      b := BallotCast(c, run, hs, a - 1, v, t);
      RecordStays(c, run[a - 1], run[a], v, t);
    } else {
      b := a - 1;
      RunFair(c, run, hs, b);
      RunFair(c, run, hs, b + 1);
      NewBallot(c, run, b, v, t);
    }
  }

  lemma RecordStays(c: Config, s: System, s': System, v: PeerId, t: nat)
    requires CanStep(c, s, s') && (v, t) in s.ballots
    ensures (v, t) in s'.ballots && s'.ballots[(v, t)] == s.ballots[(v, t)]
  {
    hide Act, Packets, Enabled;
    var a :| Step(c, s, a, s');
  }

  lemma NewBallot(c: Config, run: seq<System>, b: nat, v: PeerId, t: nat)
    requires b + 1 < |run| && CanStep(c, run[b], run[b + 1]) && SystemFair(c, run[b]) && SystemFair(c, run[b + 1])
    requires (v, t) !in run[b].ballots && (v, t) in run[b + 1].ballots
    ensures VotesAt(run, b, v, run[b + 1].ballots[(v, t)].candidate, t)
    ensures var log := run[b].replicas[v].log; run[b + 1].ballots[(v, t)] == Ballot(run[b + 1].ballots[(v, t)].candidate, log.LastTerm(), log.LastIdx())
  {
    hide SystemFair, CanJoin, Act, Acted;
    var s, s' := run[b], run[b + 1];
    var a :| Step(c, s, a, s');
    assert !a.Join?;
    ActedMeans(s, a);
    FairMember(c, s, Actor(a));
    FairMember(c, s', Actor(a));
  }

  lemma FairMember(c: Config, s: System, i: PeerId)
    requires SystemFair(c, s) && i in s.replicas
    ensures s.replicas[i].me == i && (s.replicas[i].votedFor.Some? ==> (i, s.replicas[i].term) in s.ballots)
  {
    assert VoterOk(c, s.ballots, s.replicas[i]);
  }

  /** `v` votes for `i` at moment `b`, when the end of its log is no further than that of
      the log `i` had at moment `stood`. */
  ghost predicate ElectsAt(run: seq<System>, b: nat, stood: nat, v: PeerId, i: PeerId, t: nat) {
    && VotesAt(run, b, v, i, t) && VotesAt(run, stood, i, i, t)
    && var x, y := run[stood].replicas[i].log, run[b].replicas[v].log;
       AtLeast(x.LastTerm(), x.LastIdx(), y.LastTerm(), y.LastIdx())
  }

  /** Whoever leads a term was elected by a quorum of voters, each of which voted at some
      moment when the end of its log was no further than that of the leader's log when the
      leader stood. */
  lemma LeadersAreUpToDate(c: Config, run: seq<System>, a: nat, i: PeerId) returns (electors: set<PeerId>, stood: nat)
    requires ConfigOk(c) && Run(c, run) && InRun(run, a, i) && run[a].replicas[i].role == Leader
    ensures electors <= c.voters && |electors| >= QuorumOf(c)
    ensures stood < a && VotesAt(run, stood, i, i, run[a].replicas[i].term)
    ensures forall v | v in electors :: exists b: nat :: b < a && ElectsAt(run, b, stood, v, i, run[a].replicas[i].term)
  {
    hide Run, SystemFair, VotesAt, Explains;
    var hs := RunExplained(c, run);
    RunFair(c, run, hs, a);
    var t, bs := run[a].replicas[i].term, run[a].ballots;
    electors := ElectorsOf(c, run[a], i);
    var some :| some in electors;
    FairOf(c, run[a], some, t);
    stood := BallotCast(c, run, hs, a, i, t);
    forall v | v in electors ensures exists b: nat :: b < a && ElectsAt(run, b, stood, v, i, t) {
      FairOf(c, run[a], v, t);
      var b := BallotCast(c, run, hs, a, v, t);
      assert ElectsAt(run, b, stood, v, i, t);
    }
  }

  lemma ElectorsOf(c: Config, s: System, i: PeerId) returns (electors: set<PeerId>)
    requires ConfigOk(c) && SystemFair(c, s) && i in s.replicas && s.replicas[i].role == Leader
    ensures electors != {} && Elects(c, s.ballots, electors, s.replicas[i].term, i)
  {
    assert VoterOk(c, s.ballots, s.replicas[i]);
    electors :| Elects(c, s.ballots, electors, s.replicas[i].term, i);
    QuorumSizeValue(|c.voters|, c.superMajority);
  }

  lemma FairOf(c: Config, s: System, v: PeerId, t: nat)
    requires SystemFair(c, s) && (v, t) in s.ballots
    ensures FairAt(s.ballots, v, t)
  {
  }
}
