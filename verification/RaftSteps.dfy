/** Each part of a replica's step keeps the replica, its messages and the
    history in good standing. */
module RaftSteps {
  import opened RaftTypes
  import opened HashChain
  import opened Quorum
  import opened GroupMembership
  import opened BoundedLog
  import opened ReplicaSpec
  import opened ReplicaInvariant
  import opened RaftSystem
  import opened RaftHistory

  lemma EvolvesSelf(c: Config, h: History, i: PeerId)
    requires HistoryOk(c, h)
    ensures Evolves(h, h, i)
  {
  }

  /** Replica `r` becomes `s` while the history grows from `h` to `h'`. */
  ghost predicate Moves(c: Config, r: Replica, h: History, s: Replica, h': History) {
    Good(c, s, h') && Evolves(h, h', r.me) && s.me == r.me && s.lastApplied == r.lastApplied
  }

  lemma MovesTrans(c: Config, r: Replica, h: History, s: Replica, h': History, t: Replica, h'': History)
    requires Moves(c, r, h, s, h') && Moves(c, s, h', t, h'')
    ensures Moves(c, r, h, t, h'')
  {
    EvolvesTrans(h, h', h'', r.me);
  }

  /** A log of changes that keep the voters leads to a group with those voters. */
  lemma {:induction false} FixedGroup(c: Config, full: seq<Entry>, n: nat)
    requires FixedLog(c, full) && n <= |full|
    ensures GroupAt(full, n, c.first).voting == c.voters
  {
    if n > 0 {
      FixedGroup(c, full, n - 1);
      assert SameVoters(c, full[n - 1].payload);
    }
  }

  lemma CurrentVoters(c: Config, r: Replica, h: History)
    requires Good(c, r, h)
    ensures Current(r).voting == c.voters && MembershipQuorum(r) == QuorumSize(|c.voters|, r.superMajority)
  {
    hide HistoryOk, OutboxOk, LogMatching, Chosen, VotesOk, ReignsOk, LeaderOk, GroupAt, ReplicaOk;
    EffectiveMembership(r, h.full[r.me], c.first);
    FixedGroup(c, h.full[r.me], |h.full[r.me]|);
  }

  /** A change of role, term or queue that needs no new history. */
  lemma QuietChange(c: Config, r: Replica, s: Replica, h: History)
    requires Good(c, r, h) && SameLog(r, s)
    requires RoleOk(s, |h.full[r.me]|) && VotesOk(s, h) && ReignsOk(s, h) && LeaderOk(s, h) && OutboxOk(c, s.me, s.outbox, h)
    ensures Good(c, s, h) && Evolves(h, h, r.me)
  {
    RoleChangeKeeps(r, s, h.full[r.me], c.first);
    EvolvesSelf(c, h, r.me);
  }

  /** Queuing one more right message. */
  lemma SendKeeps(c: Config, r: Replica, h: History, to: Option<PeerId>, m: Message)
    requires Good(c, r, h) && QueuedOk(c, h, r.me, Sendable(to, RaftMessage(r.group, r.term, m)))
    ensures Good(c, Send(r, to, m), h)
  {
    QuietChange(c, r, Send(r, to, m), h);
  }

  // -------------------------------------------------------------------- voting

  function CastVote(h: History, i: PeerId, term: nat, candidate: PeerId): History {
    h.(votes := h.votes[(i, term) := candidate])
  }

  lemma CastVoteKeeps(c: Config, h: History, i: PeerId, term: nat, candidate: PeerId)
    requires HistoryOk(c, h) && (i, term) !in h.votes
    ensures HistoryOk(c, CastVote(h, i, term, candidate))
    ensures Evolves(h, CastVote(h, i, term, candidate), i)
  {
    var h' := CastVote(h, i, term, candidate);
    forall t | t in h'.leaders ensures ReignOk(c, h', t) {
      assert ReignOk(c, h, t);
      forall k | 0 <= k < |h.leaders[t].log| ensures MatchAt(h', h.leaders[t].log, k) {
        assert MatchAt(h, h.leaders[t].log, k);
      }
    }
    BaseStays(c, h, h', i);
  }

  /** After a vote of its own a replica is still in its group. */
  lemma VoterStays(c: Config, r: Replica, s: Replica, h: History, term: nat, candidate: PeerId)
    requires Good(c, r, h) && SameLog(r, s) && (r.me, term) !in h.votes && s.outbox == r.outbox
    requires RoleOk(s, |h.full[r.me]|) && s.role != Leader && s.term == term && s.votedFor == Some(candidate)
    requires VotesOk(s, CastVote(h, r.me, term, candidate)) && ReignsOk(s, h)
    ensures Good(c, s, CastVote(h, r.me, term, candidate)) && Evolves(h, CastVote(h, r.me, term, candidate), r.me)
  {
    var h' := CastVote(h, r.me, term, candidate);
    CastVoteKeeps(c, h, r.me, term, candidate);
    RoleChangeKeeps(r, s, h.full[r.me], c.first);
    MatchingStays(h, h', r.me, h.full[r.me]);
    ChosenStays(c, h, h', r.me, h.full[r.me][..r.commitIdx]);
    OutboxStays(c, h, h', r.me, s);
  }

  lemma UpdateTermStep(c: Config, r: Replica, h: History, term: nat)
    requires Good(c, r, h)
    ensures Moves(c, r, h, UpdateTerm(r, term), h)
  {
    hide HistoryOk, OutboxOk, LogOk, MembershipOk, LogMatching, FixedLog, Chosen, Evolves;
    if term <= r.term {
      EvolvesSelf(c, h, r.me);
    } else {
      QuietChange(c, r, UpdateTerm(r, term), h);
    }
  }

  lemma ElectionStep(c: Config, r: Replica, h: History) returns (h': History)
    requires Good(c, r, h)
    ensures Moves(c, r, h, ElectionTimeout(r), h')
  {
    hide HistoryOk, OutboxOk, LogOk, MembershipOk, Evolves, VotesOk, ReignsOk, LogMatching, FixedLog;
    if !IsVoting(r) || r.role == Leader {
      h' := h;
      EvolvesSelf(c, h, r.me);
    } else {
      h' := CastVote(h, r.me, r.term + 1, r.me);
      var s := SetRole(r.(term := r.term + 1, votedFor := Some(r.me)), Candidate).(votes := {r.me});
      CandidacyStep(c, r, h, s);
      SendKeeps(c, s, h', None, VoteRequestMessage(s));
    }
  }

  lemma CandidacyStep(c: Config, r: Replica, h: History, s: Replica)
    requires Good(c, r, h) && IsVoting(r) && r.role != Leader
    requires s == SetRole(r.(term := r.term + 1, votedFor := Some(r.me)), Candidate).(votes := {r.me})
    ensures Moves(c, r, h, s, CastVote(h, r.me, r.term + 1, r.me))
  {
    hide HistoryOk, OutboxOk, LogOk, MembershipOk, Evolves;
    assert Current(s) == Current(r);
    VoterStays(c, r, s, h, r.term + 1, r.me);
  }

  lemma VoteRequestStep(c: Config, r: Replica, h: History, term: nat, m: Message, from: PeerId) returns (h': History)
    requires Good(c, r, h) && m.VoteRequest? && from != r.me
    ensures Moves(c, r, h, HandleVoteRequest(r, term, m, from), h')
  {
    h' := h;
    EvolvesSelf(c, h, r.me);
    if term <= r.term {
      var logOk := m.lastTerm > r.log.LastTerm() || (m.lastTerm == r.log.LastTerm() && m.lastIdx >= r.log.LastIdx());
      if term != r.term || !logOk || (r.votedFor.Some? && r.votedFor.value != from) {
        SendKeeps(c, r, h, Some(from), VoteResponse(false));
      } else if r.votedFor.Some? {
        SendKeeps(c, r, h, Some(from), VoteResponse(true));
      } else {
        h' := GrantStep(c, r, h, from);
      }
    }
  }

  lemma GrantStep(c: Config, r: Replica, h: History, from: PeerId) returns (h': History)
    requires Good(c, r, h) && r.votedFor.None? && from != r.me
    ensures Moves(c, r, h, Send(r.(votedFor := Some(from)), Some(from), VoteResponse(true)), h')
  {
    h' := CastVote(h, r.me, r.term, from);
    var v := r.(votedFor := Some(from));
    assert Current(v) == Current(r);
    VoterStays(c, r, v, h, r.term, from);
    SendKeeps(c, v, h', Some(from), VoteResponse(true));
  }

  lemma VoteResponseStep(c: Config, r: Replica, h: History, term: nat, m: Message, from: PeerId)
    requires Good(c, r, h) && m.VoteResponse? && (m.granted ==> Voted(h, from, term, r.me))
    ensures Moves(c, r, h, HandleVoteResponse(r, term, m, from), h)
  {
    var s := HandleVoteResponse(r, term, m, from);
    assert Current(s) == Current(r);
    QuietChange(c, r, s, h);
  }

  // --------------------------------------------------------------------- office

  /** Election safety, where it is decided: a candidate with a quorum is the
      first and only leader of its term. */
  lemma NoRival(c: Config, r: Replica, h: History)
    requires Good(c, r, h) && r.role == Candidate && |r.votes| >= MembershipQuorum(r)
    ensures r.term !in h.leaders
  {
    CurrentVoters(c, r, h);
    if r.term in h.leaders {
      assert ReignOk(c, h, r.term);
      var v := QuorumsMeet(c.voters, c.superMajority, r.votes, h.leaders[r.term].electors);
    }
  }

  function Crown(h: History, r: Replica): History
    requires r.me in h.full
  {
    h.(leaders := h.leaders[r.term := Reign(r.me, h.full[r.me], r.votes)])
  }

  lemma CrownKeeps(c: Config, r: Replica, h: History)
    requires Good(c, r, h) && r.role == Candidate && |r.votes| >= MembershipQuorum(r)
    requires r.term !in h.leaders
    ensures HistoryOk(c, Crown(h, r)) && Evolves(h, Crown(h, r), r.me)
  {
    hide OutboxOk, LogOk, MembershipOk, Chosen, LeaderOk;
    var h' := Crown(h, r);
    CurrentVoters(c, r, h);
    assert ReignsGrow(h, h', r.me);
    forall t | t in h'.leaders ensures ReignOk(c, h', t) {
      if t == r.term {
        MatchingStays(h, h', r.me, h.full[r.me]);
        assert ElectedBy(c, h', r.votes, t, r.me);
      } else {
        assert ReignOk(c, h, t);
        MatchingStays(h, h', r.me, h.leaders[t].log);
      }
    }
    BaseStays(c, h, h', r.me);
  }

  lemma TakeOfficeStep(c: Config, r: Replica, h: History) returns (h': History)
    requires Good(c, r, h) && r.role == Candidate && |r.votes| >= MembershipQuorum(r)
    ensures Moves(c, r, h, TakeOffice(r), h')
  {
    NoRival(c, r, h);
    h' := Crown(h, r);
    CrownKeeps(c, r, h);
    var s := TakeOffice(r);
    TakeOfficeKeeps(r, h.full[r.me], c.first);
    MatchingStays(h, h', r.me, h.full[r.me]);
    ChosenStays(c, h, h', r.me, h.full[r.me][..r.commitIdx]);
    OutboxStays(c, h, h', r.me, s);
    assert VotesOk(s, h') && ReignsOk(s, h') && LeaderOk(s, h');
    assert InGroup(c, s, h');
  }

  /** The leader's log and the record of its reign grow together. */
  function Extend(h: History, i: PeerId, term: nat, full: seq<Entry>): History
    requires term in h.leaders
  {
    h.(full := h.full[i := full], leaders := h.leaders[term := h.leaders[term].(log := full)])
  }

  lemma ExtendKeeps(c: Config, h: History, i: PeerId, term: nat, e: Entry)
    requires HistoryOk(c, h) && i in h.full && term in h.leaders && e.term == term && SameVoters(c, e.payload)
    requires h.leaders[term].leader == i && h.leaders[term].log == h.full[i] && h.base <= h.full[i]
    ensures var h' := Extend(h, i, term, h.full[i] + [e]);
            && HistoryOk(c, h') && Evolves(h, h', i)
            && LogMatching(h', h'.full[i]) && FixedLog(c, h'.full[i])
  {
    hide LogMatching, MatchAt, FixedLog;
    var full' := h.full[i] + [e];
    var h' := Extend(h, i, term, full');
    assert ReignsGrow(h, h', i);
    assert ReignOk(c, h, term);
    ExtendMatches(c, h, i, term, e);
    forall t | t in h'.leaders ensures ReignOk(c, h', t) {
      assert ReignOk(c, h, t);
      if t != term { MatchingStays(h, h', i, h.leaders[t].log); }
    }
    BaseStays(c, h, h', i);
  }

  lemma ExtendMatches(c: Config, h: History, i: PeerId, term: nat, e: Entry)
    requires i in h.full && term in h.leaders && e.term == term && SameVoters(c, e.payload) && h.base <= h.full[i]
    requires h.leaders[term].leader == i && h.leaders[term].log == h.full[i]
    requires LogMatching(h, h.full[i]) && FixedLog(c, h.full[i]) && ReignsGrow(h, Extend(h, i, term, h.full[i] + [e]), i)
    ensures LogMatching(Extend(h, i, term, h.full[i] + [e]), h.full[i] + [e]) && FixedLog(c, h.full[i] + [e])
  {
    hide ReignsGrow;
    var full, full' := h.full[i], h.full[i] + [e];
    var h' := Extend(h, i, term, full');
    MatchingStays(h, h', i, full);
    forall k | 0 <= k < |full'| ensures MatchAt(h', full', k) {
      if k < |full| {
        assert MatchAt(h', full, k);
        assert full'[..k + 1] == full[..k + 1];
      }
    }
  }

  lemma ClientRequestStep(c: Config, r: Replica, h: History, p: Payload) returns (h': History)
    requires Good(c, r, h) && SameVoters(c, p)
    ensures Moves(c, r, h, ClientRequest(r, p).0, h')
  {
    var full := h.full[r.me];
    CurrentVoters(c, r, h);
    var full' := ClientRequestKeeps(r, full, c.first, p);
    var s := ClientRequest(r, p).0;
    if full' == full {
      h' := h;
      EvolvesSelf(c, h, r.me);
      LogShrinks(c, r, s, h);
    } else {
      h' := Extend(h, r.me, r.term, full');
      ExtendKeeps(c, h, r.me, r.term, full'[|full|]);
      ExtendedLeader(c, r, s, h, full');
    }
  }

  /** Dropping old entries changes nothing that matters to the group. */
  lemma LogShrinks(c: Config, r: Replica, s: Replica, h: History)
    requires Good(c, r, h) && s == r.(log := s.log) && ReplicaOk(s, h.full[r.me], c.first)
    ensures Good(c, s, h)
  {
  }

  lemma ExtendedLeader(c: Config, r: Replica, s: Replica, h: History, full': seq<Entry>)
    requires Good(c, r, h) && r.role == Leader && h.full[r.me] <= full'
    requires s == r.(log := s.log, uncommitted := s.uncommitted, followers := s.followers) && OldFollowers(r, s)
    requires Evolves(h, Extend(h, r.me, r.term, full'), r.me)
    requires HistoryOk(c, Extend(h, r.me, r.term, full'))
    requires LogMatching(Extend(h, r.me, r.term, full'), full') && FixedLog(c, full')
    ensures InGroup(c, s, Extend(h, r.me, r.term, full')) && OutboxOk(c, s.me, s.outbox, Extend(h, r.me, r.term, full'))
  {
    hide ReplicaOk, HistoryOk, OutboxOk, LogMatching, FixedLog, Chosen, Evolves;
    var h' := Extend(h, r.me, r.term, full');
    OutboxStays(c, h, h', r.me, s);
    ChosenStays(c, h, h', r.me, h.full[r.me][..r.commitIdx]);
    assert full'[..r.commitIdx] == h.full[r.me][..r.commitIdx];
    forall p | p in s.followers && s.followers[p].promiseIdx > 0
      ensures Backed(h', s.followers[p].promiseIdx, p, full')
    {
      BackedStays(h, h', r.me, r.followers[p].promiseIdx, p, h.full[r.me], full');
    }
    assert VotesOk(s, h') && ReignsOk(s, h');
  }

  // ----------------------------------------------------------- commit by promise

  function Promise(h: History, i: PeerId, n: nat): History {
    h.(promise := h.promise[i := n])
  }

  lemma PromiseKeeps(c: Config, h: History, i: PeerId, n: nat)
    requires HistoryOk(c, h) && i in h.full && h.promise[i] <= n <= |h.full[i]|
    ensures HistoryOk(c, Promise(h, i, n)) && Evolves(h, Promise(h, i, n), i)
  {
    var h' := Promise(h, i, n);
    forall t | t in h'.leaders ensures ReignOk(c, h', t) {
      assert ReignOk(c, h, t);
      MatchingStays(h, h', i, h.leaders[t].log);
    }
    BaseStays(c, h, h', i);
  }

  lemma ReachedPromised(r: Replica, h: History, h': History, own: nat, n: nat)
    requires r.role == Leader && r.me in h.full && r.me in h.promise && LeaderOk(r, h)
    requires Evolves(h, h', r.me) && h' == Promise(h, r.me, own) && 0 < n <= own <= |h.full[r.me]|
    ensures forall p | p in Reached(PromisedBy(r, own), n) :: Promised(h', p, h.full[r.me][..n])
  {
    var full := h.full[r.me];
    forall p | p in Reached(PromisedBy(r, own), n) ensures Promised(h', p, full[..n]) {
      if p != r.me {
        var m := r.followers[p].promiseIdx;
        assert Backed(h, m, p, full);
        PromisedStays(h, h', r.me, p, full[..m]);
        assert full[..n] == full[..m][..n];
      }
    }
  }

  /** What the leader commits, a quorum has promised.  This does not look at the
      term of the entry. */
  lemma CommitIsChosen(c: Config, r: Replica, h: History)
    requires Good(c, r, h) && r.role == Leader
    requires r.promiseIdx <= NewPromise(r) <= |h.full[r.me]| && NewCommit(r) <= NewPromise(r)
    ensures Chosen(c, Promise(h, r.me, NewPromise(r)), h.full[r.me][..NewCommit(r)])
  {
    var own, n, full := NewPromise(r), NewCommit(r), h.full[r.me];
    var h' := Promise(h, r.me, own);
    PromiseKeeps(c, h, r.me, own);
    if n == r.commitIdx {
      ChosenStays(c, h, h', r.me, full[..n]);
    } else {
      CurrentVoters(c, r, h);
      VotersCounted(r, full, c.first, own);
      ReachedPromised(r, h, h', own, n);
      var q := Reached(PromisedBy(r, own), n);
      assert q <= c.voters;
      assert ChosenBy(c, h', q, full[..n]);
    }
  }

  lemma AdvanceStep(c: Config, r: Replica, h: History) returns (h': History)
    requires Good(c, r, h)
    ensures Moves(c, r, h, MaybeAdvanceCommitIndex(r), h')
  {
    var s := MaybeAdvanceCommitIndex(r);
    AdvanceKeeps(r, h.full[r.me], c.first);
    if r.role != Leader {
      h' := h;
      EvolvesSelf(c, h, r.me);
    } else {
      NewPromiseInLog(r, h.full[r.me], c.first);
      NewCommitPromised(r, h.full[r.me], c.first);
      h' := Promise(h, r.me, NewPromise(r));
      PromiseKeeps(c, h, r.me, NewPromise(r));
      CommitIsChosen(c, r, h);
      MatchingStays(h, h', r.me, h.full[r.me]);
      OutboxStays(c, h, h', r.me, s);
      FollowersStay(r, s, h, h');
      assert VotesOk(s, h') && ReignsOk(s, h');
    }
  }

  lemma FollowersStay(r: Replica, s: Replica, h: History, h': History)
    requires r.me in h.full && s.me == r.me && s.role == r.role && s.term == r.term && LeaderOk(r, h)
    requires Evolves(h, h', r.me) && OldFollowers(r, s)
    requires h'.full == h.full && h'.leaders == h.leaders
    ensures LeaderOk(s, h')
  {
    if r.role == Leader {
      forall p | p in s.followers && s.followers[p].promiseIdx > 0
        ensures Backed(h', s.followers[p].promiseIdx, p, h'.full[r.me])
      {
        BackedStays(h, h', r.me, r.followers[p].promiseIdx, p, h.full[r.me], h.full[r.me]);
      }
    }
  }

  // -------------------------------------------------------------------- sending

  /** `es` are the entries of `full` after index `n`. */
  predicate PieceAt(full: seq<Entry>, n: nat, es: seq<Entry>) {
    n + |es| <= |full| && es == full[n..n + |es|]
  }

  lemma PieceFront(full: seq<Entry>, n: nat, es: seq<Entry>)
    requires n < |full| && PieceAt(full, n + 1, es)
    ensures PieceAt(full, n, [full[n]] + es)
  {
  }

  lemma PieceNone(full: seq<Entry>, n: nat)
    requires n <= |full|
    ensures PieceAt(full, n, [])
  {
  }

  lemma {:induction false} TakenEntries(log: LogState, full: seq<Entry>, idx: pos, size: nat, limit: nat)
    requires Stores(log, full) && idx <= |full| + 1
    ensures PieceAt(full, idx - 1, TakeEntries(log, idx, size, limit))
    decreases |full| + 1 - idx
  {
    StoresAt(log, full, idx);
    hide Stores, PieceAt, LogState.At, LogState.LastIdx, LogState.NextIdx;
    if log.oldest <= idx <= |full| {
      var e := full[idx - 1];
      PieceNone(full, idx);
      if size + SerializedSize(e) < limit {
        TakenEntries(log, full, idx + 1, size + SerializedSize(e), limit);
        PieceFront(full, idx - 1, TakeEntries(log, idx + 1, size + SerializedSize(e), limit));
      } else {
        PieceFront(full, idx - 1, []);
      }
    } else {
      PieceNone(full, idx - 1);
    }
  }

  lemma RequestPiece(r: Replica, full: seq<Entry>, s: Replication)
    requires Stores(r.log, full) && ShouldSend(r.log, s)
    ensures var m := AppendRequestFor(r, s);
            && PieceAt(full, m.prevIdx, m.entries)
            && (m.prevIdx > 0 ==> m.prevTerm == full[m.prevIdx - 1].term)
  {
    PrevStored(r.log, full, s);
    TakenEntries(r.log, full, s.nextIdx, 0, r.chunkBytes);
    PieceNone(full, s.nextIdx - 1);
    hide TakeEntries, Stores, ShouldSend, LogState.TermAt;
  }

  lemma PrevStored(log: LogState, full: seq<Entry>, s: Replication)
    requires Stores(log, full) && ShouldSend(log, s)
    ensures s.nextIdx - 1 <= |full| && (s.nextIdx > 1 ==> log.TermAt(s.nextIdx - 1) == full[s.nextIdx - 2].term)
  {
    if s.nextIdx > 1 { StoresAt(log, full, s.nextIdx - 1); }
  }

  /** What a leader sends is a piece of its log, with a chosen commit index. */
  lemma RequestIsOk(c: Config, r: Replica, h: History, s: Replication)
    requires Good(c, r, h) && r.role == Leader && ShouldSend(r.log, s)
    ensures RequestOk(c, h, r.me, r.term, AppendRequestFor(r, s))
  {
    hide OutboxOk, VotesOk, MembershipOk, RoleOk, LogMatching, FixedLog, Chosen, EntriesOk, Chained, HistoryOk, TakeEntries;
    RequestPiece(r, h.full[r.me], s);
    var m := AppendRequestFor(r, s);
    assert m.leaderCommit <= r.commitIdx && m.leaderCommit <= m.prevIdx + |m.entries|;
    hide AppendRequestFor, ShouldSend, Stores;
    CommitChosen(c, h, h.full[r.me], r.commitIdx, m.leaderCommit);
  }

  lemma CommitChosen(c: Config, h: History, full: seq<Entry>, commit: nat, n: nat)
    requires n <= commit <= |full| && Chosen(c, h, full[..commit])
    ensures Chosen(c, h, full[..n])
  {
    ChosenPrefix(c, h, full[..commit], n);
    assert full[..commit][..n] == full[..n];
  }

  lemma SendAllStep(c: Config, r: Replica, h: History)
    requires Good(c, r, h)
    ensures Moves(c, r, h, AppendEntriesToAll(r), h)
  {
    var s := AppendEntriesToAll(r);
    SendAllKeeps(r, h.full[r.me], c.first);
    EvolvesSelf(c, h, r.me);
    FollowersStay(r, s, h, h);
    forall m | m in s.outbox ensures QueuedOk(c, h, r.me, m) {
      if m !in r.outbox {
        var p :| p in r.followers && ShouldSend(r.log, r.followers[p])
          && m == Sendable(Some(p), RaftMessage(r.group, r.term, AppendRequestFor(r, r.followers[p])));
        RequestIsOk(c, r, h, r.followers[p]);
      }
    }
    assert VotesOk(s, h) && ReignsOk(s, h);
  }

  lemma RelinquishStep(c: Config, r: Replica, h: History)
    requires Good(c, r, h)
    ensures Moves(c, r, h, TryToRelinquish(r), h)
  {
    QuietChange(c, r, TryToRelinquish(r), h);
  }

  lemma HeartbeatStep(c: Config, r: Replica, h: History)
    requires Good(c, r, h)
    ensures Moves(c, r, h, Heartbeats(r), h)
  {
    HeartbeatsKeep(r, h.full[r.me], c.first);
    FollowersStay(r, Heartbeats(r), h, h) by { EvolvesSelf(c, h, r.me); }
    QuietChange(c, r, Heartbeats(r), h);
  }

  // ----------------------------------------------------------- append responses

  lemma MatchInLog(r: Replica, full: seq<Entry>, msg: RaftMessage, from: PeerId)
    requires Stores(r.log, full) && msg.inner.AppendResponse? && ValidateReceived(r, msg, from) == NoError
    ensures msg.inner.matchIdx <= |full|
  {
    StoresLast(r.log, full);
  }

  lemma ResponseStep(c: Config, r: Replica, h: History, term: nat, m: Message, from: PeerId)
    requires Good(c, r, h) && m.AppendResponse? && ResponseOk(h, from, term, m) && m.matchIdx <= |h.full[r.me]|
    ensures Moves(c, r, h, HandleAppendResponse(r, term, m, from), h)
  {
    hide HistoryOk, OutboxOk, LogOk, MembershipOk, LogMatching, FixedLog, Chosen, Evolves, BackOff;
    var s := HandleAppendResponse(r, term, m, from);
    ResponseKeeps(r, h.full[r.me], c.first, term, m, from);
    assert LeaderOk(s, h);
    QuietChange(c, r, s, h);
  }

  // ------------------------------------------------------------ append requests

  function Rewrite(h: History, i: PeerId, full: seq<Entry>): History {
    h.(full := h.full[i := full])
  }

  lemma RewriteKeeps(c: Config, h: History, i: PeerId, full: seq<Entry>)
    requires HistoryOk(c, h) && i in h.full && h.full[i][..h.promise[i]] <= full
    ensures HistoryOk(c, Rewrite(h, i, full)) && Evolves(h, Rewrite(h, i, full), i)
  {
    var h' := Rewrite(h, i, full);
    forall t | t in h'.leaders ensures ReignOk(c, h', t) {
      assert ReignOk(c, h, t);
      MatchingStays(h, h', i, h.leaders[t].log);
    }
    BaseStays(c, h, h', i);
  }

  /** Storing an entry of the leader's log below which the two logs agree: if it
      is taken, they agree up to it. */
  lemma StoredAgrees(h: History, full: seq<Entry>, full': seq<Entry>, log: seq<Entry>, idx: pos, promise: nat, ok: bool)
    requires LogMatching(h, full) && LogMatching(h, log)
    requires idx <= |log| && idx <= |full| + 1 && full[..idx - 1] == log[..idx - 1]
    requires StoredAt(full, full', idx, log[idx - 1], promise, ok) && promise <= |full|
    ensures LogMatching(h, full') && full[..promise] <= full'
    ensures ok ==> idx <= |full'| && full'[..idx] == log[..idx]
  {
    if ok && full' != full {
      assert full' == log[..idx];
      MatchingPrefix(h, log, idx);
      assert full[..promise] == log[..idx][..promise];
    } else if ok {
      SameTermSameLog(h, full, log, idx - 1);
    } else if full' != full {
      MatchingPrefix(h, full, idx - 1);
    }
  }

  lemma FixedStored(c: Config, full: seq<Entry>, full': seq<Entry>, idx: nat, e: Entry, promise: nat, ok: bool)
    requires FixedLog(c, full) && SameVoters(c, e.payload) && StoredAt(full, full', idx, e, promise, ok)
    ensures FixedLog(c, full')
  {
  }

  /** A follower that has stored or cut entries above its promise. */
  lemma FollowerRewritten(c: Config, r: Replica, s: Replica, h: History, full: seq<Entry>)
    requires Good(c, r, h) && r.role == Follower
    requires OnlyLog(r, s)
    requires ReplicaOk(s, full, c.first) && FixedLog(c, full) && LogMatching(h, full)
    requires h.full[r.me][..r.promiseIdx] <= full
    ensures Good(c, s, Rewrite(h, r.me, full)) && Evolves(h, Rewrite(h, r.me, full), r.me)
  {
    RewriteKeeps(c, h, r.me, full);
    PrefixAgrees(h.full[r.me], full, r.promiseIdx, r.commitIdx);
    RewrittenInGroup(c, r, s, h, full);
  }

  lemma RewrittenInGroup(c: Config, r: Replica, s: Replica, h: History, full: seq<Entry>)
    requires InGroup(c, r, h) && OutboxOk(c, r.me, r.outbox, h) && r.role == Follower
    requires OnlyLog(r, s)
    requires FixedLog(c, full) && LogMatching(h, full)
    requires r.commitIdx <= |full| && full[..r.commitIdx] == h.full[r.me][..r.commitIdx]
    requires Evolves(h, Rewrite(h, r.me, full), r.me)
    ensures InGroup(c, s, Rewrite(h, r.me, full)) && OutboxOk(c, s.me, s.outbox, Rewrite(h, r.me, full))
  {
    hide FixedLog, Evolves, OutboxOk, LogMatching, Chosen;
    var h' := Rewrite(h, r.me, full);
    OutboxStays(c, h, h', r.me, s);
    EvolvesMeans(h, h', r.me);
    MatchingStays(h, h', r.me, full);
    ChosenStays(c, h, h', r.me, full[..r.commitIdx]);
  }

  lemma EvolvesMeans(h: History, h': History, i: PeerId)
    requires Evolves(h, h', i)
    ensures ReignsGrow(h, h', i)
  {
  }

  lemma FollowerFacts(c: Config, r: Replica, h: History, term: nat, k: nat)
    requires Good(c, r, h) && term in h.leaders && k < |h.leaders[term].log|
    ensures ReplicaOk(r, h.full[r.me], c.first) && LogMatching(h, h.full[r.me]) && LogMatching(h, h.leaders[term].log)
    ensures FixedLog(c, h.full[r.me]) && SameVoters(c, h.leaders[term].log[k].payload)
    ensures r.promiseIdx <= |h.full[r.me]|
  {
    assert ReignOk(c, h, term);
    hide LogMatching, OutboxOk, VotesOk, LeaderOk, Chosen, MembershipOk, RoleOk;
  }

  lemma StoredShort(full: seq<Entry>, full': seq<Entry>, idx: pos, e: Entry, promise: nat, ok: bool)
    requires StoredAt(full, full', idx, e, promise, ok)
    ensures idx - 1 <= |full'| && full'[..idx - 1] == full[..idx - 1]
  {
  }

  lemma StoreEntryStep(c: Config, r: Replica, h: History, idx: pos, term: nat) returns (h': History)
    requires Good(c, r, h) && r.role == Follower && term in h.leaders
    requires idx <= |h.leaders[term].log| && idx <= |h.full[r.me]| + 1
    requires h.full[r.me][..idx - 1] == h.leaders[term].log[..idx - 1]
    requires r.log.OldestStored() <= idx
    ensures var (s, ok) := StoreEntry(r, idx, h.leaders[term].log[idx - 1]);
            && Good(c, s, h') && Evolves(h, h', r.me) && h'.leaders == h.leaders
            && OnlyLog(r, s)
            && (ok ==> s.log.OldestStored() <= idx + 1 && idx <= |h'.full[r.me]| && h'.full[r.me][..idx] == h.leaders[term].log[..idx])
            && (!ok ==> idx - 1 <= |h'.full[r.me]| && h'.full[r.me][..idx - 1] == h.leaders[term].log[..idx - 1])
  {
    var full, log := h.full[r.me], h.leaders[term].log;
    var e := log[idx - 1];
    FollowerFacts(c, r, h, term, idx - 1);
    hide Good, Evolves, ReplicaOk, StoreEntry, StoredAt, OnlyLog, LogMatching, FixedLog, SameVoters;
    var (s, ok) := StoreEntry(r, idx, e);
    var full' := StoreEntryKeeps(r, full, c.first, idx, e);
    StoredShort(full, full', idx, e, r.promiseIdx, ok);
    StoredAgrees(h, full, full', log, idx, r.promiseIdx, ok);
    FixedStored(c, full, full', idx, e, r.promiseIdx, ok);
    FollowerRewritten(c, r, s, h, full');
    h' := Rewrite(h, r.me, full');
  }

  /** However many of the leader's entries are stored, up to the last one
      processed the follower's log is the leader's. */
  lemma {:induction false} StoreEntriesStep(c: Config, r: Replica, h: History, prev: nat, entries: seq<Entry>, term: nat)
    returns (h': History)
    requires Good(c, r, h) && r.role == Follower && term in h.leaders
    requires prev + |entries| <= |h.leaders[term].log| && prev <= |h.full[r.me]|
    requires entries == h.leaders[term].log[prev..prev + |entries|]
    requires h.full[r.me][..prev] == h.leaders[term].log[..prev]
    requires entries != [] ==> r.log.OldestStored() <= prev + 1
    ensures var (s, last) := StoreEntries(r, prev, entries);
            && Good(c, s, h') && Evolves(h, h', r.me) && h'.leaders == h.leaders
            && OnlyLog(r, s)
            && prev <= last <= prev + |entries| && last <= |h'.full[r.me]|
            && h'.full[r.me][..last] == h.leaders[term].log[..last]
    decreases |entries|
  {
    hide ReplicaOk, HistoryOk, OutboxOk, StoreEntry, Evolves, LogMatching, FixedLog, VotesOk, ReignsOk, LeaderOk;
    if entries == [] {
      h' := h;
      EvolvesSelf(c, h, r.me);
    } else {
      var log := h.leaders[term].log;
      assert entries[0] == log[prev] && entries[1..] == log[prev + 1..prev + |entries|];
      var h1 := StoreEntryStep(c, r, h, prev + 1, term);
      var (s, ok) := StoreEntry(r, prev + 1, entries[0]);
      if ok {
        h' := StoreEntriesStep(c, s, h1, prev + 1, entries[1..], term);
        EvolvesTrans(h, h1, h', r.me);
      } else {
        h' := h1;
      }
    }
  }

  /** The follower's new indexes: what it commits is a chosen piece of the
      leader's log that it holds. */
  lemma IndexesStep(c: Config, r: Replica, h: History, commit: nat, promise: nat) returns (h': History)
    requires Good(c, r, h) && r.role == Follower
    requires commit <= promise <= |h.full[r.me]| && Chosen(c, h, h.full[r.me][..commit])
    ensures var t := Advanced(r, commit, promise);
            && Good(c, t, h') && Evolves(h, h', r.me) && h'.leaders == h.leaders && h'.full == h.full
            && t == r.(commitIdx := t.commitIdx, promiseIdx := t.promiseIdx, membership := t.membership, uncommitted := t.uncommitted)
  {
    IndexesKeep(r, h.full[r.me], c.first, commit, promise);
    var t := Advanced(r, commit, promise);
    h' := Promise(h, r.me, t.promiseIdx);
    PromiseKeeps(c, h, r.me, t.promiseIdx);
    IndexesInGroup(c, r, t, h, h', t.commitIdx);
  }

  lemma IndexesInGroup(c: Config, r: Replica, t: Replica, h: History, h': History, commit: nat)
    requires InGroup(c, r, h) && OutboxOk(c, r.me, r.outbox, h) && r.role == Follower && Evolves(h, h', r.me)
    requires t == r.(commitIdx := commit, promiseIdx := t.promiseIdx, membership := t.membership, uncommitted := t.uncommitted)
    requires h' == Promise(h, r.me, t.promiseIdx)
    requires commit <= |h.full[r.me]| && Chosen(c, h, h.full[r.me][..commit])
    ensures InGroup(c, t, h') && OutboxOk(c, t.me, t.outbox, h')
  {
    MatchingStays(h, h', r.me, h.full[r.me]);
    ChosenStays(c, h, h', r.me, h.full[r.me][..commit]);
    OutboxStays(c, h, h', r.me, t);
  }

  lemma FinishAppendStep(c: Config, r: Replica, h: History, commit: nat, promise: nat, last: nat, from: PeerId, ok: bool)
    returns (h': History)
    requires Good(c, r, h) && r.role == Follower && r.term in h.leaders && from != r.me
    requires commit <= promise <= last <= |h.full[r.me]| && last <= |h.leaders[r.term].log|
    requires h.full[r.me][..last] == h.leaders[r.term].log[..last]
    requires Chosen(c, h, h.full[r.me][..commit])
    ensures Moves(c, r, h, FinishAppend(r, commit, promise, last, from, ok), h')
  {
    hide ReplicaOk, HistoryOk, OutboxOk, Evolves, VotesOk, ReignsOk, LeaderOk, Advanced, LogMatching;
    if ok || (commit <= r.commitIdx && promise <= r.promiseIdx) {
      h' := IndexesStep(c, r, h, commit, promise);
      AcceptReply(c, Advanced(r, commit, promise), h', last, from);
    } else {
      h' := h;
      EvolvesSelf(c, h, r.me);
    }
  }

  lemma AcceptedBacked(c: Config, t: Replica, h: History, last: nat)
    requires Good(c, t, h) && t.term in h.leaders
    requires last <= |h.full[t.me]| && last <= |h.leaders[t.term].log|
    requires h.full[t.me][..last] == h.leaders[t.term].log[..last]
    ensures Backed(h, Min(t.promiseIdx, last), t.me, h.leaders[t.term].log)
  {
    hide HistoryOk, OutboxOk, VotesOk, ReignsOk, LeaderOk, LogMatching, Chosen, MembershipOk, RoleOk;
    PrefixShared(h.full[t.me], h.leaders[t.term].log, last, Min(t.promiseIdx, last));
  }

  lemma PrefixShared(full: seq<Entry>, log: seq<Entry>, last: nat, n: nat)
    requires n <= last <= |full| && last <= |log| && full[..last] == log[..last]
    ensures log[..n] <= full
  {
    assert log[..n] == full[..last][..n] == full[..n];
  }

  lemma AcceptReply(c: Config, t: Replica, h: History, last: nat, from: PeerId)
    requires Good(c, t, h) && t.term in h.leaders
    requires last <= |h.full[t.me]| && last <= |h.leaders[t.term].log|
    requires h.full[t.me][..last] == h.leaders[t.term].log[..last]
    ensures Good(c, Send(t, Some(from), AppendResponse(true, last, t.log.HashAt(last), Min(t.promiseIdx, last), t.log.LastIdx())), h)
  {
    var n, log := Min(t.promiseIdx, last), h.leaders[t.term].log;
    AcceptedBacked(c, t, h, last);
    hide Good, Backed;
    SendKeeps(c, t, h, Some(from), AppendResponse(true, last, t.log.HashAt(last), n, t.log.LastIdx()));
  }

  /** The message passed validation, so its first entry is not below the log. */
  lemma ValidatedRequest(r: Replica, msg: RaftMessage, from: PeerId)
    requires msg.inner.AppendRequest? && ValidateReceived(r, msg, from) == NoError
    ensures msg.inner.entries != [] ==> r.log.OldestStored() <= msg.inner.prevIdx + 1
    ensures msg.inner.leaderCommit <= msg.inner.leaderPromise
  {
  }

  lemma FollowStep(c: Config, r: Replica, h: History, from: PeerId)
    requires Good(c, r, h) && r.role != Leader
    ensures Good(c, FollowLeader(r, from), h) && FollowLeader(r, from).role == Follower
  {
    QuietChange(c, r, FollowLeader(r, from), h);
  }

  lemma PrevAgrees(h: History, r: Replica, full: seq<Entry>, log: seq<Entry>, m: Message)
    requires Stores(r.log, full) && LogMatching(h, full) && LogMatching(h, log)
    requires m.AppendRequest? && PrevMatches(r.log, m) && m.prevIdx <= |log|
    requires m.prevIdx > 0 ==> m.prevTerm == log[m.prevIdx - 1].term
    ensures m.prevIdx <= |full| && full[..m.prevIdx] == log[..m.prevIdx]
  {
    StoresLast(r.log, full);
    if m.prevIdx > 0 {
      SameTermSameLog(h, full, log, m.prevIdx - 1);
    }
  }

  lemma AppendRequestStep(c: Config, r: Replica, h: History, term: nat, m: Message, from: PeerId, ok: bool)
    returns (h': History)
    requires Good(c, r, h) && m.AppendRequest? && RequestOk(c, h, from, term, m) && from != r.me
    requires m.entries != [] ==> r.log.OldestStored() <= m.prevIdx + 1
    requires m.leaderCommit <= m.leaderPromise
    ensures Moves(c, r, h, HandleAppendRequest(r, term, m, from, ok), h')
  {
    h' := h;
    EvolvesSelf(c, h, r.me);
    if term < r.term {
      SendKeeps(c, r, h, Some(from), AppendResponse(false, r.commitIdx, r.log.HashAt(r.commitIdx), r.promiseIdx, r.log.LastIdx()));
    } else if term == r.term && r.role != Leader {
      FollowStep(c, r, h, from);
      var f := FollowLeader(r, from);
      if PrevMatches(r.log, m) {
        h' := AcceptStep(c, f, h, m, from, ok);
      } else {
        SendKeeps(c, f, h, Some(from), AppendResponse(false, f.commitIdx, f.log.HashAt(f.commitIdx), f.promiseIdx, f.log.LastIdx()));
      }
    }
  }

  lemma AcceptFacts(c: Config, f: Replica, h: History)
    requires Good(c, f, h) && f.term in h.leaders
    ensures f.me in h.full && Stores(f.log, h.full[f.me]) && LogMatching(h, h.full[f.me]) && LogMatching(h, h.leaders[f.term].log)
  {
    hide OutboxOk, VotesOk, ReignsOk, LeaderOk, MembershipOk, RoleOk, EntriesOk, Chained, Chosen, LogMatching, Stores;
    assert ReignOk(c, h, f.term);
  }

  lemma AcceptStep(c: Config, f: Replica, h: History, m: Message, from: PeerId, ok: bool) returns (h': History)
    requires Good(c, f, h) && f.role == Follower && m.AppendRequest? && RequestOk(c, h, from, f.term, m) && from != f.me
    requires m.entries != [] ==> f.log.OldestStored() <= m.prevIdx + 1
    requires m.leaderCommit <= m.leaderPromise && PrevMatches(f.log, m)
    ensures Moves(c, f, h, AcceptAppend(f, m, from, ok), h')
  {
    hide OutboxOk, StoreEntries, Evolves, VotesOk, ReignsOk, LeaderOk, FinishAppend, PrevMatches, ReplicaOk, Chosen, LogMatching;
    var log := h.leaders[f.term].log;
    AcceptFacts(c, f, h);
    PrevAgrees(h, f, h.full[f.me], log, m);
    var h1 := StoreEntriesStep(c, f, h, m.prevIdx, m.entries, f.term);
    var (s, last) := StoreEntries(f, m.prevIdx, m.entries);
    var commit := Min(m.leaderCommit, last);
    ChosenStays(c, h, h1, f.me, log[..m.leaderCommit]);
    ChosenPrefix(c, h1, log[..m.leaderCommit], commit);
    assert log[..m.leaderCommit][..commit] == log[..last][..commit] == h1.full[f.me][..commit];
    h' := FinishAppendStep(c, s, h1, commit, Min(m.leaderPromise, last), last, from, ok);
    EvolvesTrans(h, h1, h', f.me);
  }
}
