/** What each handler of a replica does, said in terms of the replica's whole log,
    of the membership that log leads to, and of the messages themselves.  The
    invariants allow a handler to do nothing; these laws do not. */
module ReplicaLaws {
  import opened RaftTypes
  import opened HashChain
  import opened Quorum
  import opened GroupMembership
  import opened BoundedLog
  import opened ReplicaSpec
  import opened ReplicaInvariant

  /** The membership in force at the end of a log. */
  function GroupOf(full: seq<Entry>, first: Membership): Membership {
    GroupAt(full, |full|, first)
  }

  function LastTermOf(full: seq<Entry>): nat {
    if full == [] then 0 else full[|full| - 1].term
  }

  function HashOf(full: seq<Entry>, idx: nat): Hash {
    if 1 <= idx <= |full| then full[idx - 1].hash else Absent
  }

  lemma LogEnds(r: Replica, full: seq<Entry>, first: Membership)
    requires ReplicaOk(r, full, first)
    ensures r.log.LastIdx() == |full| && r.log.LastTerm() == LastTermOf(full) && r.log.HashAt(|full|) == HashOf(full, |full|)
    ensures Current(r) == GroupOf(full, first)
  {
    hide MembershipOk, RoleOk, EntriesOk, Chained;
    StoresAt(r.log, full, |full|);
    EffectiveMembership(r, full, first);
  }

  // ------------------------------------------------------- promises and commits

  /** The voters known to store a log up to `k`; the leader speaks for itself. */
  function Storing(r: Replica, full: seq<Entry>, voters: set<PeerId>, k: nat): set<PeerId> {
    set p | p in voters && if p == r.me then k <= |full| else p in r.followers && k <= r.followers[p].matchIdx
  }

  /** The voters known to have promised it, given what the leader promises. */
  function Promising(r: Replica, own: nat, voters: set<PeerId>, k: nat): set<PeerId> {
    set p | p in voters && if p == r.me then k <= own else p in r.followers && k <= r.followers[p].promiseIdx
  }

  lemma PickReaches(at: map<PeerId, nat>, q: nat, k: nat)
    requires 1 <= q <= |at|
    ensures k <= Pick(at, q) <==> |Reached(at, k)| >= q
  {
    var n := Pick(at, q);
    if k <= n {
      ReachedShrinks(at, k, n);
    } else {
      ReachedShrinks(at, n + 1, k);
    }
  }

  /** A leader promises exactly what a quorum of voters stores, its own log counted, and
      commits exactly what a quorum has promised, its new promise counted; nothing that
      was promised or committed is taken back. */
  lemma AdvanceMeans(r: Replica, full: seq<Entry>, first: Membership, k: nat)
    requires ReplicaOk(r, full, first) && r.role == Leader
    ensures var s, voters := MaybeAdvanceCommitIndex(r), GroupOf(full, first).voting;
            var quorum := QuorumSize(|voters|, r.superMajority);
            && (k <= s.promiseIdx <==> k <= r.promiseIdx || |Storing(r, full, voters, k)| >= quorum)
            && (k <= s.commitIdx <==> k <= r.commitIdx || |Promising(r, s.promiseIdx, voters, k)| >= quorum)
  {
    hide ReplicaOk, MaybeAdvanceCommitIndex, Pick;
    LogEnds(r, full, first);
    AdvanceKeeps(r, full, first);
    var own, q := NewPromise(r), MembershipQuorum(r);
    VotersCounted(r, full, first, own);
    PickReaches(StoredBy(r), q, k);
    PickReaches(PromisedBy(r, own), q, k);
    StoringIsReached(r, full, first, k);
    PromisingIsReached(r, full, first, own, k);
  }

  lemma StoringIsReached(r: Replica, full: seq<Entry>, first: Membership, k: nat)
    requires ReplicaOk(r, full, first) && r.role == Leader
    ensures Storing(r, full, Current(r).voting, k) == Reached(StoredBy(r), k)
  {
    VotersCounted(r, full, first, 0);
    StoresLast(r.log, full);
  }

  lemma PromisingIsReached(r: Replica, full: seq<Entry>, first: Membership, own: nat, k: nat)
    requires ReplicaOk(r, full, first) && r.role == Leader
    ensures Promising(r, own, Current(r).voting, k) == Reached(PromisedBy(r, own), k)
  {
    VotersCounted(r, full, first, own);
  }

  /** When either index moves every follower is due a message, and otherwise nothing
      changes at all. */
  lemma AdvanceTells(r: Replica, full: seq<Entry>, first: Membership)
    requires ReplicaOk(r, full, first) && r.role == Leader
    ensures var s := MaybeAdvanceCommitIndex(r);
            && s.followers.Keys == r.followers.Keys
            && if s.promiseIdx > r.promiseIdx || s.commitIdx > r.commitIdx
               then forall p | p in r.followers :: s.followers[p] == r.followers[p].(sendHeartbeat := true)
               else s == r
  {
    hide ReplicaOk, NewPromise, NewCommit, SyncMemberships;
    NewPromiseInLog(r, full, first);
    NewCommitPromised(r, full, first);
    if NewCommit(r) > r.commitIdx { CommitMovesUp(r, full, first, NewCommit(r), NewPromise(r)); }
  }

  // ------------------------------------------------------------------ elections

  /** A log ending at (`term`, `idx`) is at least as far as one ending at (`t`, `i`). */
  predicate AtLeast(term: nat, idx: nat, t: nat, i: nat) {
    t < term || (t == term && i <= idx)
  }

  /** A request of the voter's own term is granted exactly if no vote has gone to another
      and the candidate's log is at least as far; every request that is not of a later
      term is answered. */
  lemma VoteMeans(r: Replica, full: seq<Entry>, first: Membership, term: nat, m: Message, from: PeerId)
    requires ReplicaOk(r, full, first) && m.VoteRequest?
    ensures var s := HandleVoteRequest(r, term, m, from);
            var granted := && term == r.term && (r.votedFor == None || r.votedFor == Some(from))
                           && AtLeast(m.lastTerm, m.lastIdx, LastTermOf(full), |full|);
            s == if term > r.term then r
                 else r.(votedFor := if granted then Some(from) else r.votedFor,
                         outbox := r.outbox + {Sendable(Some(from), RaftMessage(r.group, r.term, VoteResponse(granted)))})
  {
    hide ReplicaOk;
    LogEnds(r, full, first);
  }

  /** A voter that is not leading stands in the next term, votes for itself, and asks
      everyone with the end of its log; others do nothing. */
  lemma ElectionMeans(r: Replica, full: seq<Entry>, first: Membership)
    requires ReplicaOk(r, full, first)
    ensures var s, group := ElectionTimeout(r), GroupOf(full, first);
            s == if r.me !in group.voting || r.role == Leader then r
                 else r.(term := r.term + 1, votedFor := Some(r.me), role := Candidate, knownLeader := None, votes := {r.me},
                         followers := map[], relinquishing := false,
                         outbox := r.outbox +
                           if group.all == {r.me} then {}
                           else {Sendable(None, RaftMessage(r.group, r.term + 1, VoteRequest(|full|, LastTermOf(full), HashOf(full, |full|))))})
  {
    hide ReplicaOk;
    LogEnds(r, full, first);
  }

  /** A vote counts exactly if it was granted in the candidate's term by a voter. */
  lemma VoteCounts(r: Replica, full: seq<Entry>, first: Membership, term: nat, m: Message, from: PeerId)
    requires ReplicaOk(r, full, first) && m.VoteResponse?
    ensures var s := HandleVoteResponse(r, term, m, from);
            s == r.(votes := r.votes +
                   if r.role == Candidate && term == r.term && m.granted && from in GroupOf(full, first).voting then {from} else {})
  {
    hide ReplicaOk;
    LogEnds(r, full, first);
  }

  /** A candidate leads exactly if a quorum has voted for it.  It then knows nothing of
      its followers, and logs an entry of its own term if there is room. */
  lemma LeadershipMeans(r: Replica, full: seq<Entry>, first: Membership)
    requires ReplicaOk(r, full, first)
    ensures var s, group := MaybeBecomeLeader(r), GroupOf(full, first);
            if r.role != Candidate || |r.votes| < QuorumSize(|group.voting|, r.superMajority) then s == r
            else
              && s == r.(role := Leader, knownLeader := None, votes := {}, relinquishing := false, followers := s.followers, log := s.log)
              && s.followers == (map p | p in group.all - {r.me} :: Replication(|full| + 1, 0, 0, None, false, false))
              && ReplicaOk(s, if Loggable(r, full, first, Noop) then full + [LoggedAs(r, full, Noop)] else full, first)
  {
    hide ReplicaOk, ClientRequest, QuorumSize, Loggable, LoggedAs;
    LogEnds(r, full, first);
    if r.role == Candidate && |r.votes| >= MembershipQuorum(r) {
      TakeOfficeKeeps(r, full, first);
      var t := TakeOffice(r);
      RequestLogged(t, full, first, Noop);
      SameLoggable(r, t, full, first, Noop);
    }
  }

  lemma SameLoggable(r: Replica, t: Replica, full: seq<Entry>, first: Membership, p: Payload)
    requires t.log == r.log && t.lastApplied == r.lastApplied && t.term == r.term
    ensures Loggable(t, full, first, p) == Loggable(r, full, first, p) && LoggedAs(t, full, p) == LoggedAs(r, full, p)
  {
  }

  // ------------------------------------------------------------- logging entries

  predicate Readable(p: Payload) {
    p.MembershipChange? ==> FromGroup(p.replicas).Success?
  }

  /** The entry a leader logs: its term, and the hash that continues the chain. */
  function LoggedAs(r: Replica, full: seq<Entry>, p: Payload): Entry {
    Entry(r.term, p, Next(PrevHash(full, |full|), |full| + 1, r.term, p))
  }

  /** There is a term, a readable group if any, and room for the entry once everything
      that is applied and may go has gone. */
  predicate Loggable(r: Replica, full: seq<Entry>, first: Membership, p: Payload) {
    var e := LoggedAs(r, full, p);
    && r.term >= 1 && Readable(p) && SerializedSize(e) <= INT_MAX
    && r.log.bytes + MemSize(e) <= r.log.maxBytes + TotalSize(Droppable(r.log, r.lastApplied))
  }

  lemma NextHashIs(log: LogState, full: seq<Entry>, e: Entry)
    requires Stores(log, full) && EntriesOk(full)
    ensures NextHash(log, e) == Next(PrevHash(full, |full|), |full| + 1, e.term, e.payload)
  {
    StoresLast(log, full);
    if full != [] {
      assert log.entries[|log.entries| - 1] == full[|full| - 1];
      assert EntryOk(full[|full| - 1]);
    }
  }

  /** A leader that is not stepping down logs a request exactly if it can be logged. */
  lemma RequestLogged(r: Replica, full: seq<Entry>, first: Membership, p: Payload)
    requires ReplicaOk(r, full, first)
    requires r.role == Leader ==> KeepsVote(r.me, Entry(r.term, p, Absent))
    ensures var (s, err) := ClientRequest(r, p);
            var logged := r.role == Leader && !r.relinquishing && Loggable(r, full, first, p);
            && (err == NoError <==> logged)
            && ReplicaOk(s, if logged then full + [LoggedAs(r, full, p)] else full, first)
            && s == r.(log := s.log, uncommitted := s.uncommitted, followers := s.followers)
            && (!p.MembershipChange? ==> s == r.(log := s.log))
            && (r.role != Leader || r.relinquishing ==> s == r)
  {
    hide ReplicaOk, LogAppend, Loggable, LoggedAs, OldFollowers, KeepsVote;
    if r.role == Leader && !r.relinquishing {
      LoggedEntry(r, full, first, p);
      LogAppendKeeps(r, full, first, LoggedAs(r, full, p));
      LoggedIff(r, full, first, p);
    }
  }

  lemma LoggedEntry(r: Replica, full: seq<Entry>, first: Membership, p: Payload)
    requires ReplicaOk(r, full, first) && r.role == Leader && !r.relinquishing && KeepsVote(r.me, Entry(r.term, p, Absent))
    ensures var e := LoggedAs(r, full, p);
            e.hash == NextHash(r.log, e) && e.payload == p && ClientRequest(r, p) == LogAppend(r, e) && KeepsVote(r.me, e)
  {
    LogStands(r, full, first);
    NextHashIs(r.log, full, Entry(r.term, p, Absent));
    NextHashIs(r.log, full, LoggedAs(r, full, p));
    hide ReplicaOk, LogAppend, NextHash, Next;
  }

  lemma LoggedIff(r: Replica, full: seq<Entry>, first: Membership, p: Payload)
    requires ReplicaOk(r, full, first)
    ensures LogAppend(r, LoggedAs(r, full, p)).1 == NoError <==> Loggable(r, full, first, p)
  {
    hide ReplicaOk, MemSize, SerializedSize, TotalSize, Droppable, LogAppend, LogState.Append, LoggedAs, Readable, Stores, EntriesOk;
    LogStands(r, full, first);
    LoggedHashed(r, full, p);
    LogAppendMeans(r, LoggedAs(r, full, p));
    AppendExactly(r.log, LoggedAs(r, full, p), r.lastApplied);
  }

  lemma LoggedHashed(r: Replica, full: seq<Entry>, p: Payload)
    ensures var e := LoggedAs(r, full, p); e.term == r.term && e.payload == p && e.hash != Absent
  {
  }

  lemma LogStands(r: Replica, full: seq<Entry>, first: Membership)
    requires ReplicaOk(r, full, first)
    ensures Stores(r.log, full) && EntriesOk(full) && r.log.Bounded()
  {
  }

  lemma LogAppendMeans(r: Replica, e: Entry)
    ensures LogAppend(r, e).1 == NoError <==> Readable(e.payload) && r.log.Append(e, r.lastApplied).1 == NoError
    ensures LogAppend(r, e).1 == NoError ==>
              LogAppend(r, e).0.log == r.log.Append(e, r.lastApplied).0 && LogAppend(r, e).0.lastApplied == r.lastApplied
  {
    hide LogState.Append;
  }

  /** A change of the group is taken up exactly if the replica leads and is not stepping
      down, no other change is under way, the group can be read, and the step from the
      group in force is one a leader may make. */
  lemma ChangeAccepted(r: Replica, full: seq<Entry>, first: Membership, p: Payload)
    requires ReplicaOk(r, full, first)
    ensures CheckRequest(r, p) == NoError <==>
              (p.MembershipChange? ==>
                 && r.role == Leader && !r.relinquishing && NoChange(full[r.commitIdx..]) && FromGroup(p.replicas).Success?
                 && LeaderMayStep(r.me, GroupOf(full, first), FromGroup(p.replicas).value, r.superMajority))
  {
    hide Chained, Stores, RoleOk, FromGroup, GroupAt, ValidProgressionForLeader, LeaderMayStep;
    EffectiveMembership(r, full, first);
    NoneTrackedAfter(full, r.commitIdx);
    if p.MembershipChange? && FromGroup(p.replicas).Success? {
      GroupSize(p.replicas);
      var to := FromGroup(p.replicas).value;
      SubsetSize(to.voting, to.all) by { GroupHasVoters(p.replicas); }
      StepAllowed(r.me, r.membership, to, r.superMajority);
    }
  }

  /** A leader that logs a change of the group follows exactly the other members of the new
      group: what it knows of those it had it keeps, and those that are new are to be probed
      from the end of the log at once. */
  lemma ChangeLogged(r: Replica, full: seq<Entry>, first: Membership, p: Payload)
    requires ReplicaOk(r, full, first) && r.role == Leader && !r.relinquishing && p.MembershipChange?
    requires KeepsVote(r.me, Entry(r.term, p, Absent)) && Loggable(r, full, first, p)
    ensures var s, group := ClientRequest(r, p).0, FromGroup(p.replicas).value;
            && GroupOf(full + [LoggedAs(r, full, p)], first) == group
            && s.followers == map q | q in group.all - {r.me} ::
                 if q in r.followers then r.followers[q] else Replication(|full| + 2, 0, 0, None, true, true)
  {
    hide ReplicaOk, LogState.Append, FromGroup, LogState.LastIdx;
    LoggedEntry(r, full, first, p);
    RequestLogged(r, full, first, p);
    LogAppendMeans(r, LoggedAs(r, full, p));
    var s, full' := ClientRequest(r, p).0, full + [LoggedAs(r, full, p)];
    LogEnds(s, full', first);
  }

  lemma GroupHasVoters(g: Group)
    requires FromGroup(g).Success?
    ensures FromGroup(g).value.voting <= FromGroup(g).value.all
  {
    GroupSize(g);
  }

  lemma {:induction false} NoneTrackedAfter(full: seq<Entry>, from: nat)
    requires EntriesOk(full) && from <= |full|
    ensures MembershipsAfter(full, from) == [] <==> NoChange(full[from..])
  {
    if from < |full| {
      var n := |full| - 1;
      NoneTrackedAfter(full[..n], from);
      assert full[from..] == full[..n][from..] + [full[n]];
      if NoChange(full[from..]) {
        assert full[from..][n - from] == full[n];
        assert forall i | 0 <= i < |full[..n][from..]| :: full[..n][from..][i] == full[from..][i];
      }
      if MembershipsAfter(full, from) == [] {
        forall i | 0 <= i < |full[from..]| ensures !full[from..][i].payload.MembershipChange? {
          if i < n - from { assert full[..n][from..][i] == full[from..][i]; }
        }
      }
    }
  }

  /** A later term makes a follower without a vote or a leader; no other changes anything. */
  lemma TermMeans(r: Replica, term: nat)
    ensures UpdateTerm(r, term) ==
            if term <= r.term then r
            else Replica(r.group, r.me, r.superMajority, r.chunkBytes, r.membership, r.uncommitted, term, None, Follower, None, {},
                         map[], false, r.log, r.lastApplied, r.commitIdx, r.promiseIdx, r.outbox)
  {
  }

  // ------------------------------------------------------------ sending requests

  function SerializedTotal(es: seq<Entry>): nat {
    if es == [] then 0 else SerializedTotal(es[..|es| - 1]) + SerializedSize(es[|es| - 1])
  }

  lemma {:induction false} SerializedFront(e: Entry, es: seq<Entry>)
    ensures SerializedTotal([e] + es) == SerializedSize(e) + SerializedTotal(es)
  {
    if es == [] {
      assert [e] + es == [e] && [e][..0] == [];
    } else {
      var n := |es| - 1;
      SerializedFront(e, es[..n]);
      assert ([e] + es)[..n + 1] == [e] + es[..n];
    }
  }

  /** A chunk: entries of the log from an index on, at least one if there is one, and
      no more than it takes to fill the chunk or to reach the end. */
  ghost predicate IsChunk(full: seq<Entry>, from: nat, es: seq<Entry>, size: nat, limit: nat) {
    && from + |es| <= |full| && es == full[from..from + |es|]
    && (from < |full| ==> es != [])
    && (from + |es| == |full| || size + SerializedTotal(es) >= limit)
    && (|es| > 1 ==> size + SerializedTotal(es[..|es| - 1]) < limit)
  }

  lemma {:induction false} ChunkTaken(log: LogState, full: seq<Entry>, idx: pos, size: nat, limit: nat)
    requires Stores(log, full) && log.oldest <= idx <= |full| + 1
    ensures IsChunk(full, idx - 1, TakeEntries(log, idx, size, limit), size, limit)
    decreases |full| + 1 - idx
  {
    hide Stores, IsChunk, SerializedSize, TakeEntries;
    TakeStep(log, full, idx, size, limit);
    if idx <= |full| {
      var e := full[idx - 1];
      if size + SerializedSize(e) < limit {
        ChunkTaken(log, full, idx + 1, size + SerializedSize(e), limit);
        ChunkGrows(full, idx - 1, TakeEntries(log, idx + 1, size + SerializedSize(e), limit), size, limit);
      } else {
        ChunkOfOne(full, idx - 1, size, limit);
      }
    } else {
      ChunkOfNone(full, idx - 1, size, limit);
    }
  }

  lemma TakeStep(log: LogState, full: seq<Entry>, idx: pos, size: nat, limit: nat)
    requires Stores(log, full) && log.oldest <= idx <= |full| + 1
    ensures TakeEntries(log, idx, size, limit) ==
            if idx > |full| then []
            else if size + SerializedSize(full[idx - 1]) >= limit then [full[idx - 1]]
            else [full[idx - 1]] + TakeEntries(log, idx + 1, size + SerializedSize(full[idx - 1]), limit)
  {
    StoresAt(log, full, idx);
    hide Stores, LogState.At, SerializedSize;
  }

  lemma ChunkOfNone(full: seq<Entry>, from: nat, size: nat, limit: nat)
    requires from == |full|
    ensures IsChunk(full, from, [], size, limit)
  {
  }

  lemma ChunkOfOne(full: seq<Entry>, from: nat, size: nat, limit: nat)
    requires from < |full| && size + SerializedSize(full[from]) >= limit
    ensures IsChunk(full, from, [full[from]], size, limit)
  {
    SerializedFront(full[from], []);
    assert [full[from]] + [] == [full[from]];
  }

  lemma ChunkGrows(full: seq<Entry>, from: nat, es: seq<Entry>, size: nat, limit: nat)
    requires from < |full| && size + SerializedSize(full[from]) < limit
    requires IsChunk(full, from + 1, es, size + SerializedSize(full[from]), limit)
    ensures IsChunk(full, from, [full[from]] + es, size, limit)
  {
    hide SerializedSize;
    var e := full[from];
    SerializedFront(e, es);
    if es != [] {
      var n := |es| - 1;
      SerializedFront(e, es[..n]);
      assert ([e] + es)[..n + 1] == [e] + es[..n];
      if |es| == 1 { assert es[..n] == []; }
    }
    assert [e] + es == full[from..from + 1 + |es|];
  }

  /** What a leader sends: the entry before the next one, a chunk of the log from there on
      unless it is probing, and its indexes as far as what is sent goes. */
  lemma RequestMeans(r: Replica, full: seq<Entry>, first: Membership, f: Replication)
    requires ReplicaOk(r, full, first) && f.nextIdx <= |full| + 1 && (f.nextIdx == 1 || r.log.oldest < f.nextIdx) && r.log.oldest <= f.nextIdx
    ensures var m := AppendRequestFor(r, f);
            var last := m.prevIdx + |m.entries|;
            && m.prevIdx == f.nextIdx - 1 && m.prevTerm == LastTermOf(full[..m.prevIdx]) && m.prevHash == HashOf(full, m.prevIdx)
            && (f.sendProbe ==> m.entries == []) && (!f.sendProbe ==> IsChunk(full, m.prevIdx, m.entries, 0, r.chunkBytes))
            && m.leaderCommit == Min(r.commitIdx, last) && m.leaderPromise == Min(r.promiseIdx, last)
  {
    hide MembershipOk, RoleOk, EntriesOk, Chained, TakeEntries, IsChunk;
    ChunkTaken(r.log, full, f.nextIdx, 0, r.chunkBytes);
    StoresAt(r.log, full, f.nextIdx - 1);
  }

  /** A follower is due a request exactly if none is under way, there is something to
      send or to tell, and the entry before the next one is still stored. */
  predicate IsDue(r: Replica, full: seq<Entry>, p: PeerId) {
    && p in r.followers
    && var f := r.followers[p];
    && f.inflight == None && (f.nextIdx <= |full| || f.sendHeartbeat || f.sendProbe)
    && (f.nextIdx == 1 || (r.log.oldest < f.nextIdx && f.nextIdx <= |full| + 1))
  }

  /** Every follower that is due a request is sent one and the others none. */
  lemma SendingMeans(r: Replica, full: seq<Entry>, first: Membership)
    requires ReplicaOk(r, full, first) && r.role == Leader
    ensures var s := AppendEntriesToAll(r);
            && s == r.(followers := s.followers, outbox := s.outbox) && s.followers.Keys == r.followers.Keys
            && (forall p | p in r.followers ::
                  s.followers[p] == if IsDue(r, full, p)
                    then r.followers[p].(sendHeartbeat := false, inflight := Some(LastSent(AppendRequestFor(r, r.followers[p]))))
                    else r.followers[p])
            && s.outbox == r.outbox + set p | p in r.followers && IsDue(r, full, p) ::
                             Sendable(Some(p), RaftMessage(r.group, r.term, AppendRequestFor(r, r.followers[p])))
  {
    hide ReplicaOk, AppendRequestFor, IsDue, ShouldSend;
    DueSet(r, full, first);
    var due := set p | p in Current(r).all && p != r.me && p in r.followers && ShouldSend(r.log, r.followers[p]);
    assert (set p | p in due :: Sendable(Some(p), RaftMessage(r.group, r.term, AppendRequestFor(r, r.followers[p]))))
      == set p | p in r.followers && IsDue(r, full, p) :: Sendable(Some(p), RaftMessage(r.group, r.term, AppendRequestFor(r, r.followers[p])));
  }

  lemma DueSet(r: Replica, full: seq<Entry>, first: Membership)
    requires ReplicaOk(r, full, first) && r.role == Leader
    ensures (set p | p in Current(r).all && p != r.me && p in r.followers && ShouldSend(r.log, r.followers[p]))
      == set p | p in r.followers && IsDue(r, full, p)
  {
    hide LogOk, MembershipOk, IsDue, ShouldSend;
    forall p | p in r.followers ensures ShouldSend(r.log, r.followers[p]) <==> IsDue(r, full, p) {
      DueMeans(r, full, first, p);
    }
  }

  function LastSent(m: Message): nat
    requires m.AppendRequest?
  {
    m.prevIdx + |m.entries|
  }

  lemma DueMeans(r: Replica, full: seq<Entry>, first: Membership, p: PeerId)
    requires ReplicaOk(r, full, first) && p in r.followers
    ensures ShouldSend(r.log, r.followers[p]) <==> IsDue(r, full, p)
  {
    hide MembershipOk, RoleOk, Chained;
    var f := r.followers[p];
    StoresAt(r.log, full, f.nextIdx - 1);
    if r.log.oldest <= f.nextIdx - 1 <= |full| { assert EntryOk(full[f.nextIdx - 2]); }
  }

  // ----------------------------------------------------------------- responses

  /** Where a leader goes on after a rejection: back from `next`, by as many entries as a
      chunk holds, but not to one that is matched. */
  ghost predicate BacksOff(log: LogState, next: nat, matchIdx: nat, chunk: nat, n: nat) {
    && 1 <= n <= next && (next > matchIdx ==> n > matchIdx)
    && SkippedSize(log, n, next) <= chunk
    && (n - 1 <= matchIdx || SkippedSize(log, n, next) + SizeAt(log, n) > chunk)
  }

  function SizeAt(log: LogState, idx: nat): nat {
    match log.At(idx) case None => 0 case Some(e) => SerializedSize(e)
  }

  /** The entries above `low` up to `high`. */
  function SkippedSize(log: LogState, low: nat, high: nat): nat {
    if high <= low then 0 else SizeAt(log, high) + SkippedSize(log, low, high - 1)
  }

  lemma {:induction false} BackOffMeans(log: LogState, next: pos, matchIdx: nat, chunk: nat)
    ensures BacksOff(log, next, matchIdx, chunk, BackOff(log, next, matchIdx, chunk))
    decreases next
  {
    if next - 1 > matchIdx && SizeAt(log, next) <= chunk {
      BackOffMeans(log, next - 1, matchIdx, chunk - SizeAt(log, next));
    }
  }

  /** What a leader learns from a response of its own term: after a success, how much the
      follower stores and has promised; after a rejection, where to probe next.  Nothing
      else changes, and no other response changes anything. */
  lemma ResponseMeans(r: Replica, term: nat, m: Message, from: PeerId)
    requires m.AppendResponse?
    ensures var s := HandleAppendResponse(r, term, m, from);
            if term != r.term || r.role != Leader || from !in r.followers then s == r
            else
              && s == r.(followers := s.followers) && s.followers == r.followers[from := s.followers[from]]
              && var f, g := r.followers[from], s.followers[from];
              if m.success then
                && g.matchIdx == Max(f.matchIdx, m.matchIdx) && g.promiseIdx == Max(f.promiseIdx, m.promiseIdx)
                && g.nextIdx == Max(f.nextIdx, m.matchIdx + 1) && !g.sendProbe && g.sendHeartbeat == f.sendHeartbeat
                && (g.inflight == None <==> f.inflight == None || f.inflight.value <= m.matchIdx)
                && (g.inflight != None ==> g.inflight == f.inflight)
              else
                && g == f.(nextIdx := g.nextIdx, sendProbe := true, inflight := None)
                && BacksOff(r.log, Max(m.matchIdx + 1, Min(f.nextIdx - 1, m.lastIdx + 1)), m.matchIdx, r.chunkBytes, g.nextIdx)
  {
    hide BackOff, BacksOff;
    if from in r.followers {
      BackOffMeans(r.log, Max(m.matchIdx + 1, Min(r.followers[from].nextIdx - 1, m.lastIdx + 1)), m.matchIdx, r.chunkBytes);
    }
  }

  // --------------------------------------------------------------- stepping down

  /** A leader that is stepping down hands over as soon as another voter stores its whole
      log, to the first such voter. */
  lemma HandoverMeans(r: Replica, full: seq<Entry>, first: Membership)
    requires ReplicaOk(r, full, first)
    ensures var s := TryToRelinquish(r);
            var ready := set p | p in GroupOf(full, first).voting && p in r.followers && r.followers[p].matchIdx == |full|;
            if r.role != Leader || !r.relinquishing || ready == {} then s == r
            else
              && IsLeast(ready, Least(ready))
              && s == r.(role := Follower, knownLeader := None, votes := {}, followers := map[], relinquishing := false,
                         outbox := r.outbox + {Sendable(Some(Least(ready)), RaftMessage(r.group, r.term, TimeoutNow))})
  {
    hide ReplicaOk, GroupOf, Current;
    LogEnds(r, full, first);
    if r.role == Leader {
      LeaderIsNoFollower(r, full, first);
      var ready := set p | p in GroupOf(full, first).voting && p in r.followers && r.followers[p].matchIdx == |full|;
      assert ready == Successors(r);
      if ready != {} { assert Least(ready) == Least(Successors(r)); }
    }
  }

  /** A peer that has lost its messages is asked again for its vote, or probed from the
      end of the log. */
  lemma ResetMeans(r: Replica, full: seq<Entry>, first: Membership, id: PeerId)
    requires ReplicaOk(r, full, first)
    ensures var s := ResetPeer(r, id);
            s == if id in GroupOf(full, first).all && r.role == Candidate then
                   r.(outbox := r.outbox + {Sendable(Some(id), RaftMessage(r.group, r.term, VoteRequest(|full|, LastTermOf(full), HashOf(full, |full|))))})
                 else if id in GroupOf(full, first).all && r.role == Leader && id in r.followers then
                   r.(followers := r.followers[id := r.followers[id].(nextIdx := |full| + 1, sendProbe := true, sendHeartbeat := true, inflight := None)])
                 else r
  {
    hide ReplicaOk;
    LogEnds(r, full, first);
  }

  // ------------------------------------------------------------------ validation

  /** What a message says about an index agrees with the log: it is nothing, or not dropped
      and, where the log has an entry, one of an earlier term, of a later term above the
      promise, or of the same term and hash. */
  predicate Agrees(r: Replica, full: seq<Entry>, idx: nat, term: nat, hash: Hash, mayBeNew: bool) {
    idx == 0 || (
      && r.log.OldestStored() <= idx
      && if idx > |full| then mayBeNew
         else
           var e := full[idx - 1];
           || (0 < term < e.term)
           || (e.term < term && r.promiseIdx < idx)
           || ((term == 0 || term == e.term) && hash == e.hash))
  }

  lemma AgreesMeans(r: Replica, full: seq<Entry>, first: Membership, idx: nat, term: nat, hash: Hash, mayBeNew: bool)
    requires ReplicaOk(r, full, first)
    ensures CheckLogHash(r, idx, term, hash, mayBeNew) == NoError <==> Agrees(r, full, idx, term, hash, mayBeNew)
  {
    hide MembershipOk, RoleOk, Chained;
    StoresAt(r.log, full, idx);
    if 1 <= idx <= |full| { assert EntryOk(full[idx - 1]); }
  }

  ghost predicate EntriesAgree(r: Replica, full: seq<Entry>, prev: nat, entries: seq<Entry>) {
    forall k {:trigger entries[k]} | 0 <= k < |entries| :: Agrees(r, full, prev + k + 1, entries[k].term, entries[k].hash, true)
  }

  lemma {:induction false} EntriesAgreeMeans(r: Replica, full: seq<Entry>, first: Membership, prev: nat, entries: seq<Entry>)
    requires ReplicaOk(r, full, first)
    ensures CheckEntries(r, prev, entries) == NoError <==> EntriesAgree(r, full, prev, entries)
    decreases |entries|
  {
    hide ReplicaOk, Agrees, CheckLogHash;
    if entries != [] {
      AgreesMeans(r, full, first, prev + 1, entries[0].term, entries[0].hash, true);
      EntriesAgreeMeans(r, full, first, prev + 1, entries[1..]);
      assert entries == [entries[0]] + entries[1..];
      if EntriesAgree(r, full, prev, entries) {
        forall k | 0 <= k < |entries[1..]| ensures Agrees(r, full, prev + 1 + k + 1, entries[1..][k].term, entries[1..][k].hash, true) {
          assert entries[1..][k] == entries[k + 1];
        }
      }
      if CheckEntries(r, prev, entries) == NoError {
        forall k | 0 <= k < |entries| ensures Agrees(r, full, prev + k + 1, entries[k].term, entries[k].hash, true) {
          if k > 0 { assert entries[k] == entries[1..][k - 1]; }
        }
      }
    }
  }

  /** Which messages are let in. */
  ghost predicate Admissible(r: Replica, full: seq<Entry>, first: Membership, msg: RaftMessage, from: PeerId) {
    && msg.group == r.group && from in GroupOf(full, first).all && !msg.inner.NotSet?
    && match msg.inner
       case VoteRequest(idx, term, hash) => Agrees(r, full, idx, term, hash, true)
       case AppendRequest(prev, term, hash, entries, commit, promise) =>
         && Agrees(r, full, prev, term, hash, true) && EntriesAgree(r, full, prev, entries)
         && commit <= promise <= prev + |entries|
       case AppendResponse(_, idx, hash, promise, last) =>
         Agrees(r, full, idx, 0, hash, false) && idx <= last && promise <= last
       case _ => true
  }

  lemma AdmissibleMeans(r: Replica, full: seq<Entry>, first: Membership, msg: RaftMessage, from: PeerId)
    requires ReplicaOk(r, full, first)
    ensures ValidateReceived(r, msg, from) == NoError <==> Admissible(r, full, first, msg, from)
  {
    hide ReplicaOk, Agrees, CheckLogHash, EntriesAgree, CheckEntries;
    LogEnds(r, full, first);
    match msg.inner
    case VoteRequest(idx, term, hash) => AgreesMeans(r, full, first, idx, term, hash, true);
    case AppendRequest(prev, term, hash, entries, _, _) =>
      AgreesMeans(r, full, first, prev, term, hash, true);
      EntriesAgreeMeans(r, full, first, prev, entries);
    case AppendResponse(_, idx, hash, _, _) => AgreesMeans(r, full, first, idx, 0, hash, false);
    case _ =>
  }
}
