/** What an append request does to a follower, exactly: which of its entries are
    stored, what happens to the rest of the log, how far the indexes move, and what
    is answered. */
module AppendLaws {
  import opened RaftTypes
  import opened HashChain
  import opened Quorum
  import opened GroupMembership
  import opened BoundedLog
  import opened ReplicaSpec
  import opened ReplicaInvariant
  import opened ReplicaLaws

  /** The first `d` entries are at their indexes in the log already. */
  predicate Shared(full: seq<Entry>, prev: nat, entries: seq<Entry>, d: nat) {
    d <= |entries| && prev + d <= |full| && forall k | 0 <= k < d :: full[prev + k].term == entries[k].term
  }

  /** And no more than `d`. */
  predicate SharedExactly(full: seq<Entry>, prev: nat, entries: seq<Entry>, d: nat) {
    Shared(full, prev, entries, d) && !Shared(full, prev, entries, d + 1)
  }

  /** The first `n` of `es` can be appended to a replica that holds `base`: they continue
      the chain, have terms and readable groups, and there is room for them once
      everything that is applied and may go has gone. */
  ghost predicate Appendable(r: Replica, base: seq<Entry>, es: seq<Entry>, n: nat) {
    && n <= |es| && Chained(base + es[..n])
    && (forall k | 0 <= k < n :: WellFormed(es[k]))
    && r.log.bytes + TotalSize(es[..n]) <= r.log.maxBytes + TotalSize(Droppable(r.log, r.lastApplied))
  }

  predicate WellFormed(e: Entry) {
    e.term >= 1 && Readable(e.payload) && SerializedSize(e) <= INT_MAX
  }

  ghost predicate AppendableExactly(r: Replica, base: seq<Entry>, es: seq<Entry>, n: nat) {
    n <= |es| && Appendable(r, base, es, n) && !Appendable(r, base, es, n + 1)
  }

  /** What becomes of the log `full` when `entries` after index `prev` are stored up to
      index `last`.  Entries it has are kept.  At the first it does not have, the log is cut
      unless what it has there is promised, and as many of the rest are appended as can be. */
  ghost predicate StoredUpTo(r: Replica, full: seq<Entry>, prev: nat, entries: seq<Entry>, full': seq<Entry>, last: nat) {
    exists d: nat, n: nat :: StoredAs(r, full, prev, entries, full', last, d, n)
  }

  ghost predicate StoredAs(r: Replica, full: seq<Entry>, prev: nat, entries: seq<Entry>, full': seq<Entry>, last: nat, d: nat, n: nat) {
    && SharedExactly(full, prev, entries, d) && last == prev + d + n
    && if d == |entries| || (prev + d < |full| && prev + d < r.promiseIdx) then n == 0 && full' == full
       else AppendableExactly(r, full[..prev + d], entries[d..], n) && full' == full[..prev + d] + entries[d..d + n]
  }

  // -------------------------------------------------------------------- appending

  lemma ChainLink(base: seq<Entry>, e: Entry)
    requires Chained(base)
    ensures Chained(base + [e]) <==> e.hash == Next(PrevHash(base, |base|), |base| + 1, e.term, e.payload)
  {
    if e.hash == Next(PrevHash(base, |base|), |base| + 1, e.term, e.payload) {
      forall k | 0 <= k < |base| + 1 ensures ChainedAt(base + [e], k) {
        if k < |base| { assert ChainedAt(base, k); }
      }
    }
    if Chained(base + [e]) { assert ChainedAt(base + [e], |base|); }
  }

  lemma ChainPrefix(full: seq<Entry>, n: nat)
    requires Chained(full) && n <= |full|
    ensures Chained(full[..n])
  {
    forall k | 0 <= k < n ensures ChainedAt(full[..n], k) {
      assert ChainedAt(full, k);
    }
  }

  /** One entry more: it is appended exactly if it is well formed, continues the chain and
      there is room. */
  lemma AppendOne(r: Replica, base: seq<Entry>, first: Membership, e: Entry)
    requires ReplicaOk(r, base, first) && r.role == Follower
    ensures var (s, ok) := AppendIfNext(r, |base| + 1, e);
            && (ok <==> Appendable(r, base, [e], 1))
            && ReplicaOk(s, if ok then base + [e] else base, first) && OnlyLog(r, s)
            && (ok ==> RoomLeft(s) + MemSize(e) == RoomLeft(r))
  {
    AppendNextKeeps(r, base, first, e);
    AppendOneMeans(r, base, first, e);
  }

  /** Room for entries once everything that may go has gone. */
  function RoomLeft(r: Replica): int {
    r.log.maxBytes + TotalSize(Droppable(r.log, r.lastApplied)) - r.log.bytes
  }

  lemma SizeOfOne(e: Entry)
    ensures TotalSize([e]) == MemSize(e) && [e][..1] == [e]
  {
    assert [e][1..] == [];
  }

  lemma AppendOneMeans(r: Replica, base: seq<Entry>, first: Membership, e: Entry)
    requires ReplicaOk(r, base, first)
    ensures var (s, ok) := AppendIfNext(r, |base| + 1, e);
            && (ok <==> Appendable(r, base, [e], 1))
            && (ok ==> RoomLeft(s) + MemSize(e) == RoomLeft(r))
  {
    hide MembershipOk, RoleOk, MemSize, SerializedSize, TotalSize, Droppable;
    StoresLast(r.log, base);
    NextHashIs(r.log, base, e);
    ChainLink(base, e);
    SizeOfOne(e);
    AppendExactly(r.log, e, r.lastApplied);
    LogAppendMeans(r, e);
    if r.log.Append(e, r.lastApplied).1 == NoError { AppendAdds(r.log, base, e, r.lastApplied); }
    hide Stores, Chained, EntriesOk, LogState.Append, LogAppend, NextHash;
    assert [e][0] == e;
  }

  /** The rest of the entries, once the log has been cut or has ended. */
  lemma {:induction false} AppendRest(r: Replica, base: seq<Entry>, first: Membership, es: seq<Entry>) returns (n: nat)
    requires ReplicaOk(r, base, first) && r.role == Follower
    ensures var (s, last) := StoreEntries(r, |base|, es);
            && AppendableExactly(r, base, es, n) && last == |base| + n
            && ReplicaOk(s, base + es[..n], first) && OnlyLog(r, s)
    decreases |es|
  {
    hide ReplicaOk, StoreEntry, AppendIfNext, Appendable, OnlyLog, RoomLeft;
    NoneAppendable(r, base, first, es);
    assert base + es[..0] == base;
    n := 0;
    OnlyLogSelf(r);
    if es != [] {
      var e := es[0];
      StoreNext(r, base, first, e);
      AppendOne(r, base, first, e);
      var (s, ok) := StoreEntry(r, |base| + 1, e);
      if ok {
        var n' := AppendRest(s, base + [e], first, es[1..]);
        n := n' + 1;
        assert base + [e] + es[1..][..n'] == base + es[..n];
        OneMoreAppendable(r, s, base, es, n');
        OneMoreAppendable(r, s, base, es, n' + 1);
        OnlyLogTrans(r, s, StoreEntries(r, |base|, es).0);
      } else {
        FirstAppendable(r, base, es);
      }
    }
  }

  lemma NoneAppendable(r: Replica, base: seq<Entry>, first: Membership, es: seq<Entry>)
    requires ReplicaOk(r, base, first)
    ensures Appendable(r, base, es, 0) && (es == [] ==> !Appendable(r, base, es, 1))
  {
    hide MembershipOk, RoleOk;
    assert base + es[..0] == base;
    assert TotalSize(es[..0]) == 0;
  }

  lemma FirstAppendable(r: Replica, base: seq<Entry>, es: seq<Entry>)
    requires es != []
    ensures Appendable(r, base, es, 1) <==> Appendable(r, base, [es[0]], 1)
  {
    assert es[..1] == [es[0]] == [es[0]][..1];
  }

  lemma OnlyLogTrans(r: Replica, s: Replica, t: Replica)
    requires OnlyLog(r, s) && OnlyLog(s, t)
    ensures OnlyLog(r, t)
  {
  }

  lemma OneMoreAppendable(r: Replica, s: Replica, base: seq<Entry>, es: seq<Entry>, n: nat)
    requires es != [] && Appendable(r, base, [es[0]], 1) && OnlyLog(r, s) && RoomLeft(s) + MemSize(es[0]) == RoomLeft(r)
    ensures Appendable(r, base, es, n + 1) <==> Appendable(s, base + [es[0]], es[1..], n)
  {
    hide MemSize, SerializedSize, Droppable, Chained;
    assert [es[0]][..1] == [es[0]];
    if n < |es| {
      assert es[..n + 1] == [es[0]] + es[1..][..n];
      assert base + es[..n + 1] == base + [es[0]] + es[1..][..n];
      TotalSizeAppend([es[0]], es[1..][..n]);
      SizeOfOne(es[0]);
      hide TotalSize;
      assert forall k | 0 < k < n + 1 :: es[k] == es[1..][k - 1];
      if Appendable(r, base, es, n + 1) {
        forall k | 0 <= k < n ensures WellFormed(es[1..][k]) { assert es[1..][k] == es[k + 1]; }
      }
    }
  }

  // ------------------------------------------------------ entries the log has already

  lemma {:induction false} SkipShared(r: Replica, full: seq<Entry>, first: Membership, prev: nat, entries: seq<Entry>, d: nat)
    requires ReplicaOk(r, full, first) && Shared(full, prev, entries, d) && (entries != [] ==> r.log.OldestStored() <= prev + 1)
    ensures StoreEntries(r, prev, entries) == StoreEntries(r, prev + d, entries[d..])
    decreases d
  {
    hide ReplicaOk, StoreEntry;
    if d == 0 {
      assert entries[0..] == entries;
    } else {
      assert full[prev + 0].term == entries[0].term;
      StoreStays(r, full, first, prev + 1, entries[0]);
      SharedRest(full, prev, entries, d);
      SkipShared(r, full, first, prev + 1, entries[1..], d - 1);
      assert entries[1..][d - 1..] == entries[d..];
    }
  }

  lemma SharedRest(full: seq<Entry>, prev: nat, entries: seq<Entry>, d: nat)
    requires Shared(full, prev, entries, d) && d > 0
    ensures Shared(full, prev + 1, entries[1..], d - 1)
  {
    forall k | 0 <= k < d - 1 ensures full[prev + 1 + k].term == entries[1..][k].term {
      assert full[prev + (k + 1)].term == entries[k + 1].term;
    }
  }

  lemma {:induction false} SharedExists(full: seq<Entry>, prev: nat, entries: seq<Entry>, d: nat) returns (d': nat)
    requires Shared(full, prev, entries, d)
    ensures d <= d' && SharedExactly(full, prev, entries, d')
    decreases |entries| - d
  {
    d' := d;
    if Shared(full, prev, entries, d + 1) { d' := SharedExists(full, prev, entries, d + 1); }
  }

  // --------------------------------------------------------------------- conflicts

  /** Cutting the log leaves the room it had: the byte count stays, and what may go lies
      below the cut. */
  lemma CutKeepsRoom(r: Replica, full: seq<Entry>, first: Membership, idx: nat)
    requires ReplicaOk(r, full, first) && r.promiseIdx < idx <= |full| && r.log.OldestStored() <= idx
    requires r.log.CancelFrom(idx).Success?
    ensures var log := r.log.CancelFrom(idx).value;
            log.bytes == r.log.bytes && log.maxBytes == r.log.maxBytes && Droppable(log, r.lastApplied) == Droppable(r.log, r.lastApplied)
  {
    hide MembershipOk, RoleOk, Chained, EntriesOk;
    StoresLast(r.log, full);
  }

  /** At the first entry that conflicts above the promise the tail goes, and storing goes
      on as at the end of a log. */
  lemma CutAndAppend(r: Replica, full: seq<Entry>, first: Membership, prev: nat, es: seq<Entry>) returns (n: nat)
    requires ReplicaOk(r, full, first) && r.role == Follower && es != []
    requires r.promiseIdx <= prev < |full| && r.log.OldestStored() <= prev + 1 && full[prev].term != es[0].term
    ensures var (s, last) := StoreEntries(r, prev, es);
            && AppendableExactly(r, full[..prev], es, n) && last == prev + n
            && ReplicaOk(s, full[..prev] + es[..n], first) && OnlyLog(r, s)
  {
    hide ReplicaOk, StoreEntry, AppendIfNext, Appendable, SyncMemberships, LogState.CancelFrom;
    CancelKeeps(r, full, first, prev + 1);
    StoreConflict(r, full, first, prev + 1, es[0]);
    CutKeepsRoom(r, full, first, prev + 1);
    var c := SyncMemberships(r.(log := r.log.CancelFrom(prev + 1).value));
    StoreNext(c, full[..prev], first, es[0]);
    n := AppendRest(c, full[..prev], first, es);
    SameAppendable(r, c, full[..prev], es, n);
    SameAppendable(r, c, full[..prev], es, n + 1);
    assert StoreEntries(r, prev, es) == StoreEntries(c, prev, es);
  }

  lemma SameAppendable(r: Replica, c: Replica, base: seq<Entry>, es: seq<Entry>, n: nat)
    requires c.log.bytes == r.log.bytes && c.log.maxBytes == r.log.maxBytes && c.lastApplied == r.lastApplied
    requires Droppable(c.log, c.lastApplied) == Droppable(r.log, r.lastApplied)
    ensures Appendable(r, base, es, n) <==> Appendable(c, base, es, n)
  {
  }

  /** Storing a message's entries, in all cases. */
  lemma EntriesStored(r: Replica, full: seq<Entry>, first: Membership, prev: nat, entries: seq<Entry>) returns (full': seq<Entry>)
    requires ReplicaOk(r, full, first) && r.role == Follower && prev <= |full| && (entries != [] ==> r.log.OldestStored() <= prev + 1)
    ensures var (s, last) := StoreEntries(r, prev, entries);
            && StoredUpTo(r, full, prev, entries, full', last)
            && ReplicaOk(s, full', first) && OnlyLog(r, s)
  {
    hide ReplicaOk, StoreEntries, Appendable, OnlyLog;
    assert Shared(full, prev, entries, 0);
    var d := SharedExists(full, prev, entries, 0);
    SkipShared(r, full, first, prev, entries, d);
    var es, n: nat := entries[d..], 0;
    full' := full;
    if d == |entries| || (prev + d < |full| && prev + d < r.promiseIdx) {
      assert d < |entries| ==> es[0] == entries[d] && full[prev + d].term != entries[d].term;
      StoresNone(r, full, first, prev + d, es);
      OnlyLogSelf(r);
    } else if prev + d < |full| {
      assert es[0] == entries[d] && full[prev + d].term != entries[d].term;
      n := CutAndAppend(r, full, first, prev + d, es);
      assert es[..n] == entries[d..d + n];
      full' := full[..prev + d] + entries[d..d + n];
    } else {
      assert full[..prev + d] == full;
      n := AppendRest(r, full, first, es);
      assert es[..n] == entries[d..d + n];
      full' := full + entries[d..d + n];
    }
    assert StoredAs(r, full, prev, entries, full', prev + d + n, d, n);
  }

  lemma StoresNone(r: Replica, full: seq<Entry>, first: Membership, prev: nat, es: seq<Entry>)
    requires ReplicaOk(r, full, first)
    requires es != [] ==> prev < |full| && prev < r.promiseIdx && full[prev].term != es[0].term && r.log.OldestStored() <= prev + 1
    ensures StoreEntries(r, prev, es) == (r, prev)
  {
    hide ReplicaOk, StoreEntry;
    if es != [] { StoreStays(r, full, first, prev + 1, es[0]); }
  }

  // --------------------------------------------------------------- the whole request

  /** What a request says about the entry before its first, the log has. */
  predicate FollowsOn(r: Replica, full: seq<Entry>, m: Message)
    requires m.AppendRequest?
  {
    m.prevIdx == 0 || (r.log.oldest <= m.prevIdx <= |full| && full[m.prevIdx - 1].term == m.prevTerm)
  }

  lemma FollowsOnMeans(r: Replica, full: seq<Entry>, first: Membership, m: Message)
    requires ReplicaOk(r, full, first) && m.AppendRequest?
    ensures PrevMatches(r.log, m) <==> FollowsOn(r, full, m)
  {
    hide MembershipOk, RoleOk, Chained, EntriesOk;
    StoresAt(r.log, full, m.prevIdx);
  }

  /** A request of the current term that follows on, at a replica that does not lead.  Its
      entries are stored as far as they can be, up to index `last`; the commit and promise
      indexes move up to the leader's, as far as that; and the leader is told how much is
      stored and promised. */
  lemma AppendRequestMeans(r: Replica, full: seq<Entry>, first: Membership, m: Message, from: PeerId)
    returns (full': seq<Entry>, last: nat)
    requires ReplicaOk(r, full, first) && m.AppendRequest? && r.role != Leader && FollowsOn(r, full, m)
    requires m.leaderCommit <= m.leaderPromise && (m.entries != [] ==> r.log.OldestStored() <= m.prevIdx + 1)
    ensures StoredUpTo(r, full, m.prevIdx, m.entries, full', last)
    ensures var s := HandleAppendRequest(r, r.term, m, from, true);
            && ReplicaOk(s, full', first) && s.role == Follower && s.knownLeader == Some(from)
            && s.term == r.term && s.votedFor == r.votedFor && s.lastApplied == r.lastApplied
            && s.commitIdx == Max(r.commitIdx, Min(m.leaderCommit, last))
            && s.promiseIdx == Max(r.promiseIdx, Min(m.leaderPromise, last))
            && s.outbox == r.outbox + {Sendable(Some(from), RaftMessage(r.group, r.term,
                 AppendResponse(true, last, s.log.HashAt(last), Min(s.promiseIdx, last), |full'|)))}
  {
    hide ReplicaOk, StoreEntries, StoredUpTo, FollowLeader, Advanced;
    FollowsOnMeans(r, full, first, m);
    FollowedKeeps(r, full, first, from);
    var f := FollowLeader(r, from);
    full' := EntriesStored(f, full, first, m.prevIdx, m.entries);
    var (s, l) := StoreEntries(f, m.prevIdx, m.entries);
    last := l;
    SameStored(r, f, full, m.prevIdx, m.entries, full', last);
    StoredWithin(r, full, m.prevIdx, m.entries, full', last);
    IndexesKeep(s, full', first, Min(m.leaderCommit, last), Min(m.leaderPromise, last));
    var t := Advanced(s, Min(m.leaderCommit, last), Min(m.leaderPromise, last));
    LogEnds(t, full', first);
    ReplyOk(t, full', first, Some(from), AppendResponse(true, last, t.log.HashAt(last), Min(t.promiseIdx, last), |full'|));
    assert HandleAppendRequest(r, r.term, m, from, true) == FinishAppend(s, Min(m.leaderCommit, last), Min(m.leaderPromise, last), last, from, true);
  }

  lemma ReplyOk(r: Replica, full: seq<Entry>, first: Membership, to: Option<PeerId>, m: Message)
    requires ReplicaOk(r, full, first)
    ensures ReplicaOk(Send(r, to, m), full, first)
  {
    RoleChangeKeeps(r, Send(r, to, m), full, first);
  }

  lemma FollowedKeeps(r: Replica, full: seq<Entry>, first: Membership, from: PeerId)
    requires ReplicaOk(r, full, first) && r.role != Leader
    ensures var f := FollowLeader(r, from);
            && ReplicaOk(f, full, first) && f.role == Follower && f.knownLeader == Some(from) && f.outbox == r.outbox
            && f.log == r.log && f.lastApplied == r.lastApplied && f.promiseIdx == r.promiseIdx && f.commitIdx == r.commitIdx
            && f.term == r.term && f.votedFor == r.votedFor && f.group == r.group
  {
    RoleChangeKeeps(r, FollowLeader(r, from), full, first);
  }

  lemma SameStored(r: Replica, f: Replica, full: seq<Entry>, prev: nat, entries: seq<Entry>, full': seq<Entry>, last: nat)
    requires f.log == r.log && f.lastApplied == r.lastApplied && f.promiseIdx == r.promiseIdx
    requires StoredUpTo(f, full, prev, entries, full', last)
    ensures StoredUpTo(r, full, prev, entries, full', last)
  {
    hide Appendable;
    var d: nat, n: nat :| StoredAs(f, full, prev, entries, full', last, d, n);
    SameAppendable(r, f, full[..prev + d], entries[d..], n);
    SameAppendable(r, f, full[..prev + d], entries[d..], n + 1);
    assert StoredAs(r, full, prev, entries, full', last, d, n);
  }

  /** Up to the last index stored the log has the entries sent. */
  lemma StoredWithin(r: Replica, full: seq<Entry>, prev: nat, entries: seq<Entry>, full': seq<Entry>, last: nat)
    requires StoredUpTo(r, full, prev, entries, full', last) && prev <= |full|
    ensures prev <= last <= prev + |entries| && last <= |full'|
    ensures full'[..prev] == full[..prev]
    ensures forall k | prev <= k < last :: full'[k].term == entries[k - prev].term
  {
    hide Appendable;
    var d: nat, n: nat :| StoredAs(r, full, prev, entries, full', last, d, n);
    forall k | prev <= k < last ensures full'[k].term == entries[k - prev].term {
      if k < prev + d { assert full[prev + (k - prev)].term == entries[k - prev].term; }
    }
  }

  /** For a request that has been let in, those are the very entries: equal terms came with
      equal hashes. */
  lemma StoredAreSent(r: Replica, full: seq<Entry>, prev: nat, entries: seq<Entry>, full': seq<Entry>, last: nat, k: nat)
    requires StoredUpTo(r, full, prev, entries, full', last) && prev <= k < last && prev <= |full|
    requires EntriesAgree(r, full, prev, entries) && EntriesOk(full)
    ensures k < |full'| && k - prev < |entries| && full'[k].term == entries[k - prev].term && full'[k].hash == entries[k - prev].hash
  {
    hide Appendable;
    var d: nat, n: nat :| StoredAs(r, full, prev, entries, full', last, d, n);
    if k < prev + d {
      assert full[prev + (k - prev)].term == entries[k - prev].term;
      assert Agrees(r, full, prev + (k - prev) + 1, entries[k - prev].term, entries[k - prev].hash, true);
      assert EntryOk(full[k]);
    }
  }

  /** Everything sent is stored exactly if nothing stands against it: no entry that the log
      lacks conflicts with a promise, breaks the chain, lacks a term, carries a group that
      cannot be read, or finds no room. */
  lemma AllStoredIff(r: Replica, full: seq<Entry>, prev: nat, entries: seq<Entry>, full': seq<Entry>, last: nat, d: nat)
    requires StoredUpTo(r, full, prev, entries, full', last) && SharedExactly(full, prev, entries, d)
    ensures last == prev + |entries| <==>
              || d == |entries|
              || ((prev + d >= |full| || r.promiseIdx <= prev + d) && Appendable(r, full[..prev + d], entries[d..], |entries| - d))
  {
    var d': nat, n: nat :| StoredAs(r, full, prev, entries, full', last, d', n);
    OneShared(full, prev, entries, d, d');
    if d < |entries| && Appendable(r, full[..prev + d], entries[d..], |entries| - d) && n < |entries| - d {
      FewerAppendable(r, full[..prev + d], entries[d..], n + 1, |entries| - d);
    }
  }

  lemma OneShared(full: seq<Entry>, prev: nat, entries: seq<Entry>, d: nat, d': nat)
    requires SharedExactly(full, prev, entries, d) && SharedExactly(full, prev, entries, d')
    ensures d == d'
  {
  }

  lemma FewerAppendable(r: Replica, base: seq<Entry>, es: seq<Entry>, n: nat, m: nat)
    requires Appendable(r, base, es, m) && n <= m
    ensures Appendable(r, base, es, n)
  {
    assert (base + es[..m])[..|base| + n] == base + es[..n];
    ChainPrefix(base + es[..m], |base| + n);
    TotalSizeGrows(es, n, m);
  }

  /** Any other request: of an earlier term, or one that does not follow on, is turned down
      with where the replica stands; a leader and a replica of an earlier term ignore it. */
  lemma AppendRefusedMeans(r: Replica, full: seq<Entry>, first: Membership, term: nat, m: Message, from: PeerId, ok: bool)
    requires ReplicaOk(r, full, first) && m.AppendRequest?
    requires term != r.term || r.role == Leader || !FollowsOn(r, full, m)
    ensures var s := HandleAppendRequest(r, term, m, from, ok);
            if term > r.term || (term == r.term && r.role == Leader) then s == r
            else
              && s == r.(outbox := s.outbox, role := s.role, knownLeader := s.knownLeader, votes := s.votes,
                         followers := s.followers, relinquishing := s.relinquishing)
              && (term < r.term ==> s == r.(outbox := s.outbox)) && (term == r.term ==> s.role == Follower && s.knownLeader == Some(from))
              && s.outbox == r.outbox + {Sendable(Some(from), RaftMessage(r.group, r.term,
                   AppendResponse(false, r.commitIdx, r.log.HashAt(r.commitIdx), r.promiseIdx, |full|)))}
  {
    hide ReplicaOk;
    FollowsOnMeans(r, full, first, m);
    LogEnds(r, full, first);
  }

  /** Without the Merkle check nothing moves that the check guards: the entries are stored,
      but an index that would move does not, and nothing is answered. */
  lemma AppendUnverifiedMeans(r: Replica, full: seq<Entry>, first: Membership, m: Message, from: PeerId)
    requires ReplicaOk(r, full, first) && m.AppendRequest? && r.role != Leader && FollowsOn(r, full, m)
    requires m.leaderCommit <= m.leaderPromise && (m.entries != [] ==> r.log.OldestStored() <= m.prevIdx + 1)
    ensures var s := HandleAppendRequest(r, r.term, m, from, false);
            && s.commitIdx == r.commitIdx && s.promiseIdx == r.promiseIdx
            && (s.outbox != r.outbox ==> s == HandleAppendRequest(r, r.term, m, from, true))
  {
    hide ReplicaOk, StoreEntries, FollowLeader, Advanced, StoredUpTo;
    FollowsOnMeans(r, full, first, m);
    FollowedKeeps(r, full, first, from);
    var f := FollowLeader(r, from);
    var full' := EntriesStored(f, full, first, m.prevIdx, m.entries);
    var (s, last) := StoreEntries(f, m.prevIdx, m.entries);
    SameStored(r, f, full, m.prevIdx, m.entries, full', last);
    StoredWithin(r, full, m.prevIdx, m.entries, full', last);
    IndexesKeep(s, full', first, Min(m.leaderCommit, last), Min(m.leaderPromise, last));
  }
}
