/** What holds inside one replica between calls, whatever the group does:
    its indexes are ordered, its log is a hash chain, the memberships it tracks
    are exactly those in the uncommitted part of its log, and its committed
    membership is the newest one in the rest. */
module ReplicaInvariant {
  import opened RaftTypes
  import opened HashChain
  import opened Quorum
  import opened GroupMembership
  import opened BoundedLog
  import opened ReplicaSpec

  /** An entry the log accepts. */
  predicate EntryOk(e: Entry) {
    e.term >= 1 && e.hash != Absent && (e.payload.MembershipChange? ==> FromGroup(e.payload.replicas).Success?)
  }

  predicate EntriesOk(full: seq<Entry>) {
    forall k | 0 <= k < |full| :: EntryOk(full[k])
  }

  /** The membership changes at indexes above `from`, in log order. */
  function MembershipsAfter(full: seq<Entry>, from: nat): seq<(nat, Membership)>
    requires EntriesOk(full)
  {
    if |full| <= from then []
    else
      var n := |full| - 1;
      var e := full[n];
      MembershipsAfter(full[..n], from)
      + if e.payload.MembershipChange? then [(n + 1, FromGroup(e.payload.replicas).value)] else []
  }

  /** The membership in force after the first `n` entries of a log that began under
      `first`: that of the newest change among them. */
  function GroupAt(full: seq<Entry>, n: nat, first: Membership): Membership
    requires n <= |full|
  {
    if n == 0 then first else Regrouped(GroupAt(full, n - 1, first), full[n - 1].payload)
  }

  function Regrouped(m: Membership, p: Payload): Membership {
    if p.MembershipChange? && FromGroup(p.replicas).Success? then FromGroup(p.replicas).value else m
  }

  predicate SmallGroup(m: Membership) {
    m.voting <= m.all && |m.voting| < U32 && |m.all| <= 0x7fff_ffff
  }

  predicate IndexesOk(r: Replica, full: seq<Entry>) {
    && r.lastApplied <= r.commitIdx <= r.promiseIdx <= |full|
    && (r.log.oldest == 1 || r.log.oldest <= r.lastApplied)
  }

  ghost predicate LogOk(r: Replica, full: seq<Entry>) {
    && Stores(r.log, full) && r.log.Bounded()
    && EntriesOk(full) && Chained(full)
    && IndexesOk(r, full)
  }

  /** Committed changes have become canonical, and the others are tracked. */
  predicate MembershipOk(r: Replica, full: seq<Entry>, first: Membership)
    requires EntriesOk(full)
  {
    && SmallGroup(r.membership)
    && r.commitIdx <= |full| && r.membership == GroupAt(full, r.commitIdx, first)
    && r.uncommitted == MembershipsAfter(full, r.commitIdx)
  }

  predicate FollowerOk(s: Replication, last: nat) {
    s.promiseIdx <= s.matchIdx <= last
  }

  predicate RoleOk(r: Replica, last: nat) {
    && (r.role == Candidate ==> r.me in r.votes && r.votes <= Current(r).voting)
    && (r.role == Leader ==>
          && r.me in Current(r).voting
          && r.followers.Keys == Current(r).all - {r.me}
          && forall p | p in r.followers :: FollowerOk(r.followers[p], last))
  }

  /** `full` is the log since index 1, including entries dropped to save space, and
      `first` the membership of the group before it. */
  ghost predicate ReplicaOk(r: Replica, full: seq<Entry>, first: Membership) {
    LogOk(r, full) && MembershipOk(r, full, first) && RoleOk(r, |full|) && r.superMajority < U32
  }

  // ------------------------------------------------------ tracked memberships

  predicate IndexesWithin(ms: seq<(nat, Membership)>, low: nat, high: nat) {
    && (forall k | 0 <= k < |ms| :: low < ms[k].0 <= high && SmallGroup(ms[k].1))
    && (forall j, k | 0 <= j < k < |ms| :: ms[j].0 < ms[k].0)
  }

  lemma {:induction false} MembershipsOrdered(full: seq<Entry>, from: nat)
    requires EntriesOk(full)
    ensures IndexesWithin(MembershipsAfter(full, from), from, |full|)
  {
    if |full| > from {
      var n := |full| - 1;
      MembershipsOrdered(full[..n], from);
      var ms := MembershipsAfter(full[..n], from);
      if full[n].payload.MembershipChange? {
        assert EntryOk(full[n]);
        var m := FromGroup(full[n].payload.replicas).value;
        GroupSize(full[n].payload.replicas);
        SubsetSize(m.voting, m.all);
        IndexesSnoc(ms, from, n, m);
      } else {
        IndexesWiden(ms, from, n);
      }
    }
  }

  lemma IndexesSnoc(ms: seq<(nat, Membership)>, low: nat, n: nat, m: Membership)
    requires IndexesWithin(ms, low, n) && SmallGroup(m) && low <= n
    ensures IndexesWithin(ms + [(n + 1, m)], low, n + 1)
  {
    hide SmallGroup;
  }

  lemma IndexesWiden(ms: seq<(nat, Membership)>, low: nat, n: nat)
    requires IndexesWithin(ms, low, n)
    ensures IndexesWithin(ms, low, n + 1) && ms + [] == ms
  {
    hide SmallGroup;
  }

  /** Raising the lower end cuts memberships off the front. */
  lemma {:induction false} MembershipsSplit(full: seq<Entry>, from: nat, mid: nat)
    requires EntriesOk(full) && from <= mid <= |full|
    ensures MembershipsAfter(full, from) == MembershipsAfter(full[..mid], from) + MembershipsAfter(full, mid)
  {
    if mid == |full| {
      assert full[..mid] == full;
    } else {
      var n := |full| - 1;
      assert full[..n][..mid] == full[..mid];
      MembershipsSplit(full[..n], from, mid);
    }
  }

  /** The membership that is in force where `ms` is tracked on top of `m`. */
  function Latest(ms: seq<(nat, Membership)>, m: Membership): Membership {
    if ms == [] then m else ms[|ms| - 1].1
  }

  /** Tracking changes from any index on gives the membership in force at the end. */
  lemma {:induction false} TrackingFollows(full: seq<Entry>, first: Membership, from: nat)
    requires EntriesOk(full) && from <= |full|
    ensures GroupAt(full, |full|, first) == Latest(MembershipsAfter(full, from), GroupAt(full, from, first))
  {
    if from < |full| {
      var n := |full| - 1;
      TrackingFollows(full[..n], first, from);
      GroupBefore(full[..n], full, n, first);
      GroupBefore(full[..n], full, from, first);
    }
  }

  /** Later entries do not matter. */
  lemma {:induction false} GroupBefore(a: seq<Entry>, b: seq<Entry>, n: nat, first: Membership)
    requires n <= |a| && n <= |b| && forall k | 0 <= k < n :: a[k] == b[k]
    ensures GroupAt(a, n, first) == GroupAt(b, n, first)
  {
    if n > 0 {
      GroupBefore(a, b, n - 1, first);
    }
  }

  predicate NoChange(full: seq<Entry>) {
    forall i | 0 <= i < |full| :: !full[i].payload.MembershipChange?
  }

  /** The last membership change is at index `i + 1`. */
  predicate Newest(full: seq<Entry>, i: nat) {
    i < |full| && full[i].payload.MembershipChange? && forall k | i < k < |full| :: !full[k].payload.MembershipChange?
  }

  lemma {:induction false} GroupIsNewest(full: seq<Entry>, n: nat, first: Membership)
    requires EntriesOk(full) && n <= |full|
    ensures NoChange(full[..n]) ==> GroupAt(full, n, first) == first
    ensures forall i: nat | Newest(full[..n], i) :: GroupAt(full, n, first) == FromGroup(full[i].payload.replicas).value
  {
    if n > 0 && !full[n - 1].payload.MembershipChange? {
      GroupIsNewest(full, n - 1, first);
      forall i: nat | Newest(full[..n], i) ensures Newest(full[..n - 1], i) {
        assert full[..n][n - 1] == full[n - 1];
      }
    }
  }

  lemma GroupSmall(full: seq<Entry>, n: nat, first: Membership)
    requires EntriesOk(full) && n <= |full| && SmallGroup(first)
    ensures SmallGroup(GroupAt(full, n, first))
  {
    TrackingFollows(full[..n], first, 0);
    GroupBefore(full[..n], full, n, first);
    MembershipsOrdered(full[..n], 0);
  }

  /** The effective membership is that of the newest change in the whole log, committed
      or not, and the group's first where there is none. */
  lemma EffectiveMembership(r: Replica, full: seq<Entry>, first: Membership)
    requires ReplicaOk(r, full, first)
    ensures Current(r) == GroupAt(full, |full|, first)
    ensures NoChange(full) ==> Current(r) == first
    ensures forall i: nat | Newest(full, i) :: Current(r) == FromGroup(full[i].payload.replicas).value
  {
    hide Chained, Stores, RoleOk, MembershipsAfter, FromGroup;
    TrackingFollows(full, first, r.commitIdx);
    GroupIsNewest(full, |full|, first);
    assert full[..|full|] == full;
  }

  lemma {:induction false} PromoteDrops(r: Replica, front: seq<(nat, Membership)>, rest: seq<(nat, Membership)>)
    requires r.uncommitted == front + rest
    requires forall k | 0 <= k < |front| :: front[k].0 <= r.commitIdx
    requires forall k | 0 <= k < |rest| :: rest[k].0 > r.commitIdx
    ensures PromoteCommitted(r) == r.(uncommitted := rest,
              membership := if front == [] then r.membership else front[|front| - 1].1)
    decreases |front|
  {
    if front == [] {
      assert r.uncommitted == rest;
    } else {
      assert r.uncommitted[1..] == front[1..] + rest && r.uncommitted[0] == front[0];
      assert forall k | 0 <= k < |front[1..]| :: front[1..][k] == front[k + 1];
      PromoteDrops(r.(membership := r.uncommitted[0].1, uncommitted := r.uncommitted[1..]), front[1..], rest);
    }
  }

  lemma {:induction false} DiscardDrops(r: Replica, rest: seq<(nat, Membership)>, back: seq<(nat, Membership)>)
    requires r.uncommitted == rest + back
    requires forall k | 0 <= k < |rest| :: rest[k].0 <= r.log.LastIdx()
    requires forall k | 0 <= k < |back| :: back[k].0 > r.log.LastIdx()
    ensures DiscardCancelled(r) == r.(uncommitted := rest)
    decreases |back|
  {
    if back == [] {
      assert r.uncommitted == rest;
    } else {
      var n := |r.uncommitted| - 1;
      assert r.uncommitted[n] == back[|back| - 1];
      assert r.uncommitted[..n] == rest + back[..|back| - 1];
      DiscardDrops(r.(uncommitted := r.uncommitted[..n]), rest, back[..|back| - 1]);
    }
  }

  /** Promoting and discarding leave the middle of the list. */
  lemma SyncKeepsMiddle(r: Replica, front: seq<(nat, Membership)>, mid: seq<(nat, Membership)>, back: seq<(nat, Membership)>)
    requires r.uncommitted == front + (mid + back) && r.commitIdx <= r.log.LastIdx()
    requires IndexesWithin(front, 0, r.commitIdx)
    requires IndexesWithin(mid, r.commitIdx, r.log.LastIdx())
    requires forall k | 0 <= k < |back| :: back[k].0 > r.log.LastIdx()
    ensures DiscardCancelled(PromoteCommitted(r)) == r.(uncommitted := mid,
              membership := if front == [] then r.membership else front[|front| - 1].1)
  {
    PromoteDrops(r, front, mid + back);
    DiscardDrops(PromoteCommitted(r), mid, back);
  }

  lemma LeaderKeepsFollowers(r: Replica)
    requires r.role == Leader ==> r.followers.Keys == Current(r).all - {r.me}
    ensures HandleMembershipChange(r) == r
  {
    if r.role == Leader {
      assert HandleMembershipChange(r).followers == r.followers;
    }
  }

  /** After the commit index has moved up or the log has been cut back from
      `was` to `full`, the tracked memberships follow.  A leader's log is never
      cut, so its current group and its followers stay. */
  lemma SyncFollowsLog(r: Replica, was: seq<Entry>, from: nat, full: seq<Entry>, first: Membership)
    requires EntriesOk(was) && EntriesOk(full)
    requires full <= was && from <= r.commitIdx <= |full| == r.log.LastIdx()
    requires SmallGroup(r.membership) && r.membership == GroupAt(was, from, first)
    requires r.uncommitted == MembershipsAfter(was, from)
    requires r.role == Leader ==> r.followers.Keys == Current(r).all - {r.me}
    requires full == was || r.role != Leader
    ensures var s := SyncMemberships(r);
            && s == r.(membership := s.membership, uncommitted := s.uncommitted)
            && MembershipOk(s, full, first)
            && (full == was ==> Current(s) == Current(r))
  {
    hide GroupAt, SmallGroup, PromoteCommitted, DiscardCancelled, MembershipsAfter;
    var c := r.commitIdx;
    assert was[..|full|] == full && was[..c] == full[..c];
    MembershipsSplit(was, from, c);
    MembershipsSplit(was, c, |full|);
    var front, mid, back := MembershipsAfter(full[..c], from), MembershipsAfter(full, c), MembershipsAfter(was, |full|);
    MembershipsOrdered(full[..c], from);
    MembershipsOrdered(full, c);
    MembershipsOrdered(was, |full|);
    SettledAfter(r.membership, was, full, from, c, first);
    SyncKeepsMiddle(r, front, mid, back);
    hide IndexesWithin;
    var d := DiscardCancelled(PromoteCommitted(r));
    SyncCurrent(r, front, mid, back, d);
    LeaderKeepsFollowers(d);
  }

  /** Promoting the changes between two commits gives the newest of the later one. */
  lemma SettledAfter(m: Membership, was: seq<Entry>, full: seq<Entry>, from: nat, c: nat, first: Membership)
    requires EntriesOk(was) && EntriesOk(full) && full <= was && from <= c <= |full| && m == GroupAt(was, from, first)
    ensures EntriesOk(full[..c]) && GroupAt(full, c, first) == Latest(MembershipsAfter(full[..c], from), m)
    ensures SmallGroup(m) ==> SmallGroup(GroupAt(full, c, first))
  {
    hide MembershipsAfter;
    GroupBefore(was, full[..c], from, first);
    GroupBefore(full, full[..c], c, first);
    TrackingFollows(full[..c], first, from);
    MembershipsOrdered(full[..c], from);
  }

  lemma SyncCurrent(r: Replica, front: seq<(nat, Membership)>, mid: seq<(nat, Membership)>, back: seq<(nat, Membership)>, d: Replica)
    requires r.uncommitted == front + (mid + back)
    requires d == r.(uncommitted := mid, membership := if front == [] then r.membership else front[|front| - 1].1)
    ensures back == [] ==> Current(d) == Current(r)
  {
  }

  /** The hash the next entry must carry continues the chain. */
  lemma NextHashContinues(log: LogState, full: seq<Entry>, e: Entry)
    requires Stores(log, full) && EntriesOk(full) && Chained(full)
    requires e.hash == NextHash(log, e)
    ensures Chained(full + [e])
  {
    StoresLast(log, full);
    assert log.MostRecentHash() == PrevHash(full, |full|) by {
      if full != [] {
        assert log.entries[|log.entries| - 1] == full[|full| - 1];
        assert EntryOk(full[|full| - 1]);
      }
    }
    forall k | 0 <= k < |full| + 1 ensures ChainedAt(full + [e], k) {
      if k < |full| { assert ChainedAt(full, k); }
    }
  }

  /** Appending an entry that continues the chain keeps everything in order: the
      entry is added at the next index, or nothing but old entries changes. */
  lemma LogAppendKeeps(r: Replica, full: seq<Entry>, first: Membership, e: Entry)
    requires ReplicaOk(r, full, first) && r.role != Candidate
    requires e.hash == NextHash(r.log, e)
    requires r.role == Leader ==> KeepsVote(r.me, e)
    ensures var (s, err) := LogAppend(r, e);
            && ReplicaOk(s, if err == NoError then full + [e] else full, first)
            && s == r.(log := s.log, uncommitted := s.uncommitted, followers := s.followers)
            && (err == NoError ==> EntryOk(e))
            && (err != NoError || !e.payload.MembershipChange? ==> s == r.(log := s.log))
            && OldFollowers(r, s)
  {
    if !e.payload.MembershipChange? || FromGroup(e.payload.replicas).Success? {
      var (log, err) := r.log.Append(e, r.lastApplied);
      AppendLogOk(r, full, e);
      TrackKeeps(r, full, first, e, log, err);
    }
  }

  /** What is known of a follower is kept, or is nothing. */
  predicate OldFollowers(r: Replica, s: Replica) {
    forall p | p in s.followers && s.followers[p].promiseIdx > 0 ::
      p in r.followers && s.followers[p].promiseIdx == r.followers[p].promiseIdx
  }

  predicate KeepsVote(me: PeerId, e: Entry) {
    e.payload.MembershipChange? && FromGroup(e.payload.replicas).Success? ==>
      me in FromGroup(e.payload.replicas).value.voting
  }

  lemma AppendLogOk(r: Replica, full: seq<Entry>, e: Entry)
    requires LogOk(r, full)
    requires e.hash == NextHash(r.log, e)
    requires e.payload.MembershipChange? ==> FromGroup(e.payload.replicas).Success?
    ensures var (log, err) := r.log.Append(e, r.lastApplied);
            && LogOk(r.(log := log), if err == NoError then full + [e] else full)
            && (err == NoError ==> EntryOk(e) && log.LastIdx() == |full| + 1)
  {
    var (log, err) := r.log.Append(e, r.lastApplied);
    AppendRefines(r.log, full, e, r.lastApplied);
    if err == NoError {
      NextHashContinues(r.log, full, e);
      assert EntriesOk(full + [e]);
      GrownLogOk(r, full, e, log);
    }
  }

  lemma MembershipsSnoc(full: seq<Entry>, e: Entry, from: nat)
    requires EntriesOk(full) && EntryOk(e) && from <= |full|
    ensures EntriesOk(full + [e])
    ensures MembershipsAfter(full + [e], from) == MembershipsAfter(full, from)
      + if e.payload.MembershipChange? then [(|full| + 1, FromGroup(e.payload.replicas).value)] else []
  {
    assert (full + [e])[..|full|] == full;
  }

  lemma GrownLogOk(r: Replica, full: seq<Entry>, e: Entry, log: LogState)
    requires LogOk(r, full) && EntriesOk(full + [e]) && Chained(full + [e])
    requires Stores(log, full + [e]) && log.Bounded()
    requires log.oldest <= Max(r.log.oldest, r.lastApplied)
    ensures LogOk(r.(log := log), full + [e]) && log.LastIdx() == |full| + 1
  {
  }

  lemma TrackKeeps(r: Replica, full: seq<Entry>, first: Membership, e: Entry, log: LogState, err: Error)
    requires ReplicaOk(r, full, first) && r.role != Candidate
    requires e.payload.MembershipChange? ==> FromGroup(e.payload.replicas).Success?
    requires r.role == Leader ==> KeepsVote(r.me, e)
    requires LogOk(r.(log := log), if err == NoError then full + [e] else full)
    requires err == NoError ==> EntryOk(e) && log.LastIdx() == |full| + 1
    ensures var s := TrackAppended(r.(log := log), e, err);
            && ReplicaOk(s, if err == NoError then full + [e] else full, first)
            && s == r.(log := log, uncommitted := s.uncommitted, followers := s.followers)
            && (err != NoError || !e.payload.MembershipChange? ==> s == r.(log := log))
            && OldFollowers(r, s)
  {
    hide ReplicaOk, LogOk, KeepsVote, AddUncommitted;
    if err != NoError {
      TrackNothing(r, full, first, log);
    } else if e.payload.MembershipChange? {
      TrackMembershipKeeps(r, full, first, e, log);
    } else {
      TrackPlain(r, full, first, e, log);
    }
  }

  lemma TrackNothing(r: Replica, full: seq<Entry>, first: Membership, log: LogState)
    requires ReplicaOk(r, full, first) && LogOk(r.(log := log), full)
    ensures ReplicaOk(r.(log := log), full, first)
  {
    hide LogOk, MembershipsAfter, GroupAt, SmallGroup;
    RoleFrame(r, r.(log := log), |full|, |full|);
  }

  lemma RoleFrame(r: Replica, s: Replica, last: nat, last': nat)
    requires RoleOk(r, last) && last <= last' && s == r.(log := s.log)
    ensures RoleOk(s, last')
  {
    if r.role == Leader {
      forall p | p in s.followers ensures FollowerOk(s.followers[p], last') {
        assert FollowerOk(r.followers[p], last);
      }
    }
  }

  lemma EntriesOf(r: Replica, full: seq<Entry>)
    requires LogOk(r, full)
    ensures EntriesOk(full) && r.commitIdx <= |full|
  {
  }

  lemma TrackPlain(r: Replica, full: seq<Entry>, first: Membership, e: Entry, log: LogState)
    requires ReplicaOk(r, full, first) && EntryOk(e) && !e.payload.MembershipChange? && LogOk(r.(log := log), full + [e])
    ensures ReplicaOk(r.(log := log), full + [e], first)
  {
    hide LogOk, MembershipsAfter, GroupAt, SmallGroup, RoleOk;
    EntriesOf(r, full);
    MembershipsSnoc(full, e, r.commitIdx);
    GroupBefore(full, full + [e], r.commitIdx, first);
    RoleFrame(r, r.(log := log), |full|, |full| + 1);
  }

  lemma TrackMembershipKeeps(r: Replica, full: seq<Entry>, first: Membership, e: Entry, log: LogState)
    requires ReplicaOk(r, full, first) && r.role != Candidate && EntryOk(e)
    requires e.payload.MembershipChange? && log.LastIdx() == |full| + 1
    requires LogOk(r.(log := log), full + [e])
    requires r.role == Leader ==> KeepsVote(r.me, e)
    ensures var s := AddUncommitted(r.(log := log), |full| + 1, FromGroup(e.payload.replicas).value);
            && ReplicaOk(s, full + [e], first) && OldFollowers(r, s)
            && s == r.(log := log, uncommitted := s.uncommitted, followers := s.followers)
  {
    hide RoleOk, LogOk, OldFollowers, AddUncommitted, MembershipsAfter, GroupAt, SmallGroup, KeepsVote;
    var a, m := r.(log := log), FromGroup(e.payload.replicas).value;
    var s := AddUncommitted(a, |full| + 1, m);
    AddUncommittedFrame(a, |full| + 1, m);
    LogOkFrame(a, s, full + [e]);
    NewGroupRole(r, full, e, log);
    NewGroupMembership(r, full, first, e);
  }

  lemma NewGroupMembership(r: Replica, full: seq<Entry>, first: Membership, e: Entry)
    requires LogOk(r, full) && MembershipOk(r, full, first) && EntryOk(e) && e.payload.MembershipChange?
    ensures EntriesOk(full + [e]) && r.membership == GroupAt(full + [e], r.commitIdx, first)
    ensures MembershipsAfter(full + [e], r.commitIdx) == r.uncommitted + [(|full| + 1, FromGroup(e.payload.replicas).value)]
  {
    MembershipsSnoc(full, e, r.commitIdx);
    GroupBefore(full, full + [e], r.commitIdx, first);
  }

  lemma AddUncommittedFrame(r: Replica, idx: nat, m: Membership)
    ensures var s := AddUncommitted(r, idx, m);
            s == r.(uncommitted := r.uncommitted + [(idx, m)], followers := s.followers)
  {
  }

  lemma LogOkFrame(r: Replica, s: Replica, full: seq<Entry>)
    requires LogOk(r, full) && s == r.(uncommitted := s.uncommitted, followers := s.followers)
    ensures LogOk(s, full)
  {
  }

  lemma NewGroupRole(r: Replica, full: seq<Entry>, e: Entry, log: LogState)
    requires RoleOk(r, |full|) && r.role != Candidate && EntryOk(e) && e.payload.MembershipChange?
    requires r.role == Leader ==> KeepsVote(r.me, e)
    ensures var s := AddUncommitted(r.(log := log), |full| + 1, FromGroup(e.payload.replicas).value);
            RoleOk(s, |full| + 1) && OldFollowers(r, s)
  {
  }

  // ---------------------------------------------- storing entries as a follower

  lemma CancelKeeps(r: Replica, full: seq<Entry>, first: Membership, idx: nat)
    requires ReplicaOk(r, full, first) && r.role == Follower
    requires r.promiseIdx < idx <= |full| && r.log.OldestStored() <= idx
    ensures r.log.CancelFrom(idx).Success?
    ensures var s := SyncMemberships(r.(log := r.log.CancelFrom(idx).value));
            && ReplicaOk(s, full[..idx - 1], first) && s.log == r.log.CancelFrom(idx).value && s.log.NextIdx() == idx
            && s == r.(log := s.log, membership := s.membership, uncommitted := s.uncommitted)
  {
    CancelLogOk(r, full, idx);
    hide LogOk, LogState.CancelFrom;
    var cut, c := full[..idx - 1], r.(log := r.log.CancelFrom(idx).value);
    SyncFollowsLog(c, full, r.commitIdx, cut, first);
    hide SyncMemberships;
    SyncedLogOk(c, SyncMemberships(c), cut);
  }

  lemma CancelLogOk(r: Replica, full: seq<Entry>, idx: nat)
    requires LogOk(r, full) && r.promiseIdx < idx <= |full| && r.log.OldestStored() <= idx
    ensures r.log.CancelFrom(idx).Success?
    ensures var c := r.(log := r.log.CancelFrom(idx).value);
            && LogOk(c, full[..idx - 1]) && c.log.LastIdx() == idx - 1
            && EntriesOk(full) && EntriesOk(full[..idx - 1])
            && r.commitIdx <= idx - 1 && full[..idx - 1] <= full
  {
    CancelRefines(r.log, full, idx);
    CutChain(full, idx - 1);
    StoresLast(r.log.CancelFrom(idx).value, full[..idx - 1]);
  }

  lemma SyncedLogOk(r: Replica, s: Replica, full: seq<Entry>)
    requires LogOk(r, full) && s == r.(membership := s.membership, uncommitted := s.uncommitted)
    ensures LogOk(s, full)
  {
  }

  lemma CutChain(full: seq<Entry>, n: nat)
    requires n <= |full| && EntriesOk(full) && Chained(full)
    ensures EntriesOk(full[..n]) && Chained(full[..n])
  {
    forall k | 0 <= k < n ensures ChainedAt(full[..n], k) {
      assert ChainedAt(full, k);
    }
  }

  /** Nothing changes but the log and the memberships that follow from it. */
  predicate OnlyLog(r: Replica, s: Replica) {
    s == r.(log := s.log, membership := s.membership, uncommitted := s.uncommitted, followers := s.followers)
  }

  /** What storing one entry at `idx` can do to the log: nothing, cut the
      conflicting tail, or put the entry there.  A promised entry is never cut. */
  ghost predicate StoredAt(full: seq<Entry>, full': seq<Entry>, idx: nat, e: Entry, promise: nat, ok: bool) {
    && 1 <= idx <= |full| + 1
    && (ok ==>
          || (full' == full && idx <= |full| && full[idx - 1].term == e.term)
          || (full' == full[..idx - 1] + [e] && promise < idx))
    && (!ok ==> full' == full || (full' == full[..idx - 1] && promise < idx))
  }

  lemma AppendNextKeeps(r: Replica, full: seq<Entry>, first: Membership, e: Entry)
    requires ReplicaOk(r, full, first) && r.role == Follower
    ensures var (s, ok) := AppendIfNext(r, |full| + 1, e);
            && ReplicaOk(s, if ok then full + [e] else full, first)
            && OnlyLog(r, s)
  {
    StoresLast(r.log, full);
    if NextHash(r.log, e) == e.hash {
      LogAppendKeeps(r, full, first, e);
    }
  }

  /** At the next index an entry is appended if its hash fits. */
  lemma StoreNext(r: Replica, full: seq<Entry>, first: Membership, e: Entry)
    requires ReplicaOk(r, full, first)
    ensures StoreEntry(r, |full| + 1, e) == AppendIfNext(r, |full| + 1, e)
  {
    StoresAt(r.log, full, |full| + 1);
  }

  /** An entry that is there already stays; one that conflicts with a promise is refused. */
  lemma StoreStays(r: Replica, full: seq<Entry>, first: Membership, idx: nat, e: Entry)
    requires ReplicaOk(r, full, first) && r.log.OldestStored() <= idx && 1 <= idx <= |full|
    requires full[idx - 1].term == e.term || idx <= r.promiseIdx
    ensures StoreEntry(r, idx, e) == (r, full[idx - 1].term == e.term)
  {
    StoresAt(r.log, full, idx);
    assert EntryOk(full[idx - 1]);
  }

  /** Above the promise a conflicting tail is cut first. */
  lemma StoreConflict(r: Replica, full: seq<Entry>, first: Membership, idx: nat, e: Entry)
    requires ReplicaOk(r, full, first) && r.log.OldestStored() <= idx && r.promiseIdx < idx <= |full|
    requires full[idx - 1].term != e.term && r.log.CancelFrom(idx).Success?
    ensures StoreEntry(r, idx, e) == AppendIfNext(SyncMemberships(r.(log := r.log.CancelFrom(idx).value)), idx, e)
  {
    StoresAt(r.log, full, idx);
    assert EntryOk(full[idx - 1]);
    hide AppendIfNext, SyncMemberships;
  }

  lemma StoreEntryKeeps(r: Replica, full: seq<Entry>, first: Membership, idx: nat, e: Entry) returns (full': seq<Entry>)
    requires ReplicaOk(r, full, first) && r.role == Follower
    requires r.log.OldestStored() <= idx && 1 <= idx <= |full| + 1
    ensures var (s, ok) := StoreEntry(r, idx, e);
            && ReplicaOk(s, full', first)
            && OnlyLog(r, s)
            && StoredAt(full, full', idx, e, r.promiseIdx, ok)
            && (ok ==> s.log.OldestStored() <= idx + 1)
  {
    hide ReplicaOk, StoreEntry, AppendIfNext, SyncMemberships, LogState.CancelFrom, StoredAt, OnlyLog;
    if idx == |full| + 1 {
      StoreNext(r, full, first, e);
      full' := AppendedKeeps(r, full, first, e);
    } else if full[idx - 1].term == e.term || idx <= r.promiseIdx {
      StoreStays(r, full, first, idx, e);
      OnlyLogSelf(r);
      StoredSame(full, e, idx, r.promiseIdx);
      full' := full;
    } else {
      full' := ConflictKeeps(r, full, first, idx, e);
      StoreConflict(r, full, first, idx, e);
    }
  }

  lemma AppendedKeeps(r: Replica, full: seq<Entry>, first: Membership, e: Entry) returns (full': seq<Entry>)
    requires ReplicaOk(r, full, first) && r.role == Follower
    ensures var (s, ok) := AppendIfNext(r, |full| + 1, e);
            && ReplicaOk(s, full', first)
            && OnlyLog(r, s)
            && StoredAt(full, full', |full| + 1, e, r.promiseIdx, ok)
            && s.log.OldestStored() <= |full| + 2
  {
    AppendNextKeeps(r, full, first, e);
    PromiseWithin(r, full, first);
    StoredNext(full, e, r.promiseIdx);
    hide ReplicaOk, AppendIfNext, StoredAt;
    var (s, ok) := AppendIfNext(r, |full| + 1, e);
    full' := if ok then full + [e] else full;
    OldestWithin(s, full', first);
  }

  lemma OnlyLogSelf(r: Replica)
    ensures OnlyLog(r, r)
  {
  }

  lemma StoredNext(full: seq<Entry>, e: Entry, promise: nat)
    requires promise <= |full|
    ensures StoredAt(full, full + [e], |full| + 1, e, promise, true) && StoredAt(full, full, |full| + 1, e, promise, false)
  {
    assert full[..|full|] == full;
  }

  lemma StoredOver(full: seq<Entry>, e: Entry, idx: nat, promise: nat)
    requires promise < idx <= |full|
    ensures StoredAt(full, full[..idx - 1] + [e], idx, e, promise, true) && StoredAt(full, full[..idx - 1], idx, e, promise, false)
  {
  }

  lemma StoredSame(full: seq<Entry>, e: Entry, idx: nat, promise: nat)
    requires 1 <= idx <= |full|
    ensures full[idx - 1].term == e.term ==> StoredAt(full, full, idx, e, promise, true)
    ensures StoredAt(full, full, idx, e, promise, false)
  {
  }

  lemma PromiseWithin(r: Replica, full: seq<Entry>, first: Membership)
    requires ReplicaOk(r, full, first)
    ensures r.promiseIdx <= |full|
  {
  }

  /** A conflict above the promise: the tail goes and the entry takes its place. */
  lemma ConflictKeeps(r: Replica, full: seq<Entry>, first: Membership, idx: nat, e: Entry) returns (full': seq<Entry>)
    requires ReplicaOk(r, full, first) && r.role == Follower
    requires r.promiseIdx < idx <= |full| && r.log.OldestStored() <= idx
    ensures r.log.CancelFrom(idx).Success?
    ensures var (s, ok) := AppendIfNext(SyncMemberships(r.(log := r.log.CancelFrom(idx).value)), idx, e);
            && ReplicaOk(s, full', first)
            && OnlyLog(r, s)
            && StoredAt(full, full', idx, e, r.promiseIdx, ok)
            && s.log.OldestStored() <= idx + 1
  {
    CancelKeeps(r, full, first, idx);
    StoredOver(full, e, idx, r.promiseIdx);
    hide ReplicaOk, AppendIfNext, SyncMemberships, LogState.CancelFrom, StoredAt;
    var cut := SyncMemberships(r.(log := r.log.CancelFrom(idx).value));
    AppendNextKeeps(cut, full[..idx - 1], first, e);
    var (s, ok) := AppendIfNext(cut, idx, e);
    full' := if ok then full[..idx - 1] + [e] else full[..idx - 1];
    OldestWithin(s, full', first);
  }

  lemma OldestWithin(r: Replica, full: seq<Entry>, first: Membership)
    requires ReplicaOk(r, full, first)
    ensures r.log.OldestStored() <= |full|
  {
  }

  lemma CommitMovesUp(r: Replica, full: seq<Entry>, first: Membership, commit: nat, promise: nat)
    requires ReplicaOk(r, full, first) && r.commitIdx <= commit <= promise <= |full| && r.promiseIdx <= promise
    ensures var s := SyncMemberships(r.(commitIdx := commit, promiseIdx := promise));
            && ReplicaOk(s, full, first) && Current(s) == Current(r)
            && s == r.(commitIdx := commit, promiseIdx := promise, membership := s.membership, uncommitted := s.uncommitted)
  {
    StoresLast(r.log, full);
    var c := r.(commitIdx := commit, promiseIdx := promise);
    assert Current(c) == Current(r);
    SyncFollowsLog(c, full, r.commitIdx, full, first);
  }

  lemma {:induction false} PromoteIgnoresPromise(r: Replica, promise: nat)
    ensures PromoteCommitted(r.(promiseIdx := promise)) == PromoteCommitted(r).(promiseIdx := promise)
    decreases |r.uncommitted|
  {
    if r.uncommitted != [] && r.uncommitted[0].0 <= r.commitIdx {
      PromoteIgnoresPromise(r.(membership := r.uncommitted[0].1, uncommitted := r.uncommitted[1..]), promise);
    }
  }

  lemma {:induction false} DiscardIgnoresPromise(r: Replica, promise: nat)
    ensures DiscardCancelled(r.(promiseIdx := promise)) == DiscardCancelled(r).(promiseIdx := promise)
    decreases |r.uncommitted|
  {
    var n := |r.uncommitted|;
    if n > 0 && r.uncommitted[n - 1].0 > r.log.LastIdx() {
      DiscardIgnoresPromise(r.(uncommitted := r.uncommitted[..n - 1]), promise);
    }
  }

  lemma SyncIgnoresPromise(r: Replica, promise: nat)
    ensures SyncMemberships(r.(promiseIdx := promise)) == SyncMemberships(r).(promiseIdx := promise)
  {
    hide PromoteCommitted, DiscardCancelled;
    PromoteIgnoresPromise(r, promise);
    DiscardIgnoresPromise(PromoteCommitted(r), promise);
  }

  lemma IndexesKeep(r: Replica, full: seq<Entry>, first: Membership, commit: nat, promise: nat)
    requires ReplicaOk(r, full, first) && r.role == Follower && commit <= promise <= |full|
    ensures var t := Advanced(r, commit, promise);
            && ReplicaOk(t, full, first)
            && t == r.(commitIdx := Max(r.commitIdx, commit), promiseIdx := Max(r.promiseIdx, promise),
                       membership := t.membership, uncommitted := t.uncommitted)
  {
    var c := r.(commitIdx := Max(r.commitIdx, commit));
    CommitMovesUp(r, full, first, c.commitIdx, Max(r.promiseIdx, promise));
    SyncIgnoresPromise(c, Max(r.promiseIdx, promise));
    SyncIgnoresPromise(c, c.promiseIdx);
  }

  // -------------------------------------------------- promising and committing

  lemma VotersListed(r: Replica, own: nat)
    requires r.me in Current(r).voting && Current(r).voting <= Current(r).all && r.followers.Keys == Current(r).all - {r.me}
    ensures StoredBy(r).Keys == PromisedBy(r, own).Keys == Current(r).voting
  {
  }

  /** A leader has an index for every voter, so the picks are in range. */
  lemma VotersCounted(r: Replica, full: seq<Entry>, first: Membership, own: nat)
    requires ReplicaOk(r, full, first) && r.role == Leader
    ensures StoredBy(r).Keys == PromisedBy(r, own).Keys == Current(r).voting
    ensures |StoredBy(r)| == |PromisedBy(r, own)| == |Current(r).voting|
    ensures 1 <= MembershipQuorum(r) <= |Current(r).voting| < U32
  {
    CurrentSmall(r, full, first);
    VotersListed(r, own);
    MapSize(StoredBy(r));
    MapSize(PromisedBy(r, own));
    QuorumSizeValue(|Current(r).voting|, r.superMajority);
  }

  lemma MapSize(m: map<PeerId, nat>)
    ensures |m| == |m.Keys|
  {
  }

  lemma CurrentSmall(r: Replica, full: seq<Entry>, first: Membership)
    requires EntriesOk(full) && MembershipOk(r, full, first)
    ensures SmallGroup(Current(r))
  {
    MembershipsOrdered(full, r.commitIdx);
  }

  lemma NewPromiseInLog(r: Replica, full: seq<Entry>, first: Membership)
    requires ReplicaOk(r, full, first) && r.role == Leader
    ensures r.promiseIdx <= NewPromise(r) <= |full|
  {
    StoresLast(r.log, full);
    VotersCounted(r, full, first, 0);
    var p := PickIsSome(StoredBy(r), MembershipQuorum(r));
    if p != r.me { assert FollowerOk(r.followers[p], |full|); }
  }

  /** A leader never commits beyond what it has promised. */
  lemma NewCommitPromised(r: Replica, full: seq<Entry>, first: Membership)
    requires ReplicaOk(r, full, first) && r.role == Leader
    ensures r.commitIdx <= NewCommit(r) <= NewPromise(r)
  {
    StoresLast(r.log, full);
    NewPromiseInLog(r, full, first);
    var own := NewPromise(r);
    VotersCounted(r, full, first, own);
    forall p | p in PromisedBy(r, own) ensures PromisedBy(r, own)[p] <= StoredBy(r)[p] {
      if p != r.me { assert FollowerOk(r.followers[p], |full|); }
    }
    PickMonotone(PromisedBy(r, own), StoredBy(r), MembershipQuorum(r));
  }

  lemma AdvanceKeeps(r: Replica, full: seq<Entry>, first: Membership)
    requires ReplicaOk(r, full, first)
    ensures var s := MaybeAdvanceCommitIndex(r);
            && ReplicaOk(s, full, first) && OldFollowers(r, s)
            && s == r.(commitIdx := s.commitIdx, promiseIdx := s.promiseIdx, membership := s.membership,
                       uncommitted := s.uncommitted, followers := s.followers)
            && Current(s) == Current(r)
            && (r.role == Leader ==> s.promiseIdx == NewPromise(r) && s.commitIdx == NewCommit(r))
            && (r.role != Leader ==> s == r)
  {
    hide SyncMemberships, NewPromise, NewCommit, Heartbeats, ReplicaOk;
    if r.role == Leader {
      NewPromiseInLog(r, full, first);
      NewCommitPromised(r, full, first);
      var t := r.(promiseIdx := NewPromise(r), commitIdx := NewCommit(r));
      if NewCommit(r) > r.commitIdx {
        CommitMovesUp(r, full, first, NewCommit(r), NewPromise(r));
        HeartbeatsKeep(SyncMemberships(t), full, first);
      } else {
        PromiseMovesUp(r, full, first, NewPromise(r));
        HeartbeatsKeep(t, full, first);
      }
    }
  }

  lemma PromiseMovesUp(r: Replica, full: seq<Entry>, first: Membership, promise: nat)
    requires ReplicaOk(r, full, first) && r.promiseIdx <= promise <= |full|
    ensures ReplicaOk(r.(promiseIdx := promise), full, first)
  {
  }

  lemma HeartbeatsKeep(r: Replica, full: seq<Entry>, first: Membership)
    requires ReplicaOk(r, full, first)
    ensures ReplicaOk(Heartbeats(r), full, first) && OldFollowers(r, Heartbeats(r))
    ensures Heartbeats(r) == r.(followers := Heartbeats(r).followers)
  {
    hide LogOk, MembershipOk;
    var h := Heartbeats(r);
    forall p | p in h.followers && r.role == Leader ensures FollowerOk(h.followers[p], |full|) {
      assert FollowerOk(r.followers[p], |full|);
    }
    RoleChangeKeeps(r, h, full, first);
  }

  /** What a leader will then have recorded as promised by the follower is no more than
      what it will have recorded as stored. */
  predicate PromiseFits(r: Replica, term: nat, m: Message, from: PeerId)
    requires m.AppendResponse?
  {
    term == r.term && r.role == Leader && from in r.followers && m.success ==>
      m.promiseIdx <= Max(m.matchIdx, r.followers[from].matchIdx)
  }

  /** Of the responses whose match is in the log, as validation sees to, exactly those
      that fit keep the replica in order. */
  lemma ResponseKeeps(r: Replica, full: seq<Entry>, first: Membership, term: nat, m: Message, from: PeerId)
    requires ReplicaOk(r, full, first) && m.AppendResponse? && m.matchIdx <= |full|
    ensures ReplicaOk(HandleAppendResponse(r, term, m, from), full, first) <==> PromiseFits(r, term, m, from)
  {
    hide LogOk, MembershipOk, BackOff;
    var s := HandleAppendResponse(r, term, m, from);
    if r.role == Leader && from in r.followers {
      assert FollowerOk(r.followers[from], |full|);
      forall p | p in s.followers && p != from ensures FollowerOk(s.followers[p], |full|) {
        assert FollowerOk(r.followers[p], |full|);
      }
      if PromiseFits(r, term, m, from) {
        RoleChangeKeeps(r, s, full, first);
      } else {
        assert !FollowerOk(s.followers[from], |full|);
      }
    }
  }

  /** A response that promises more than it matches passes validation. */
  const OVERPROMISE := AppendResponse(true, 0, Absent, 1, 1)

  /** Why that matters: two of them, to a leader of three voters that has promised
      nothing yet, make it commit what it has not promised. */
  lemma OverpromiseBreaksOrder(r: Replica, full: seq<Entry>, first: Membership, a: PeerId, b: PeerId)
    requires ReplicaOk(r, full, first) && r.role == Leader && r.promiseIdx == 0 && full != []
    requires Current(r).voting == {r.me, a, b} && r.me != a && r.me != b && a != b && r.superMajority == 0
    requires a in r.followers && b in r.followers && r.followers[a].matchIdx == 0 && r.followers[b].matchIdx == 0
    ensures !PromiseFits(r, r.term, OVERPROMISE, a) && !PromiseFits(r, r.term, OVERPROMISE, b)
    ensures CheckAppendResponse(r, OVERPROMISE) == NoError
    ensures var s := HandleAppendResponse(HandleAppendResponse(r, r.term, OVERPROMISE, a), r.term, OVERPROMISE, b);
            NewPromise(s) == 0 < NewCommit(s)
  {
    hide ReplicaOk, CheckAppendResponse, HandleAppendResponse, NewPromise, NewCommit;
    LeaderIsNoFollower(r, full, first);
    OverpromisePasses(r);
    Overpromised(r, a, b);
    OrderBroken(HandleAppendResponse(HandleAppendResponse(r, r.term, OVERPROMISE, a), r.term, OVERPROMISE, b), r.me, a, b);
  }

  lemma LeaderIsNoFollower(r: Replica, full: seq<Entry>, first: Membership)
    requires ReplicaOk(r, full, first) && r.role == Leader
    ensures r.me !in r.followers
  {
  }

  lemma OrderBroken(s: Replica, me: PeerId, a: PeerId, b: PeerId)
    requires s.promiseIdx == 0 && MembershipQuorum(s) == 2 && me != a && me != b && a != b
    requires StoredBy(s).Keys == {me, a, b} && StoredBy(s)[a] == 0 && StoredBy(s)[b] == 0
    requires PromisedBy(s, 0).Keys == {me, a, b} && PromisedBy(s, 0)[a] >= 1 && PromisedBy(s, 0)[b] >= 1
    ensures NewPromise(s) == 0 < NewCommit(s)
  {
    PicksOfThree(StoredBy(s), me, a, b);
    PicksOfThree(PromisedBy(s, 0), me, a, b);
    hide StoredBy, PromisedBy, MembershipQuorum, Pick;
  }

  lemma OverpromisePasses(r: Replica)
    ensures CheckAppendResponse(r, OVERPROMISE) == NoError
  {
  }

  lemma Overpromised(r: Replica, a: PeerId, b: PeerId)
    requires r.role == Leader && Current(r).voting == {r.me, a, b} && r.me != a && r.me != b && a != b && r.superMajority == 0
    requires a in r.followers && b in r.followers && r.followers[a].matchIdx == 0 && r.followers[b].matchIdx == 0
    requires r.me !in r.followers
    ensures var s := HandleAppendResponse(HandleAppendResponse(r, r.term, OVERPROMISE, a), r.term, OVERPROMISE, b);
            && s.promiseIdx == r.promiseIdx && MembershipQuorum(s) == 2
            && StoredBy(s).Keys == {r.me, a, b} && StoredBy(s)[a] == 0 && StoredBy(s)[b] == 0
            && PromisedBy(s, 0).Keys == {r.me, a, b} && PromisedBy(s, 0)[a] >= 1 && PromisedBy(s, 0)[b] >= 1
  {
    QuorumSizeValue(3, 0);
    assert |{r.me, a, b}| == 3;
    hide QuorumSize;
  }

  /** The second of three. */
  lemma PicksOfThree(at: map<PeerId, nat>, me: PeerId, a: PeerId, b: PeerId)
    requires at.Keys == {me, a, b} && me != a && me != b && a != b
    ensures at[a] == 0 && at[b] == 0 ==> Pick(at, 2) == 0
    ensures at[a] >= 1 && at[b] >= 1 ==> Pick(at, 2) >= 1
  {
    MapSize(at);
    assert |{me, a, b}| == 3;
    var k := Pick(at, 2);
    assert IsPick(at, 2, k);
    if at[a] == 0 && at[b] == 0 && k > 0 {
      assert Reached(at, k) <= {me};
      SubsetSize(Reached(at, k), {me});
    }
    if at[a] >= 1 && at[b] >= 1 && k == 0 {
      assert {a, b} <= Reached(at, 1);
      SubsetSize({a, b}, Reached(at, 1));
    }
  }

  // ------------------------------------------------------- roles and elections

  /** Terms, votes, roles and queued messages do not touch the log. */
  predicate SameLog(r: Replica, s: Replica) {
    && s.log == r.log && s.lastApplied == r.lastApplied && s.commitIdx == r.commitIdx && s.promiseIdx == r.promiseIdx
    && s.membership == r.membership && s.uncommitted == r.uncommitted
    && s.superMajority == r.superMajority && s.me == r.me && s.group == r.group
  }

  lemma RoleChangeKeeps(r: Replica, s: Replica, full: seq<Entry>, first: Membership)
    requires ReplicaOk(r, full, first) && SameLog(r, s) && RoleOk(s, |full|)
    ensures ReplicaOk(s, full, first)
  {
  }

  lemma ElectionKeeps(r: Replica, full: seq<Entry>, first: Membership)
    requires ReplicaOk(r, full, first)
    ensures ReplicaOk(ElectionTimeout(r), full, first)
  {
    hide LogOk, MembershipOk;
    var s := ElectionTimeout(r);
    assert SameLog(r, s) && Current(s) == Current(r);
    assert RoleOk(s, |full|);
    RoleChangeKeeps(r, s, full, first);
  }

  lemma TakeOfficeKeeps(r: Replica, full: seq<Entry>, first: Membership)
    requires ReplicaOk(r, full, first) && r.role == Candidate
    ensures ReplicaOk(TakeOffice(r), full, first)
  {
  }

  lemma ClientRequestKeeps(r: Replica, full: seq<Entry>, first: Membership, p: Payload) returns (full': seq<Entry>)
    requires ReplicaOk(r, full, first)
    requires r.role == Leader ==> KeepsVote(r.me, Entry(r.term, p, Absent))
    ensures var (s, err) := ClientRequest(r, p);
            && ReplicaOk(s, full', first)
            && (full' == full || (r.role == Leader && full' == full + [Entry(r.term, p, NextHash(r.log, Entry(r.term, p, Absent)))]))
            && s == r.(log := s.log, uncommitted := s.uncommitted, followers := s.followers)
            && OldFollowers(r, s)
            && (err == NoError <==> full' != full)
            && (err != NoError || !p.MembershipChange? ==> s == r.(log := s.log))
            && (full' != full ==> EntryOk(full'[|full|]))
  {
    var e := Entry(r.term, p, Absent);
    e := e.(hash := NextHash(r.log, e));
    if r.role == Leader && !r.relinquishing {
      LogAppendKeeps(r, full, first, e);
      full' := if LogAppend(r, e).1 == NoError then full + [e] else full;
    } else {
      full' := full;
    }
  }

  lemma SendAllKeeps(r: Replica, full: seq<Entry>, first: Membership)
    requires ReplicaOk(r, full, first)
    ensures ReplicaOk(AppendEntriesToAll(r), full, first) && OldFollowers(r, AppendEntriesToAll(r))
  {
    hide LogOk, MembershipOk, ShouldSend, AppendRequestFor;
    var s := AppendEntriesToAll(r);
    forall p | p in s.followers && r.role == Leader ensures FollowerOk(s.followers[p], |full|) {
      assert FollowerOk(r.followers[p], |full|);
    }
    RoleChangeKeeps(r, s, full, first);
  }

  /** What a log to build around must be.  A log that counts as committed needs the
      membership it has led to; any other must store its first entry and hold no change
      of the group, since nothing of it is tracked. */
  predicate Buildable(m: Membership, log: LogState, committed: bool, full: seq<Entry>, first: Membership) {
    if committed then m == GroupAt(full, |full|, first) else m == first && log.oldest == 1 && NoChange(full)
  }

  /** A replica starts in order exactly if its log was fit to build around. */
  lemma BuiltOk(group: nat, me: PeerId, m: Membership, superMajority: nat, chunkBytes: nat, log: LogState, committed: bool, full: seq<Entry>, first: Membership)
    requires SmallGroup(m) && superMajority < U32
    requires Stores(log, full) && log.Bounded() && EntriesOk(full) && Chained(full)
    ensures var r := Built(group, me, m, superMajority, chunkBytes, log, committed);
            && (ReplicaOk(r, full, first) <==> Buildable(m, log, committed, full, first))
            && r.lastApplied == r.commitIdx == r.promiseIdx == if committed then |full| else 0
  {
    hide Chained, EntryOk, SmallGroup;
    StoresLast(log, full);
    if !committed { NoneTracked(full); }
  }

  lemma {:induction false} NoneTracked(full: seq<Entry>)
    requires EntriesOk(full)
    ensures MembershipsAfter(full, 0) == [] <==> NoChange(full)
  {
    if full != [] {
      var n := |full| - 1;
      NoneTracked(full[..n]);
      if MembershipsAfter(full, 0) == [] {
        assert forall i | 0 <= i < n :: full[i] == full[..n][i];
      }
    }
  }

  /** Such a leader exists: one of three voters, just elected by the second. */
  lemma LeaderOfThree() returns (r: Replica, full: seq<Entry>, first: Membership)
    ensures ReplicaOk(r, full, first) && r.role == Leader && r.promiseIdx == 0 && full != []
    ensures r.me == 0 && Current(r).voting == {0, 1, 2} && r.superMajority == 0
    ensures 1 in r.followers && 2 in r.followers && r.followers[1].matchIdx == 0 && r.followers[2].matchIdx == 0
  {
    hide ReplicaOk, QuorumSize, LogState.Append, ElectionTimeout;
    var v: Replica;
    v, first := ElectedOfThree();
    TakeOfficeKeeps(v, [], first);
    FirstAppend(v.log, Entry(1, Noop, Next(Zeros, 1, 1, Noop)));
    full := ClientRequestKeeps(TakeOffice(v), [], first, Noop);
    r := MaybeBecomeLeader(v);
  }

  lemma ElectedOfThree() returns (v: Replica, first: Membership)
    ensures ReplicaOk(v, [], first) && v.role == Candidate && v.me == 0 && v.term == 1 && v.votes == {0, 1} && MembershipQuorum(v) == 2
    ensures v.membership == first == Membership({0, 1, 2}, {0, 1, 2}) && v.uncommitted == [] && v.superMajority == 0
    ensures v.log == LogState(1, [], 0, 1000) && v.promiseIdx == 0 && v.lastApplied == 0
  {
    hide ReplicaOk, QuorumSize;
    var b: Replica;
    b, first := BuiltOfThree();
    ElectionKeeps(b, [], first);
    v := HandleVoteResponse(ElectionTimeout(b), 1, VoteResponse(true), 1);
    RoleChangeKeeps(ElectionTimeout(b), v, [], first);
    QuorumSizeValue(3, 0);
    assert |{0, 1, 2}| == 3;
  }

  lemma BuiltOfThree() returns (b: Replica, first: Membership)
    ensures first == Membership({0, 1, 2}, {0, 1, 2}) && ReplicaOk(b, [], first)
    ensures b == Built(0, 0, first, 0, 0, LogState(1, [], 0, 1000), false)
  {
    hide ReplicaOk;
    first := Membership({0, 1, 2}, {0, 1, 2});
    assert |{0, 1, 2}| == 3;
    b := Built(0, 0, first, 0, 0, LogState(1, [], 0, 1000), false);
    BuiltOk(0, 0, first, 0, 0, LogState(1, [], 0, 1000), false, [], first);
  }

  lemma FirstAppend(log: LogState, e: Entry)
    requires log == LogState(1, [], 0, 1000) && e.term == 1 && e.payload == Noop && e.hash != Absent
    ensures log.Append(e, 0).1 == NoError
  {
  }

  /** The next committed entry is always still stored. */
  lemma CommittedStored(r: Replica, full: seq<Entry>, first: Membership)
    requires ReplicaOk(r, full, first) && r.lastApplied < r.commitIdx
    ensures r.log.At(r.lastApplied + 1) == Some(full[r.lastApplied])
    ensures ReplicaOk(r.(lastApplied := r.lastApplied + 1), full, first)
  {
    StoresLast(r.log, full);
  }
}
