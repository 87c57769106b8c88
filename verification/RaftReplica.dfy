/** The replica as the enclave runs it: one object whose fields the handlers
    update in place.  Every method does to the object's state exactly what the
    function of the same name in ReplicaSpec does to the value, and keeps the
    replica's invariant.  The commit and promise indexes are guarded by leaves in
    the Merkle tree, and the checks of these leaves never fail. */
module RaftReplica {
  import opened RaftTypes
  import opened HashChain
  import opened Quorum
  import opened GroupMembership
  import opened BoundedLog
  import opened ReplicaSpec
  import opened ReplicaInvariant
  import opened Picks
  import Merkle

  /** What a leaf holds for an index: the first bytes of the hash of the entry there. */
  type Marker = Hash -> Merkle.Hash

  function MarkAt(mark: Marker, log: LogState, idx: nat): Merkle.Hash {
    match log.At(idx) case None => 0 case Some(e) => mark(e.hash)
  }

  function MarkOf(mark: Marker, full: seq<Entry>, idx: nat): Merkle.Hash
    requires idx <= |full|
  {
    if idx == 0 then 0 else mark(full[idx - 1].hash)
  }

  /** The entries at the commit and promise indexes are never dropped. */
  lemma MarksStored(mark: Marker, r: Replica, full: seq<Entry>, first: Membership)
    requires ReplicaOk(r, full, first)
    ensures r.commitIdx <= r.promiseIdx <= |full|
    ensures MarkAt(mark, r.log, r.commitIdx) == MarkOf(mark, full, r.commitIdx)
    ensures MarkAt(mark, r.log, r.promiseIdx) == MarkOf(mark, full, r.promiseIdx)
  {
    hide MembershipOk, RoleOk, EntriesOk, Chained;
    StoresAt(r.log, full, r.commitIdx);
    StoresAt(r.log, full, r.promiseIdx);
  }

  lemma PrefixCut(full: seq<Entry>, full': seq<Entry>, promise: nat, n: nat)
    requires promise <= n <= |full| && full[..n] <= full'
    ensures full[..promise] <= full'
  {
    assert full[..promise] == full[..n][..promise];
  }

  /** The two leaves hold the marks of the two indexes. */
  ghost predicate Marks(mark: Marker, values: map<Merkle.Address, Merkle.Hash>, commitLeaf: Merkle.Address, promiseLeaf: Merkle.Address,
                        full: seq<Entry>, commitIdx: nat, promiseIdx: nat) {
    && commitLeaf != promiseLeaf && commitLeaf in values && promiseLeaf in values
    && commitIdx <= promiseIdx <= |full|
    && values[commitLeaf] == MarkOf(mark, full, commitIdx) && values[promiseLeaf] == MarkOf(mark, full, promiseIdx)
  }

  /** What an append relies on: there is an entry to drop whenever one may be
      dropped, and the new index is above every tracked membership. */
  lemma BeforeAppend(r: Replica, full: seq<Entry>, first: Membership, e: Entry)
    requires ReplicaOk(r, full, first)
    ensures r.log.Bounded() && r.lastApplied <= r.log.oldest + |r.log.entries|
    ensures r.role == Leader ==> r.me !in r.followers
    ensures r.uncommitted == [] || r.uncommitted[|r.uncommitted| - 1].0 <= |full|
    ensures r.log.Append(e, r.lastApplied).1 == NoError ==> r.log.Append(e, r.lastApplied).0.LastIdx() == |full| + 1
  {
    hide Chained, MembershipsAfter;
    StoresLast(r.log, full);
    MembershipsOrdered(full, r.commitIdx);
    AppendRefines(r.log, full, e, r.lastApplied);
  }

  /** What sending to one peer does. */
  function SendTo(r: Replica, p: PeerId): Replica {
    if r.role != Leader || p !in r.followers || !ShouldSend(r.log, r.followers[p]) then r
    else
      r.(followers := r.followers[p := Sent(r, r.followers[p])],
         outbox := r.outbox + {RequestTo(r, p)})
  }

  function Due(r: Replica, done: set<PeerId>): set<PeerId> {
    set p | p in done && p in r.followers && ShouldSend(r.log, r.followers[p])
  }

  function RequestTo(r: Replica, p: PeerId): Sendable
    requires p in r.followers
  {
    Sendable(Some(p), RaftMessage(r.group, r.term, AppendRequestFor(r, r.followers[p])))
  }

  /** What sending to each of `done` does. */
  function SentTo(r: Replica, done: set<PeerId>): Replica {
    if r.role != Leader then r
    else
      r.(followers := map p | p in r.followers :: if p in Due(r, done) then Sent(r, r.followers[p]) else r.followers[p],
         outbox := r.outbox + set p | p in Due(r, done) :: RequestTo(r, p))
  }

  lemma SentToNone(r: Replica)
    ensures SentTo(r, {}) == r
  {
    if r.role == Leader {
      assert Due(r, {}) == {};
      assert SentTo(r, {}).followers == r.followers;
      assert SentTo(r, {}).outbox == r.outbox;
    }
  }

  lemma SentToAll(r: Replica)
    ensures SentTo(r, Current(r).all - {r.me}) == AppendEntriesToAll(r)
  {
    if r.role == Leader {
      var due := set p | p in Current(r).all && p != r.me && p in r.followers && ShouldSend(r.log, r.followers[p]);
      assert due == Due(r, Current(r).all - {r.me});
      assert (set p | p in due :: RequestTo(r, p))
        == set p | p in due :: Sendable(Some(p), RaftMessage(r.group, r.term, AppendRequestFor(r, r.followers[p])));
    }
  }

  /** One peer's request does not depend on what the others were sent. */
  lemma SentToMore(r: Replica, done: set<PeerId>, p: PeerId)
    requires p !in done
    ensures SendTo(SentTo(r, done), p) == SentTo(r, done + {p})
  {
    hide ShouldSend, AppendRequestFor, Sent;
    if r.role == Leader {
      var s, b := SentTo(r, done), SentTo(r, done + {p});
      if p in r.followers && ShouldSend(r.log, r.followers[p]) {
        assert Due(r, done + {p}) == Due(r, done) + {p};
        assert s.followers[p] == r.followers[p];
        RequestUnchanged(r, s, r.followers[p]);
        SentUnchanged(r, s, r.followers[p]);
        SameFollowers(r, done, p);
        SameOutbox(r, done, p);
      } else {
        assert Due(r, done + {p}) == Due(r, done);
      }
    }
  }

  lemma NothingToTake(log: LogState, idx: nat, limit: nat)
    requires log.LastIdx() < idx
    ensures TakeEntries(log, idx, 0, limit) == []
  {
  }

  lemma NoIndexZero(log: LogState)
    requires log.oldest >= 1
    ensures log.TermAt(0) == 0 && log.HashAt(0) == Absent
  {
  }

  lemma RequestUnchanged(r: Replica, s: Replica, f: Replication)
    requires s == r.(followers := s.followers, outbox := s.outbox)
    ensures AppendRequestFor(s, f) == AppendRequestFor(r, f)
  {
  }

  lemma SentUnchanged(r: Replica, s: Replica, f: Replication)
    requires s == r.(followers := s.followers, outbox := s.outbox)
    ensures Sent(s, f) == Sent(r, f)
  {
    RequestUnchanged(r, s, f);
    hide AppendRequestFor;
  }

  lemma SameFollowers(r: Replica, done: set<PeerId>, p: PeerId)
    requires r.role == Leader && p !in done && p in r.followers && Due(r, done + {p}) == Due(r, done) + {p}
    ensures SentTo(r, done).followers[p := Sent(r, r.followers[p])] == SentTo(r, done + {p}).followers
  {
  }

  lemma SameOutbox(r: Replica, done: set<PeerId>, p: PeerId)
    requires r.role == Leader && p in r.followers && Due(r, done + {p}) == Due(r, done) + {p}
    ensures SentTo(r, done).outbox + {RequestTo(r, p)} == SentTo(r, done + {p}).outbox
  {
    var due := Due(r, done);
    assert (set x | x in due + {p} :: RequestTo(r, x)) == (set x | x in due :: RequestTo(r, x)) + {RequestTo(r, p)};
  }

  lemma LeaderIndexes(r: Replica, full: seq<Entry>, first: Membership)
    requires ReplicaOk(r, full, first) && r.role == Leader
    ensures r.me !in r.followers && 1 <= MembershipQuorum(r) <= |StoredBy(r)|
    ensures r.log.LastIdx() == |full|
    ensures r.promiseIdx <= NewPromise(r) && r.commitIdx <= NewCommit(r)
  {
    StoresLast(r.log, full);
    VotersCounted(r, full, first, 0);
  }

  lemma MatchChecked(r: Replica, full: seq<Entry>, first: Membership, m: Message)
    requires ReplicaOk(r, full, first) && m.AppendResponse? && CheckLogHash(r, m.matchIdx, 0, m.matchHash, false) == NoError
    ensures m.matchIdx <= |full| == r.log.LastIdx()
    ensures r.log.At(m.matchIdx).Some? ==> m.matchHash == r.log.At(m.matchIdx).value.hash
  {
    StoresLast(r.log, full);
  }

  lemma FollowKeeps(r: Replica, full: seq<Entry>, first: Membership, from: PeerId)
    requires ReplicaOk(r, full, first) && r.role != Leader
    ensures ReplicaOk(FollowLeader(r, from), full, first)
  {
    RoleChangeKeeps(r, FollowLeader(r, from), full, first);
  }

  lemma ReplyKeeps(r: Replica, full: seq<Entry>, first: Membership, to: Option<PeerId>, m: Message)
    requires ReplicaOk(r, full, first)
    ensures ReplicaOk(Send(r, to, m), full, first)
  {
    RoleChangeKeeps(r, Send(r, to, m), full, first);
  }

  lemma PrevInLog(r: Replica, full: seq<Entry>, first: Membership, prev: nat)
    requires ReplicaOk(r, full, first)
    ensures prev == 0 || r.log.At(prev).Some? ==> prev <= |full|
  {
    StoresLast(r.log, full);
  }

  lemma ConflictAbovePromise(r: Replica, full: seq<Entry>, first: Membership, idx: nat, e: Entry)
    requires ReplicaOk(r, full, first) && r.log.TermAt(idx) != 0 && r.log.TermAt(idx) != e.term
    ensures 1 <= idx <= |full| && full[idx - 1].term != e.term
    ensures idx <= r.log.oldest + |r.log.entries| && r.log.Bounded()
  {
    StoresLast(r.log, full);
  }

  lemma NextIs(r: Replica, full: seq<Entry>, first: Membership)
    requires ReplicaOk(r, full, first)
    ensures r.log.NextIdx() == |full| + 1
  {
    StoresLast(r.log, full);
  }

  lemma CommitWithin(r: Replica, full: seq<Entry>, first: Membership)
    requires ReplicaOk(r, full, first)
    ensures r.lastApplied <= r.commitIdx <= |full|
  {
  }

  lemma BoundedIs(r: Replica, full: seq<Entry>, first: Membership)
    requires ReplicaOk(r, full, first)
    ensures r.log.Bounded()
  {
  }

  lemma StepDownKeeps(r: Replica, s: Replica, full: seq<Entry>, first: Membership)
    requires ReplicaOk(r, full, first) && SameLog(r, s) && s.role == Follower
    ensures ReplicaOk(s, full, first)
  {
    RoleChangeKeeps(r, s, full, first);
  }

  lemma OutboxRole(r: Replica, full: seq<Entry>, first: Membership)
    requires ReplicaOk(r, full, first)
    ensures RoleOk(r.(outbox := {}), |full|)
  {
  }

  lemma OldestIs(r: Replica, full: seq<Entry>, first: Membership)
    requires ReplicaOk(r, full, first)
    ensures r.log.oldest >= 1
  {
  }

  lemma RelinquishingKeeps(r: Replica, full: seq<Entry>, first: Membership)
    requires ReplicaOk(r, full, first)
    ensures ReplicaOk(r.(relinquishing := true), full, first)
  {
    RoleChangeKeeps(r, r.(relinquishing := true), full, first);
  }

  lemma NoVoters(voting: set<PeerId>)
    ensures Lists([], Matches(map[], voting)) && Lists([], Promises(map[], voting))
  {
    ListsEmpty();
    assert Matches(map[], voting) == map[] && Promises(map[], voting) == map[];
  }

  lemma OneMoreVoter(seen: map<PeerId, Replication>, p: PeerId, f: Replication, voting: set<PeerId>, stored: seq<nat>, promised: seq<nat>)
    requires p !in seen && Lists(stored, Matches(seen, voting)) && Lists(promised, Promises(seen, voting))
    ensures p in voting ==> Lists(stored + [f.matchIdx], Matches(seen[p := f], voting))
    ensures p in voting ==> Lists(promised + [f.promiseIdx], Promises(seen[p := f], voting))
    ensures p !in voting ==> Lists(stored, Matches(seen[p := f], voting)) && Lists(promised, Promises(seen[p := f], voting))
  {
    hide Lists;
    if p in voting {
      ListsSnoc(stored, Matches(seen, voting), p, f.matchIdx);
      ListsSnoc(promised, Promises(seen, voting), p, f.promiseIdx);
      assert Matches(seen[p := f], voting) == Matches(seen, voting)[p := f.matchIdx];
      assert Promises(seen[p := f], voting) == Promises(seen, voting)[p := f.promiseIdx];
    } else {
      assert Matches(seen[p := f], voting) == Matches(seen, voting);
      assert Promises(seen[p := f], voting) == Promises(seen, voting);
    }
  }

  lemma OwnIndex(s: seq<nat>, at: map<PeerId, nat>, me: PeerId, x: nat)
    requires Lists(s, at) && me !in at
    ensures Lists(s + [x], at[me := x]) && |s| + 1 == |at[me := x]|
  {
    ListsSnoc(s, at, me, x);
  }

  lemma AloneSendsNothing(r: Replica, merkleOk: bool)
    requires r.uncommitted == [] && r.membership.all == {r.me} && r.outbox == {} && r.role == Follower
    ensures Started(r, merkleOk).outbox == {}
  {
  }

  class Raft {
    const group: nat
    const me: PeerId
    const superMajority: nat
    const chunkBytes: nat
    const log: Log
    const tree: Merkle.Tree
    const commitLeaf: Merkle.Address
    const promiseLeaf: Merkle.Address
    const mark: Marker

    var membership: Membership
    var uncommitted: seq<(nat, Membership)>
    var term: nat
    var votedFor: Option<PeerId>
    var role: Role
    var knownLeader: Option<PeerId>
    var votes: set<PeerId>
    var followers: map<PeerId, Replication>
    var relinquishing: bool
    var lastApplied: nat
    var commitIdx: nat
    var promiseIdx: nat
    var outbox: set<Sendable>

    /** The log since index 1, with the entries that have been dropped. */
    ghost var full: seq<Entry>

    /** The membership of the group before that log. */
    ghost const first: Membership

    ghost function View(): Replica
      reads this, log
    {
      Replica(group, me, superMajority, chunkBytes, membership, uncommitted, term, votedFor, role, knownLeader, votes,
              followers, relinquishing, log.State(), lastApplied, commitIdx, promiseIdx, outbox)
    }

    ghost predicate Ordered()
      reads this, log
    {
      ReplicaOk(View(), full, first)
    }

    ghost predicate Marked()
      reads this, tree
    {
      tree.Valid() && Marks(mark, Merkle.Values(tree.View()), commitLeaf, promiseLeaf, full, commitIdx, promiseIdx)
    }

    ghost predicate Valid()
      reads this, log, tree
    {
      Ordered() && Marked()
    }

    /** The leaves of the tree that are not this replica's. */
    ghost function Others(): map<Merkle.Address, Merkle.Hash>
      reads tree
    {
      Merkle.Values(tree.View()) - {commitLeaf, promiseLeaf}
    }

    twostate predicate IndexesKept()
      reads this
    {
      commitIdx == old(commitIdx) && promiseIdx == old(promiseIdx) && lastApplied == old(lastApplied)
    }

    /** What had been promised still is, and is still in the log. */
    twostate predicate PromisesKept()
      reads this
    {
      old(promiseIdx) <= promiseIdx && old(promiseIdx) <= |old(full)| && old(full)[..old(promiseIdx)] <= full
    }

    /** Nothing that matters to the leaves has changed. */
    twostate lemma QuietlyMarked()
      requires old(Marked()) && commitIdx == old(commitIdx) && promiseIdx == old(promiseIdx) && full == old(full) && unchanged(tree)
      ensures Marked()
    {
    }

    /** Other leaves of the tree may come, go and change. */
    twostate lemma LeavesKept()
      requires old(Marked()) && unchanged(this) && tree.Valid()
      requires commitLeaf in Merkle.Values(tree.View()) && promiseLeaf in Merkle.Values(tree.View())
      requires old(commitLeaf in Merkle.Values(tree.View()) && promiseLeaf in Merkle.Values(tree.View()))
      requires Merkle.Values(tree.View())[commitLeaf] == old(Merkle.Values(tree.View())[commitLeaf])
      requires Merkle.Values(tree.View())[promiseLeaf] == old(Merkle.Values(tree.View())[promiseLeaf])
      ensures Marked()
    {
      hide Merkle.Values, Merkle.Tree.Valid, MarkOf;
    }

    /** The leaves are there to be updated. */
    ghost predicate HasLeaves()
      reads tree
    {
      && tree.Sound() && tree.awaiting <= {commitLeaf, promiseLeaf} && commitLeaf != promiseLeaf
      && commitLeaf in Merkle.Values(tree.View()) && promiseLeaf in Merkle.Values(tree.View())
    }

    lemma MarkedHasLeaves()
      requires Marked()
      ensures HasLeaves()
    {
      hide Merkle.Tree.Sound, Merkle.Values;
    }

    twostate lemma StillMarked()
      requires old(Marked()) && IndexesKept() && PromisesKept() && unchanged(tree)
      ensures Marked()
    {
      hide Merkle.Tree.Valid, Merkle.Values;
      assert old(full)[..promiseIdx][..commitIdx] == full[..commitIdx];
      assert commitIdx > 0 ==> full[commitIdx - 1] == full[..commitIdx][commitIdx - 1];
    }

    /** Builds a replica around a log, the empty one of a founder or the committed log
        `full` of which a state transfer has left the end.  Both leaves are created before
        either is updated.  The only voter of a group becomes its leader at once, and a
        CHECK demands that it is alone then, so that it has nothing to send. */
    constructor (group: nat, me: PeerId, tree: Merkle.Tree, mark: Marker, m: Membership, log: Log, superMajority: nat, chunkBytes: nat,
                 committedLog: bool, ghost full: seq<Entry>, ghost first: Membership)
      requires SmallGroup(m) && superMajority < U32 && tree.Valid()
      requires log.Valid() && Stores(log.State(), full) && EntriesOk(full) && Chained(full)
      requires Buildable(m, log.State(), committedLog, full, first)
      requires me in m.voting && |m.voting| == 1 ==> m.all == {me}
      modifies log, tree
      ensures Valid() && this.log == log && this.tree == tree && this.mark == mark && this.first == first
      ensures View() == Started(Built(group, me, m, superMajority, chunkBytes, old(log.State()), committedLog), true)
      ensures outbox == {}
      ensures full <= this.full && lastApplied == (if committedLog then |full| else 0)
      ensures |m.voting| != 1 || me !in m.voting ==> this.full == full
      ensures Others() == old(Merkle.Values(tree.View()))
    {
      hide Merkle.Tree.Sound, Merkle.Values, ReplicaOk, ChangeStateAndSend, ReplicaSpec.ElectionTimeout, Marks;
      this.group, this.me, this.superMajority, this.chunkBytes := group, me, superMajority, chunkBytes;
      this.membership, this.uncommitted := m, [];
      term, votedFor, role, knownLeader, votes, followers, relinquishing := 0, None, Follower, None, {}, map[], false;
      var done := if committedLog then log.State().LastIdx() else 0;
      lastApplied, commitIdx, promiseIdx, outbox, this.full, this.log := done, done, done, {}, full, log;
      var c, p := NewLeaves(tree);
      this.tree, this.mark, this.first, commitLeaf, promiseLeaf := tree, mark, first, c, p;
      new;
      BuiltOk(group, me, m, superMajority, chunkBytes, log.State(), committedLog, full, first);
      UpdateMerkleTree();
      if m.all == {me} { AloneSendsNothing(View(), true); }
      hide Marked, Others, HasLeaves;
      StartAlone();
    }

    /** The only voter of a group makes itself leader at once. */
    method StartAlone()
      requires Valid()
      modifies this, log, tree
      ensures Valid() && old(full) <= full && lastApplied == old(lastApplied) && Others() == old(Others())
      ensures View() == Started(old(View()), true)
      ensures !IsVoting(old(View())) || |Current(old(View())).voting| != 1 ==> full == old(full)
    {
      hide ReplicaOk, ChangeStateAndSend, ReplicaSpec.ElectionTimeout, Marked, Others;
      if me in CurrentMembership().voting && |CurrentMembership().voting| == 1 {
        ElectionTimeout();
        QuietlyMarked();
        MaybeChangeStateAndSendMessages();
      }
    }

    static method NewLeaves(tree: Merkle.Tree) returns (c: Merkle.Address, p: Merkle.Address)
      requires tree.Valid()
      modifies tree
      ensures tree.Sound() && tree.awaiting == {c, p} && c != p && c in Merkle.Values(tree.View()) && p in Merkle.Values(tree.View())
      ensures Merkle.Values(tree.View()) - {c, p} == old(Merkle.Values(tree.View()))
    {
      hide Merkle.Tree.Sound, Merkle.Values;
      c := tree.NewAddress();
      tree.Create(c);
      p := tree.NewAddress();
      tree.Create(p);
    }

    // ------------------------------------------------------------- the Merkle tree

    method UpdateMerkleTree()
      requires Ordered() && HasLeaves()
      modifies tree
      ensures Valid() && Others() == old(Others())
    {
      hide ReplicaOk, Merkle.Tree.Sound, Merkle.Values, MarkAt, MarkOf;
      MarksStored(mark, View(), full, first);
      tree.Update(commitLeaf, MarkAt(mark, log.State(), commitIdx));
      tree.Update(promiseLeaf, MarkAt(mark, log.State(), promiseIdx));
    }

    /** The check never fails: whatever moves an index also updates its leaf, and what is
        dropped from the log lies below both. */
    method VerifyMerkleTree() returns (ok: bool)
      requires Valid()
      ensures ok
    {
      hide ReplicaOk, Merkle.Tree.Valid, Merkle.Values, MarkAt, MarkOf;
      MarksStored(mark, View(), full, first);
      ok := tree.Confirm(commitLeaf, MarkAt(mark, log.State(), commitIdx));
      if !ok { return; }
      ok := tree.Confirm(promiseLeaf, MarkAt(mark, log.State(), promiseIdx));
    }

    function CurrentMembership(): Membership
      reads this
    {
      if uncommitted == [] then membership else uncommitted[|uncommitted| - 1].1
    }

    function MembershipQuorumSize(): nat
      reads this
    {
      QuorumSize(|CurrentMembership().voting|, superMajority)
    }

    method SetRole(r: Role)
      modifies this
      ensures View() == ReplicaSpec.SetRole(old(View()), r) && full == old(full)
    {
      role, knownLeader, votes, followers, relinquishing := r, None, {}, map[], false;
    }

    /** A message to oneself fails a CHECK. */
    method AddSendableMessage(to: Option<PeerId>, m: Message)
      requires to != Some(me)
      modifies this`outbox
      ensures View() == if to.None? then Broadcast(old(View()), m) else Send(old(View()), to, m)
    {
      if to.None? && CurrentMembership().all == {me} { return; }
      outbox := outbox + {Sendable(to, RaftMessage(group, term, m))};
    }

    // ------------------------------------------------------------- membership

    method HandleMembershipChange()
      requires role == Leader ==> me !in followers
      modifies this`followers
      ensures View() == ReplicaSpec.HandleMembershipChange(old(View()))
    {
      if role != Leader { return; }
      AddNewFollowers();
      DropOldFollowers();
    }

    method AddNewFollowers()
      modifies this`followers
      ensures followers.Keys == old(followers.Keys) + (CurrentMembership().all - {me})
      ensures forall p | p in followers :: followers[p] == (if p in old(followers) then old(followers)[p] else NewFollower(old(View())))
    {
      var all := CurrentMembership().all;
      ghost var was := followers;
      var rest := all - {me};
      while rest != {}
        invariant rest <= all - {me}
        invariant followers.Keys == was.Keys + (all - {me} - rest)
        invariant forall p | p in followers :: followers[p] == (if p in was then was[p] else NewFollower(old(View())))
        decreases rest
      {
        var p := Least(rest);
        rest := rest - {p};
        if p !in followers {
          followers := followers[p := Replication(log.State().NextIdx(), 0, 0, None, true, true)];
        }
      }
    }

    method DropOldFollowers()
      modifies this`followers
      ensures followers == map p | p in old(followers) && p in CurrentMembership().all :: old(followers)[p]
    {
      var all := CurrentMembership().all;
      ghost var was := followers;
      var rest := followers.Keys;
      while rest != {}
        invariant rest <= was.Keys
        invariant followers == map p | p in was && (p in rest || p in all) :: was[p]
        decreases rest
      {
        var p := Least(rest);
        rest := rest - {p};
        if p !in all { followers := followers - {p}; }
      }
    }

    method AddUncommittedMembership(idx: nat, m: Membership)
      requires role == Leader ==> me !in followers
      requires uncommitted == [] || uncommitted[|uncommitted| - 1].0 < idx  // the CHECK on log order
      modifies this`uncommitted, this`followers
      ensures View() == AddUncommitted(old(View()), idx, m)
    {
      uncommitted := uncommitted + [(idx, m)];
      HandleMembershipChange();
    }

    method MaybeChangeUncommittedMembershipsBasedOnLog()
      requires role == Leader ==> me !in followers
      modifies this`membership, this`uncommitted, this`followers
      ensures View() == SyncMemberships(old(View()))
    {
      var changed := false;
      while uncommitted != [] && uncommitted[0].0 <= commitIdx
        invariant PromoteCommitted(View()) == PromoteCommitted(old(View()))
        invariant followers == old(followers)
        invariant changed == (uncommitted != old(uncommitted)) && |uncommitted| <= |old(uncommitted)|
        decreases |uncommitted|
      {
        membership := uncommitted[0].1;
        uncommitted := uncommitted[1..];
        changed := true;
      }
      assert View() == PromoteCommitted(old(View()));
      ghost var promoted := View();
      while uncommitted != [] && uncommitted[|uncommitted| - 1].0 > log.State().LastIdx()
        invariant DiscardCancelled(View()) == DiscardCancelled(promoted)
        invariant followers == old(followers)
        invariant changed == (uncommitted != old(uncommitted)) && |uncommitted| <= |old(uncommitted)|
        decreases |uncommitted|
      {
        uncommitted := uncommitted[..|uncommitted| - 1];
        changed := true;
      }
      assert View() == DiscardCancelled(promoted);
      if changed { HandleMembershipChange(); }
    }

    // -------------------------------------------------------------- elections

    method ElectionTimeout()
      requires Ordered()
      modifies this
      ensures Ordered() && full == old(full) && IndexesKept()
      ensures View() == ReplicaSpec.ElectionTimeout(old(View()))
    {
      hide ReplicaOk;
      ElectionKeeps(View(), full, first);
      if me !in CurrentMembership().voting { return; }
      if role == Leader { return; }
      term := term + 1;
      votedFor := Some(me);
      SetRole(Candidate);
      votes := {me};
      var last := log.State();
      AddSendableMessage(None, VoteRequest(last.LastIdx(), last.LastTerm(), last.HashAt(last.LastIdx())));
    }

    method UpdateTerm(msgTerm: nat)
      requires Ordered()
      modifies this
      ensures Ordered() && full == old(full) && IndexesKept()
      ensures View() == ReplicaSpec.UpdateTerm(old(View()), msgTerm)
    {
      if msgTerm <= term { return; }
      term := msgTerm;
      SetRole(Follower);
      votedFor := None;
      RoleChangeKeeps(old(View()), View(), full, first);
    }

    method HandleVoteRequest(msgTerm: nat, m: Message, from: PeerId)
      requires Ordered() && m.VoteRequest? && from != me
      modifies this
      ensures Ordered() && full == old(full) && IndexesKept()
      ensures View() == ReplicaSpec.HandleVoteRequest(old(View()), msgTerm, m, from)
    {
      var lastIdx, lastTerm := log.State().LastIdx(), log.State().LastTerm();
      var logOk := m.lastTerm > lastTerm || (m.lastTerm == lastTerm && m.lastIdx >= lastIdx);
      var grant := msgTerm == term && logOk && (votedFor.None? || votedFor.value == from);
      if msgTerm > term { return; }
      if grant { votedFor := Some(from); }
      AddSendableMessage(Some(from), VoteResponse(grant));
      RoleChangeKeeps(old(View()), View(), full, first);
    }

    method HandleVoteResponse(msgTerm: nat, m: Message, from: PeerId)
      requires Ordered() && m.VoteResponse?
      modifies this
      ensures Ordered() && full == old(full) && IndexesKept()
      ensures View() == ReplicaSpec.HandleVoteResponse(old(View()), msgTerm, m, from)
    {
      if msgTerm != term { return; }
      if role != Candidate { return; }
      if m.granted && from in CurrentMembership().voting {
        votes := votes + {from};
        RoleChangeKeeps(old(View()), View(), full, first);
      }
    }

    method MaybeBecomeLeader()
      requires Ordered()
      modifies this, log
      ensures Ordered() && old(full) <= full && IndexesKept()
      ensures View() == ReplicaSpec.MaybeBecomeLeader(old(View()))
    {
      if role != Candidate { return; }
      if |votes| < MembershipQuorumSize() { return; }
      hide ReplicaOk, TakeOffice, ClientRequest;
      TakeOfficeKeeps(View(), full, first);
      BecomeLeader();
      var err := ClientRequestInternal(Noop);
    }

    method BecomeLeader()
      modifies this
      ensures View() == TakeOffice(old(View())) && full == old(full)
    {
      SetRole(Leader);
      StartFollowers();
    }

    /** A new leader knows nothing yet of any follower. */
    method StartFollowers()
      requires followers == map[]
      modifies this`followers
      ensures followers == map p | p in CurrentMembership().all - {me} :: NewReplication(old(View()))
    {
      var rest := CurrentMembership().all - {me};
      ghost var all := rest;
      while rest != {}
        invariant rest <= all
        invariant followers == map p | p in all - rest :: NewReplication(old(View()))
        decreases rest
      {
        var p := Least(rest);
        rest := rest - {p};
        followers := followers[p := Replication(log.State().NextIdx(), 0, 0, None, false, false)];
      }
      assert all - {} == all;
    }

    // ---------------------------------------------------------------- the log

    method NextHash(e: Entry) returns (h: Hash)
      ensures h == ReplicaSpec.NextHash(log.State(), e)
    {
      var prev := log.MostRecentHash();
      h := Next(prev, log.State().NextIdx(), e.term, e.payload);
    }

    method LogAppend(e: Entry) returns (err: Error)
      requires Ordered() && role != Candidate && e.hash == ReplicaSpec.NextHash(log.State(), e)
      requires role == Leader ==> KeepsVote(me, e)
      modifies this, log
      ensures Ordered() && IndexesKept() && full == (if err == NoError then old(full) + [e] else old(full))
      ensures (View(), err) == ReplicaSpec.LogAppend(old(View()), e)
    {
      hide ReplicaOk;
      LogAppendKeeps(View(), full, first, e);
      BeforeAppend(View(), full, first, e);
      hide LogState.Append, ReplicaSpec.NextHash, KeepsVote, OldFollowers, AddUncommitted, FromGroup;
      var group := Failure(NoError);
      if e.payload.MembershipChange? {
        group := FromProto(e.payload.replicas);
        if group.Failure? { return group.error; }
      }
      err := log.Append(e, lastApplied);
      if err != NoError { return; }
      full := full + [e];
      if group.Success? {
        AddUncommittedMembership(log.State().LastIdx(), group.value);
      }
    }

    method ClientRequestInternal(p: Payload) returns (err: Error)
      requires Ordered()
      requires role == Leader ==> KeepsVote(me, Entry(term, p, Absent))
      modifies this, log
      ensures Ordered() && old(full) <= full && IndexesKept()
      ensures (View(), err) == ClientRequest(old(View()), p)
    {
      var e := Entry(term, p, Absent);
      var h := NextHash(e);
      e := e.(hash := h);
      if role != Leader || relinquishing { return AppendEntryNotLeader; }
      err := LogAppend(e);
    }

    /** Entries from `next` on, a chunk's worth. */
    method EntriesFrom(next: nat) returns (entries: seq<Entry>)
      ensures entries == TakeEntries(log.State(), next, 0, chunkBytes)
    {
      entries := [];
      var size: nat, idx: nat := 0, next;
      while idx < log.State().NextIdx()
        invariant TakeEntries(log.State(), next, 0, chunkBytes) == entries + TakeEntries(log.State(), idx, size, chunkBytes)
      {
        var e := log.State().At(idx);
        if e.None? { break; }
        assert forall rest: seq<Entry> :: entries + ([e.value] + rest) == (entries + [e.value]) + rest;
        entries := entries + [e.value];
        size := size + SerializedSize(e.value);
        if size >= chunkBytes { return; }
        idx := idx + 1;
      }
    }

    method MakeRequest(replication: Replication) returns (m: Message)
      requires log.oldestStoredIdx >= 1
      ensures m == AppendRequestFor(View(), replication)
    {
      hide LogState.TermAt, LogState.HashAt, TakeEntries;
      var state, prevIdx := log.State(), replication.nextIdx - 1;
      NoIndexZero(state);
      var entries := [];
      if state.LastIdx() >= replication.nextIdx && !replication.sendProbe {
        entries := EntriesFrom(replication.nextIdx);
      } else if !replication.sendProbe {
        NothingToTake(state, replication.nextIdx, chunkBytes);
      }
      var prevTerm := if prevIdx == 0 then 0 else state.TermAt(prevIdx);
      var prevHash := if prevIdx == 0 then Absent else state.HashAt(prevIdx);
      var lastEntry := prevIdx + |entries|;
      m := AppendRequest(prevIdx, prevTerm, prevHash, entries, Min(commitIdx, lastEntry), Min(promiseIdx, lastEntry));
    }

    method AppendEntries(peer: PeerId)
      requires peer != me && log.oldestStoredIdx >= 1
      modifies this`followers, this`outbox
      ensures View() == SendTo(old(View()), peer)
    {
      hide AppendRequestFor, LogState.TermAt;
      if role != Leader { return; }
      if peer !in followers { return; }
      var state, replication := log.State(), followers[peer];
      var sendEntries := state.LastIdx() >= replication.nextIdx && !replication.sendProbe;
      if !sendEntries && !replication.sendHeartbeat && !replication.sendProbe { return; }
      if replication.inflight.Some? { return; }
      if replication.nextIdx != 1 && state.TermAt(replication.nextIdx - 1) == 0 { return; }
      var m := MakeRequest(replication);
      var lastEntry := m.prevIdx + |m.entries|;
      followers := followers[peer := replication.(sendHeartbeat := false, inflight := Some(lastEntry))];
      AddSendableMessage(Some(peer), m);
    }

    method SendToPeers()
      requires log.oldestStoredIdx >= 1
      modifies this`followers, this`outbox
      ensures View() == AppendEntriesToAll(old(View()))
    {
      var rest := CurrentMembership().all - {me};
      ghost var all := rest;
      SentToNone(View());
      while rest != {}
        invariant rest <= all && all - all == {}
        invariant View() == SentTo(old(View()), all - rest)
        decreases rest
      {
        var p := Least(rest);
        SentToMore(old(View()), all - rest, p);
        assert all - (rest - {p}) == (all - rest) + {p};
        rest := rest - {p};
        AppendEntries(p);
      }
      assert all - {} == all;
      SentToAll(old(View()));
    }

    // --------------------------------------------------- promises and commits

    /** One stored and one promised index for each follower that votes. */
    method VoterIndexes() returns (stored: seq<nat>, promised: seq<nat>)
      ensures Lists(stored, Matches(followers, CurrentMembership().voting))
      ensures Lists(promised, Promises(followers, CurrentMembership().voting))
    {
      hide Lists, Matches, Promises;
      stored, promised := [], [];
      var voting := CurrentMembership().voting;
      ghost var seen: map<PeerId, Replication> := map[];
      NoVoters(voting);
      var rest := followers.Keys;
      while rest != {}
        invariant rest <= followers.Keys
        invariant seen == map p | p in followers && p !in rest :: followers[p]
        invariant Lists(stored, Matches(seen, voting)) && Lists(promised, Promises(seen, voting))
        decreases rest
      {
        var p := Least(rest);
        OneMoreVoter(seen, p, followers[p], voting, stored, promised);
        if p in voting {
          stored := stored + [followers[p].matchIdx];
          promised := promised + [followers[p].promiseIdx];
        }
        rest, seen := rest - {p}, seen[p := followers[p]];
      }
      assert seen == followers;
    }

    method SendHeartbeats()
      modifies this`followers
      ensures View() == Heartbeats(old(View()))
    {
      ghost var was := followers;
      var rest := followers.Keys;
      while rest != {}
        invariant rest <= was.Keys
        invariant followers == map p | p in was :: if p in rest then was[p] else was[p].(sendHeartbeat := true)
        decreases rest
      {
        var p := Least(rest);
        rest := rest - {p};
        followers := followers[p := followers[p].(sendHeartbeat := true)];
      }
      assert followers == map p | p in was :: was[p].(sendHeartbeat := true);
    }

    /** The indexes a quorum has stored and, given that, promised. */
    method PickIndexes() returns (newPromise: nat, newCommit: nat)
      requires Ordered() && role == Leader
      ensures newPromise == NewPromise(View()) && newCommit == NewCommit(View())
    {
      hide ReplicaOk, Pick, Lists;
      LeaderIndexes(View(), full, first);
      var quorum := MembershipQuorumSize();
      var stored, promised := VoterIndexes();
      OwnIndex(stored, Matches(followers, CurrentMembership().voting), me, log.State().LastIdx());
      stored := stored + [log.State().LastIdx()];
      newPromise := QuorumIndex(stored, quorum, StoredBy(View()));
      newPromise := Max(newPromise, promiseIdx);
      VotersCounted(View(), full, first, newPromise);
      OwnIndex(promised, Promises(followers, CurrentMembership().voting), me, newPromise);
      promised := promised + [newPromise];
      newCommit := QuorumIndex(promised, quorum, PromisedBy(View(), newPromise));
      newCommit := Max(newCommit, commitIdx);
    }

    method MaybeAdvanceCommitIndex()
      requires Ordered()
      modifies this
      ensures Ordered() && full == old(full) && lastApplied == old(lastApplied) && old(promiseIdx) <= promiseIdx
      ensures View() == ReplicaSpec.MaybeAdvanceCommitIndex(old(View()))
    {
      hide ReplicaOk, SyncMemberships, Heartbeats, NewPromise, NewCommit;
      AdvanceKeeps(View(), full, first);
      if role != Leader { return; }
      LeaderIndexes(View(), full, first);
      var newPromise, newCommit := PickIndexes();
      var changed := newPromise > promiseIdx || newCommit > commitIdx;
      promiseIdx := newPromise;
      if newCommit > commitIdx {
        commitIdx := newCommit;
        MaybeChangeUncommittedMembershipsBasedOnLog();
      }
      if changed { SendHeartbeats(); }
    }

    /** The CHECK on the reported hash holds because the message was validated. */
    method HandleAppendResponse(msgTerm: nat, m: Message, from: PeerId)
      requires Ordered() && m.AppendResponse?
      requires CheckLogHash(View(), m.matchIdx, 0, m.matchHash, false) == NoError
      modifies this
      ensures Ordered() <==> PromiseFits(old(View()), msgTerm, m, from)
      ensures full == old(full) && IndexesKept()
      ensures View() == ReplicaSpec.HandleAppendResponse(old(View()), msgTerm, m, from)
    {
      hide ReplicaOk;
      MatchChecked(View(), full, first, m);
      ResponseKeeps(View(), full, first, msgTerm, m, from);
      hide BackOff;
      if msgTerm != term { return; }
      if role != Leader { return; }
      if from !in followers { return; }
      var s := followers[from];
      if m.success {
        var matchLog := log.State().At(m.matchIdx);
        if matchLog.Some? {
          assert m.matchHash == matchLog.value.hash;
        } else {
          assert m.matchIdx <= log.State().LastIdx();
        }
        s := AcceptResponse(s, m);
        followers := followers[from := s];
        return;
      }
      var next := BackOffFrom(Max(m.matchIdx + 1, Min(s.nextIdx - 1, m.lastIdx + 1)), m.matchIdx);
      followers := followers[from := s.(nextIdx := next, sendProbe := true, inflight := None)];
    }

    method AcceptResponse(before: Replication, m: Message) returns (s: Replication)
      requires m.AppendResponse?
      ensures s == Accepted(before, m)
    {
      s := before;
      if s.inflight.Some? && m.matchIdx >= s.inflight.value { s := s.(inflight := None); }
      if m.matchIdx + 1 > s.nextIdx { s := s.(nextIdx := m.matchIdx + 1); }
      if m.matchIdx > s.matchIdx { s := s.(matchIdx := m.matchIdx); }
      if m.promiseIdx > s.promiseIdx { s := s.(promiseIdx := m.promiseIdx); }
      s := s.(sendProbe := false);
    }

    method BackOffFrom(start: pos, matchIdx: nat) returns (next: pos)
      ensures next == BackOff(log.State(), start, matchIdx, chunkBytes)
      ensures start > matchIdx ==> matchIdx < next <= start
    {
      next := start;
      var remaining: nat := chunkBytes;
      while next - 1 > matchIdx
        invariant BackOff(log.State(), next, matchIdx, remaining) == BackOff(log.State(), start, matchIdx, chunkBytes)
      {
        var e := log.State().At(next);
        var size := if e.None? then 0 else SerializedSize(e.value);
        if size > remaining { break; }
        remaining := remaining - size;
        next := next - 1;
      }
    }

    // -------------------------------------------------------- append requests

    method HandleAppendRequest(msgTerm: nat, m: Message, from: PeerId)
      requires Valid() && m.AppendRequest? && m.leaderCommit <= m.leaderPromise && from != me
      requires m.entries != [] ==> log.State().OldestStored() <= m.prevIdx + 1
      modifies this, log, tree
      ensures Valid() && PromisesKept() && lastApplied == old(lastApplied) && Others() == old(Others())
      ensures View() == ReplicaSpec.HandleAppendRequest(old(View()), msgTerm, m, from, true)
    {
      hide ReplicaOk, AcceptAppend, Marked, Others;
      PromiseWithin(View(), full, first);
      var ours := log.State().At(m.prevIdx);
      var logOk := m.prevIdx == 0 || (ours.Some? && m.prevTerm == ours.value.term);
      if msgTerm > term { return; }
      if msgTerm == term {
        if role == Leader { return; }
        FollowKeeps(View(), full, first, from);
        if role == Candidate { SetRole(Follower); }
        knownLeader := Some(from);
        QuietlyMarked();
      }
      if msgTerm < term || (msgTerm == term && role == Follower && !logOk) {
        Reply(from, AppendResponse(false, commitIdx, log.State().HashAt(commitIdx), promiseIdx, log.State().LastIdx()));
        return;
      }
      assert msgTerm == term && role == Follower && logOk;
      AcceptRequest(m, from);
    }

    method AcceptRequest(m: Message, from: PeerId)
      requires Valid() && role == Follower && m.AppendRequest? && m.leaderCommit <= m.leaderPromise && from != me
      requires m.entries != [] ==> log.State().OldestStored() <= m.prevIdx + 1
      requires m.prevIdx == 0 || log.State().At(m.prevIdx).Some?
      modifies this, log, tree
      ensures Valid() && PromisesKept() && lastApplied == old(lastApplied) && Others() == old(Others())
      ensures View() == AcceptAppend(old(View()), m, from, true)
    {
      hide ReplicaOk, StoreEntries, ReplicaSpec.FinishAppend, Marked, Others;
      PrevInLog(View(), full, first, m.prevIdx);
      var last := StoreMessageEntries(m.prevIdx, m.entries);
      StillMarked();
      FinishAppend(Min(m.leaderCommit, last), Min(m.leaderPromise, last), last, from);
    }

    method StoreMessageEntries(prev: nat, entries: seq<Entry>) returns (last: nat)
      requires Ordered() && role == Follower && prev <= |full|
      requires entries != [] ==> log.State().OldestStored() <= prev + 1
      modifies this, log
      ensures Ordered() && PromisesKept() && IndexesKept() && role == Follower && prev <= last <= |full|
      ensures (View(), last) == StoreEntries(old(View()), prev, entries)
    {
      hide ReplicaOk, ReplicaSpec.StoreEntry;
      PromiseWithin(View(), full, first);
      last := prev;
      var i := 0;
      assert entries[0..] == entries;
      while i < |entries|
        invariant 0 <= i <= |entries| && last == prev + i
        invariant Ordered() && PromisesKept() && IndexesKept() && role == Follower && last <= |full|
        invariant i < |entries| ==> log.State().OldestStored() <= last + 1
        invariant StoreEntries(View(), last, entries[i..]) == StoreEntries(old(View()), prev, entries)
      {
        assert entries[i..][0] == entries[i] && entries[i..][1..] == entries[i + 1..];
        var ok := StoreEntry(last + 1, entries[i]);
        if !ok { return; }
        last := last + 1;
        i := i + 1;
      }
    }

    method StoreEntry(idx: nat, e: Entry) returns (ok: bool)
      requires Ordered() && role == Follower && 1 <= idx <= |full| + 1 && log.State().OldestStored() <= idx
      modifies this, log
      ensures Ordered() && PromisesKept() && IndexesKept() && role == Follower
      ensures ok ==> idx <= |full| && log.State().OldestStored() <= idx + 1
      ensures !ok ==> idx - 1 <= |full|
      ensures (View(), ok) == ReplicaSpec.StoreEntry(old(View()), idx, e)
    {
      hide ReplicaOk, SyncMemberships, AppendIfNext, StoredAt, OnlyLog, LogState.CancelFrom;
      ghost var full' := StoreEntryKeeps(View(), full, first, idx, e);
      PromiseWithin(View(), full, first);
      ghost var n := |full|;
      var ours := log.State().TermAt(idx);
      if ours != 0 && ours != e.term {
        if idx <= commitIdx { return false; }
        if idx <= promiseIdx { return false; }
        ConflictAbovePromise(View(), full, first, idx, e);
        CutFrom(idx);
        n := idx - 1;
      }
      ok := AppendNext(idx, e);
      PrefixCut(old(full), full, promiseIdx, n);
    }

    /** Gives up what conflicts, and the memberships with it. */
    method CutFrom(idx: nat)
      requires Ordered() && role == Follower && promiseIdx < idx <= |full| && log.State().OldestStored() <= idx
      modifies this, log
      ensures old(log.State()).CancelFrom(idx).Success?
      ensures Ordered() && IndexesKept() && role == Follower && full == old(full)[..idx - 1]
      ensures View() == SyncMemberships(old(View()).(log := old(log.State()).CancelFrom(idx).value))
    {
      hide ReplicaOk, SyncMemberships;
      CancelKeeps(View(), full, first, idx);
      BoundedIs(View(), full, first);
      var err := log.CancelFrom(idx);
      MaybeChangeUncommittedMembershipsBasedOnLog();
      full := full[..idx - 1];
    }

    method AppendNext(idx: nat, e: Entry) returns (ok: bool)
      requires Ordered() && role == Follower && 1 <= idx <= |full| + 1
      modifies this, log
      ensures Ordered() && old(full) <= full && IndexesKept() && role == Follower
      ensures if ok then idx <= |full| else full == old(full)
      ensures (View(), ok) == AppendIfNext(old(View()), idx, e)
    {
      hide ReplicaOk;
      NextIs(View(), full, first);
      if idx == log.State().NextIdx() {
        var h := NextHash(e);
        if h != e.hash { return false; }
        var err := LogAppend(e);
        return err == NoError;
      }
      return true;
    }

    /** Moves the two indexes up, and their leaves with them. */
    method AdvanceIndexes(commit: nat, promise: nat) returns (ok: bool)
      requires Valid() && role == Follower && commit <= promise <= |full|
      modifies this, tree
      ensures Valid() && full == old(full) && lastApplied == old(lastApplied) && old(promiseIdx) <= promiseIdx && Others() == old(Others())
      ensures ok && View() == Advanced(old(View()), commit, promise)
    {
      hide ReplicaOk, SyncMemberships, Marked, Others, HasLeaves;
      IndexesKeep(View(), full, first, commit, promise);
      MarkedHasLeaves();
      var updateMerkle := false;
      if commit > commitIdx || promise > promiseIdx {
        ok := VerifyMerkleTree();
        if !ok { return; }
        updateMerkle := true;
      }
      if commit > commitIdx {
        commitIdx := commit;
        MaybeChangeUncommittedMembershipsBasedOnLog();
      }
      if promise > promiseIdx { promiseIdx := promise; }
      if updateMerkle { UpdateMerkleTree(); }
      ok := true;
    }

    method FinishAppend(commit: nat, promise: nat, last: nat, from: PeerId)
      requires Valid() && role == Follower && commit <= promise <= last <= |full| && from != me
      modifies this, tree
      ensures Valid() && full == old(full) && lastApplied == old(lastApplied) && old(promiseIdx) <= promiseIdx && Others() == old(Others())
      ensures View() == ReplicaSpec.FinishAppend(old(View()), commit, promise, last, from, true)
    {
      hide ReplicaOk, Advanced, Marked, Others;
      var ok := AdvanceIndexes(commit, promise);
      if !ok { return; }
      Reply(from, AppendResponse(true, last, log.State().HashAt(last), Min(promiseIdx, last), log.State().LastIdx()));
    }

    method Reply(to: PeerId, m: Message)
      requires Valid() && to != me
      modifies this`outbox
      ensures Valid() && View() == Send(old(View()), Some(to), m)
    {
      hide ReplicaOk, Marked;
      ReplyKeeps(View(), full, first, Some(to), m);
      AddSendableMessage(Some(to), m);
      QuietlyMarked();
    }

    // ----------------------------------------------------------- entry points

    /** Hands out the queued messages. */
    method SendableMessages() returns (messages: set<Sendable>)
      requires Valid()
      modifies this`outbox
      ensures Valid() && messages == old(outbox) && View() == old(View()).(outbox := {})
    {
      hide ReplicaOk, Marked;
      messages, outbox := outbox, {};
      RoleChangeKeeps(old(View()), View(), full, first) by { OutboxRole(old(View()), full, first); }
      QuietlyMarked();
    }

    method CheckEntryHashes(prev: nat, entries: seq<Entry>) returns (err: Error)
      ensures err == CheckEntries(View(), prev, entries)
    {
      var i := 0;
      assert entries[0..] == entries;
      while i < |entries|
        invariant 0 <= i <= |entries|
        invariant CheckEntries(View(), prev + i, entries[i..]) == CheckEntries(View(), prev, entries)
      {
        assert entries[i..][0] == entries[i] && entries[i..][1..] == entries[i + 1..];
        err := CheckHash(prev + i + 1, entries[i].term, entries[i].hash, true);
        if err != NoError { return; }
        i := i + 1;
      }
      err := NoError;
    }

    method CheckHash(idx: nat, msgTerm: nat, hash: Hash, allowFuture: bool) returns (err: Error)
      ensures err == CheckLogHash(View(), idx, msgTerm, hash, allowFuture)
    {
      if idx == 0 { return NoError; }
      var state := log.State();
      if idx < state.OldestStored() { return MsgTruncated; }
      if idx > state.LastIdx() { return if allowFuture then NoError else MsgInFuture; }
      assert state.At(idx).Some?;
      var ours := state.TermAt(idx);
      if msgTerm != 0 && msgTerm > ours { return if idx > promiseIdx then NoError else MsgTermPromised; }
      if msgTerm != 0 && msgTerm < ours { return NoError; }
      if hash != state.HashAt(idx) { return MsgHashMismatch; }
      return NoError;
    }

    method ValidateReceivedMessage(msg: RaftMessage, from: PeerId) returns (err: Error)
      ensures err == ValidateReceived(View(), msg, from)
    {
      hide CheckLogHash, CheckAppendRequest, CheckAppendResponse;
      if msg.group != group { return MsgWrongGroup; }
      if from !in CurrentMembership().all { return MsgNotPeer; }
      match msg.inner
      case VoteRequest(idx, t, hash) => err := CheckHash(idx, t, hash, true);
      case VoteResponse(_) => err := NoError;
      case AppendRequest(_, _, _, _, _, _) => err := ValidateAppendRequest(msg.inner);
      case AppendResponse(_, _, _, _, _) => err := ValidateAppendResponse(msg.inner);
      case TimeoutNow => err := NoError;
      case NotSet => err := MsgInvalidType;
    }

    method ValidateAppendRequest(m: Message) returns (err: Error)
      requires m.AppendRequest?
      ensures err == CheckAppendRequest(View(), m)
    {
      hide CheckLogHash, CheckEntries;
      err := CheckHash(m.prevIdx, m.prevTerm, m.prevHash, true);
      if err != NoError { return; }
      var last := m.prevIdx + |m.entries|;
      if m.leaderCommit > last || m.leaderPromise > last { return MsgAppendEntryIndex; }
      if m.leaderCommit > m.leaderPromise { return MsgLogIndexOrdering; }
      err := CheckEntryHashes(m.prevIdx, m.entries);
    }

    method ValidateAppendResponse(m: Message) returns (err: Error)
      requires m.AppendResponse?
      ensures err == CheckAppendResponse(View(), m)
    {
      hide CheckLogHash;
      err := CheckHash(m.matchIdx, 0, m.matchHash, false);
      if err != NoError { return; }
      if m.matchIdx > m.lastIdx || m.promiseIdx > m.lastIdx { return MsgLogIndexOrdering; }
    }

    method TryToRelinquishLeadership()
      requires Ordered()
      modifies this
      ensures Ordered() && full == old(full) && IndexesKept()
      ensures View() == TryToRelinquish(old(View()))
    {
      hide ReplicaOk;
      if role != Leader || !relinquishing { return; }
      var rest := CurrentMembership().voting - {me};
      ghost var others := rest;
      while rest != {}
        invariant rest <= others && View() == old(View()) && full == old(full)
        invariant forall p | p in others && p !in rest :: p !in Successors(View()) && forall q | q in rest :: p < q
        decreases rest
      {
        var p := Least(rest);
        if p in followers && followers[p].matchIdx == log.State().LastIdx() {
          assert IsLeast(Successors(View()), p);
          AddSendableMessage(Some(p), TimeoutNow);
          SetRole(Follower);
          StepDownKeeps(old(View()), View(), full, first);
          return;
        }
        rest := rest - {p};
      }
      assert Successors(View()) == {};
    }

    method MaybeChangeStateAndSendMessages()
      requires Valid()
      modifies this, log, tree
      ensures Valid() && old(full) <= full && lastApplied == old(lastApplied) && Others() == old(Others())
      ensures old(promiseIdx) <= promiseIdx
      ensures View() == ChangeStateAndSend(old(View()), true)
    {
      hide ReplicaOk, ReplicaSpec.MaybeBecomeLeader, ReplicaSpec.MaybeAdvanceCommitIndex, AppendEntriesToAll, TryToRelinquish,
        Marked, Others, HasLeaves;
      PromiseWithin(View(), full, first);
      MaybeBecomeLeader();
      StillMarked();
      MarkedHasLeaves();
      var ok := VerifyMerkleTree();
      if ok {
        MaybeAdvanceCommitIndex();
        UpdateMerkleTree();
      }
      SendAndRelinquish();
    }

    method SendAndRelinquish()
      requires Valid()
      modifies this
      ensures Valid() && full == old(full) && IndexesKept()
      ensures View() == TryToRelinquish(AppendEntriesToAll(old(View())))
    {
      hide ReplicaOk, AppendEntriesToAll, TryToRelinquish, Marked;
      OldestIs(View(), full, first);
      SendAllKeeps(View(), full, first);
      SendToPeers();
      TryToRelinquishLeadership();
      QuietlyMarked();
    }

    /** What validation has checked of a message, as far as handling it relies on that. */
    ghost predicate Checked(m: Message)
      reads this, log
    {
      && (m.AppendResponse? ==> CheckLogHash(View(), m.matchIdx, 0, m.matchHash, false) == NoError)
      && (m.AppendRequest? ==> m.leaderCommit <= m.leaderPromise && (m.entries != [] ==> log.State().OldestStored() <= m.prevIdx + 1))
    }

    lemma ValidatedChecked(msg: RaftMessage, from: PeerId)
      requires ValidateReceived(View(), msg, from) == NoError
      ensures Checked(msg.inner)
    {
    }

    twostate lemma StillChecked(m: Message)
      requires old(Checked(m)) && unchanged(log) && IndexesKept()
      ensures Checked(m)
    {
    }

    method Dispatch(msg: RaftMessage, from: PeerId)
      requires Valid() && from != me && Checked(msg.inner)
      requires msg.inner.AppendResponse? ==> PromiseFits(View(), msg.term, msg.inner, from)
      modifies this, log, tree
      ensures Valid() && PromisesKept() && lastApplied == old(lastApplied) && Others() == old(Others())
      ensures View() == ReplicaSpec.Dispatch(old(View()), msg, from, true)
    {
      hide ReplicaOk, CheckLogHash, ReplicaSpec.ElectionTimeout, ReplicaSpec.HandleVoteRequest, Marked, Others,
        ReplicaSpec.HandleVoteResponse, ReplicaSpec.HandleAppendRequest, ReplicaSpec.HandleAppendResponse;
      PromiseWithin(View(), full, first);
      match msg.inner {
        case VoteRequest(_, _, _) => HandleVoteRequest(msg.term, msg.inner, from); QuietlyMarked();
        case VoteResponse(_) => HandleVoteResponse(msg.term, msg.inner, from); QuietlyMarked();
        case AppendRequest(_, _, _, _, _, _) => HandleAppendRequest(msg.term, msg.inner, from);
        case AppendResponse(_, _, _, _, _) => HandleAppendResponse(msg.term, msg.inner, from); QuietlyMarked();
        case TimeoutNow => if msg.term >= term { ElectionTimeout(); QuietlyMarked(); }
        case NotSet =>
      }
    }

    /** Messages come from other members, and what a member reports as promised fits what
        it has matched. */
    method Receive(msg: RaftMessage, from: PeerId)
      requires Valid() && from != me && (msg.inner.AppendResponse? ==> PromiseFits(View(), msg.term, msg.inner, from))
      modifies this, log, tree
      ensures Valid() && PromisesKept() && lastApplied == old(lastApplied) && Others() == old(Others())
      ensures View() == ReplicaSpec.Receive(old(View()), msg, from, true, true)
    {
      hide ReplicaOk, ChangeStateAndSend, ReplicaSpec.Dispatch, ValidateReceived, Checked, Marked, Others;
      PromiseWithin(View(), full, first);
      var err := ValidateReceivedMessage(msg, from);
      if err != NoError { return; }
      ValidatedChecked(msg, from);
      UpdateTerm(msg.term);
      StillChecked(msg.inner);
      QuietlyMarked();
      Dispatch(msg, from);
      label before:
      MaybeChangeStateAndSendMessages();
      assert old(full)[..old(promiseIdx)] <= old@before(full) <= full;
    }

    method TimerTick(fires: bool)
      requires Valid()
      modifies this, log, tree
      ensures Valid() && PromisesKept() && lastApplied == old(lastApplied) && Others() == old(Others())
      ensures View() == ReplicaSpec.TimerTick(old(View()), fires, true)
    {
      hide ReplicaOk, ChangeStateAndSend, ReplicaSpec.ElectionTimeout, Marked, Others;
      PromiseWithin(View(), full, first);
      if fires {
        if role == Leader {
          HeartbeatsKeep(View(), full, first);
          SendHeartbeats();
        } else {
          ElectionTimeout();
        }
        QuietlyMarked();
      }
      MaybeChangeStateAndSendMessages();
    }

    method LogRequest(p: Payload) returns (err: Error)
      requires Valid()
      modifies this, log, tree
      ensures Valid() && PromisesKept() && lastApplied == old(lastApplied) && Others() == old(Others())
      ensures (View(), err) == ReplicaSpec.LogRequest(old(View()), p, true)
    {
      hide ReplicaOk, ChangeStateAndSend, ClientRequest, CheckRequest, Marked, Others;
      PromiseWithin(View(), full, first);
      err := RefuseRequest(p);
      if err != NoError { return; }
      err := ClientRequestInternal(p);
      StillMarked();
      MaybeChangeStateAndSendMessages();
    }

    /** Only changes of the group are refused; a leader stays in the group it accepts. */
    method RefuseRequest(p: Payload) returns (err: Error)
      ensures err == CheckRequest(View(), p)
      ensures err == NoError && role == Leader ==> KeepsVote(me, Entry(term, p, Absent))
    {
      if p.MembershipChange? {
        if role != Leader || relinquishing { return AppendEntryNotLeader; }
        if uncommitted != [] { return MembershipAlreadyChanging; }
        var next := FromProto(p.replicas);
        if next.Failure? { return next.error; }
        err := CheckProgression(me, membership, next.value, superMajority);
        return;
      }
      err := NoError;
    }

    method RelinquishLeadership()
      requires Valid()
      modifies this, log, tree
      ensures Valid() && PromisesKept() && lastApplied == old(lastApplied) && Others() == old(Others())
      ensures View() == ReplicaSpec.RelinquishLeadership(old(View()), true)
    {
      hide ChangeStateAndSend, ClientRequest, ReplicaOk, Marked, Others;
      PromiseWithin(View(), full, first);
      if role != Leader || relinquishing { return; }
      var err := ClientRequestInternal(Noop);
      RelinquishingKeeps(View(), full, first);
      relinquishing := true;
      StillMarked();
      MaybeChangeStateAndSendMessages();
    }

    method ResetPeer(id: PeerId)
      requires Valid() && (id != me || role != Candidate)
      modifies this
      ensures Valid() && full == old(full) && IndexesKept()
      ensures View() == ReplicaSpec.ResetPeer(old(View()), id)
    {
      hide LogOk, MembershipOk;
      if id !in CurrentMembership().all { return; }
      if role == Candidate {
        AddSendableMessage(Some(id), VoteRequest(log.State().LastIdx(), log.State().LastTerm(), log.State().HashAt(log.State().LastIdx())));
      } else if role == Leader && id in followers {
        assert FollowerOk(followers[id], |full|);
        followers := followers[id := followers[id].(nextIdx := log.State().NextIdx(), sendProbe := true, sendHeartbeat := true, inflight := None)];
      } else {
        return;
      }
      RoleChangeKeeps(old(View()), View(), full, first);
    }

    /** The CHECK that a committed entry is stored never fails. */
    method TakeCommittedLog() returns (next: Option<(nat, Entry)>)
      requires Valid()
      modifies this
      ensures Valid() && full == old(full)
      ensures lastApplied <= commitIdx <= |full|
      ensures next == if old(lastApplied) >= commitIdx then None else Some((old(lastApplied) + 1, full[old(lastApplied)]))
      ensures View() == old(View()).(lastApplied := if next.None? then old(lastApplied) else old(lastApplied) + 1)
    {
      hide ReplicaOk, Marked;
      CommitWithin(View(), full, first);
      if lastApplied >= commitIdx { return None; }
      CommittedStored(View(), full, first);
      lastApplied := lastApplied + 1;
      QuietlyMarked();
      var e := log.State().At(lastApplied);
      assert e.Some?;
      return Some((lastApplied, e.value));
    }
  }
}
