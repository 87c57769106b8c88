/** What a run has made true for good.  The history of a group records, beside
    its state, the committed log it started from, every vote cast, every leader's log,
    and each replica's whole log and promise; all of it only grows, except the
    unpromised end of a log. */
module RaftHistory {
  import opened RaftTypes
  import opened HashChain
  import opened Quorum
  import opened GroupMembership
  import opened BoundedLog
  import opened ReplicaSpec
  import opened ReplicaInvariant
  import opened RaftSystem

  /** The log of the leader of one term, and the voters that elected it. */
  datatype Reign = Reign(leader: PeerId, log: seq<Entry>, electors: set<PeerId>)

  datatype History = History(
    base: seq<Entry>, full: map<PeerId, seq<Entry>>, promise: map<PeerId, nat>,
    leaders: map<nat, Reign>, votes: map<(PeerId, nat), PeerId>)

  predicate Voted(h: History, v: PeerId, term: nat, candidate: PeerId) {
    (v, term) in h.votes && h.votes[(v, term)] == candidate
  }

  /** Up to and including index `k + 1`, `log` is what the group started from or, beyond
      that, the log of the leader whose term the entry there carries. */
  predicate MatchAt(h: History, log: seq<Entry>, k: nat)
    requires k < |log|
  {
    if k < |h.base| then log[..k + 1] == h.base[..k + 1]
    else
      var t := log[k].term;
      t in h.leaders && k < |h.leaders[t].log| && log[..k + 1] == h.leaders[t].log[..k + 1]
  }

  predicate LogMatching(h: History, log: seq<Entry>) {
    forall k | 0 <= k < |log| :: MatchAt(h, log, k)
  }

  /** Voters are fixed by every membership change in the log. */
  predicate FixedLog(c: Config, log: seq<Entry>) {
    forall k | 0 <= k < |log| :: SameVoters(c, log[k].payload)
  }

  predicate ElectedBy(c: Config, h: History, electors: set<PeerId>, term: nat, leader: PeerId) {
    && electors <= c.voters && |electors| >= QuorumOf(c)
    && forall v | v in electors :: Voted(h, v, term, leader)
  }

  predicate ReignOk(c: Config, h: History, t: nat)
    requires t in h.leaders
  {
    var r := h.leaders[t];
    LogMatching(h, r.log) && FixedLog(c, r.log) && ElectedBy(c, h, r.electors, t, r.leader)
  }

  predicate HistoryOk(c: Config, h: History) {
    && c.voters <= h.full.Keys == h.promise.Keys
    && (forall i | i in h.full :: h.promise[i] <= |h.full[i]|)
    && (forall t | t in h.leaders :: ReignOk(c, h, t))
    && BaseHeld(c, h)
  }

  /** Every voter has promised what the group started from. */
  predicate BaseHeld(c: Config, h: History) {
    forall v | v in c.voters :: Promised(h, v, h.base)
  }

  /** Nobody has voted or led before being there. */
  predicate Known(h: History) {
    && (forall k | k in h.votes :: k.0 in h.full)
    && (forall t | t in h.leaders :: h.leaders[t].leader in h.full)
  }

  /** `p` has promised `prefix`. */
  predicate Promised(h: History, p: PeerId, prefix: seq<Entry>) {
    p in h.full && p in h.promise && |prefix| <= h.promise[p] && prefix <= h.full[p]
  }

  predicate ChosenBy(c: Config, h: History, q: set<PeerId>, prefix: seq<Entry>) {
    q <= c.voters && |q| >= QuorumOf(c) && forall p | p in q :: Promised(h, p, prefix)
  }

  /** A quorum has promised `prefix`; this is what a commit rests on. */
  ghost predicate Chosen(c: Config, h: History, prefix: seq<Entry>) {
    exists q :: ChosenBy(c, h, q, prefix)
  }

  // ------------------------------------------------------- replicas and messages

  predicate VotesOk(r: Replica, h: History) {
    && (r.votedFor.Some? ==> Voted(h, r.me, r.term, r.votedFor.value))
    && (r.votedFor.None? ==> (r.me, r.term) !in h.votes)
    && (r.role != Follower ==> r.votedFor == Some(r.me))
    && (forall k | k in h.votes && k.0 == r.me :: k.1 <= r.term)
    && (r.role == Candidate ==> forall v | v in r.votes :: Voted(h, v, r.term, r.me))
  }

  predicate ReignsOk(r: Replica, h: History) {
    && (forall t | t in h.leaders && h.leaders[t].leader == r.me :: t <= r.term)
    && (r.role == Candidate && r.term in h.leaders ==> h.leaders[r.term].leader != r.me)
    && (r.role == Leader ==> r.term in h.leaders && h.leaders[r.term].leader == r.me)
  }

  predicate LeaderOk(r: Replica, h: History)
    requires r.me in h.full
  {
    r.role == Leader ==>
      && r.term in h.leaders && h.leaders[r.term].log == h.full[r.me]
      && forall p | p in r.followers && r.followers[p].promiseIdx > 0 :: Backed(h, r.followers[p].promiseIdx, p, h.full[r.me])
  }

  predicate Backed(h: History, n: nat, p: PeerId, log: seq<Entry>) {
    n <= |log| && Promised(h, p, log[..n])
  }

  ghost predicate InGroup(c: Config, r: Replica, h: History) {
    && r.me in h.full && r.me in h.promise && r.promiseIdx == h.promise[r.me]
    && r.superMajority == c.superMajority && r.group == c.group
    && LogMatching(h, h.full[r.me]) && FixedLog(c, h.full[r.me])
    && VotesOk(r, h) && ReignsOk(r, h) && LeaderOk(r, h)
    && r.commitIdx <= |h.full[r.me]| && Chosen(c, h, h.full[r.me][..r.commitIdx])
  }

  ghost predicate RequestOk(c: Config, h: History, from: PeerId, term: nat, m: Message)
    requires m.AppendRequest?
  {
    && term in h.leaders && h.leaders[term].leader == from
    && var log := h.leaders[term].log;
       && m.prevIdx + |m.entries| <= |log| && m.entries == log[m.prevIdx..m.prevIdx + |m.entries|]
       && (m.prevIdx > 0 ==> m.prevTerm == log[m.prevIdx - 1].term)
       && m.leaderCommit <= m.prevIdx + |m.entries|
       && Chosen(c, h, log[..m.leaderCommit])
  }

  predicate ResponseOk(h: History, from: PeerId, term: nat, m: Message)
    requires m.AppendResponse?
  {
    m.success ==>
      m.promiseIdx <= m.matchIdx && term in h.leaders && Backed(h, m.promiseIdx, from, h.leaders[term].log)
  }

  ghost predicate MessageOk(c: Config, h: History, from: PeerId, to: PeerId, msg: RaftMessage) {
    match msg.inner
    case VoteResponse(granted) => granted ==> Voted(h, from, msg.term, to)
    case AppendRequest(_, _, _, _, _, _) => RequestOk(c, h, from, msg.term, msg.inner)
    case AppendResponse(_, _, _, _, _) => ResponseOk(h, from, msg.term, msg.inner)
    case _ => true
  }

  ghost predicate QueuedOk(c: Config, h: History, from: PeerId, m: Sendable) {
    match m.to
    case Some(to) => MessageOk(c, h, from, to, m.msg)
    case None => m.msg.inner.VoteRequest?
  }

  ghost predicate OutboxOk(c: Config, from: PeerId, outbox: set<Sendable>, h: History) {
    forall m | m in outbox :: QueuedOk(c, h, from, m)
  }

  /** All that is known of one replica while it takes a step. */
  ghost predicate Good(c: Config, r: Replica, h: History) {
    && ConfigOk(c) && HistoryOk(c, h) && InGroup(c, r, h)
    && ReplicaOk(r, h.full[r.me], c.first) && OutboxOk(c, r.me, r.outbox, h)
  }

  // ------------------------------------------------------------------- growth

  /** Reigns only begin and lengthen; only the reigns of `i` do so now. */
  predicate ReignsGrow(h: History, h': History, i: PeerId) {
    && h'.base == h.base
    && (forall t | t in h.leaders :: t in h'.leaders && GrowsTo(h.leaders[t], h'.leaders[t], i))
    && (forall t | t in h'.leaders && t !in h.leaders :: h'.leaders[t].leader == i)
  }

  predicate GrowsTo(a: Reign, b: Reign, i: PeerId) {
    b.leader == a.leader && b.electors == a.electors && a.log <= b.log && (a.leader != i ==> b.log == a.log)
  }

  predicate VotesGrow(h: History, h': History, i: PeerId) {
    && (forall k | k in h.votes :: k in h'.votes && h'.votes[k] == h.votes[k])
    && (forall k | k in h'.votes && k !in h.votes :: k.0 == i)
  }

  /** Only the log of `i` changes, and not what `i` has promised; `i` may be new. */
  predicate PromisesKept(h: History, h': History, i: PeerId) {
    && h.full.Keys == h.promise.Keys && h'.full.Keys == h'.promise.Keys
    && h.full.Keys <= h'.full.Keys <= h.full.Keys + {i}
    && (forall j | j in h.full && j != i :: h'.full[j] == h.full[j] && h'.promise[j] == h.promise[j])
    && (i in h.full ==> h.promise[i] <= h'.promise[i] && h.promise[i] <= |h.full[i]| && h.full[i][..h.promise[i]] <= h'.full[i])
  }

  predicate Evolves(h: History, h': History, i: PeerId) {
    ReignsGrow(h, h', i) && VotesGrow(h, h', i) && PromisesKept(h, h', i)
  }

  lemma KnownStays(h: History, h': History, i: PeerId)
    requires Known(h) && Evolves(h, h', i) && i in h'.full
    ensures Known(h')
  {
    forall t | t in h'.leaders ensures h'.leaders[t].leader in h'.full {
      if t in h.leaders { assert GrowsTo(h.leaders[t], h'.leaders[t], i); }
    }
  }

  lemma EvolvesTrans(h: History, h': History, h'': History, i: PeerId)
    requires Evolves(h, h', i) && Evolves(h', h'', i)
    ensures Evolves(h, h'', i)
  {
    forall t | t in h.leaders ensures t in h''.leaders && GrowsTo(h.leaders[t], h''.leaders[t], i) {
      assert t in h'.leaders && GrowsTo(h.leaders[t], h'.leaders[t], i);
      assert GrowsTo(h'.leaders[t], h''.leaders[t], i);
    }
    forall t | t in h''.leaders && t !in h.leaders ensures h''.leaders[t].leader == i {
      if t in h'.leaders { assert GrowsTo(h'.leaders[t], h''.leaders[t], i); }
    }
    if i in h.full {
      PrefixTrans(h.full[i][..h.promise[i]], h'.full[i], h''.full[i], h'.promise[i]);
    }
  }

  lemma PrefixAgrees(a: seq<Entry>, b: seq<Entry>, n: nat, k: nat)
    requires k <= n <= |a| && a[..n] <= b
    ensures k <= |b| && b[..k] == a[..k]
  {
    assert a[..n][..k] == a[..k] && b[..n] == a[..n] && b[..n][..k] == b[..k];
  }

  lemma PrefixTrans(p: seq<Entry>, a: seq<Entry>, b: seq<Entry>, n: nat)
    requires p <= a && |p| <= n <= |a| && a[..n] <= b
    ensures p <= b
  {
    assert p == a[..|p|] == a[..n][..|p|];
  }

  /** A promise made stays made. */
  lemma PromisedStays(h: History, h': History, i: PeerId, p: PeerId, prefix: seq<Entry>)
    requires Evolves(h, h', i) && Promised(h, p, prefix)
    ensures Promised(h', p, prefix)
  {
    if p == i {
      assert prefix <= h.full[i][..h.promise[i]];
      PrefixTrans(prefix, h.full[i][..h.promise[i]], h'.full[i], h.promise[i]);
    }
  }

  lemma BaseStays(c: Config, h: History, h': History, i: PeerId)
    requires BaseHeld(c, h) && Evolves(h, h', i)
    ensures BaseHeld(c, h')
  {
    forall v | v in c.voters ensures Promised(h', v, h'.base) {
      PromisedStays(h, h', i, v, h.base);
    }
  }

  lemma ChosenStays(c: Config, h: History, h': History, i: PeerId, prefix: seq<Entry>)
    requires Evolves(h, h', i) && Chosen(c, h, prefix)
    ensures Chosen(c, h', prefix)
  {
    var q :| ChosenBy(c, h, q, prefix);
    forall p | p in q ensures Promised(h', p, prefix) {
      PromisedStays(h, h', i, p, prefix);
    }
    assert ChosenBy(c, h', q, prefix);
  }

  lemma ChosenPrefix(c: Config, h: History, prefix: seq<Entry>, n: nat)
    requires Chosen(c, h, prefix) && n <= |prefix|
    ensures Chosen(c, h, prefix[..n])
  {
    var q :| ChosenBy(c, h, q, prefix);
    forall p | p in q ensures Promised(h, p, prefix[..n]) {
      assert Promised(h, p, prefix);
    }
    assert ChosenBy(c, h, q, prefix[..n]);
  }

  lemma MatchingStays(h: History, h': History, i: PeerId, log: seq<Entry>)
    requires ReignsGrow(h, h', i) && LogMatching(h, log)
    ensures LogMatching(h', log)
  {
    forall k | 0 <= k < |log| ensures MatchAt(h', log, k) {
      assert MatchAt(h, log, k);
      if k >= |h.base| {
        var a, b := h.leaders[log[k].term], h'.leaders[log[k].term];
        assert GrowsTo(a, b, i);
        assert a.log[..k + 1] == b.log[..k + 1];
      }
    }
  }

  /** Of two logs, equal terms at one index mean equal logs up to there. */
  lemma SameTermSameLog(h: History, a: seq<Entry>, b: seq<Entry>, k: nat)
    requires LogMatching(h, a) && LogMatching(h, b)
    requires k < |a| && k < |b| && a[k].term == b[k].term
    ensures a[..k + 1] == b[..k + 1]
  {
    assert MatchAt(h, a, k) && MatchAt(h, b, k);
  }

  lemma MatchingPrefix(h: History, log: seq<Entry>, n: nat)
    requires LogMatching(h, log) && n <= |log|
    ensures LogMatching(h, log[..n])
  {
    forall k | 0 <= k < n ensures MatchAt(h, log[..n], k) {
      assert MatchAt(h, log, k);
      assert log[..n][..k + 1] == log[..k + 1];
    }
  }

  lemma BackedStays(h: History, h': History, i: PeerId, n: nat, p: PeerId, log: seq<Entry>, log': seq<Entry>)
    requires Evolves(h, h', i) && Backed(h, n, p, log) && log <= log'
    ensures Backed(h', n, p, log')
  {
    PromisedStays(h, h', i, p, log[..n]);
    assert log[..n] == log'[..n];
  }

  lemma RequestStays(c: Config, h: History, h': History, i: PeerId, from: PeerId, term: nat, m: Message)
    requires Evolves(h, h', i) && m.AppendRequest? && RequestOk(c, h, from, term, m)
    ensures RequestOk(c, h', from, term, m)
  {
    assert GrowsTo(h.leaders[term], h'.leaders[term], i);
    var log, log' := h.leaders[term].log, h'.leaders[term].log;
    var n := m.prevIdx + |m.entries|;
    assert log'[m.prevIdx..n] == log[m.prevIdx..n];
    assert log'[..m.leaderCommit] == log[..m.leaderCommit];
    ChosenStays(c, h, h', i, log[..m.leaderCommit]);
  }

  /** A message that was right when sent is right for ever. */
  lemma MessageStays(c: Config, h: History, h': History, i: PeerId, from: PeerId, to: PeerId, msg: RaftMessage)
    requires Evolves(h, h', i) && MessageOk(c, h, from, to, msg)
    ensures MessageOk(c, h', from, to, msg)
  {
    match msg.inner
    case AppendRequest(_, _, _, _, _, _) => RequestStays(c, h, h', i, from, msg.term, msg.inner);
    case AppendResponse(success, _, _, promise, _) =>
      if success {
        assert GrowsTo(h.leaders[msg.term], h'.leaders[msg.term], i);
        BackedStays(h, h', i, promise, from, h.leaders[msg.term].log, h'.leaders[msg.term].log);
      }
    case _ =>
  }

  lemma OutboxStays(c: Config, h: History, h': History, i: PeerId, r: Replica)
    requires Evolves(h, h', i) && OutboxOk(c, r.me, r.outbox, h)
    ensures OutboxOk(c, r.me, r.outbox, h')
  {
    forall m | m in r.outbox ensures QueuedOk(c, h', r.me, m) {
      assert QueuedOk(c, h, r.me, m);
      if m.to.Some? { MessageStays(c, h, h', i, r.me, m.to.value, m.msg); }
    }
  }

  /** A step of `i` leaves every other replica in good standing. */
  lemma OthersStay(c: Config, h: History, h': History, i: PeerId, r: Replica)
    requires Evolves(h, h', i) && InGroup(c, r, h) && r.me != i
    ensures InGroup(c, r, h')
  {
    MatchingStays(h, h', i, h.full[r.me]);
    ChosenStays(c, h, h', i, h.full[r.me][..r.commitIdx]);
    assert VotesOk(r, h');
    assert ReignsOk(r, h') by {
      forall t | t in h'.leaders && h'.leaders[t].leader == r.me ensures t <= r.term {
        assert t in h.leaders && GrowsTo(h.leaders[t], h'.leaders[t], i);
      }
      if r.term in h.leaders { assert GrowsTo(h.leaders[r.term], h'.leaders[r.term], i); }
    }
    if r.role == Leader {
      assert GrowsTo(h.leaders[r.term], h'.leaders[r.term], i);
      forall p | p in r.followers && r.followers[p].promiseIdx > 0
        ensures Backed(h', r.followers[p].promiseIdx, p, h'.full[r.me])
      {
        BackedStays(h, h', i, r.followers[p].promiseIdx, p, h.full[r.me], h'.full[r.me]);
      }
    }
  }
}
