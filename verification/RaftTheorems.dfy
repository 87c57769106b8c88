/** What the invariant says about whole runs, in terms of the replicas' own
    state.  Every statement is about any two moments of any run. */
module RaftTheorems {
  import opened RaftTypes
  import opened HashChain
  import opened Quorum
  import opened GroupMembership
  import opened BoundedLog
  import opened ReplicaSpec
  import opened ReplicaInvariant
  import opened RaftSystem
  import opened RaftHistory
  import opened RaftSteps
  import opened RaftSafety

  // ---------------------------------------------------- histories along a run

  /** What holds between the history at one moment and at any later one. */
  predicate Later(h: History, h': History) {
    && h'.base == h.base
    && (forall t | t in h.leaders :: t in h'.leaders && h'.leaders[t].leader == h.leaders[t].leader && h.leaders[t].log <= h'.leaders[t].log)
    && h.full.Keys == h.promise.Keys && h.full.Keys <= h'.full.Keys == h'.promise.Keys
    && (forall p | p in h.full :: KeptBy(h, h', p))
  }

  predicate KeptBy(h: History, h': History, p: PeerId)
    requires p in h.full && p in h'.full && p in h.promise && p in h'.promise
  {
    h.promise[p] <= h'.promise[p] && h.promise[p] <= |h.full[p]| && h.full[p][..h.promise[p]] <= h'.full[p]
  }

  lemma LaterStep(c: Config, h: History, h': History, i: PeerId)
    requires HistoryOk(c, h) && Evolves(h, h', i)
    ensures Later(h, h')
  {
    forall t | t in h.leaders ensures t in h'.leaders && h'.leaders[t].leader == h.leaders[t].leader && h.leaders[t].log <= h'.leaders[t].log {
      assert GrowsTo(h.leaders[t], h'.leaders[t], i);
    }
  }

  lemma LaterTrans(h: History, h': History, h'': History)
    requires Later(h, h') && Later(h', h'') && (forall p | p in h'.full :: h'.promise[p] <= |h'.full[p]|)
    ensures Later(h, h'')
  {
    forall p | p in h.full ensures KeptBy(h, h'', p) {
      assert KeptBy(h, h', p) && KeptBy(h', h'', p);
      PrefixTrans(h.full[p][..h.promise[p]], h'.full[p], h''.full[p], h'.promise[p]);
    }
  }

  lemma LaterPromised(h: History, h': History, p: PeerId, prefix: seq<Entry>)
    requires Later(h, h') && Promised(h, p, prefix)
    ensures Promised(h', p, prefix)
  {
    assert KeptBy(h, h', p);
    assert prefix <= h.full[p][..h.promise[p]];
    PrefixTrans(prefix, h.full[p][..h.promise[p]], h'.full[p], h.promise[p]);
  }

  lemma LaterChosen(c: Config, h: History, h': History, prefix: seq<Entry>)
    requires Later(h, h') && Chosen(c, h, prefix)
    ensures Chosen(c, h', prefix)
  {
    var q :| ChosenBy(c, h, q, prefix);
    forall p | p in q ensures Promised(h', p, prefix) { LaterPromised(h, h', p, prefix); }
    assert ChosenBy(c, h', q, prefix);
  }

  ghost predicate Explains(c: Config, run: seq<System>, hs: seq<History>) {
    && |hs| == |run|
    && (forall k | 0 <= k < |run| :: SystemOk(c, run[k], hs[k]))
    && (forall j, k | 0 <= j <= k < |run| :: Later(hs[j], hs[k]))
  }

  /** Every run has a history that explains it. */
  lemma {:induction false} RunExplained(c: Config, run: seq<System>) returns (hs: seq<History>)
    requires ConfigOk(c) && Run(c, run)
    ensures Explains(c, run, hs)
  {
    hide SystemOk, Init, Step, Later;
    if |run| == 1 {
      InitOk(c, run[0]);
      hs := [FirstHistory(c, run[0])];
      LaterSelf(c, run[0], hs[0]);
    } else {
      var n := |run| - 1;
      var front := run[..n];
      assert Run(c, front) by {
        forall k | 0 <= k < |front| - 1 ensures CanStep(c, front[k], front[k + 1]) {
          assert CanStep(c, run[k], run[k + 1]);
        }
      }
      var before := RunExplained(c, front);
      assert CanStep(c, run[n - 1], run[n]);
      assert front[n - 1] == run[n - 1] && SystemOk(c, front[n - 1], before[n - 1]);
      var next := NextHistory(c, run[n - 1], run[n], before[n - 1]);
      hs := before + [next];
      forall j, k | 0 <= j <= k < |run| ensures Later(hs[j], hs[k]) {
        if k == n && j < n {
          LaterAcross(c, run[n - 1], before[j], before[n - 1], next);
        }
      }
      assert forall k | 0 <= k < n :: SystemOk(c, front[k], before[k]) && front[k] == run[k];
    }
  }

  lemma LaterSelf(c: Config, s: System, h: History)
    requires SystemOk(c, s, h)
    ensures Later(h, h)
  {
    EvolvesSelf(c, h, 0);
    LaterStep(c, h, h, 0);
  }

  lemma LaterAcross(c: Config, s: System, h: History, h': History, h'': History)
    requires SystemOk(c, s, h') && Later(h, h') && Later(h', h'')
    ensures Later(h, h'')
  {
    LaterTrans(h, h', h'');
  }

  lemma NextHistory(c: Config, s: System, s': System, h: History) returns (h': History)
    requires SystemOk(c, s, h) && CanStep(c, s, s')
    ensures SystemOk(c, s', h') && Later(h, h') && Later(h', h')
  {
    var a :| Step(c, s, a, s');
    h' := StepOk(c, s, a, s', h);
    LaterStep(c, h, h', Actor(a));
    LaterSelf(c, s', h');
  }

  /** Two prefixes each promised by a quorum: one extends the other. */
  lemma ChosenAgree(c: Config, h: History, a: seq<Entry>, b: seq<Entry>)
    requires ConfigOk(c) && Chosen(c, h, a) && Chosen(c, h, b)
    ensures a <= b || b <= a
  {
    var q :| ChosenBy(c, h, q, a);
    var q' :| ChosenBy(c, h, q', b);
    var p := QuorumsMeet(c.voters, c.superMajority, q, q');
    assert Promised(h, p, a) && Promised(h, p, b);
  }

  // ----------------------------------------------------------------- theorems

  predicate InRun(run: seq<System>, a: nat, i: PeerId) {
    a < |run| && i in run[a].replicas
  }

  /** What a replica stores of its whole log, read by index. */
  ghost predicate Reads(r: Replica, full: seq<Entry>) {
    && r.lastApplied <= r.commitIdx <= r.promiseIdx <= |full| == r.log.LastIdx()
    && (forall k: nat | r.log.At(k).Some? :: 1 <= k <= |full| && r.log.At(k).value == full[k - 1])
    && (r.lastApplied < r.commitIdx ==> r.log.At(r.lastApplied + 1).Some?)
  }

  /** The facts about one replica at one moment that the theorems use. */
  ghost predicate Facts(c: Config, s: System, h: History, i: PeerId)
    requires i in s.replicas
  {
    && i in h.full && i in h.promise && i in s.taken
    && var r, full := s.replicas[i], h.full[i];
    && Reads(r, full) && r.promiseIdx == h.promise[i] && s.taken[i] == full[..r.lastApplied]
    && LogMatching(h, full) && Chosen(c, h, full[..r.commitIdx])
    && (r.role == Leader ==> r.term in h.leaders && h.leaders[r.term].leader == i)
    && Current(r) == GroupAt(full, |full|, c.first) && Current(r).voting == c.voters
    && r.membership == GroupAt(full, r.commitIdx, c.first)
  }

  lemma MemberFacts(c: Config, run: seq<System>, hs: seq<History>, a: nat, i: PeerId)
    requires Explains(c, run, hs) && InRun(run, a, i)
    ensures Facts(c, run[a], hs[a], i)
  {
    assert SystemOk(c, run[a], hs[a]) && MemberOk(c, run[a], hs[a], i);
    FactsOf(c, run[a], hs[a], i);
  }

  lemma FactsOf(c: Config, s: System, h: History, i: PeerId)
    requires i in s.replicas && MemberOk(c, s, h, i)
    ensures Facts(c, s, h, i)
  {
    hide HistoryOk, OutboxOk, VotesOk, LogMatching, Chosen, RoleOk, EntriesOk, Chained, GroupAt;
    StoresLast(s.replicas[i].log, h.full[i]);
    EffectiveMembership(s.replicas[i], h.full[i], c.first);
    CurrentVoters(c, s.replicas[i], h);
  }

  /** No term ever has two leaders, whether at one moment or at two. */
  lemma ElectionSafety(c: Config, run: seq<System>, a: nat, b: nat, i: PeerId, j: PeerId)
    requires ConfigOk(c) && Run(c, run) && InRun(run, a, i) && InRun(run, b, j)
    requires run[a].replicas[i].role == Leader && run[b].replicas[j].role == Leader
    requires run[a].replicas[i].term == run[b].replicas[j].term
    ensures i == j
  {
    hide SystemOk, Run, Reads, LogMatching, Chosen;
    var hs := RunExplained(c, run);
    MemberFacts(c, run, hs, a, i);
    MemberFacts(c, run, hs, b, j);
    assert Later(hs[Min(a, b)], hs[Max(a, b)]);
  }

  /** At every moment of every run each replica's indexes are in order, the next
      entry to be taken is stored, and the effective voters are the group's. */
  lemma IndexOrder(c: Config, run: seq<System>, a: nat, i: PeerId)
    requires ConfigOk(c) && Run(c, run) && InRun(run, a, i)
    ensures var r := run[a].replicas[i];
            && r.lastApplied <= r.commitIdx <= r.promiseIdx <= r.log.LastIdx()
            && (r.lastApplied < r.commitIdx ==> r.log.At(r.lastApplied + 1).Some?)
            && Current(r).voting == c.voters
  {
    hide SystemOk, Run;
    var hs := RunExplained(c, run);
    MemberFacts(c, run, hs, a, i);
  }

  /** A promise is never revoked: it never shrinks, and an entry it covers never
      changes, for as long as the entry is kept. */
  lemma PromisesNeverRevoked(c: Config, run: seq<System>, a: nat, b: nat, i: PeerId, k: nat)
    requires ConfigOk(c) && Run(c, run) && a <= b && InRun(run, a, i) && InRun(run, b, i)
    ensures run[a].replicas[i].promiseIdx <= run[b].replicas[i].promiseIdx
    ensures k <= run[a].replicas[i].promiseIdx && run[a].replicas[i].log.At(k).Some? && run[b].replicas[i].log.At(k).Some? ==>
              run[a].replicas[i].log.At(k) == run[b].replicas[i].log.At(k)
  {
    hide SystemOk, Run, LogMatching, Chosen;
    var hs := RunExplained(c, run);
    MemberFacts(c, run, hs, a, i);
    MemberFacts(c, run, hs, b, i);
    assert Later(hs[a], hs[b]) && KeptBy(hs[a], hs[b], i);
    if 1 <= k <= run[a].replicas[i].promiseIdx {
      assert hs[a].full[i][..hs[a].promise[i]][k - 1] == hs[b].full[i][k - 1];
    }
  }

  /** Where any two replicas' logs carry equal terms at an index, at whatever
      moments, they carry equal entries at every earlier index both still store. */
  lemma LogMatchingTheorem(c: Config, run: seq<System>, a: nat, b: nat, i: PeerId, j: PeerId, k: nat, m: nat)
    requires ConfigOk(c) && Run(c, run) && InRun(run, a, i) && InRun(run, b, j)
    requires var x, y := run[a].replicas[i].log, run[b].replicas[j].log;
             && m <= k && x.At(k).Some? && y.At(k).Some? && x.TermAt(k) == y.TermAt(k)
             && x.At(m).Some? && y.At(m).Some?
    ensures run[a].replicas[i].log.At(m) == run[b].replicas[j].log.At(m)
  {
    hide SystemOk, Run, Chosen;
    var hs := RunExplained(c, run);
    MemberFacts(c, run, hs, a, i);
    MemberFacts(c, run, hs, b, j);
    assert Later(hs[Min(a, b)], hs[Max(a, b)]);
    MatchedAcross(hs[a], hs[b], hs[a].full[i], hs[b].full[j], k, m);
  }

  lemma MatchedAcross(h: History, h': History, x: seq<Entry>, y: seq<Entry>, k: nat, m: nat)
    requires LogMatching(h, x) && LogMatching(h', y) && (Later(h, h') || Later(h', h))
    requires 1 <= m <= k <= |x| && k <= |y| && x[k - 1].term == y[k - 1].term
    ensures x[m - 1] == y[m - 1]
  {
    assert MatchAt(h, x, k - 1) && MatchAt(h', y, k - 1);
    if k <= |h.base| {
      assert x[..k][m - 1] == y[..k][m - 1];
    } else {
      var t := x[k - 1].term;
      assert x[..k][m - 1] == h.leaders[t].log[..k][m - 1];
      assert y[..k][m - 1] == h'.leaders[t].log[..k][m - 1];
    }
  }

  lemma HashTells(x: seq<Entry>, y: seq<Entry>, k: nat, l: nat)
    requires Chained(x) && Chained(y) && 1 <= k <= |x| && 1 <= l <= |y| && x[k - 1].hash == y[l - 1].hash
    requires k < U64 && l < U64 && x[k - 1].term < U64 && y[l - 1].term < U64
    ensures k == l && x[k - 1].term == y[l - 1].term
  {
    assert ChainedAt(x, k - 1) && ChainedAt(y, l - 1);
    HashInputInjective(k, x[k - 1].term, x[k - 1].payload, l, y[l - 1].term, y[l - 1].payload);
  }

  lemma LogChained(c: Config, run: seq<System>, hs: seq<History>, a: nat, i: PeerId)
    requires Explains(c, run, hs) && InRun(run, a, i)
    ensures i in hs[a].full && Chained(hs[a].full[i]) && EntriesOk(hs[a].full[i])
  {
    hide HistoryOk, OutboxOk, VotesOk, LogMatching, Chosen, MembershipOk, RoleOk, EntriesOk, Chained;
    assert SystemOk(c, run[a], hs[a]) && MemberOk(c, run[a], hs[a], i);
  }

  /** Where any two replicas' logs carry one hash, at whatever moments, they carry
      it at the same index and have equal entries at every earlier index both still
      store. */
  lemma HashMatchingTheorem(c: Config, run: seq<System>, a: nat, b: nat, i: PeerId, j: PeerId, k: nat, l: nat, m: nat)
    requires ConfigOk(c) && Run(c, run) && InRun(run, a, i) && InRun(run, b, j)
    requires var x, y := run[a].replicas[i].log, run[b].replicas[j].log;
             && x.At(k).Some? && y.At(l).Some? && x.HashAt(k) == y.HashAt(l)
             && k < U64 && l < U64 && x.TermAt(k) < U64 && y.TermAt(l) < U64
    ensures k == l
    ensures var x, y := run[a].replicas[i].log, run[b].replicas[j].log;
            m <= k && x.At(m).Some? && y.At(m).Some? ==> x.At(m) == y.At(m)
  {
    hide SystemOk, Run, Chosen, LogMatching, Chained;
    var hs := RunExplained(c, run);
    MemberFacts(c, run, hs, a, i);
    MemberFacts(c, run, hs, b, j);
    LogChained(c, run, hs, a, i);
    LogChained(c, run, hs, b, j);
    HashTells(hs[a].full[i], hs[b].full[j], k, l);
    var x, y := run[a].replicas[i].log, run[b].replicas[j].log;
    if m <= k && x.At(m).Some? && y.At(m).Some? {
      LogMatchingTheorem(c, run, a, b, i, j, k, m);
    }
  }

  /** The committed part of a log is chosen, now and at every later moment. */
  lemma CommittedIsChosen(c: Config, run: seq<System>, hs: seq<History>, a: nat, b: nat, i: PeerId)
    requires Explains(c, run, hs) && a <= b < |run| && InRun(run, a, i) && Facts(c, run[a], hs[a], i)
    ensures Chosen(c, hs[b], hs[a].full[i][..run[a].replicas[i].commitIdx])
  {
    assert Later(hs[a], hs[b]);
    LaterChosen(c, hs[a], hs[b], hs[a].full[i][..run[a].replicas[i].commitIdx]);
  }

  /** The committed parts of any two logs, at any two moments: one extends the
      other. */
  lemma CommittedAgree(c: Config, run: seq<System>, hs: seq<History>, a: nat, b: nat, i: PeerId, j: PeerId)
    requires ConfigOk(c) && Explains(c, run, hs) && InRun(run, a, i) && InRun(run, b, j)
    requires Facts(c, run[a], hs[a], i) && Facts(c, run[b], hs[b], j)
    ensures var x, y := hs[a].full[i][..run[a].replicas[i].commitIdx], hs[b].full[j][..run[b].replicas[j].commitIdx];
            x <= y || y <= x
  {
    hide SystemOk, Later, Chosen, LogMatching;
    CommittedIsChosen(c, run, hs, a, Max(a, b), i);
    CommittedIsChosen(c, run, hs, b, Max(a, b), j);
    ChosenAgree(c, hs[Max(a, b)], hs[a].full[i][..run[a].replicas[i].commitIdx], hs[b].full[j][..run[b].replicas[j].commitIdx]);
  }

  /** Commit safety: an entry committed at an index by one replica, at any
      moment, is the entry committed there by any other, at any moment. */
  lemma CommitSafety(c: Config, run: seq<System>, a: nat, b: nat, i: PeerId, j: PeerId, k: nat)
    requires ConfigOk(c) && Run(c, run) && InRun(run, a, i) && InRun(run, b, j)
    requires var r, s := run[a].replicas[i], run[b].replicas[j];
             k <= r.commitIdx && k <= s.commitIdx && r.log.At(k).Some? && s.log.At(k).Some?
    ensures run[a].replicas[i].log.At(k) == run[b].replicas[j].log.At(k)
  {
    hide SystemOk, Run, Explains, LogMatching, Chosen;
    var hs := RunExplained(c, run);
    assert |hs| == |run| by { ExplainedLength(c, run, hs); }
    MemberFacts(c, run, hs, a, i);
    MemberFacts(c, run, hs, b, j);
    CommittedAgree(c, run, hs, a, b, i, j);
    var x, y := hs[a].full[i][..run[a].replicas[i].commitIdx], hs[b].full[j][..run[b].replicas[j].commitIdx];
    assert x[k - 1] == y[k - 1];
  }

  lemma ExplainedLength(c: Config, run: seq<System>, hs: seq<History>)
    requires Explains(c, run, hs)
    ensures |hs| == |run|
  {
  }

  lemma TakenStep(c: Config, s: System, s': System, i: PeerId)
    requires CanStep(c, s, s') && i in s.taken && i in s.replicas
    ensures i in s'.taken && i in s'.replicas && s.taken[i] <= s'.taken[i]
  {
    var a :| Step(c, s, a, s');
  }

  /** A replica stays, and what it has handed to its database only grows. */
  lemma {:induction false} TakenGrows(c: Config, run: seq<System>, a: nat, b: nat, i: PeerId)
    requires ConfigOk(c) && Run(c, run) && a <= b < |run| && InRun(run, a, i)
    ensures i in run[a].taken && i in run[b].taken && i in run[b].replicas && run[a].taken[i] <= run[b].taken[i]
    decreases b - a
  {
    hide Init, CanStep;
    if a == b {
      TakenAgree(c, run, a, a, i, i);
    } else {
      TakenGrows(c, run, a, b - 1, i);
      assert CanStep(c, run[b - 1], run[b - 1 + 1]);
      TakenStep(c, run[b - 1], run[b], i);
    }
  }

  /** What a replica has handed to its database is a chained log. */
  lemma TakenChained(c: Config, run: seq<System>, a: nat, i: PeerId, n: nat)
    requires ConfigOk(c) && Run(c, run) && InRun(run, a, i) && i in run[a].taken && n <= |run[a].taken[i]|
    ensures EntriesOk(run[a].taken[i][..n]) && Chained(run[a].taken[i][..n])
  {
    hide SystemOk, Run, LogMatching, Chosen, Chained, EntriesOk;
    var hs := RunExplained(c, run);
    MemberFacts(c, run, hs, a, i);
    LogChained(c, run, hs, a, i);
    var full, r := hs[a].full[i], run[a].replicas[i];
    assert full[..r.lastApplied][..n] == full[..n];
    CutChain(full, n);
  }

  lemma SameMembers(c: Config, run: seq<System>, a: nat)
    requires ConfigOk(c) && Run(c, run) && a < |run|
    ensures run[a].replicas.Keys == run[a].taken.Keys
  {
    hide Run, Later;
    var hs := RunExplained(c, run);
    assert SystemOk(c, run[a], hs[a]);
  }

  // --------------------------------------------------------------- memberships

  /** A replica's log since index 1: what it has handed to its database, and what it
      stores beyond that. */
  function WholeLog(r: Replica, taken: seq<Entry>): seq<Entry> {
    taken + if r.log.oldest <= |taken| + 1 <= r.log.oldest + |r.log.entries| then r.log.entries[|taken| + 1 - r.log.oldest..] else []
  }

  lemma WholeIsFull(r: Replica, full: seq<Entry>, first: Membership)
    requires ReplicaOk(r, full, first)
    ensures WholeLog(r, full[..r.lastApplied]) == full
  {
    hide MembershipOk, RoleOk, EntriesOk, Chained;
    var n := r.lastApplied;
    if full != [] { assert r.log.entries[n + 1 - r.log.oldest..] == full[n..]; }
  }

  /** At every moment of every run the membership in force at a replica is that of the
      newest change in its whole log, and its committed membership that of the newest
      change up to its commit index; where there is none it is the group's first. */
  lemma NewestMembership(c: Config, run: seq<System>, a: nat, i: PeerId)
    requires ConfigOk(c) && Run(c, run) && InRun(run, a, i)
    ensures i in run[a].taken
    ensures var r := run[a].replicas[i];
            var full := WholeLog(r, run[a].taken[i]);
            && Current(r) == GroupAt(full, |full|, c.first)
            && r.commitIdx <= |full| && r.membership == GroupAt(full, r.commitIdx, c.first)
  {
    hide Run, Reads, LogMatching, Chosen, GroupAt, WholeLog, Good;
    var hs := RunExplained(c, run);
    MemberFacts(c, run, hs, a, i);
    assert SystemOk(c, run[a], hs[a]) && MemberOk(c, run[a], hs[a], i);
    WholeOf(c, run[a], hs[a], i);
  }

  lemma WholeOf(c: Config, s: System, h: History, i: PeerId)
    requires i in s.replicas && MemberOk(c, s, h, i)
    ensures i in h.full && i in s.taken && WholeLog(s.replicas[i], s.taken[i]) == h.full[i] && s.replicas[i].commitIdx <= |h.full[i]|
  {
    hide HistoryOk, OutboxOk, VotesOk, LogMatching, Chosen, RoleOk, MembershipOk, EntriesOk, Chained, WholeLog, Stores;
    WholeIsFull(s.replicas[i], h.full[i], c.first);
  }

  /** Replicas that have committed as many entries, at whatever moments, have the same
      committed membership. */
  lemma MembershipsAgree(c: Config, run: seq<System>, a: nat, b: nat, i: PeerId, j: PeerId)
    requires ConfigOk(c) && Run(c, run) && InRun(run, a, i) && InRun(run, b, j)
    requires run[a].replicas[i].commitIdx == run[b].replicas[j].commitIdx
    ensures run[a].replicas[i].membership == run[b].replicas[j].membership
  {
    hide SystemOk, Run, Explains, LogMatching, Chosen, GroupAt;
    var hs := RunExplained(c, run);
    assert |hs| == |run| by { ExplainedLength(c, run, hs); }
    MemberFacts(c, run, hs, a, i);
    MemberFacts(c, run, hs, b, j);
    CommittedAgree(c, run, hs, a, b, i, j);
    var x, y, n := hs[a].full[i], hs[b].full[j], run[a].replicas[i].commitIdx;
    assert x[..n] == y[..n];
    forall k | 0 <= k < n ensures x[k] == y[k] {
      assert x[..n][k] == y[..n][k];
    }
    GroupBefore(x, y, n, c.first);
  }

  /** Where a replica has applied all it has committed, its committed membership is the
      newest among the entries it has applied, and has the group's voters. */
  lemma AppliedMembership(c: Config, run: seq<System>, a: nat, i: PeerId)
    requires ConfigOk(c) && Run(c, run) && InRun(run, a, i)
    requires run[a].replicas[i].lastApplied == run[a].replicas[i].commitIdx
    ensures i in run[a].taken
    ensures run[a].replicas[i].membership == GroupAt(run[a].taken[i], |run[a].taken[i]|, c.first)
    ensures run[a].replicas[i].membership.voting == c.voters && SmallGroup(run[a].replicas[i].membership)
  {
    hide Run, LogMatching, Chosen, GroupAt, Good, SmallGroup;
    var hs := RunExplained(c, run);
    MemberFacts(c, run, hs, a, i);
    assert SystemOk(c, run[a], hs[a]) && MemberOk(c, run[a], hs[a], i);
    var full, n := hs[a].full[i], run[a].replicas[i].commitIdx;
    GroupBefore(full, run[a].taken[i], n, c.first);
    GroupVoters(c, run[a].replicas[i], hs[a]);
  }

  lemma GroupVoters(c: Config, r: Replica, h: History)
    requires Good(c, r, h)
    ensures r.membership.voting == c.voters && SmallGroup(r.membership)
  {
    hide HistoryOk, OutboxOk, LogMatching, Chosen, VotesOk, ReignsOk, LeaderOk, GroupAt, LogOk, RoleOk;
    FixedGroup(c, h.full[r.me], r.commitIdx);
  }

  /** What any two replicas have handed to their databases, at any two moments:
      one is an extension of the other. */
  lemma TakenAgree(c: Config, run: seq<System>, a: nat, b: nat, i: PeerId, j: PeerId)
    requires ConfigOk(c) && Run(c, run) && InRun(run, a, i) && InRun(run, b, j)
    ensures i in run[a].taken && j in run[b].taken
    ensures run[a].taken[i] <= run[b].taken[j] || run[b].taken[j] <= run[a].taken[i]
    ensures |run[a].taken[i]| == run[a].replicas[i].lastApplied
  {
    hide SystemOk, Run, Explains, LogMatching, Chosen;
    var hs := RunExplained(c, run);
    assert |hs| == |run| by { ExplainedLength(c, run, hs); }
    MemberFacts(c, run, hs, a, i);
    MemberFacts(c, run, hs, b, j);
    CommittedAgree(c, run, hs, a, b, i, j);
    var x, y := hs[a].full[i][..run[a].replicas[i].commitIdx], hs[b].full[j][..run[b].replicas[j].commitIdx];
    assert run[a].taken[i] == x[..run[a].replicas[i].lastApplied];
    assert run[b].taken[j] == y[..run[b].replicas[j].lastApplied];
  }

  /** Two chained logs that still store a common index with one hash agree at
      every earlier index that both store, whatever happened to the rest. */
  lemma SameHashSameLog(r: Replica, full: seq<Entry>, first: Membership, s: Replica, full': seq<Entry>, first': Membership, k: nat, m: nat)
    requires ReplicaOk(r, full, first) && ReplicaOk(s, full', first') && WordSized(full) && WordSized(full')
    requires 1 <= m <= k && r.log.At(k).Some? && s.log.At(k).Some? && r.log.HashAt(k) == s.log.HashAt(k)
    requires r.log.At(m).Some? && s.log.At(m).Some?
    ensures r.log.At(m) == s.log.At(m)
  {
    StoresLast(r.log, full);
    StoresLast(s.log, full');
    SameHashSameHistory(full, full', k - 1, k - 1);
    assert full[..k][m - 1] == full'[..k][m - 1];
  }
}
