/** Replicas of one group hold the same database, including those that joined by
    state transfer. */
module Agreement {
  import opened RaftTypes
  import opened HashChain
  import opened GroupMembership
  import opened BoundedLog
  import opened ReplicaSpec
  import opened ReplicaInvariant
  import opened RaftSystem
  import opened RaftHistory
  import opened RaftSafety
  import opened RaftTheorems
  import opened Keys
  import opened Database
  import opened Transfer
  import opened TransferProgress
  import Db2
  import Db3

  /** Two replicas that have applied as many entries, at whatever moments of a
      run, hold equal databases. */
  lemma DatabasesAgree<Op, Row>(p: Protocol<Op, Row>, c: Config, run: seq<System>, a: nat, b: nat, i: PeerId, j: PeerId)
    requires ConfigOk(c) && RaftSystem.Run(c, run) && InRun(run, a, i) && InRun(run, b, j)
    requires run[a].replicas[i].lastApplied == run[b].replicas[j].lastApplied
    ensures i in run[a].taken && j in run[b].taken
    ensures Fold(p, run[a].taken[i]) == Fold(p, run[b].taken[j])
  {
    hide RaftSystem.Run;
    TakenAgree(c, run, a, b, i, j);
    TakenAgree(c, run, b, a, j, i);
    assert run[a].taken[i] == run[b].taken[j];
  }

  /** A replica that is up is fit to be the sender of a transfer. */
  lemma LoadedIsSource<Op, Row>(p: Protocol<Op, Row>, r: Replica, full: seq<Entry>, first: Membership, db: map<Bytes, Row>, g: Group)
    requires ReplicaOk(r, full, first) && db == Fold(p, full[..r.lastApplied])
    ensures SourceOk(p, Source(r.log, r.lastApplied, db, g), full[..r.lastApplied])
    ensures r.log.oldest == 1 || r.log.oldest <= r.lastApplied
  {
    StoresLast(r.log, full);
  }

  /** The sending end of link `l` is replica `from`: what it has applied, its log, and
      its committed membership. */
  ghost predicate SentBy<Row>(s: System, from: PeerId, l: Link<Row>) {
    && from in s.replicas && from in s.taken && l.done == s.taken[from]
    && l.src.log == s.replicas[from].log && FromGroup(l.src.group) == Success(s.replicas[from].membership)
  }

  ghost predicate Settled(s: System, i: PeerId) {
    i in s.replicas && s.replicas[i].lastApplied == s.replicas[i].commitIdx
  }

  /** A transfer from replica `from` of a run, complete at moment `a`; `at` are the
      moments of the run at which the transfer stood as in `links`.  When it makes its
      last push the sender has applied all it has committed. */
  ghost predicate TransferDone<Op, Row>(p: Protocol<Op, Row>, run: seq<System>, a: nat, from: PeerId, links: seq<Link<Row>>, at: seq<nat>) {
    && LinkRun(p, links) && links[|links| - 1].cur.finished && links[|links| - 1].queue == []
    && |at| == |links| && at[|links| - 1] == a < |run|
    && (forall k | 0 <= k < |links| :: at[k] <= a && SentBy(run[at[k]], from, links[k]))
    && (forall j, k | 0 <= j <= k < |links| :: at[j] <= at[k])
    && (forall k: nat | LastPushAt(links, k) :: Settled(run[at[k]], from))
  }

  function JoiningOf<Row>(from: PeerId, links: seq<Link<Row>>, chunkBytes: nat): Joining
    requires links != [] && links[|links| - 1].loading.mem.Some?
  {
    var l := links[|links| - 1].loading;
    Joining(from, l.log.LastIdx(), l.mem.value, l.log, chunkBytes)
  }

  /** What a complete transfer leaves: the end of the log up to an index, the database
      there, and the newest membership up to there, which has the group's voters. */
  lemma TransferLeaves<Op(!new), Row>(p: Protocol<Op, Row>, c: Config, run: seq<System>, a: nat, from: PeerId, links: seq<Link<Row>>, at: seq<nat>)
    requires ConfigOk(c) && RaftSystem.Run(c, run) && ProtocolOk(p) && TransferDone(p, run, a, from, links, at)
    ensures links != [] && from in run[a].taken && from in run[a].replicas
    ensures var l := links[|links| - 1].loading;
            && l.log.LastIdx() <= |run[a].taken[from]| && l.log.Bounded()
            && var full := run[a].taken[from][..l.log.LastIdx()];
            && Stores(l.log, full) && l.db == Fold(p, full)
            && l.mem == Some(GroupAt(full, |full|, c.first)) && l.mem.value.voting == c.voters && SmallGroup(l.mem.value)
  {
    hide LinkRun, Fold, Stores, RaftSystem.Run, GroupAt, SmallGroup;
    TransferExact(p, links);
    var k := TransferGroup(p, links);
    assert SentBy(run[at[k]], from, links[k]) && Settled(run[at[k]], from);
    AppliedMembership(c, run, at[k], from);
    assert SentBy(run[at[|links| - 1]], from, links[|links| - 1]);
  }

  /** What a complete transfer leaves is what the group asks of one that joins. */
  lemma TransferEnrols<Op(!new), Row>(p: Protocol<Op, Row>, c: Config, run: seq<System>, a: nat, i: PeerId, from: PeerId, links: seq<Link<Row>>, at: seq<nat>, chunkBytes: nat)
    requires ConfigOk(c) && RaftSystem.Run(c, run) && ProtocolOk(p) && TransferDone(p, run, a, from, links, at)
    requires i !in run[a].replicas
    ensures links[|links| - 1].loading.mem.Some?
    ensures CanJoin(c, run[a], i, JoiningOf(from, links, chunkBytes))
  {
    hide TransferDone, Fold, Stores, RaftSystem.Run, GroupAt;
    TransferLeaves(p, c, run, a, from, links, at);
    assert a < |run| by { DoneWithin(p, run, a, from, links, at); }
    SameMembers(c, run, a);
    var taken, n := run[a].taken[from], links[|links| - 1].loading.log.LastIdx();
    GroupBefore(taken[..n], taken, n, c.first);
  }

  lemma DoneWithin<Op, Row>(p: Protocol<Op, Row>, run: seq<System>, a: nat, from: PeerId, links: seq<Link<Row>>, at: seq<nat>)
    requires TransferDone(p, run, a, from, links, at)
    ensures a < |run|
  {
  }

  /** And it is what making a replica of it asks. */
  lemma TransferPromotes<Op(!new), Row>(p: Protocol<Op, Row>, c: Config, run: seq<System>, a: nat, from: PeerId, links: seq<Link<Row>>, at: seq<nat>)
    requires ConfigOk(c) && RaftSystem.Run(c, run) && ProtocolOk(p) && TransferDone(p, run, a, from, links, at)
    ensures links != [] && from in run[a].taken
    ensures var l := links[|links| - 1].loading;
            && l.log.LastIdx() <= |run[a].taken[from]|
            && var full := run[a].taken[from][..l.log.LastIdx()];
            && Stores(l.log, full) && EntriesOk(full) && Chained(full) && l.db == Fold(p, full)
            && l.mem == Some(GroupAt(full, |full|, c.first)) && SmallGroup(l.mem.value)
  {
    hide RaftSystem.Run, TransferDone, Fold, Chained, EntriesOk, Stores, GroupAt, SmallGroup;
    TransferLeaves(p, c, run, a, from, links, at);
    assert a < |run| by { DoneWithin(p, run, a, from, links, at); }
    TakenChained(c, run, a, from, links[|links| - 1].loading.log.LastIdx());
  }

  /** The joiner has no vote: only a member that was there from the start has. */
  lemma JoinerHasNoVote<Op(!new), Row>(p: Protocol<Op, Row>, c: Config, run: seq<System>, a: nat, i: PeerId, from: PeerId, links: seq<Link<Row>>, at: seq<nat>)
    requires ConfigOk(c) && RaftSystem.Run(c, run) && ProtocolOk(p) && TransferDone(p, run, a, from, links, at)
    requires i !in run[a].replicas
    ensures links[|links| - 1].loading.mem.Some? && i !in links[|links| - 1].loading.mem.value.voting
  {
    hide RaftSystem.Run, TransferDone, Fold, Stores, GroupAt, SmallGroup;
    TransferLeaves(p, c, run, a, from, links, at);
    assert a < |run| by { DoneWithin(p, run, a, from, links, at); }
    VotersThere(c, run, a);
  }

  lemma VotersThere(c: Config, run: seq<System>, a: nat)
    requires ConfigOk(c) && RaftSystem.Run(c, run) && a < |run|
    ensures c.voters <= run[a].replicas.Keys
  {
    hide RaftSystem.Run, Later;
    var hs := RunExplained(c, run);
    assert SystemOk(c, run[a], hs[a]);
  }

  /** A replica that joins by transfer agrees with the group from then on.  The database
      it is sent is the fold of what counts as taken, at its last log index; at every
      later moment what it has taken extends that; and its database then is that of every
      replica that has applied as many entries, at whatever moment. */
  lemma JoinerAgrees<Op(!new), Row>(p: Protocol<Op, Row>, c: Config, run: seq<System>, a: nat, i: PeerId, from: PeerId, links: seq<Link<Row>>, at: seq<nat>, chunkBytes: nat,
                                    b: nat, d: nat, j: PeerId)
    requires ConfigOk(c) && RaftSystem.Run(c, run) && a + 1 <= b < |run|
    requires ProtocolOk(p) && TransferDone(p, run, a, from, links, at) && links[|links| - 1].loading.mem.Some?
    requires CanJoin(c, run[a], i, JoiningOf(from, links, chunkBytes))
    requires run[a + 1] == Enrolled(c, run[a], i, JoiningOf(from, links, chunkBytes))
    requires InRun(run, d, j)
    ensures var l := links[|links| - 1].loading;
            && l.db == Fold(p, run[a + 1].taken[i]) && run[a + 1].replicas[i].lastApplied == l.log.LastIdx()
    ensures InRun(run, b, i) && i in run[b].taken && run[a + 1].taken[i] <= run[b].taken[i] && j in run[d].taken
    ensures run[b].replicas[i].lastApplied == run[d].replicas[j].lastApplied ==>
              Fold(p, run[b].taken[i]) == Fold(p, run[d].taken[j])
  {
    hide RaftSystem.Run, Fold, TransferDone, GroupAt, Stores;
    TransferLeaves(p, c, run, a, from, links, at);
    hide CanJoin;
    TakenGrows(c, run, a + 1, b, i);
    TakenAgree(c, run, b, d, i, j);
    if run[b].replicas[i].lastApplied == run[d].replicas[j].lastApplied {
      DatabasesAgree(p, c, run, b, d, i, j);
    }
  }

  // -------------------------------------------------------------------- budgets

  ghost predicate AllWithinBudget(parse: Bytes -> Option<Db2.ClientLog>, log: seq<Entry>, db: map<Bytes, Db2.Row>) {
    forall id | id in db :: Db2.WithinBudget(Db2.RequestsFor(parse, log, id), db[id])
  }

  ghost predicate AllWithinEvaluations(parse: Bytes -> Option<Db3.ClientLog>, curve: Db3.Curve, log: seq<Entry>, db: map<Bytes, Db3.Row>) {
    forall id | id in db :: Db3.WithinBudget(curve, Db3.RequestsFor(parse, log, id), db[id])
  }

  /** Rows that arrive by transfer keep the guess budget: at every moment of a transfer
      there is a log index, the receiver's, up to which each loaded row's tries and
      wrong guesses since its latest backup add up to that backup's maximum, although
      the load check alone would let a row without tries through. */
  lemma TransferKeepsBudget(parse: Bytes -> Option<Db2.ClientLog>, links: seq<Link<Db2.Row>>) returns (n: nat)
    requires parse([]).Some? ==> parse([]).value.backupId == []
    requires LinkRun(Db2.Db2Protocol(parse), links)
    ensures LogAt(links[|links| - 1].loading.log, links[|links| - 1].done, n, Start(links))
    ensures var l := links[|links| - 1].loading;
            AllWithinBudget(parse, links[|links| - 1].done[..n], l.db)
  {
    hide LinkStep, LinkInit, Fold, LogAt, Db2.WithinBudget;
    var p, end := Db2.Db2Protocol(parse), links[|links| - 1];
    Db2.Db2ProtocolOk(parse);
    n := TransferInvariant(p, links);
    IdxWithin(end.loading.log, end.done, n, Start(links));
    forall id | id in end.loading.db
      ensures Db2.WithinBudget(Db2.RequestsFor(parse, end.done[..n], id), end.loading.db[id])
    {
      Db2.LogBudget(parse, end.done[..n], id);
    }
  }

  /** The same for the evaluations of the third database. */
  lemma TransferKeepsEvaluations(parse: Bytes -> Option<Db3.ClientLog>, curve: Db3.Curve, links: seq<Link<Db3.Row>>) returns (n: nat)
    requires parse([]).Some? ==> parse([]).value.backupId == []
    requires LinkRun(Db3.Db3Protocol(parse, curve), links)
    ensures LogAt(links[|links| - 1].loading.log, links[|links| - 1].done, n, Start(links))
    ensures var l := links[|links| - 1].loading;
            AllWithinEvaluations(parse, curve, links[|links| - 1].done[..n], l.db)
  {
    hide LinkStep, LinkInit, Fold, LogAt, Db3.WithinBudget;
    var p, end := Db3.Db3Protocol(parse, curve), links[|links| - 1];
    Db3.Db3ProtocolOk(parse, curve);
    n := TransferInvariant(p, links);
    IdxWithin(end.loading.log, end.done, n, Start(links));
    forall id | id in end.loading.db
      ensures Db3.WithinBudget(curve, Db3.RequestsFor(parse, end.done[..n], id), end.loading.db[id])
    {
      Db3.LogBudget(parse, curve, end.done[..n], id);
    }
  }

  /** What can stand in the way of a push, rows apart. */
  ghost predicate EntriesPass<Op, Row>(p: Protocol<Op, Row>, l: Loading<Row>, push: Push<Row>) {
    && push.group.Some? && FromGroup(push.group.value).Success?
    && AllFit(l.log.maxBytes, LastOf(l.log.entries), push.entries) && AllRead(p, l.largest, push.entries)
  }

  /** No row of a transfer is ever refused, as any log leaves only rows that pass: only
      the group and the entries decide. */
  lemma BackupsDelivered(parse: Bytes -> Option<Db2.ClientLog>, links: seq<Link<Db2.Row>>)
    requires parse([]).Some? ==> parse([]).value.backupId == []
    requires LinkRun(Db2.Db2Protocol(parse), links) && links[|links| - 1].queue != []
    ensures var p, end := Db2.Db2Protocol(parse), links[|links| - 1];
            HandlePush(p, end.loading, end.queue[0]).1 == NoError <==> EntriesPass(p, end.loading, end.queue[0])
  {
    hide LinkStep, LinkInit, Fold, HandlePush, AllFit, AllRead;
    var p, end := Db2.Db2Protocol(parse), links[|links| - 1];
    Db2.Db2ProtocolOk(parse);
    DeliveredIff(p, links);
    var rows := end.queue[0].rows;
    forall k | 0 <= k < |rows| ensures p.rowOk(rows[k].0, rows[k].1) {
      var n := RowsAreSent(p, links, k);
      Db2.FoldRowsOk(parse, end.done[..n]);
    }
  }

  lemma ScalarsDelivered(parse: Bytes -> Option<Db3.ClientLog>, curve: Db3.Curve, links: seq<Link<Db3.Row>>)
    requires parse([]).Some? ==> parse([]).value.backupId == []
    requires LinkRun(Db3.Db3Protocol(parse, curve), links) && links[|links| - 1].queue != []
    ensures var p, end := Db3.Db3Protocol(parse, curve), links[|links| - 1];
            HandlePush(p, end.loading, end.queue[0]).1 == NoError <==> EntriesPass(p, end.loading, end.queue[0])
  {
    hide LinkStep, LinkInit, Fold, HandlePush, AllFit, AllRead;
    var p, end := Db3.Db3Protocol(parse, curve), links[|links| - 1];
    Db3.Db3ProtocolOk(parse, curve);
    DeliveredIff(p, links);
    var rows := end.queue[0].rows;
    forall k | 0 <= k < |rows| ensures p.rowOk(rows[k].0, rows[k].1) {
      var n := RowsAreSent(p, links, k);
      Db3.FoldRowsOk(parse, curve, end.done[..n]);
    }
  }

  /** The group as a whole has one budget of guesses.  At every moment of every run, on
      every replica, joined ones included, a row's tries and the wrong guesses since its
      latest backup in the log add up to the maximum; and those logs are prefixes of one
      another, so guesses spent at one replica are spent at all. */
  lemma GroupBudget(parse: Bytes -> Option<Db2.ClientLog>, c: Config, run: seq<System>, a: nat, b: nat, i: PeerId, j: PeerId, id: Bytes)
    requires ConfigOk(c) && RaftSystem.Run(c, run) && InRun(run, a, i) && InRun(run, b, j)
    ensures i in run[a].taken && j in run[b].taken
    ensures run[a].taken[i] <= run[b].taken[j] || run[b].taken[j] <= run[a].taken[i]
    ensures var p := Db2.Db2Protocol(parse);
            && (id in Fold(p, run[a].taken[i]) ==>
                  Db2.WithinBudget(Db2.RequestsFor(parse, run[a].taken[i], id), Fold(p, run[a].taken[i])[id]))
            && (run[a].replicas[i].lastApplied == run[b].replicas[j].lastApplied ==>
                  Get(Fold(p, run[a].taken[i]), id) == Get(Fold(p, run[b].taken[j]), id))
  {
    hide RaftSystem.Run, Fold;
    var p := Db2.Db2Protocol(parse);
    TakenAgree(c, run, a, b, i, j);
    if id in Fold(p, run[a].taken[i]) { Db2.LogBudget(parse, run[a].taken[i], id); }
    if run[a].replicas[i].lastApplied == run[b].replicas[j].lastApplied { DatabasesAgree(p, c, run, a, b, i, j); }
  }

  /** And one budget of evaluations. */
  lemma GroupEvaluations(parse: Bytes -> Option<Db3.ClientLog>, curve: Db3.Curve, c: Config, run: seq<System>, a: nat, b: nat, i: PeerId, j: PeerId, id: Bytes)
    requires ConfigOk(c) && RaftSystem.Run(c, run) && InRun(run, a, i) && InRun(run, b, j)
    ensures i in run[a].taken && j in run[b].taken
    ensures run[a].taken[i] <= run[b].taken[j] || run[b].taken[j] <= run[a].taken[i]
    ensures var p := Db3.Db3Protocol(parse, curve);
            && (id in Fold(p, run[a].taken[i]) ==>
                  Db3.WithinBudget(curve, Db3.RequestsFor(parse, run[a].taken[i], id), Fold(p, run[a].taken[i])[id]))
            && (run[a].replicas[i].lastApplied == run[b].replicas[j].lastApplied ==>
                  Get(Fold(p, run[a].taken[i]), id) == Get(Fold(p, run[b].taken[j]), id))
  {
    hide RaftSystem.Run, Fold;
    var p := Db3.Db3Protocol(parse, curve);
    TakenAgree(c, run, a, b, i, j);
    if id in Fold(p, run[a].taken[i]) { Db3.LogBudget(parse, curve, run[a].taken[i], id); }
    if run[a].replicas[i].lastApplied == run[b].replicas[j].lastApplied { DatabasesAgree(p, c, run, a, b, i, j); }
  }
}
