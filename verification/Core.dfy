/** The enclave core around a replica: applying committed entries to the
    database, and the two ends of a state transfer. */
module Core {
  import opened RaftTypes
  import opened HashChain
  import opened Quorum
  import opened GroupMembership
  import opened BoundedLog
  import opened ReplicaSpec
  import opened ReplicaInvariant
  import opened RaftReplica
  import opened Keys
  import opened Database
  import opened Transfer
  import Merkle

  /** What the leaf for the applied index holds: the index in eight bytes. */
  function IndexMark(idx: nat): Merkle.Hash {
    idx % U64
  }

  /** A tick, after which a leader also asks for the next group. */
  ghost function Ticked(r: Replica, fires: bool, next: Option<Group>): Replica {
    var s := ReplicaSpec.TimerTick(r, fires, true);
    if s.role == Leader && next.Some? then ReplicaSpec.LogRequest(s, MembershipChange(next.value), true).0 else s
  }

  /** Its messages have gone out and everything committed has been applied. */
  function Settled(r: Replica): Replica {
    r.(outbox := {}, lastApplied := r.commitIdx)
  }

  /** A replica that is up: its database is the fold of its log as far as it has
      taken it, each entry once and in order.  The index applied is guarded by a leaf in
      the tree that the replica shares. */
  class Loaded<Op, Row> {
    const protocol: Protocol<Op, Row>
    const raft: Raft
    const appliedLeaf: Merkle.Address
    var db: map<Bytes, Row>
    var dbLastAppliedLog: nat

    ghost predicate AppliedMarked()
      reads this, raft.tree
    {
      appliedLeaf in raft.Others() && raft.Others()[appliedLeaf] == IndexMark(dbLastAppliedLog)
    }

    ghost predicate Valid()
      reads this, raft, raft.log, raft.tree
    {
      && raft.Valid() && AppliedMarked() && dbLastAppliedLog == raft.lastApplied <= |raft.full|
      && db == Fold(protocol, raft.full[..dbLastAppliedLog])
    }

    /** The founder of a group starts with an empty database. */
    constructor (protocol: Protocol<Op, Row>, raft: Raft)
      requires raft.Valid() && raft.lastApplied == 0
      modifies raft.tree
      ensures Valid() && this.protocol == protocol && this.raft == raft && db == map[]
      ensures dbLastAppliedLog == 0 && raft.Others() - {appliedLeaf} == old(raft.Others())
    {
      hide Raft.Valid, Raft.Others;
      this.protocol, this.raft, this.db := protocol, raft, map[];
      var l := NewAppliedLeaf(raft, 0);
      appliedLeaf, dbLastAppliedLog := l, 0;
    }

    /** A replica that joins starts with the database it has been sent. */
    constructor FromTransfer(protocol: Protocol<Op, Row>, raft: Raft, db: map<Bytes, Row>)
      requires raft.Valid() && raft.lastApplied <= |raft.full| && db == Fold(protocol, raft.full[..raft.lastApplied])
      modifies raft.tree
      ensures Valid() && this.protocol == protocol && this.raft == raft && this.db == db
      ensures dbLastAppliedLog == raft.lastApplied && raft.Others() - {appliedLeaf} == old(raft.Others())
    {
      hide Raft.Valid, Raft.Others, Fold;
      this.protocol, this.raft, this.db := protocol, raft, db;
      var l := NewAppliedLeaf(raft, raft.lastApplied);
      appliedLeaf, dbLastAppliedLog := l, raft.lastApplied;
    }

    // ------------------------------------------------------ the leaf of the index

    /** The leaf is created after those of the replica and given its value at once. */
    static method NewAppliedLeaf(raft: Raft, idx: nat) returns (l: Merkle.Address)
      requires raft.Valid()
      modifies raft.tree
      ensures raft.Valid() && l in raft.Others() && raft.Others()[l] == IndexMark(idx)
      ensures raft.Others() - {l} == old(raft.Others())
    {
      hide ReplicaOk, Merkle.Tree.Sound, Merkle.Values, MarkOf;
      l := raft.tree.NewAddress();
      raft.tree.Create(l);
      raft.tree.Update(l, IndexMark(idx));
      raft.LeavesKept();
    }

    /** The check never fails: whatever moves the index also updates its leaf. */
    method VerifyLastAppliedLog() returns (ok: bool)
      requires raft.Valid() && AppliedMarked()
      ensures ok
    {
      hide ReplicaOk, Merkle.Tree.Sound, Merkle.Values, Marks;
      ok := raft.tree.Confirm(appliedLeaf, IndexMark(dbLastAppliedLog));
    }

    method UpdateLastAppliedLog(idx: nat)
      requires raft.Valid() && AppliedMarked()
      modifies this`dbLastAppliedLog, raft.tree
      ensures raft.Valid() && AppliedMarked() && dbLastAppliedLog == idx
      ensures raft.Others() - {appliedLeaf} == old(raft.Others()) - {appliedLeaf}
    {
      hide ReplicaOk, Merkle.Tree.Sound, Merkle.Values, MarkOf;
      dbLastAppliedLog := idx;
      raft.tree.Update(appliedLeaf, IndexMark(idx));
      raft.LeavesKept();
    }

    // ------------------------------------------------------------ applying entries

    method RaftApplyLogToDatabase(e: Entry)
      modifies this`db
      ensures db == Apply(protocol, old(db), e)
    {
      if !e.payload.Data? { return; }
      var op := protocol.parse(e.payload.bytes);
      if op.None? { return; }
      if !protocol.valid(op.value) { return; }
      db := Run(protocol, db, op.value);
    }

    /** Takes the next committed entry, if there is one, and applies it. */
    method ApplyNext() returns (more: bool)
      requires Valid()
      modifies this, raft, raft.tree
      ensures Valid() && raft.full == old(raft.full) && raft.commitIdx == old(raft.commitIdx) && raft.outbox == old(raft.outbox)
      ensures more <==> old(dbLastAppliedLog) < raft.commitIdx
      ensures dbLastAppliedLog == if more then old(dbLastAppliedLog) + 1 else old(dbLastAppliedLog)
      ensures dbLastAppliedLog <= raft.commitIdx && raft.View() == old(raft.View()).(lastApplied := dbLastAppliedLog)
    {
      hide Raft.Valid, Raft.Others, Apply;
      var next := raft.TakeCommittedLog();
      if next.None? { return false; }
      FoldSnoc(protocol, raft.full, dbLastAppliedLog);
      hide Fold;
      var ok := VerifyLastAppliedLog();
      assert ok;
      UpdateLastAppliedLog(next.value.0);
      RaftApplyLogToDatabase(next.value.1);
      return true;
    }

    /** Takes every committed entry and applies it. */
    method RaftHandleCommittedLogs()
      requires Valid()
      modifies this, raft, raft.tree
      ensures Valid() && raft.full == old(raft.full) && raft.commitIdx == old(raft.commitIdx) && raft.outbox == old(raft.outbox)
      ensures dbLastAppliedLog == raft.commitIdx
      ensures db == Fold(protocol, raft.full[..raft.commitIdx]) && raft.View() == old(raft.View()).(lastApplied := raft.commitIdx)
    {
      hide Raft.Valid, Raft.Others, Fold;
      var more := true;
      while more
        invariant raft.View() == old(raft.View()).(lastApplied := dbLastAppliedLog)
        invariant Valid() && raft.full == old(raft.full) && raft.commitIdx == old(raft.commitIdx) && raft.outbox == old(raft.outbox)
        invariant !more ==> dbLastAppliedLog == raft.commitIdx
        decreases more, raft.commitIdx - dbLastAppliedLog
      {
        more := ApplyNext();
      }
    }

    /** After each call into Raft: its messages go out and what it has committed is
        applied. */
    method RaftStep() returns (out: set<Sendable>)
      requires Valid()
      modifies this, raft, raft.tree
      ensures Valid() && raft.full == old(raft.full) && raft.commitIdx == old(raft.commitIdx)
      ensures out == old(raft.outbox) && raft.View() == Settled(old(raft.View()))
      ensures dbLastAppliedLog == raft.commitIdx && db == Fold(protocol, raft.full[..raft.commitIdx])
    {
      hide Raft.Valid, Raft.Others, Fold;
      out := raft.SendableMessages();
      RaftHandleCommittedLogs();
    }

    /** Takes the message as the replica's protocol says.  Between steps everything
        committed has been applied. */
    method HandleRaftMessage(msg: RaftMessage, from: PeerId) returns (out: set<Sendable>)
      requires Valid() && from != raft.me && (msg.inner.AppendResponse? ==> PromiseFits(raft.View(), msg.term, msg.inner, from))
      modifies this, raft, raft.log, raft.tree
      ensures Valid() && raft.lastApplied == raft.commitIdx && db == Fold(protocol, raft.full[..raft.commitIdx])
      ensures old(raft.full[..dbLastAppliedLog]) <= raft.full
      ensures var r := old(ReplicaSpec.Receive(raft.View(), msg, from, true, true)); out == r.outbox && raft.View() == Settled(r)
    {
      hide Raft.Valid, Raft.Others, Fold, ReplicaSpec.Receive;
      AppliedPromised(raft);
      raft.Receive(msg, from);
      PrefixCut(old(raft.full), raft.full, dbLastAppliedLog, old(raft.promiseIdx));
      assert raft.full[..dbLastAppliedLog] == old(raft.full[..dbLastAppliedLog]);
      out := RaftStep();
    }

    /** A leader also asks for the next group, if there is one to ask for. */
    method HandleTimerTick(fires: bool, next: Option<Group>) returns (out: set<Sendable>)
      requires Valid()
      modifies this, raft, raft.log, raft.tree
      ensures Valid() && raft.lastApplied == raft.commitIdx && db == Fold(protocol, raft.full[..raft.commitIdx])
      ensures old(raft.full[..dbLastAppliedLog]) <= raft.full
      ensures var r := old(Ticked(raft.View(), fires, next)); out == r.outbox && raft.View() == Settled(r)
    {
      hide Raft.Valid, Raft.Others, Fold, ReplicaSpec.TimerTick, ReplicaSpec.LogRequest;
      AppliedPromised(raft);
      raft.TimerTick(fires);
      PrefixCut(old(raft.full), raft.full, dbLastAppliedLog, old(raft.promiseIdx));
      assert raft.full[..dbLastAppliedLog] == old(raft.full[..dbLastAppliedLog]);
      if raft.role == Leader && next.Some? {
        AppliedPromised(raft);
        label ticked:
        var ignored := raft.LogRequest(MembershipChange(next.value));
        PrefixCut(old@ticked(raft.full), raft.full, dbLastAppliedLog, old@ticked(raft.promiseIdx));
        assert raft.full[..dbLastAppliedLog] == old(raft.full[..dbLastAppliedLog]);
      }
      out := RaftStep();
    }
  }

  lemma AppliedPromised(raft: Raft)
    requires raft.Valid()
    ensures raft.lastApplied <= raft.promiseIdx <= |raft.full|
  {
    hide Merkle.Tree.Valid, Merkle.Values;
  }

  lemma CommittedGroup(r: Replica, full: seq<Entry>, first: Membership)
    requires ReplicaOk(r, full, first)
    ensures SmallGroup(r.membership)
  {
  }

  lemma NoRows<Row>(db: map<Bytes, Row>, start: Bytes)
    ensures Rows(db, start, 0) == []
  {
  }

  /** The sender's record of one transfer. */
  class ReplicationPushState {
    const id: nat
    var sequence: nat
    var logsFrom: nat
    var fromKey: Bytes
    var finished: bool

    constructor (id: nat, logsFrom: nat)
      ensures At() == Cursor(id, 0, logsFrom, [], false)
    {
      this.id, this.sequence, this.logsFrom, this.fromKey, this.finished := id, 0, logsFrom, [], false;
    }

    function At(): Cursor
      reads this
    {
      Cursor(id, sequence, logsFrom, fromKey, finished)
    }

    /** Entries from the cursor to the last applied one, a chunk's worth. */
    method NextEntries(log: LogState, applied: nat, limit: nat) returns (entries: seq<Entry>, atCommit: bool)
      ensures (entries, atCommit) == ChunkEntries(log, logsFrom, applied, 0, limit)
    {
      entries, atCommit := [], false;
      var idx: nat, size: nat := logsFrom, 0;
      assert [] + ChunkEntries(log, idx, applied, size, limit).0 == ChunkEntries(log, idx, applied, size, limit).0;
      while true
        invariant ChunkEntries(log, logsFrom, applied, 0, limit) ==
                  (entries + ChunkEntries(log, idx, applied, size, limit).0, ChunkEntries(log, idx, applied, size, limit).1)
        decreases log.oldest + |log.entries| - idx
      {
        var e := log.At(idx);
        if e.None? || idx > applied {
          atCommit := true;
          assert entries + [] == entries;
          return;
        }
        assert forall rest: seq<Entry> :: entries + ([e.value] + rest) == (entries + [e.value]) + rest;
        entries := entries + [e.value];
        size := size + SerializedSize(e.value) + 1;
        if size >= limit { return; }
        idx := idx + 1;
      }
    }

    method SendNextReplicationState<Op, Row>(from: Loaded<Op, Row>, limit: nat, maxRow: nat, messageSize: nat) returns (push: Push<Row>)
      requires from.Valid() && !finished && maxRow > 0
      modifies this
      ensures push.group.Some? && FromGroup(push.group.value) == Success(from.raft.membership)
      ensures (push, At()) == NextPush(Source(from.raft.log.State(), from.dbLastAppliedLog, from.db, push.group.value), old(At()), limit, maxRow, messageSize)
    {
      hide ReplicaOk, NextPush, Fold;
      CommittedGroup(from.raft.View(), from.raft.full, from.raft.first);
      var group := AsProto(from.raft.membership);
      push := FillPush(from.raft.log.State(), from.dbLastAppliedLog, from.db, group, limit, maxRow, messageSize);
    }

    /** Entries first, and rows if there is room after the last applied entry. */
    method FillPush<Row>(log: LogState, applied: nat, db: map<Bytes, Row>, group: Group, limit: nat, maxRow: nat, messageSize: nat)
      returns (push: Push<Row>)
      requires !finished && maxRow > 0
      modifies this
      ensures (push, At()) == NextPush(Source(log, applied, db, group), old(At()), limit, maxRow, messageSize)
      ensures push.group == Some(group)
    {
      hide ChunkEntries, Rows, Reach, RowCount;
      var entries, atCommit := NextEntries(log, applied, limit);
      push := Push(id, sequence, logsFrom, entries, [], false, Some(group));
      sequence := sequence + 1;
      logsFrom := logsFrom + |entries|;
      NoRows(db, fromKey);
      var count := RowCount(atCommit, limit, maxRow, messageSize);
      if count > 0 {
        var rows := NextRows(db, count);
        push := push.(rows := rows, toEnd := |rows| < count);
      }
    }

    method NextRows<Row>(db: map<Bytes, Row>, count: nat) returns (rows: seq<(Bytes, Row)>)
      modifies this`fromKey, this`finished
      ensures rows == Rows(db, old(fromKey), count) && fromKey == Reach(rows, [])
      ensures finished == (old(finished) || |rows| < count)
    {
      rows := Rows(db, fromKey, count);
      fromKey := Reach(rows, []);
      if |rows| < count { finished := true; }
    }
  }

  /** A joining replica while it loads. */
  class LoadingReplica<Op, Row> {
    const protocol: Protocol<Op, Row>
    const id: nat
    const log: Log
    var sequence: nat
    var db: map<Bytes, Row>
    var largest: Bytes
    var mem: Option<Membership>

    constructor (protocol: Protocol<Op, Row>, id: nat, maxBytes: nat)
      ensures log.Valid() && fresh(log)
      ensures State() == Loading(id, 0, LogState(1, [], 0, maxBytes), map[], [], None)
    {
      this.protocol, this.id, this.sequence, this.db, this.largest, this.mem := protocol, id, 0, map[], [], None;
      this.log := new Log(maxBytes);
    }

    function State(): Loading<Row>
      reads this, log
    {
      Loading(id, sequence, log.State(), db, largest, mem)
    }

    method HandleReplicateStatePush(push: Push<Row>) returns (err: Error)
      requires log.Valid()
      modifies this, log
      ensures log.Valid()
      ensures (State(), err) == HandlePush(protocol, old(State()), push)
    {
      hide Transfer.TakeEntries, TakeRows, FromGroup;
      if log.State().NextIdx() > 1 && push.firstIdx != log.State().NextIdx() { return ReplicateLogIndexMismatch; }
      if push.group.None? { return ReplicateMissingCommittedMembership; }
      if push.id != id { return ReplicateReplicationId; }
      sequence := sequence + 1;
      if push.sequence != sequence - 1 { return ReplicateReplicationSequence; }
      var m := FromProto(push.group.value);
      if m.Failure? {
        mem := None;
        return m.error;
      }
      mem := Some(m.value);
      if log.entries == [] { var ignored := log.SetNextIdx(push.firstIdx); }
      err := AppendAll(push.entries);
      if err != NoError { return; }
      err := LoadAll(push.rows);
    }

    method AppendAll(entries: seq<Entry>) returns (err: Error)
      requires log.Valid()
      modifies this, log
      ensures log.Valid()
      ensures (State(), err) == Transfer.TakeEntries(protocol, old(State()), entries)
    {
      var i := 0;
      assert entries[0..] == entries;
      while i < |entries|
        invariant 0 <= i <= |entries| && log.Valid()
        invariant Transfer.TakeEntries(protocol, State(), entries[i..]) == Transfer.TakeEntries(protocol, old(State()), entries)
      {
        assert entries[i..][0] == entries[i] && entries[i..][1..] == entries[i + 1..];
        err := log.Append(entries[i], log.State().LastIdx());
        if err != NoError { return; }
        err := MaybeApplyLogToReplicatingDatabase(entries[i]);
        if err != NoError { return; }
        i := i + 1;
      }
      err := NoError;
    }

    method MaybeApplyLogToReplicatingDatabase(e: Entry) returns (err: Error)
      modifies this`db
      ensures (State(), err) == MaybeApply(protocol, old(State()), e)
    {
      if largest == [] || !e.payload.Data? || e.payload.bytes == [] { return NoError; }
      var op := protocol.parse(e.payload.bytes);
      if op.None? { return ReplicatedLogSerialization; }
      if Less(largest, protocol.key(op.value)) { return NoError; }
      if !protocol.valid(op.value) { return ClientLogInvalid; }
      db := Run(protocol, db, op.value);
      return NoError;
    }

    method LoadAll(rows: seq<(Bytes, Row)>) returns (err: Error)
      modifies this`db, this`largest
      ensures (State(), err) == TakeRows(protocol, old(State()), rows)
    {
      if rows == [] { return NoError; }
      var last := LoadRowsFromProtos(rows);
      if AtMost(last, largest) { return ReplicationOutOfOrder; }
      largest := last;
      return NoError;
    }

    /** The key of the last row, or the empty string when a row was refused. */
    method LoadRowsFromProtos(rows: seq<(Bytes, Row)>) returns (last: Bytes)
      requires rows != []
      modifies this`db
      ensures var (loaded, ok) := LoadRows(protocol, old(db), rows);
              db == loaded && last == if ok then rows[|rows| - 1].0 else []
    {
      var i := 0;
      assert rows[0..] == rows;
      while i < |rows|
        invariant 0 <= i <= |rows|
        invariant LoadRows(protocol, db, rows[i..]) == LoadRows(protocol, old(db), rows)
      {
        assert rows[i..][0] == rows[i] && rows[i..][1..] == rows[i + 1..];
        if !Loadable(protocol, db, rows[i]) { return []; }
        db := db[rows[i].0 := rows[i].1];
        i := i + 1;
      }
      last := rows[|rows| - 1].0;
    }
  }

  /** Makes a replica out of what a finished transfer has left: the log `full`, of which
      the end is stored, counts as applied up to its last index, and the database is
      taken as it is.  It goes on from there like any other. */
  method PromoteRaftToLoaded<Op, Row>(loading: LoadingReplica<Op, Row>, tree: Merkle.Tree, mark: Marker, group: nat, me: PeerId,
                                      superMajority: nat, chunkBytes: nat, ghost full: seq<Entry>, ghost first: Membership)
    returns (loaded: Loaded<Op, Row>)
    requires loading.log.Valid() && Stores(loading.log.State(), full) && EntriesOk(full) && Chained(full)
    requires loading.db == Fold(loading.protocol, full) && tree.Valid() && superMajority < U32
    requires loading.mem == Some(GroupAt(full, |full|, first)) && SmallGroup(loading.mem.value)
    requires me in loading.mem.value.voting && |loading.mem.value.voting| == 1 ==> loading.mem.value.all == {me}
    modifies loading.log, tree
    ensures loaded.Valid() && fresh(loaded) && fresh(loaded.raft) && loaded.protocol == loading.protocol && loaded.raft.tree == tree
    ensures full <= loaded.raft.full && loaded.db == loading.db && loaded.raft.first == first
    ensures loaded.dbLastAppliedLog == old(loading.log.State()).LastIdx() == |full|
    ensures loaded.raft.View() ==
            Started(Built(group, me, loading.mem.value, superMajority, chunkBytes, old(loading.log.State()), true), true)
    ensures loaded.raft.Others() - {loaded.appliedLeaf} == old(Merkle.Values(tree.View()))
  {
    hide ReplicaOk, Fold, Marks, Merkle.Tree.Valid, Merkle.Values, Started, GroupAt;
    StoresLast(loading.log.State(), full);
    var raft := new Raft(group, me, tree, mark, loading.mem.value, loading.log, superMajority, chunkBytes, true, full, first);
    assert raft.full[..|full|] == full;
    loaded := new Loaded<Op, Row>.FromTransfer(loading.protocol, raft, loading.db);
  }
}
