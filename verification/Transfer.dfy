/** State transfer to a joining replica: what the sender puts in each push, what
    the receiver does with it, and why the receiver ends with exactly the
    sender's database at its last log index. */
module Transfer {
  import opened RaftTypes
  import opened GroupMembership
  import opened BoundedLog
  import opened Keys
  import opened Database

  datatype Push<Row> = Push(
    id: nat, sequence: nat, firstIdx: nat, entries: seq<Entry>, rows: seq<(Bytes, Row)>, toEnd: bool,
    group: Option<Group>)

  // ---------------------------------------------------------------- the sender

  /** The sending replica: its log, how far it has applied it, the result. */
  datatype Source<Row> = Source(log: LogState, applied: nat, db: map<Bytes, Row>, group: Group)

  /** What has been sent so far. */
  datatype Cursor = Cursor(id: nat, sequence: nat, logsFrom: nat, fromKey: Bytes, finished: bool)

  /** Entries from `idx` up to the last applied one, or until they add up to
      `limit` bytes; and whether the last applied one was passed. */
  function ChunkEntries(log: LogState, idx: nat, applied: nat, size: nat, limit: nat): (seq<Entry>, bool)
    decreases log.oldest + |log.entries| - idx
  {
    if log.At(idx).None? || idx > applied then ([], true)
    else
      var e := log.At(idx).value;
      if size + SerializedSize(e) + 1 >= limit then ([e], false)
      else
        var (es, atCommit) := ChunkEntries(log, idx + 1, applied, size + SerializedSize(e) + 1, limit);
        ([e] + es, atCommit)
  }

  /** Rows for which a push has room. */
  function RowCount(atCommit: bool, limit: nat, maxRow: nat, messageSize: nat): nat
    requires maxRow > 0
  {
    if atCommit && messageSize < limit then (limit - messageSize) / maxRow else 0
  }

  /** `messageSize` is the serialised size of the push before rows are added;
      `maxRow` an upper bound on the size of one row. */
  function NextPush<Row>(src: Source<Row>, cur: Cursor, limit: nat, maxRow: nat, messageSize: nat): (Push<Row>, Cursor)
    requires maxRow > 0
  {
    var (entries, atCommit) := ChunkEntries(src.log, cur.logsFrom, src.applied, 0, limit);
    var count := RowCount(atCommit, limit, maxRow, messageSize);
    var rows := Rows(src.db, cur.fromKey, count);
    var toEnd := count > 0 && |rows| < count;
    (Push(cur.id, cur.sequence, cur.logsFrom, entries, rows, toEnd, Some(src.group)),
     Cursor(cur.id, cur.sequence + 1, cur.logsFrom + |entries|,
            if count > 0 then Reach(rows, []) else cur.fromKey, cur.finished || toEnd))
  }

  // -------------------------------------------------------------- the receiver

  datatype Loading<Row> = Loading(
    id: nat, sequence: nat, log: LogState, db: map<Bytes, Row>, largest: Bytes, mem: Option<Membership>)

  /** A received entry is applied only if its key lies in the loaded range. */
  function MaybeApply<Op, Row>(p: Protocol<Op, Row>, l: Loading<Row>, e: Entry): (Loading<Row>, Error) {
    if l.largest == [] || !e.payload.Data? || e.payload.bytes == [] then (l, NoError)
    else
      match p.parse(e.payload.bytes)
      case None => (l, ReplicatedLogSerialization)
      case Some(op) =>
        if Less(l.largest, p.key(op)) then (l, NoError)
        else if !p.valid(op) then (l, ClientLogInvalid)
        else (l.(db := Run(p, l.db, op)), NoError)
  }

  function TakeEntry<Op, Row>(p: Protocol<Op, Row>, l: Loading<Row>, e: Entry): (Loading<Row>, Error) {
    var (log, err) := l.log.Append(e, l.log.LastIdx());
    if err != NoError then (l.(log := log), err) else MaybeApply(p, l.(log := log), e)
  }

  function TakeEntries<Op, Row>(p: Protocol<Op, Row>, l: Loading<Row>, entries: seq<Entry>): (Loading<Row>, Error)
    decreases |entries|
  {
    if entries == [] then (l, NoError)
    else
      var (m, err) := TakeEntry(p, l, entries[0]);
      if err != NoError then (m, err) else TakeEntries(p, m, entries[1..])
  }

  /** Rows must pass their checks and come after everything already there. */
  predicate Loadable<Op, Row>(p: Protocol<Op, Row>, db: map<Bytes, Row>, row: (Bytes, Row)) {
    p.rowOk(row.0, row.1) && forall k | k in db :: Less(k, row.0)
  }

  /** Loads until the first bad row; the flag says whether all were loaded. */
  function LoadRows<Op, Row>(p: Protocol<Op, Row>, db: map<Bytes, Row>, rows: seq<(Bytes, Row)>): (map<Bytes, Row>, bool)
    decreases |rows|
  {
    if rows == [] then (db, true)
    else if !Loadable(p, db, rows[0]) then (db, false)
    else LoadRows(p, db[rows[0].0 := rows[0].1], rows[1..])
  }

  function TakeRows<Op, Row>(p: Protocol<Op, Row>, l: Loading<Row>, rows: seq<(Bytes, Row)>): (Loading<Row>, Error) {
    if rows == [] then (l, NoError)
    else
      var (db, ok) := LoadRows(p, l.db, rows);
      var last := if ok then rows[|rows| - 1].0 else [];
      if AtMost(last, l.largest) then (l.(db := db), ReplicationOutOfOrder)
      else (l.(db := db, largest := last), NoError)
  }

  function HandlePush<Op, Row>(p: Protocol<Op, Row>, l: Loading<Row>, push: Push<Row>): (Loading<Row>, Error) {
    if l.log.NextIdx() > 1 && push.firstIdx != l.log.NextIdx() then (l, ReplicateLogIndexMismatch)
    else if push.group.None? then (l, ReplicateMissingCommittedMembership)
    else if push.id != l.id then (l, ReplicateReplicationId)
    else
      var counted := l.(sequence := l.sequence + 1);
      if push.sequence != l.sequence then (counted, ReplicateReplicationSequence)
      else
        match FromGroup(push.group.value)
        case Failure(err) => (counted.(mem := None), err)
        case Success(m) =>
          var ready := counted.(mem := Some(m),
            log := if l.log.entries == [] then l.log.(oldest := push.firstIdx) else l.log);
          var (taken, err) := TakeEntries(p, ready, push.entries);
          if err != NoError then (taken, err) else TakeRows(p, taken, push.rows)
  }

  // ------------------------------------------------------------ where they are

  /** A point of the transfer: log indexes up to `idx` and keys up to `key`. */
  datatype Point = Point(idx: nat, key: Bytes)

  ghost predicate SourceOk<Op, Row>(p: Protocol<Op, Row>, src: Source<Row>, done: seq<Entry>) {
    && |done| == src.applied && src.db == Fold(p, done)
    && 1 <= src.log.oldest
    && (forall k: nat | src.log.oldest <= k <= src.applied :: src.log.At(k) == Some(done[k - 1]))
  }

  /** The log stores the end of the first `n` entries, or is empty because the transfer
      is still at the index where it started.  As nothing is ever cancelled in it, it
      counts its bytes exactly. */
  ghost predicate LogAt(log: LogState, done: seq<Entry>, n: nat, start: nat) {
    && n <= |done| && start <= n && log.Bounded() && log.bytes == TotalSize(log.entries)
    && if log.entries == [] then n == start && (log.oldest == 1 || log.oldest == n + 1) else Stores(log, done[..n])
  }

  /** The receiver holds the log up to the point, and of the database at the
      point's index exactly the keys up to the point's key. */
  ghost predicate ReceiverAt<Op, Row>(p: Protocol<Op, Row>, l: Loading<Row>, done: seq<Entry>, at: Point, start: nat) {
    && LogAt(l.log, done, at.idx, start) && l.largest == at.key
    && l.db == Upto(Fold(p, done[..at.idx]), at.key)
  }

  /** The push carries the receiver from `a` to `b`. */
  ghost predicate Describes<Op, Row>(p: Protocol<Op, Row>, done: seq<Entry>, push: Push<Row>, a: Point, b: Point) {
    && a.idx <= b.idx <= |done| && push.firstIdx == a.idx + 1
    && push.entries == done[a.idx..b.idx] && b.key == Reach(push.rows, a.key)
    && AsMap(push.rows) == Window(Fold(p, done[..b.idx]), a.key, b.key)
    && Increasing(push.rows) && (push.rows != [] ==> Less(a.key, b.key))
    && (push.toEnd ==> After(Fold(p, done[..b.idx]).Keys, b.key) == {})
  }

  /** What the cursor says has been sent.  The key is lost with the last push. */
  predicate CursorAt(cur: Cursor, at: Point) {
    cur.logsFrom == at.idx + 1 && (!cur.finished ==> cur.fromKey == at.key)
  }

  // ------------------------------------------------------------------- sending

  lemma {:induction false} ChunkIsPiece(log: LogState, idx: nat, applied: nat, size: nat, limit: nat, done: seq<Entry>)
    requires |done| == applied && 1 <= log.oldest <= idx <= applied + 1
    requires forall k: nat | log.oldest <= k <= applied :: log.At(k) == Some(done[k - 1])
    ensures var (es, atCommit) := ChunkEntries(log, idx, applied, size, limit);
            && idx - 1 + |es| <= applied && es == done[idx - 1..idx - 1 + |es|]
            && (atCommit ==> idx - 1 + |es| == applied)
    decreases applied + 1 - idx
  {
    if idx <= applied && size + SerializedSize(done[idx - 1]) + 1 < limit {
      ChunkIsPiece(log, idx + 1, applied, size + SerializedSize(done[idx - 1]) + 1, limit, done);
      var es := ChunkEntries(log, idx + 1, applied, size + SerializedSize(done[idx - 1]) + 1, limit).0;
      PieceFront(done, idx - 1, es);
    }
  }

  lemma PieceFront(done: seq<Entry>, n: nat, es: seq<Entry>)
    requires n + 1 + |es| <= |done| && es == done[n + 1..n + 1 + |es|]
    ensures [done[n]] + es == done[n..n + 1 + |es|]
  {
  }

  /** Whatever the sizes, a push leads from where the cursor stood to where it
      stands then, provided the log still holds the entry under the cursor. */
  lemma SendDescribes<Op, Row>(p: Protocol<Op, Row>, src: Source<Row>, done: seq<Entry>, cur: Cursor, at: Point,
                               limit: nat, maxRow: nat, messageSize: nat) returns (b: Point)
    requires SourceOk(p, src, done) && CursorAt(cur, at) && !cur.finished && maxRow > 0
    requires src.log.oldest <= cur.logsFrom <= src.applied + 1
    ensures var (push, next) := NextPush(src, cur, limit, maxRow, messageSize);
            && Describes(p, done, push, at, b) && CursorAt(next, b) && next.finished == push.toEnd
            && (push.toEnd ==> b.idx == |done|)
  {
    ChunkIsPiece(src.log, cur.logsFrom, src.applied, 0, limit, done);
    var (push, next) := NextPush(src, cur, limit, maxRow, messageSize);
    b := Point(at.idx + |push.entries|, Reach(push.rows, at.key));
    var atCommit := ChunkEntries(src.log, cur.logsFrom, src.applied, 0, limit).1;
    var count := RowCount(atCommit, limit, maxRow, messageSize);
    if count > 0 {
      assert done[..b.idx] == done;
      RowsAreWindow(src.db, cur.fromKey, count);
    } else {
      RowsAreWindow(Fold(p, done[..b.idx]), cur.fromKey, 0);
    }
  }

  // ----------------------------------------------------------------- receiving

  /** Applying a received entry to the loaded part is applying it to the whole
      and looking at the part. */
  lemma MaybeApplyAgrees<Op(!new), Row>(p: Protocol<Op, Row>, l: Loading<Row>, db: map<Bytes, Row>, e: Entry)
    requires ProtocolOk(p) && l.db == Upto(db, l.largest) && [] !in db
    requires MaybeApply(p, l, e).1 == NoError
    ensures MaybeApply(p, l, e).0 == l.(db := Upto(Apply(p, db, e), l.largest))
  {
    if e.payload.Data? && p.parse(e.payload.bytes).Some? {
      var op := p.parse(e.payload.bytes).value;
      LessTotal(l.largest, p.key(op));
      if Less(l.largest, p.key(op)) { LessAsymmetric(l.largest, p.key(op)); }
      if p.valid(op) {
        if AtMost(p.key(op), l.largest) && l.largest != [] {
          RunInside(p, db, op, l.largest);
        } else {
          RunOutside(p, db, op, l.largest);
        }
      }
    }
  }

  lemma FoldSnoc<Op, Row>(p: Protocol<Op, Row>, done: seq<Entry>, n: nat)
    requires n < |done|
    ensures Fold(p, done[..n + 1]) == Apply(p, Fold(p, done[..n]), done[n])
  {
    assert done[..n + 1][..n] == done[..n];
  }

  /** The log moves one index with each appended entry. */
  lemma AppendMoves(log: LogState, done: seq<Entry>, n: nat, start: nat)
    requires LogAt(log, done, n, start) && (log.entries == [] ==> log.oldest == n + 1)
    requires n < |done| && log.Append(done[n], log.LastIdx()).1 == NoError
    ensures LogAt(log.Append(done[n], log.LastIdx()).0, done, n + 1, start)
    ensures log.Append(done[n], log.LastIdx()).0.entries != []
  {
    hide LogState.Append, LogState.Bounded, LogState.LastIdx;
    if log.entries == [] {
      AppendFirst(log, done[n], log.LastIdx());
      assert done[..n + 1][n..] == [done[n]];
    } else {
      AppendLater(log, done, n);
    }
  }

  /** An empty log holds just the entry. */
  lemma AppendFirst(log: LogState, e: Entry, truncateTo: nat)
    requires log.entries == [] && log.Bounded() && log.Append(e, truncateTo).1 == NoError
    ensures var r := log.Append(e, truncateTo).0;
            r.entries == [e] && r.oldest == log.oldest && r.Bounded() && r.bytes == log.bytes + MemSize(e) && TotalSize([e]) == MemSize(e)
  {
    AppendCases(log, e, truncateTo);
    hide LogState.Append, MemSize;
    assert log.MakeRoom(MemSize(e), truncateTo) == log;
    assert TotalSize([e]) == MemSize(e) + TotalSize([e][1..]);
  }

  lemma AppendLater(log: LogState, done: seq<Entry>, n: nat)
    requires log.entries != [] && n < |done| && Stores(log, done[..n]) && log.Bounded() && log.bytes == TotalSize(log.entries)
    requires log.Append(done[n], log.LastIdx()).1 == NoError
    ensures var r := log.Append(done[n], log.LastIdx()).0;
            Stores(r, done[..n + 1]) && r.Bounded() && r.entries != [] && r.bytes == TotalSize(r.entries)
  {
    hide LogState.Append;
    StoresLast(log, done[..n]);
    AppendRefines(log, done[..n], done[n], log.LastIdx());
    AppendCounts(log, done[n], log.LastIdx());
    assert done[..n + 1] == done[..n] + [done[n]];
  }

  /** An exact count stays exact. */
  lemma AppendCounts(log: LogState, e: Entry, truncateTo: nat)
    requires log.bytes == TotalSize(log.entries) && log.Append(e, truncateTo).1 == NoError
    ensures var r := log.Append(e, truncateTo).0;
            r.bytes == TotalSize(r.entries) && r.entries != [] && r.entries[|r.entries| - 1] == e && r.maxBytes == log.maxBytes
  {
    AppendCases(log, e, truncateTo);
    var d := RoomMade(log, MemSize(e), truncateTo);
    hide LogState.Append, LogState.MakeRoom, MemSize;
    var es := log.entries;
    assert es == es[..d] + es[d..];
    TotalSizeAppend(es[..d], es[d..]);
    TotalSizeAppend(es[d..], [e]);
    assert TotalSize([e]) == MemSize(e) + TotalSize([e][1..]);
  }

  /** The receiver in the middle of a push, before its rows. */
  ghost predicate InPush<Op, Row>(p: Protocol<Op, Row>, l: Loading<Row>, done: seq<Entry>, n: nat, start: nat) {
    && LogAt(l.log, done, n, start) && (l.log.entries == [] ==> l.log.oldest == n + 1)
    && l.db == Upto(Fold(p, done[..n]), l.largest)
  }

  lemma {:induction false} EntriesAgree<Op(!new), Row>(p: Protocol<Op, Row>, l: Loading<Row>, done: seq<Entry>, n: nat, start: nat, entries: seq<Entry>)
    requires ProtocolOk(p) && InPush(p, l, done, n, start)
    requires n + |entries| <= |done| && entries == done[n..n + |entries|]
    requires TakeEntries(p, l, entries).1 == NoError
    ensures var m := TakeEntries(p, l, entries).0;
            && InPush(p, m, done, n + |entries|, start)
            && m == l.(log := m.log, db := m.db)
    decreases |entries|
  {
    hide Fold, Upto, MaybeApply, Apply, LogAt;
    if entries != [] {
      var e := entries[0];
      assert e == done[n];
      AppendMoves(l.log, done, n, start);
      FoldKeys(p, done[..n]);
      var log := l.log.Append(e, l.log.LastIdx()).0;
      MaybeApplyAgrees(p, l.(log := log), Fold(p, done[..n]), e);
      FoldSnoc(p, done, n);
      EntriesAgree(p, TakeEntry(p, l, e).0, done, n + 1, start, entries[1..]);
    }
  }

  /** Accepted rows are all in the database, on top of what was there. */
  lemma {:induction false} LoadedAll<Op, Row>(p: Protocol<Op, Row>, db: map<Bytes, Row>, rows: seq<(Bytes, Row)>)
    requires LoadRows(p, db, rows).1
    ensures LoadRows(p, db, rows).0 == db + AsMap(rows)
    decreases |rows|
  {
    if rows != [] {
      var db' := db[rows[0].0 := rows[0].1];
      LoadedAll(p, db', rows[1..]);
      AsMapFront(rows, db);
    }
  }

  lemma {:induction false} AsMapFront<Row>(rows: seq<(Bytes, Row)>, db: map<Bytes, Row>)
    requires rows != []
    ensures db[rows[0].0 := rows[0].1] + AsMap(rows[1..]) == db + AsMap(rows)
  {
    if |rows| > 1 {
      var n := |rows| - 1;
      var (k, v) := rows[n];
      var db' := db[rows[0].0 := rows[0].1];
      AsMapFront(rows[..n], db);
      assert rows[..n][1..] == rows[1..][..n - 1] && rows[..n][0] == rows[0];
      assert db' + AsMap(rows[1..]) == (db' + AsMap(rows[..n][1..]))[k := v];
      assert db + AsMap(rows) == (db + AsMap(rows[..n]))[k := v];
    } else {
      assert rows[1..] == [] && rows[..0] == [];
    }
  }

  /** An accepted push takes the receiver from one point to the next. */
  lemma PushAgrees<Op(!new), Row>(p: Protocol<Op, Row>, l: Loading<Row>, done: seq<Entry>, push: Push<Row>, a: Point, b: Point, start: nat)
    requires ProtocolOk(p) && ReceiverAt(p, l, done, a, start) && Describes(p, done, push, a, b)
    requires HandlePush(p, l, push).1 == NoError
    ensures ReceiverAt(p, HandlePush(p, l, push).0, done, b, start)
  {
    hide Fold, Upto, TakeEntries, TakeRows, After, Window, LogAt;
    var m := FromGroup(push.group.value).value;
    var ready := l.(sequence := l.sequence + 1, mem := Some(m),
      log := if l.log.entries == [] then l.log.(oldest := push.firstIdx) else l.log);
    ReadyLog(l.log, done, a.idx, start);
    assert InPush(p, ready, done, a.idx, start);
    EntriesAgree(p, ready, done, a.idx, start, push.entries);
    RowsAgree(p, TakeEntries(p, ready, push.entries).0, done, push, a, b, start);
  }

  /** An empty log is set to the index of the first entry to come. */
  lemma ReadyLog(log: LogState, done: seq<Entry>, n: nat, start: nat)
    requires LogAt(log, done, n, start)
    ensures LogAt(if log.entries == [] then log.(oldest := n + 1) else log, done, n, start)
  {
  }

  lemma RowsAgree<Op, Row>(p: Protocol<Op, Row>, l: Loading<Row>, done: seq<Entry>, push: Push<Row>, a: Point, b: Point, start: nat)
    requires InPush(p, l, done, b.idx, start) && l.largest == a.key && Describes(p, done, push, a, b)
    requires TakeRows(p, l, push.rows).1 == NoError
    ensures ReceiverAt(p, TakeRows(p, l, push.rows).0, done, b, start)
  {
    hide LogAt;
    if push.rows != [] {
      EmptyFirst(l.largest);
      assert LoadRows(p, l.db, push.rows).1;
      LoadedAll(p, l.db, push.rows);
      UptoWindow(Fold(p, done[..b.idx]), a.key, b.key);
    }
  }

  // ------------------------------------------------------------ whole transfers

  /** A transfer under way: pushes are delivered in the order they were sent.
      `done` is what the sender has applied so far. */
  datatype Link<Row> = Link(src: Source<Row>, done: seq<Entry>, cur: Cursor, queue: seq<Push<Row>>, loading: Loading<Row>)

  /** The sender applies more log and may drop old entries, but none that the
      cursor has not passed. */
  ghost predicate Progress<Op, Row>(p: Protocol<Op, Row>, s: Link<Row>, t: Link<Row>) {
    && t == s.(src := t.src, done := t.done) && s.done <= t.done
    && SourceOk(p, t.src, t.done) && t.src.log.oldest <= s.cur.logsFrom
  }

  ghost predicate Sends<Row>(s: Link<Row>, t: Link<Row>, limit: nat, maxRow: nat, messageSize: nat) {
    && !s.cur.finished && maxRow > 0
    && var (push, next) := NextPush(s.src, s.cur, limit, maxRow, messageSize);
       t == s.(cur := next, queue := s.queue + [push])
  }

  ghost predicate Accepts<Op, Row>(p: Protocol<Op, Row>, s: Link<Row>, t: Link<Row>) {
    && s.queue != []
    && var (loading, err) := HandlePush(p, s.loading, s.queue[0]);
       err == NoError && t == s.(loading := loading, queue := s.queue[1..])
  }

  ghost predicate LinkStep<Op, Row>(p: Protocol<Op, Row>, s: Link<Row>, t: Link<Row>) {
    || Progress(p, s, t)
    || (exists limit, maxRow, messageSize :: Sends(s, t, limit, maxRow, messageSize))
    || Accepts(p, s, t)
  }

  /** The receiver is empty and knows the transfer's id; the sender starts at its oldest stored entry, and has one.
      Unless that is its first, the sender has applied it: only applied entries are
      ever dropped, and not the last of them. */
  ghost predicate LinkInit<Op, Row>(p: Protocol<Op, Row>, s: Link<Row>) {
    && SourceOk(p, s.src, s.done) && s.src.log.entries != []
    && (s.src.log.oldest == 1 || s.src.log.oldest <= s.src.applied)
    && s.cur == Cursor(s.cur.id, 0, s.src.log.oldest, [], false) && s.queue == []
    && s.loading.db == map[] && s.loading.largest == [] && s.loading.mem == None
    && s.loading.log == LogState(1, [], 0, s.loading.log.maxBytes)
    && s.loading.id == s.cur.id && s.loading.sequence == 0
  }

  /** The index before the first entry of the transfer. */
  function Start<Row>(run: seq<Link<Row>>): nat
    requires run != []
  {
    if run[0].src.log.oldest == 0 then 0 else run[0].src.log.oldest - 1
  }

  /** The receiver stands at the first point, each push leads to the next, and
      the cursor stands at the last. */
  ghost predicate LinkOk<Op, Row>(p: Protocol<Op, Row>, s: Link<Row>, points: seq<Point>, start: nat) {
    && SourceOk(p, s.src, s.done) && s.src.log.oldest <= s.cur.logsFrom <= s.src.applied + 1
    && (start == 0 || start < |s.done|)
    && |points| == |s.queue| + 1 && ReceiverAt(p, s.loading, s.done, points[0], start)
    && (forall k | 0 <= k < |s.queue| :: Describes(p, s.done, s.queue[k], points[k], points[k + 1]))
    && CursorAt(s.cur, points[|s.queue|])
    && points[|s.queue|].idx <= |s.done|
    && (s.cur.finished ==>
          && After(Fold(p, s.done[..points[|s.queue|].idx]).Keys, points[|s.queue|].key) == {}
          && (start == 0 || start < points[|s.queue|].idx))
  }

  lemma LinkInitOk<Op(!new), Row>(p: Protocol<Op, Row>, s: Link<Row>)
    requires ProtocolOk(p) && LinkInit(p, s)
    ensures LinkOk(p, s, [Point(s.src.log.oldest - 1, [])], s.src.log.oldest - 1)
  {
    var db := Fold(p, s.done[..s.src.log.oldest - 1]);
    FoldKeys(p, s.done[..s.src.log.oldest - 1]);
    assert Upto(db, []) == map[];
  }

  lemma DescribesStays<Op, Row>(p: Protocol<Op, Row>, done: seq<Entry>, done': seq<Entry>, push: Push<Row>, a: Point, b: Point)
    requires Describes(p, done, push, a, b) && done <= done'
    ensures Describes(p, done', push, a, b)
  {
    assert done'[..b.idx] == done[..b.idx] && done'[a.idx..b.idx] == done[a.idx..b.idx];
  }

  lemma LogStays(log: LogState, done: seq<Entry>, done': seq<Entry>, n: nat, start: nat)
    requires LogAt(log, done, n, start) && done <= done'
    ensures LogAt(log, done', n, start)
  {
    assert done'[..n] == done[..n];
  }

  lemma IdxWithin(log: LogState, done: seq<Entry>, n: nat, start: nat)
    requires LogAt(log, done, n, start)
    ensures start <= n <= |done|
  {
  }

  lemma ProgressOk<Op, Row>(p: Protocol<Op, Row>, s: Link<Row>, t: Link<Row>, points: seq<Point>, start: nat)
    requires LinkOk(p, s, points, start) && Progress(p, s, t)
    ensures LinkOk(p, t, points, start)
  {
    hide LogAt;
    LogStays(s.loading.log, s.done, t.done, points[0].idx, start);
    assert points[0].idx <= |s.done| by { IdxWithin(s.loading.log, s.done, points[0].idx, start); }
    assert t.done[..points[0].idx] == s.done[..points[0].idx];
    var last := points[|s.queue|];
    assert t.done[..last.idx] == s.done[..last.idx];
    forall k | 0 <= k < |s.queue| ensures Describes(p, t.done, t.queue[k], points[k], points[k + 1]) {
      DescribesStays(p, s.done, t.done, s.queue[k], points[k], points[k + 1]);
    }
  }

  lemma SendOk<Op, Row>(p: Protocol<Op, Row>, s: Link<Row>, t: Link<Row>, points: seq<Point>, start: nat, limit: nat, maxRow: nat, messageSize: nat)
    returns (points': seq<Point>)
    requires LinkOk(p, s, points, start) && Sends(s, t, limit, maxRow, messageSize)
    ensures LinkOk(p, t, points', start)
  {
    hide LogAt;
    var b := SendDescribes(p, s.src, s.done, s.cur, points[|s.queue|], limit, maxRow, messageSize);
    points' := points + [b];
    forall k | 0 <= k < |t.queue| ensures Describes(p, t.done, t.queue[k], points'[k], points'[k + 1]) {
      if k < |s.queue| { assert Describes(p, s.done, s.queue[k], points[k], points[k + 1]); }
    }
  }

  lemma AcceptOk<Op(!new), Row>(p: Protocol<Op, Row>, s: Link<Row>, t: Link<Row>, points: seq<Point>, start: nat) returns (points': seq<Point>)
    requires ProtocolOk(p) && LinkOk(p, s, points, start) && Accepts(p, s, t)
    ensures LinkOk(p, t, points', start)
  {
    hide LogAt;
    points' := points[1..];
    assert Describes(p, s.done, s.queue[0], points[0], points[1]);
    PushAgrees(p, s.loading, s.done, s.queue[0], points[0], points[1], start);
    forall k | 0 <= k < |t.queue| ensures Describes(p, t.done, t.queue[k], points'[k], points'[k + 1]) {
      assert Describes(p, s.done, s.queue[k + 1], points[k + 1], points[k + 2]);
    }
  }

  ghost predicate LinkRun<Op, Row>(p: Protocol<Op, Row>, run: seq<Link<Row>>) {
    run != [] && LinkInit(p, run[0]) && forall k | 0 <= k < |run| - 1 :: LinkStep(p, run[k], run[k + 1])
  }

  lemma RunPrefix<Op, Row>(p: Protocol<Op, Row>, run: seq<Link<Row>>, n: nat)
    requires LinkRun(p, run) && 0 < n <= |run|
    ensures LinkRun(p, run[..n]) && (n < |run| ==> LinkStep(p, run[n - 1], run[n]))
  {
    hide LinkStep;
    forall k | 0 <= k < n - 1 ensures LinkStep(p, run[..n][k], run[..n][k + 1]) {
      assert LinkStep(p, run[k], run[k + 1]);
    }
    if n < |run| { assert LinkStep(p, run[n - 1], run[n - 1 + 1]); }
  }

  lemma {:induction false} LinkRunOk<Op(!new), Row>(p: Protocol<Op, Row>, run: seq<Link<Row>>) returns (points: seq<Point>)
    requires ProtocolOk(p) && LinkRun(p, run)
    ensures LinkOk(p, run[|run| - 1], points, Start(run))
    decreases |run|
  {
    var n := |run| - 1;
    if n == 0 {
      LinkInitOk(p, run[0]);
      points := [Point(run[0].src.log.oldest - 1, [])];
    } else {
      RunPrefix(p, run, n);
      var before := LinkRunOk(p, run[..n]);
      points := LinkStepOk(p, run[n - 1], run[n], before, Start(run));
    }
  }

  lemma LinkStepOk<Op(!new), Row>(p: Protocol<Op, Row>, s: Link<Row>, t: Link<Row>, points: seq<Point>, start: nat) returns (points': seq<Point>)
    requires ProtocolOk(p) && LinkOk(p, s, points, start) && LinkStep(p, s, t)
    ensures LinkOk(p, t, points', start)
  {
    hide LinkOk, Progress, Sends, Accepts;
    if Progress(p, s, t) {
      ProgressOk(p, s, t, points, start);
      points' := points;
    } else if Accepts(p, s, t) {
      points' := AcceptOk(p, s, t, points, start);
    } else {
      var limit: nat, maxRow: nat, messageSize: nat :| Sends(s, t, limit, maxRow, messageSize);
      points' := SendOk(p, s, t, points, start, limit, maxRow, messageSize);
    }
  }

  /** State transfer is exact: when the last push has been accepted, the receiver's
      database is the sender's at the receiver's last log index, however many entries
      the sender applied between pushes, and the receiver's log stores the end of the
      sender's up to there. */
  lemma TransferExact<Op(!new), Row>(p: Protocol<Op, Row>, run: seq<Link<Row>>)
    requires ProtocolOk(p) && LinkRun(p, run)
    requires run[|run| - 1].cur.finished && run[|run| - 1].queue == []
    ensures var end := run[|run| - 1];
            var n := end.loading.log.LastIdx();
            && n <= |end.done| && n + 1 == end.cur.logsFrom
            && end.loading.db == Fold(p, end.done[..n])
            && Stores(end.loading.log, end.done[..n]) && end.loading.log.Bounded()
  {
    var end := run[|run| - 1];
    var points := LinkRunOk(p, run);
    var n := points[0].idx;
    if end.loading.log.entries == [] {
      assert n == 0 && end.done[..0] == [];
    } else {
      StoresLast(end.loading.log, end.done[..n]);
    }
    UptoEnd(Fold(p, end.done[..n]), points[0].key);
  }

  // ------------------------------------------------------- the membership sent along

  /** The push that carries the last rows is made at moment `k`. */
  ghost predicate LastPushAt<Row>(run: seq<Link<Row>>, k: nat) {
    k + 1 < |run| && !run[k].cur.finished && run[k + 1].cur.finished
  }

  /** The last push was made at `made`, with all that was applied by then.  Once
      everything has been accepted the receiver has the group that push carried. */
  ghost predicate Closed<Row>(s: Link<Row>, made: Link<Row>) {
    && made.done <= s.done && s.cur.finished && s.cur.logsFrom == |made.done| + 1
    && if s.queue == [] then s.loading.mem.Some? && FromGroup(made.src.group) == Success(s.loading.mem.value)
       else s.queue[|s.queue| - 1].group == Some(made.src.group)
  }

  /** After the last push the sender only goes on applying and the receiver accepts. */
  lemma ClosedStep<Op, Row>(p: Protocol<Op, Row>, s: Link<Row>, t: Link<Row>, made: Link<Row>)
    requires LinkStep(p, s, t) && Closed(s, made)
    ensures Closed(t, made)
  {
    hide SourceOk, Fold, NextPush;
    if Accepts(p, s, t) {
      AcceptedGroup(p, s.loading, s.queue[0]);
      hide HandlePush;
    }
  }

  lemma ClosingPush<Op, Row>(p: Protocol<Op, Row>, s: Link<Row>, t: Link<Row>, points: seq<Point>, start: nat)
    requires LinkOk(p, s, points, start) && LinkStep(p, s, t) && !s.cur.finished && t.cur.finished
    ensures Closed(t, s)
  {
    hide ReceiverAt, Describes, SourceOk;
    var limit: nat, maxRow: nat, messageSize: nat :| Sends(s, t, limit, maxRow, messageSize);
    var b := SendDescribes(p, s.src, s.done, s.cur, points[|s.queue|], limit, maxRow, messageSize);
  }

  lemma AcceptedGroup<Op, Row>(p: Protocol<Op, Row>, l: Loading<Row>, push: Push<Row>)
    requires HandlePush(p, l, push).1 == NoError
    ensures push.group.Some? && FromGroup(push.group.value).Success?
    ensures HandlePush(p, l, push).0.mem == Some(FromGroup(push.group.value).value)
  {
    var ready := l.(sequence := l.sequence + 1, mem := Some(FromGroup(push.group.value).value),
      log := if l.log.entries == [] then l.log.(oldest := push.firstIdx) else l.log);
    EntriesKeepGroup(p, ready, push.entries);
  }

  lemma {:induction false} EntriesKeepGroup<Op, Row>(p: Protocol<Op, Row>, l: Loading<Row>, entries: seq<Entry>)
    ensures TakeEntries(p, l, entries).0.mem == l.mem
    decreases |entries|
  {
    if entries != [] && TakeEntry(p, l, entries[0]).1 == NoError {
      EntriesKeepGroup(p, TakeEntry(p, l, entries[0]).0, entries[1..]);
    }
  }

  lemma {:induction false} LastPush<Op(!new), Row>(p: Protocol<Op, Row>, run: seq<Link<Row>>) returns (k: nat)
    requires ProtocolOk(p) && LinkRun(p, run) && run[|run| - 1].cur.finished
    ensures LastPushAt(run, k) && Closed(run[|run| - 1], run[k])
    decreases |run|
  {
    hide LinkStep, Closed;
    var n := |run| - 1;
    RunPrefix(p, run, n);
    if run[n - 1].cur.finished {
      k := LastPush(p, run[..n]);
      ClosedStep(p, run[n - 1], run[n], run[k]);
    } else {
      var points := LinkRunOk(p, run[..n]);
      ClosingPush(p, run[n - 1], run[n], points, Start(run[..n]));
      k := n - 1;
    }
  }

  /** A finished receiver has the group that the sender sent with its last push, and at
      that moment the sender had applied just what the receiver has. */
  lemma TransferGroup<Op(!new), Row>(p: Protocol<Op, Row>, run: seq<Link<Row>>) returns (k: nat)
    requires ProtocolOk(p) && LinkRun(p, run) && run[|run| - 1].cur.finished && run[|run| - 1].queue == []
    ensures LastPushAt(run, k)
    ensures var end := run[|run| - 1];
            var n := end.loading.log.LastIdx();
            && n <= |end.done| && run[k].done == end.done[..n]
            && end.loading.mem.Some? && FromGroup(run[k].src.group) == Success(end.loading.mem.value)
  {
    hide LinkRun, Fold;
    k := LastPush(p, run);
    TransferExact(p, run);
  }

  /** At every moment of a transfer the receiver's database is the sender's at
      the receiver's log index, restricted to the keys loaded so far. */
  lemma TransferInvariant<Op(!new), Row>(p: Protocol<Op, Row>, run: seq<Link<Row>>) returns (n: nat)
    requires ProtocolOk(p) && LinkRun(p, run)
    ensures var l := run[|run| - 1].loading;
            && LogAt(l.log, run[|run| - 1].done, n, Start(run))
            && l.db == Upto(Fold(p, run[|run| - 1].done[..n]), l.largest)
  {
    var points := LinkRunOk(p, run);
    n := points[0].idx;
  }
}
