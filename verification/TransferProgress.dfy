/** A transfer gets through: when a push is accepted, that the numbering never stands in
    the way, and that every push the sender makes brings the end nearer. */
module TransferProgress {
  import opened RaftTypes
  import opened GroupMembership
  import opened BoundedLog
  import opened Keys
  import opened Database
  import opened Transfer

  // ------------------------------------------------------------- numbers of pushes

  /** The receiver expects the number of the first push under way, and the others are
      numbered on from there up to the sender's next. */
  ghost predicate Numbered<Row>(s: Link<Row>) {
    && s.cur.id == s.loading.id && s.cur.sequence == s.loading.sequence + |s.queue|
    && forall k | 0 <= k < |s.queue| ::
         s.queue[k].id == s.loading.id && s.queue[k].sequence == s.loading.sequence + k && s.queue[k].group.Some?
  }

  lemma {:induction false} EntriesKeepNumber<Op, Row>(p: Protocol<Op, Row>, l: Loading<Row>, entries: seq<Entry>)
    ensures var m := TakeEntries(p, l, entries).0; m == l.(log := m.log, db := m.db)
    decreases |entries|
  {
    if entries != [] && TakeEntry(p, l, entries[0]).1 == NoError {
      EntriesKeepNumber(p, TakeEntry(p, l, entries[0]).0, entries[1..]);
    }
  }

  /** What is accepted belongs to this transfer, comes next in it and goes on where the
      log ends, whoever sent it. */
  lemma AcceptedNumber<Op, Row>(p: Protocol<Op, Row>, l: Loading<Row>, push: Push<Row>)
    requires HandlePush(p, l, push).1 == NoError
    ensures push.id == l.id && push.sequence == l.sequence && (l.log.NextIdx() > 1 ==> push.firstIdx == l.log.NextIdx())
    ensures HandlePush(p, l, push).0.id == l.id && HandlePush(p, l, push).0.sequence == l.sequence + 1
  {
    hide FromGroup, TakeEntries, LogState.NextIdx;
    AcceptedGroup(p, l, push);
    EntriesKeepNumber(p, Ready(l, push), push.entries);
  }

  /** The receiver as it takes up the entries of a push. */
  function Ready<Row>(l: Loading<Row>, push: Push<Row>): Loading<Row>
    requires push.group.Some? && FromGroup(push.group.value).Success?
  {
    l.(sequence := l.sequence + 1, mem := Some(FromGroup(push.group.value).value),
       log := if l.log.entries == [] then l.log.(oldest := push.firstIdx) else l.log)
  }

  lemma NumberedStep<Op, Row>(p: Protocol<Op, Row>, s: Link<Row>, t: Link<Row>)
    requires LinkStep(p, s, t) && Numbered(s)
    ensures Numbered(t)
  {
    hide SourceOk, Fold, HandlePush, ChunkEntries, Rows, RowCount;
    if Accepts(p, s, t) {
      AcceptedNumber(p, s.loading, s.queue[0]);
    }
  }

  /** Over every run of a transfer. */
  lemma {:induction false} RunNumbered<Op, Row>(p: Protocol<Op, Row>, run: seq<Link<Row>>)
    requires LinkRun(p, run)
    ensures Numbered(run[|run| - 1])
    decreases |run|
  {
    hide LinkStep, Numbered;
    var n := |run| - 1;
    if n == 0 {
      StartsNumbered(p, run[0]);
    } else {
      RunPrefix(p, run, n);
      RunNumbered(p, run[..n]);
      NumberedStep(p, run[n - 1], run[n]);
    }
  }

  lemma StartsNumbered<Op, Row>(p: Protocol<Op, Row>, s: Link<Row>)
    requires LinkInit(p, s)
    ensures Numbered(s)
  {
  }

  // ------------------------------------------------------------ entries of a push

  /** There is room for an entry beside the last one stored, and it is well formed. */
  predicate Fits(max: nat, last: Option<Entry>, e: Entry) {
    && e.term >= 1 && e.hash != Absent && SerializedSize(e) <= INT_MAX
    && MemSize(e) + (if last.None? then 0 else MemSize(last.value)) <= max
  }

  function LastOf(es: seq<Entry>): Option<Entry> {
    if es == [] then None else Some(es[|es| - 1])
  }

  predicate AllFit(max: nat, last: Option<Entry>, es: seq<Entry>) {
    forall k: nat | k < |es| :: Fits(max, Before(last, es, k), es[k])
  }

  function Before(last: Option<Entry>, es: seq<Entry>, k: nat): Option<Entry>
    requires k <= |es|
  {
    if k == 0 then last else Some(es[k - 1])
  }

  /** Data whose key is in the loaded range can be read and is valid; what lies beyond it
      need only be readable, and while nothing is loaded nothing is looked at. */
  predicate Reads<Op, Row>(p: Protocol<Op, Row>, largest: Bytes, e: Entry) {
    largest != [] && e.payload.Data? && e.payload.bytes != [] ==>
      && p.parse(e.payload.bytes).Some?
      && (Less(largest, p.key(p.parse(e.payload.bytes).value)) || p.valid(p.parse(e.payload.bytes).value))
  }

  predicate AllRead<Op, Row>(p: Protocol<Op, Row>, largest: Bytes, es: seq<Entry>) {
    forall k | 0 <= k < |es| :: Reads(p, largest, es[k])
  }

  /** All but the last entry may go. */
  lemma AppendFits(log: LogState, e: Entry)
    requires log.Bounded() && log.bytes == TotalSize(log.entries)
    ensures log.Append(e, log.LastIdx()).1 == NoError <==> Fits(log.maxBytes, LastOf(log.entries), e)
  {
    AppendExactly(log, e, log.LastIdx());
    hide LogState.Append, MemSize, SerializedSize;
    var es := log.entries;
    if es != [] {
      var n := |es| - 1;
      assert Droppable(log, log.LastIdx()) == es[..n];
      assert es == es[..n] + [es[n]];
      TotalSizeAppend(es[..n], [es[n]]);
      assert TotalSize([es[n]]) == MemSize(es[n]) + TotalSize([es[n]][1..]);
    } else {
      assert Droppable(log, log.LastIdx()) == [];
    }
  }

  lemma AllFitFront(max: nat, last: Option<Entry>, es: seq<Entry>)
    requires es != []
    ensures AllFit(max, last, es) <==> Fits(max, last, es[0]) && AllFit(max, Some(es[0]), es[1..])
  {
    hide Fits;
    var rest := es[1..];
    forall k: nat | k < |rest| ensures rest[k] == es[k + 1] && Before(Some(es[0]), rest, k) == Before(last, es, k + 1) {
    }
    if AllFit(max, last, es) {
      forall k: nat | k < |rest| ensures Fits(max, Before(Some(es[0]), rest, k), rest[k]) {
        assert Fits(max, Before(last, es, k + 1), es[k + 1]);
      }
      assert Fits(max, Before(last, es, 0), es[0]);
    }
    if Fits(max, last, es[0]) && AllFit(max, Some(es[0]), rest) {
      forall k: nat | k < |es| ensures Fits(max, Before(last, es, k), es[k]) {
        if k > 0 { assert Fits(max, Before(Some(es[0]), rest, k - 1), rest[k - 1]); }
      }
    }
  }

  lemma AllReadFront<Op, Row>(p: Protocol<Op, Row>, largest: Bytes, es: seq<Entry>)
    requires es != []
    ensures AllRead(p, largest, es) <==> Reads(p, largest, es[0]) && AllRead(p, largest, es[1..])
  {
    hide Reads;
    if Reads(p, largest, es[0]) && AllRead(p, largest, es[1..]) {
      forall k | 0 <= k < |es| ensures Reads(p, largest, es[k]) {
        if k > 0 { assert Reads(p, largest, es[1..][k - 1]); }
      }
    }
    if AllRead(p, largest, es) {
      forall k | 0 <= k < |es[1..]| ensures Reads(p, largest, es[1..][k]) { assert Reads(p, largest, es[k + 1]); }
    }
  }

  lemma ApplyReads<Op, Row>(p: Protocol<Op, Row>, l: Loading<Row>, e: Entry)
    ensures MaybeApply(p, l, e).1 == NoError <==> Reads(p, l.largest, e)
    ensures var m := MaybeApply(p, l, e).0; m == l.(db := m.db)
  {
  }

  /** The entries of a push are taken exactly if all of them fit and can be read. */
  lemma {:induction false} EntriesTaken<Op, Row>(p: Protocol<Op, Row>, l: Loading<Row>, entries: seq<Entry>)
    requires l.log.Bounded() && l.log.bytes == TotalSize(l.log.entries)
    ensures TakeEntries(p, l, entries).1 == NoError <==>
            AllFit(l.log.maxBytes, LastOf(l.log.entries), entries) && AllRead(p, l.largest, entries)
    decreases |entries|
  {
    hide Fits, Reads, AllFit, AllRead, MaybeApply, LogState.Append, LogState.LastIdx;
    if entries == [] {
      NoEntries(p, l);
    } else {
      var e := entries[0];
      AppendFits(l.log, e);
      AllFitFront(l.log.maxBytes, LastOf(l.log.entries), entries);
      AllReadFront(p, l.largest, entries);
      var (log, err) := l.log.Append(e, l.log.LastIdx());
      if err == NoError {
        var m := l.(log := log);
        ApplyReads(p, m, e);
        AppendCounts(l.log, e, l.log.LastIdx());
        AppendBounded(l.log, e);
        if MaybeApply(p, m, e).1 == NoError { EntriesTaken(p, MaybeApply(p, m, e).0, entries[1..]); }
      }
    }
  }

  lemma NoEntries<Op, Row>(p: Protocol<Op, Row>, l: Loading<Row>)
    ensures AllFit(l.log.maxBytes, LastOf(l.log.entries), []) && AllRead(p, l.largest, [])
  {
  }

  lemma AppendBounded(log: LogState, e: Entry)
    requires log.bytes == TotalSize(log.entries) && log.Append(e, log.LastIdx()).1 == NoError
    ensures log.Append(e, log.LastIdx()).0.Bounded()
  {
    AppendCounts(log, e, log.LastIdx());
    AppendCases(log, e, log.LastIdx());
    hide LogState.MakeRoom, MemSize;
  }

  // --------------------------------------------------------------- rows of a push

  predicate RowsPass<Op, Row>(p: Protocol<Op, Row>, rows: seq<(Bytes, Row)>) {
    forall k | 0 <= k < |rows| :: p.rowOk(rows[k].0, rows[k].1)
  }

  /** Rows in order, beyond everything that is there, load exactly if each passes. */
  lemma {:induction false} RowsLoad<Op, Row>(p: Protocol<Op, Row>, db: map<Bytes, Row>, rows: seq<(Bytes, Row)>)
    requires Increasing(rows) && forall k, i | k in db && 0 <= i < |rows| :: Less(k, rows[i].0)
    ensures LoadRows(p, db, rows).1 <==> RowsPass(p, rows)
    decreases |rows|
  {
    if rows != [] {
      var db', rest := db[rows[0].0 := rows[0].1], rows[1..];
      assert rows == [rows[0]] + rest;
      forall k, i | k in db' && 0 <= i < |rest| ensures Less(k, rest[i].0) {
        assert rest[i] == rows[i + 1];
        if k == rows[0].0 { assert Less(rows[0].0, rows[i + 1].0); }
      }
      forall i, j | 0 <= i < j < |rest| ensures Less(rest[i].0, rest[j].0) {
        assert Less(rows[i + 1].0, rows[j + 1].0);
      }
      RowsLoad(p, db', rest);
      if RowsPass(p, rows) { assert RowsPass(p, rest); }
      if LoadRows(p, db, rows).1 {
        forall k | 0 <= k < |rows| ensures p.rowOk(rows[k].0, rows[k].1) {
          if k > 0 { assert rows[k] == rest[k - 1]; }
        }
      }
    }
  }

  /** Everything loaded lies before the rows that come. */
  lemma RowsBeyond<V>(db: map<Bytes, V>, low: Bytes, rows: seq<(Bytes, V)>, m: map<Bytes, V>, high: Bytes)
    requires db == Upto(m, low) && AsMap(rows) == Window(m, low, high)
    ensures forall k, i | k in db && 0 <= i < |rows| :: Less(k, rows[i].0)
  {
    forall k, i | k in db && 0 <= i < |rows| ensures Less(k, rows[i].0) {
      InMap(rows, i);
      assert rows[i].0 in Window(m, low, high);
      if k != low { LessTransitive(k, low, rows[i].0); }
    }
  }

  lemma {:induction false} InMap<V>(rows: seq<(Bytes, V)>, i: nat)
    requires i < |rows|
    ensures rows[i].0 in AsMap(rows)
  {
    var n := |rows| - 1;
    if i < n { InMap(rows[..n], i); }
  }

  lemma RowsTaken<Op, Row>(p: Protocol<Op, Row>, l: Loading<Row>, done: seq<Entry>, push: Push<Row>, a: Point, b: Point)
    requires b.idx <= |done| && l.db == Upto(Fold(p, done[..b.idx]), l.largest) && l.largest == a.key && Describes(p, done, push, a, b)
    ensures TakeRows(p, l, push.rows).1 == NoError <==> RowsPass(p, push.rows)
  {
    hide Fold, Window, Upto, After, LoadRows;
    RowsBeyond(l.db, a.key, push.rows, Fold(p, done[..b.idx]), b.key);
    RowsLoad(p, l.db, push.rows);
    EmptyFirst(l.largest);
    if push.rows != [] { LessAsymmetric(a.key, b.key); LessIrreflexive(a.key); }
  }

  // ------------------------------------------------------------------ a whole push

  /** What can stand in the way of the next push. */
  ghost predicate Deliverable<Op, Row>(p: Protocol<Op, Row>, l: Loading<Row>, push: Push<Row>) {
    && push.group.Some? && FromGroup(push.group.value).Success?
    && AllFit(l.log.maxBytes, LastOf(l.log.entries), push.entries) && AllRead(p, l.largest, push.entries)
    && RowsPass(p, push.rows)
  }

  /** What a push that comes next in its transfer goes through. */
  lemma NextPushTaken<Op, Row>(p: Protocol<Op, Row>, l: Loading<Row>, push: Push<Row>)
    requires push.id == l.id && push.sequence == l.sequence && (l.log.NextIdx() > 1 ==> push.firstIdx == l.log.NextIdx())
    ensures HandlePush(p, l, push).1 == NoError <==>
            && push.group.Some? && FromGroup(push.group.value).Success?
            && TakeEntries(p, Ready(l, push), push.entries).1 == NoError
            && TakeRows(p, TakeEntries(p, Ready(l, push), push.entries).0, push.rows).1 == NoError
  {
    hide FromGroup, TakeEntries, TakeRows, LogState.NextIdx;
    if push.group.Some? && FromGroup(push.group.value).Failure? { GroupFails(push.group.value); }
  }

  lemma GroupFails(g: Group)
    requires FromGroup(g).Failure?
    ensures FromGroup(g).error != NoError
  {
  }

  /** A push that is described by the sender's log, and numbered as expected, is accepted
      exactly if nothing about its contents stands in the way. */
  lemma PushTakenIff<Op(!new), Row>(p: Protocol<Op, Row>, l: Loading<Row>, done: seq<Entry>, push: Push<Row>, a: Point, b: Point, start: nat)
    requires ProtocolOk(p) && ReceiverAt(p, l, done, a, start) && Describes(p, done, push, a, b)
    requires push.id == l.id && push.sequence == l.sequence
    ensures HandlePush(p, l, push).1 == NoError <==> Deliverable(p, l, push)
  {
    hide Fold, Upto, HandlePush, TakeEntries, TakeRows, After, Window, AllFit, AllRead, RowsPass, FromGroup, LogState.NextIdx;
    NextIdxAgrees(l.log, done, a.idx, start);
    NextPushTaken(p, l, push);
    if push.group.Some? && FromGroup(push.group.value).Success? {
      var ready := Ready(l, push);
      ReadyLog(l.log, done, a.idx, start);
      ReadyCounts(l.log, done, a.idx, start, push.firstIdx);
      EntriesTaken(p, ready, push.entries);
      hide LogAt;
      if TakeEntries(p, ready, push.entries).1 == NoError {
        assert InPush(p, ready, done, a.idx, start);
        EntriesAgree(p, ready, done, a.idx, start, push.entries);
        var m := TakeEntries(p, ready, push.entries).0;
        RowsTaken(p, m, done, push, a, b);
      }
    }
  }

  lemma NextIdxAgrees(log: LogState, done: seq<Entry>, n: nat, start: nat)
    requires LogAt(log, done, n, start)
    ensures log.NextIdx() > 1 ==> log.NextIdx() == n + 1
  {
    if log.entries != [] { StoresLast(log, done[..n]); }
  }

  lemma ReadyCounts(log: LogState, done: seq<Entry>, n: nat, start: nat, idx: nat)
    requires LogAt(log, done, n, start)
    ensures var r := if log.entries == [] then log.(oldest := idx) else log;
            r.Bounded() && r.bytes == TotalSize(r.entries) && r.entries == log.entries && r.maxBytes == log.maxBytes
  {
  }

  /** Over every run of a transfer the next push under way is accepted exactly if its group
      can be read, its entries fit, its data can be read where it matters, and its rows pass
      the check made on rows.  Indexes, ids and numbers never stand in the way. */
  lemma DeliveredIff<Op(!new), Row>(p: Protocol<Op, Row>, run: seq<Link<Row>>)
    requires ProtocolOk(p) && LinkRun(p, run) && run[|run| - 1].queue != []
    ensures var end := run[|run| - 1];
            HandlePush(p, end.loading, end.queue[0]).1 == NoError <==> Deliverable(p, end.loading, end.queue[0])
  {
    hide LinkStep, Deliverable, HandlePush, Fold, LogAt;
    var end := run[|run| - 1];
    var points := LinkRunOk(p, run);
    RunNumbered(p, run);
    assert Describes(p, end.done, end.queue[0], points[0], points[0 + 1]);
    PushTakenIff(p, end.loading, end.done, end.queue[0], points[0], points[1], Start(run));
  }

  /** Every row on the way is one of the sender's database at some index of its log. */
  lemma RowsAreSent<Op(!new), Row>(p: Protocol<Op, Row>, run: seq<Link<Row>>, k: nat) returns (n: nat)
    requires ProtocolOk(p) && LinkRun(p, run) && run[|run| - 1].queue != [] && k < |run[|run| - 1].queue[0].rows|
    ensures var end := run[|run| - 1];
            var (id, row) := end.queue[0].rows[k];
            n <= |end.done| && id in Fold(p, end.done[..n]) && Fold(p, end.done[..n])[id] == row
  {
    hide LinkStep, Fold, LogAt;
    var end := run[|run| - 1];
    var points := LinkRunOk(p, run);
    assert Describes(p, end.done, end.queue[0], points[0], points[0 + 1]);
    n := points[1].idx;
    InMap(end.queue[0].rows, k);
    ValueInMap(end.queue[0].rows, k);
  }

  lemma {:induction false} ValueInMap<V>(rows: seq<(Bytes, V)>, i: nat)
    requires i < |rows| && Increasing(rows)
    ensures rows[i].0 in AsMap(rows) && AsMap(rows)[rows[i].0] == rows[i].1
  {
    var n := |rows| - 1;
    if i < n {
      ValueInMap(rows[..n], i);
      assert Less(rows[i].0, rows[n].0);
      LessIrreflexive(rows[i].0);
    }
  }

  // ------------------------------------------------------------------- the sender

  function ChunkSize(es: seq<Entry>): nat {
    if es == [] then 0 else ChunkSize(es[..|es| - 1]) + SerializedSize(es[|es| - 1]) + 1
  }

  lemma {:induction false} ChunkSizeFront(e: Entry, es: seq<Entry>)
    ensures ChunkSize([e] + es) == SerializedSize(e) + 1 + ChunkSize(es)
  {
    if es == [] {
      assert [e] + es == [e] && [e][..0] == [];
    } else {
      var n := |es| - 1;
      ChunkSizeFront(e, es[..n]);
      assert ([e] + es)[..n + 1] == [e] + es[..n];
    }
  }

  /** The entries of a push end with the last applied one, or where the limit is reached. */
  lemma {:induction false} ChunkIsFull(log: LogState, idx: nat, applied: nat, size: nat, limit: nat, done: seq<Entry>)
    requires |done| == applied && 1 <= log.oldest <= idx <= applied + 1
    requires forall k: nat | log.oldest <= k <= applied :: log.At(k) == Some(done[k - 1])
    ensures var (es, atCommit) := ChunkEntries(log, idx, applied, size, limit);
            && (idx <= applied ==> es != [])
            && (atCommit <==> idx + |es| == applied + 1 && (idx <= applied ==> size + ChunkSize(es) < limit))
            && (!atCommit ==> size + ChunkSize(es) >= limit)
    decreases applied + 1 - idx
  {
    if idx <= applied {
      var e := done[idx - 1];
      ChunkSizeFront(e, []);
      assert [e] + [] == [e];
      if size + SerializedSize(e) + 1 < limit {
        ChunkIsFull(log, idx + 1, applied, size + SerializedSize(e) + 1, limit, done);
        ChunkSizeFront(e, ChunkEntries(log, idx + 1, applied, size + SerializedSize(e) + 1, limit).0);
      }
    } else {
      assert log.At(idx).None? || idx > applied;
    }
  }

  /** How much there is still to send. */
  function Unsent<Row>(src: Source<Row>, cur: Cursor): nat {
    (if cur.logsFrom <= src.applied then src.applied + 1 - cur.logsFrom else 0) + |After(src.db.Keys, cur.fromKey)|
  }

  /** A push carries something that was still to be sent, or is the last, exactly if there
      are entries to send or room for at least one row. */
  lemma PushMovesOn<Op, Row>(p: Protocol<Op, Row>, src: Source<Row>, done: seq<Entry>, cur: Cursor, limit: nat, maxRow: nat, messageSize: nat)
    requires SourceOk(p, src, done) && !cur.finished && 0 < maxRow
    requires src.log.oldest <= cur.logsFrom <= src.applied + 1
    ensures var (push, next) := NextPush(src, cur, limit, maxRow, messageSize);
            && next.sequence == cur.sequence + 1 && next.id == cur.id
            && (next.finished || Unsent(src, next) < Unsent(src, cur)
                <==> cur.logsFrom <= src.applied || messageSize + maxRow <= limit)
  {
    hide Fold, SerializedSize;
    ChunkIsPiece(src.log, cur.logsFrom, src.applied, 0, limit, done);
    ChunkIsFull(src.log, cur.logsFrom, src.applied, 0, limit, done);
    hide ChunkEntries;
    var (entries, atCommit) := ChunkEntries(src.log, cur.logsFrom, src.applied, 0, limit);
    var count := RowCount(atCommit, limit, maxRow, messageSize);
    if atCommit && cur.logsFrom > src.applied { RoomForOne(limit, maxRow, messageSize); }
    NoRowsAsked(src.db, cur.fromKey);
    if count > 0 && Rows(src.db, cur.fromKey, count) != [] { RowsLeave(src.db, cur.fromKey, count); }
  }

  /** Where there is room for rows, the push carries as many as there is room for or all
      that are left, and it is the last exactly if it has room for more than those. */
  lemma LastIff<Row>(src: Source<Row>, cur: Cursor, limit: nat, maxRow: nat, messageSize: nat)
    requires !cur.finished && 0 < maxRow
    ensures var (push, next) := NextPush(src, cur, limit, maxRow, messageSize);
            var atCommit := ChunkEntries(src.log, cur.logsFrom, src.applied, 0, limit).1;
            var count, left := RowCount(atCommit, limit, maxRow, messageSize), |After(src.db.Keys, cur.fromKey)|;
            && |push.rows| == (if count < left then count else left)
            && (next.finished <==> left < count) && push.toEnd == next.finished
  {
    hide ChunkEntries, RowCount, Rows;
    var atCommit := ChunkEntries(src.log, cur.logsFrom, src.applied, 0, limit).1;
    RowsCounted(src.db, cur.fromKey, RowCount(atCommit, limit, maxRow, messageSize));
  }

  /** As many rows are asked for as are sure to fit, and no fewer. */
  lemma RowsFit(limit: nat, maxRow: nat, messageSize: nat)
    requires 0 < maxRow
    ensures var n := RowCount(true, limit, maxRow, messageSize);
            && (n > 0 ==> messageSize + maxRow * n <= limit) && messageSize + maxRow * (n + 1) > limit
            && RowCount(false, limit, maxRow, messageSize) == 0
  {
    if messageSize < limit {
      var room := limit - messageSize;
      assert room == maxRow * (room / maxRow) + room % maxRow;
    }
  }

  lemma NoRowsAsked<V>(m: map<Bytes, V>, start: Bytes)
    ensures Rows(m, start, 0) == []
  {
  }

  lemma RoomForOne(limit: nat, maxRow: nat, messageSize: nat)
    requires 0 < maxRow
    ensures RowCount(true, limit, maxRow, messageSize) >= 1 <==> messageSize + maxRow <= limit
  {
    var room := limit - messageSize;
    assert room == maxRow * (room / maxRow) + room % maxRow;
  }

  /** Rows that have been sent are not to be sent again. */
  lemma RowsLeave<V>(m: map<Bytes, V>, start: Bytes, n: nat)
    requires Rows(m, start, n) != []
    ensures |After(m.Keys, Reach(Rows(m, start, n), []))| < |After(m.Keys, start)|
  {
    var rows := Rows(m, start, n);
    RowsAreWindow(m, start, n);
    var high := Reach(rows, start);
    InMap(rows, |rows| - 1);
    var a, b := After(m.Keys, high), After(m.Keys, start);
    assert high in b && high !in a by { LessIrreflexive(high); }
    forall k | k in a ensures k in b { LessTransitive(start, high, k); }
    SmallerSet(a, b, high);
  }

  lemma SmallerSet(a: set<Bytes>, b: set<Bytes>, x: Bytes)
    requires a <= b && x in b && x !in a
    ensures |a| < |b|
  {
    assert a <= b - {x};
    KeysSubset(a, b - {x});
  }

  lemma {:induction false} KeysSubset(a: set<Bytes>, b: set<Bytes>)
    requires a <= b
    ensures |a| <= |b|
    decreases a
  {
    if a != {} {
      var x :| x in a;
      KeysSubset(a - {x}, b - {x});
    }
  }
}
