/** The SVR2 database: PIN-guarded secrets with a budget of wrong guesses and a
    two-phase backup. */
module Db2 {
  import opened RaftTypes
  import opened HashChain
  import opened Keys
  import opened Database
  import Merkle
  import opened GuardedRows

  const BACKUP_ID_SIZE := 16
  const MIN_DATA_SIZE := 16
  const MAX_DATA_SIZE := 48
  const PIN_SIZE := 32
  const MAX_ALLOWED_MAX_TRIES := 255
  const MIN_ALLOWED_MAX_TRIES := 1

  datatype Request =
    | Backup(data: Bytes, pin: Bytes, maxTries: nat)
    | Restore(pin: Bytes)
    | Expose(data: Bytes)
    | Delete
    | Tries
    | Unset

  datatype ClientLog = ClientLog(backupId: Bytes, req: Request)

  datatype State = Uninitiated | Populated | Available

  datatype Row = Row(state: State, tries: nat, data: Bytes, pin: Bytes)

  datatype Response =
    | BackupOk
    | RestoreOk(data: Bytes, tries: nat)
    | RestoreMissing
    | PinMismatch(tries: nat)
    | RestoreError
    | ExposeOk
    | ExposeError
    | DeleteDone
    | TriesOk(exposed: bool, tries: nat)
    | TriesMissing
    | Empty

  datatype DbError = Ok | BackupIdSize | ClientPinSize | ClientDataSize | TriesTooHigh | TriesZero | RequestCase

  function ValidateRequest(req: Request): DbError {
    match req
    case Backup(data, pin, maxTries) =>
      if |pin| != PIN_SIZE then ClientPinSize
      else if |data| > MAX_DATA_SIZE || |data| < MIN_DATA_SIZE then ClientDataSize
      else if maxTries > MAX_ALLOWED_MAX_TRIES then TriesTooHigh
      else if maxTries < MIN_ALLOWED_MAX_TRIES then TriesZero
      else Ok
    case Restore(pin) => if |pin| != PIN_SIZE then ClientPinSize else Ok
    case Expose(data) => if |data| > MAX_DATA_SIZE || |data| < MIN_DATA_SIZE then ClientDataSize else Ok
    case Delete => Ok
    case Tries => Ok
    case Unset => RequestCase
  }

  function ValidateClientLog(log: ClientLog): DbError {
    if |log.backupId| != BACKUP_ID_SIZE then BackupIdSize else ValidateRequest(log.req)
  }

  /** Decrement of an unsigned 8-bit counter. */
  function Decrement(tries: nat): nat { (tries + 255) % 256 }

  /** What a request leaves in the row it addresses. */
  function StepRow(req: Request, row: Option<Row>): Option<Row> {
    match req
    case Backup(data, pin, maxTries) => Some(Row(Populated, maxTries % 256, data, pin))
    case Restore(pin) =>
      if row.None? || row.value.state != Available || row.value.pin == pin then row
      else if Decrement(row.value.tries) == 0 then None
      else Some(row.value.(tries := Decrement(row.value.tries)))
    case Expose(data) =>
      if row.None? || row.value.state == Uninitiated || !(row.value.data <= data) then row
      else Some(row.value.(state := Available))
    case Delete => None
    case Tries => row
    case Unset => row
  }

  /** What the client is told. */
  function Reply(req: Request, row: Option<Row>): Response {
    match req
    case Backup(_, _, _) => BackupOk
    case Restore(pin) =>
      if row.None? || row.value.state != Available then RestoreMissing
      else if row.value.pin == pin then RestoreOk(row.value.data, row.value.tries)
      else if Decrement(row.value.tries) == 0 then RestoreMissing
      else PinMismatch(Decrement(row.value.tries))
    case Expose(data) =>
      if row.None? || row.value.state == Uninitiated || !(row.value.data <= data) then ExposeError else ExposeOk
    case Delete => DeleteDone
    case Tries => if row.None? then TriesMissing else TriesOk(row.value.state == Available, row.value.tries)
    case Unset => Empty
  }

  // -------------------------------------------------------- a row's whole history

  function RowAfter(h: seq<Request>): Option<Row> {
    if h == [] then None else StepRow(h[|h| - 1], RowAfter(h[..|h| - 1]))
  }

  predicate AllValid(h: seq<Request>) {
    forall k | 0 <= k < |h| :: ValidateRequest(h[k]) == Ok
  }

  /** `b` is the position of the latest backup. */
  predicate LatestBackup(h: seq<Request>, b: nat) {
    b < |h| && h[b].Backup? && forall k | b < k < |h| :: !h[k].Backup?
  }

  predicate NoBackup(h: seq<Request>) {
    forall k | 0 <= k < |h| :: !h[k].Backup?
  }

  predicate DeletedSince(h: seq<Request>, b: nat) {
    exists k | b < k < |h| :: h[k].Delete?
  }

  /** Someone who knows the data has exposed the backup. */
  predicate ExposedSince(h: seq<Request>, b: nat, data: Bytes) {
    exists k | b < k < |h| :: h[k].Expose? && data <= h[k].data
  }

  /** Restores with another pin since the backup was first exposed. */
  function WrongGuesses(h: seq<Request>, b: nat, data: Bytes, pin: Bytes): nat {
    if |h| <= b + 1 then 0
    else
      var n := |h| - 1;
      WrongGuesses(h[..n], b, data, pin)
      + if h[n].Restore? && h[n].pin != pin && ExposedSince(h[..n], b, data) then 1 else 0
  }

  /** The row in terms of the requests alone. */
  function Described(h: seq<Request>, b: nat): Option<Row>
    requires LatestBackup(h, b)
  {
    DescribedBy(h[b], DeletedSince(h, b), ExposedSince(h, b, h[b].data), WrongGuesses(h, b, h[b].data, h[b].pin))
  }

  function DescribedBy(q: Request, deleted: bool, exposed: bool, wrong: nat): Option<Row>
    requires q.Backup?
  {
    if deleted || wrong >= q.maxTries then None
    else Some(Row(if exposed then Available else Populated, q.maxTries - wrong, q.data, q.pin))
  }

  /** What one more request does to the row described. */
  lemma DescribedStep(q: Request, deleted: bool, exposed: bool, wrong: nat, req: Request)
    requires q.Backup? && ValidateRequest(q) == Ok && !req.Backup? && (!exposed ==> wrong == 0)
    ensures StepRow(req, DescribedBy(q, deleted, exposed, wrong)) ==
            DescribedBy(q, deleted || req.Delete?, exposed || (req.Expose? && q.data <= req.data),
                        wrong + if req.Restore? && req.pin != q.pin && exposed then 1 else 0)
  {
  }

  lemma {:induction false} NeverBackedUp(h: seq<Request>)
    requires NoBackup(h)
    ensures RowAfter(h) == None
  {
    if h != [] { NeverBackedUp(h[..|h| - 1]); }
  }

  lemma SinceSnoc(h: seq<Request>, b: nat, data: Bytes)
    requires b < |h| - 1
    ensures var n := |h| - 1;
            && (DeletedSince(h, b) <==> DeletedSince(h[..n], b) || h[n].Delete?)
            && (ExposedSince(h, b, data) <==> ExposedSince(h[..n], b, data) || (h[n].Expose? && data <= h[n].data))
  {
    var n := |h| - 1;
    assert forall k | 0 <= k < n :: h[..n][k] == h[k];
    if DeletedSince(h[..n], b) {
      var k :| b < k < n && h[..n][k].Delete?;
      assert h[k].Delete?;
    }
    if ExposedSince(h[..n], b, data) {
      var k :| b < k < n && h[..n][k].Expose? && data <= h[..n][k].data;
      assert h[k].Expose?;
    }
    if DeletedSince(h, b) && !h[n].Delete? {
      var k :| b < k < |h| && h[k].Delete?;
      assert h[..n][k].Delete?;
    }
    if ExposedSince(h, b, data) && !(h[n].Expose? && data <= h[n].data) {
      var k :| b < k < |h| && h[k].Expose? && data <= h[k].data;
      assert h[..n][k].Expose?;
    }
  }

  /** The row is what the latest backup and the requests since make it: gone if
      deleted or if the guesses are used up, else the backed-up data under its
      pin, with as many tries left as wrong guesses have not used. */
  lemma {:induction false} RowIsHistory(h: seq<Request>, b: nat)
    requires AllValid(h) && LatestBackup(h, b)
    ensures RowAfter(h) == Described(h, b)
    decreases |h|
  {
    var n := |h| - 1;
    if b == n {
      assert ValidateRequest(h[b]) == Ok;
    } else {
      RowIsHistory(h[..n], b);
      assert ValidateRequest(h[b]) == Ok;
      HistoryStep(h, b);
    }
  }

  /** One request more. */
  lemma HistoryStep(h: seq<Request>, b: nat)
    requires LatestBackup(h, b) && b < |h| - 1 && ValidateRequest(h[b]) == Ok
    requires LatestBackup(h[..|h| - 1], b) && RowAfter(h[..|h| - 1]) == Described(h[..|h| - 1], b)
    ensures RowAfter(h) == Described(h, b)
  {
    hide DeletedSince, ExposedSince, ValidateRequest, StepRow, DescribedBy, WrongGuesses;
    var n, q := |h| - 1, h[b];
    assert h[..n][b] == q && !h[n].Backup?;
    SinceSnoc(h, b, q.data);
    ExposedFirst(h[..n], b, q.data, q.pin);
    GuessSnoc(h, b, q.data, q.pin);
    DescribedStep(q, DeletedSince(h[..n], b), ExposedSince(h[..n], b, q.data), WrongGuesses(h[..n], b, q.data, q.pin), h[n]);
  }

  lemma GuessSnoc(h: seq<Request>, b: nat, data: Bytes, pin: Bytes)
    requires b < |h| - 1
    ensures var n := |h| - 1;
            WrongGuesses(h, b, data, pin) == WrongGuesses(h[..n], b, data, pin)
              + if h[n].Restore? && h[n].pin != pin && ExposedSince(h[..n], b, data) then 1 else 0
  {
  }

  /** No guess counts before the backup is exposed. */
  lemma {:induction false} ExposedFirst(h: seq<Request>, b: nat, data: Bytes, pin: Bytes)
    requires b < |h|
    ensures !ExposedSince(h, b, data) ==> WrongGuesses(h, b, data, pin) == 0
    decreases |h|
  {
    if b < |h| - 1 {
      SinceSnoc(h, b, data);
      ExposedFirst(h[..|h| - 1], b, data, pin);
    }
  }

  /** Guess budget: while the row exists, tries left and wrong guesses made add
      up to the maximum, and the tries left are from 1 to 255, so the 8-bit
      decrement never wraps. */
  lemma GuessBudget(h: seq<Request>, b: nat)
    requires AllValid(h) && LatestBackup(h, b) && RowAfter(h).Some?
    ensures RowAfter(h).value.tries + WrongGuesses(h, b, h[b].data, h[b].pin) == h[b].maxTries
    ensures 1 <= RowAfter(h).value.tries <= 255
    ensures Decrement(RowAfter(h).value.tries) == RowAfter(h).value.tries - 1
  {
    RowIsHistory(h, b);
    assert ValidateRequest(h[b]) == Ok;
  }

  /** A restore succeeds exactly when the latest backup stored this pin, has been
      exposed and not deleted, and fewer wrong guesses than allowed were made;
      and then it returns that backup's data. */
  lemma RestoreMeetsHistory(h: seq<Request>, b: nat, pin: Bytes)
    requires AllValid(h) && LatestBackup(h, b)
    ensures var q, wrong := h[b], WrongGuesses(h, b, h[b].data, h[b].pin);
            var r := Reply(Restore(pin), RowAfter(h));
            && (r.RestoreOk? <==> q.pin == pin && !DeletedSince(h, b) && ExposedSince(h, b, q.data) && wrong < q.maxTries)
            && (r.RestoreOk? ==> r.data == q.data && r.tries == q.maxTries - wrong)
            && (r.PinMismatch? <==> q.pin != pin && !DeletedSince(h, b) && ExposedSince(h, b, q.data) && wrong + 1 < q.maxTries)
            && (r.PinMismatch? ==> r.tries == q.maxTries - wrong - 1)
  {
    hide RowAfter, WrongGuesses, DeletedSince, ExposedSince, Decrement;
    RowIsHistory(h, b);
    assert ValidateRequest(h[b]) == Ok;
    if RowAfter(h).Some? { DecrementIs(RowAfter(h).value.tries); }
  }

  lemma DecrementIs(tries: nat)
    requires 1 <= tries <= 255
    ensures Decrement(tries) == tries - 1
  {
  }

  /** What a client is told about its tries: the row is there exactly if the latest
      backup has not been deleted and guesses are left, and then how many, and whether
      the backup has been exposed. */
  lemma TriesMeetsHistory(h: seq<Request>, b: nat)
    requires AllValid(h) && LatestBackup(h, b)
    ensures var q, wrong := h[b], WrongGuesses(h, b, h[b].data, h[b].pin);
            var r := Reply(Tries, RowAfter(h));
            && (r.TriesMissing? <==> DeletedSince(h, b) || wrong >= q.maxTries)
            && (r.TriesOk? <==> !DeletedSince(h, b) && wrong < q.maxTries)
            && (r.TriesOk? ==> r.tries == q.maxTries - wrong && (r.exposed <==> ExposedSince(h, b, q.data)))
  {
    hide RowAfter, WrongGuesses, DeletedSince, ExposedSince;
    RowIsHistory(h, b);
  }

  /** An expose is answered with success exactly if the latest backup stands and the
      request knows its data, and with an error while nothing has been backed up. */
  lemma ExposeMeetsHistory(h: seq<Request>, b: nat, data: Bytes)
    requires AllValid(h) && LatestBackup(h, b)
    ensures var q, wrong := h[b], WrongGuesses(h, b, h[b].data, h[b].pin);
            var r := Reply(Expose(data), RowAfter(h));
            && (r.ExposeOk? <==> !DeletedSince(h, b) && wrong < q.maxTries && q.data <= data)
            && (r.ExposeError? <==> DeletedSince(h, b) || wrong >= q.maxTries || !(q.data <= data))
  {
    hide RowAfter, WrongGuesses, DeletedSince, ExposedSince;
    RowIsHistory(h, b);
  }

  lemma NoBackupNoExpose(h: seq<Request>, data: Bytes)
    requires NoBackup(h)
    ensures Reply(Expose(data), RowAfter(h)) == ExposeError && Reply(Tries, RowAfter(h)) == TriesMissing
  {
    NeverBackedUp(h);
  }

  /** Every request is answered in its own kind, backups and deletes always with success,
      and nothing is answered with an error but an expose. */
  lemma AnsweredInKind(req: Request, row: Option<Row>)
    ensures var r := Reply(req, row);
            match req
            case Backup(_, _, _) => r == BackupOk
            case Restore(_) => r.RestoreOk? || r.RestoreMissing? || r.PinMismatch?
            case Expose(_) => r.ExposeOk? || r.ExposeError?
            case Delete => r == DeleteDone
            case Tries => r.TriesOk? || r.TriesMissing?
            case Unset => r == Empty
  {
  }

  lemma NoBackupNoRestore(h: seq<Request>, pin: Bytes)
    requires NoBackup(h)
    ensures Reply(Restore(pin), RowAfter(h)) == RestoreMissing
  {
    NeverBackedUp(h);
  }

  // ------------------------------------------------------------------ transfer

  /** The checks made on a row received from another replica. */
  predicate RowLoadable(id: Bytes, row: Row) {
    && row.tries <= MAX_ALLOWED_MAX_TRIES && |row.pin| == PIN_SIZE
    && MIN_DATA_SIZE <= |row.data| <= MAX_DATA_SIZE && |id| == BACKUP_ID_SIZE
  }

  /** Rows as requests leave them. */
  predicate RowOk(id: Bytes, row: Row) {
    1 <= row.tries <= 255 && row.state != Uninitiated && RowLoadable(id, row)
  }

  predicate RowsOk(rows: map<Bytes, Row>) {
    forall k | k in rows :: RowOk(k, rows[k])
  }

  lemma StepKeepsRowOk(id: Bytes, req: Request, row: Option<Row>)
    requires ValidateRequest(req) == Ok && |id| == BACKUP_ID_SIZE
    requires row.Some? ==> RowOk(id, row.value)
    ensures StepRow(req, row).Some? ==> RowOk(id, StepRow(req, row).value)
  {
  }

  /** A backup is admitted exactly if the row it leaves is in order. */
  lemma BackupAdmitted(id: Bytes, req: Request)
    requires req.Backup? && |id| == BACKUP_ID_SIZE
    ensures ValidateRequest(req) == Ok <==> req.maxTries <= 255 && RowOk(id, StepRow(req, None).value)
  {
  }

  /** And exactly if its data could be exposed, its pin could restore, and its tries are
      from 1 to 255. */
  lemma AdmittedTogether(data: Bytes, pin: Bytes, maxTries: nat)
    ensures ValidateRequest(Backup(data, pin, maxTries)) == Ok <==>
            ValidateRequest(Expose(data)) == Ok && ValidateRequest(Restore(pin)) == Ok && 1 <= maxTries <= 255
  {
  }

  /** The load check lets a row with no tries through, and on such a row a wrong
      guess wraps the counter to 255: a wrong guess takes one from the budget
      exactly when the row does not start at zero. */
  lemma WrongGuessCosts(id: Bytes, row: Row, pin: Bytes)
    requires RowLoadable(id, row) && row.state == Available && row.pin != pin
    ensures (match StepRow(Restore(pin), Some(row)) case None => row.tries == 1 case Some(r) => r.tries == row.tries - 1)
            <==> row.tries != 0
    ensures row.tries == 0 ==> StepRow(Restore(pin), Some(row)) == Some(row.(tries := 255))
  {
  }

  function Db2Protocol(parse: Bytes -> Option<ClientLog>): Protocol<ClientLog, Row> {
    Protocol(parse, (log: ClientLog) => log.backupId, (log: ClientLog) => ValidateClientLog(log) == Ok,
             (log: ClientLog, row: Option<Row>) => StepRow(log.req, row), (id: Bytes, row: Row) => RowLoadable(id, row))
  }

  /** Parsing empty data gives the default log, whose backup ID is empty. */
  lemma Db2ProtocolOk(parse: Bytes -> Option<ClientLog>)
    requires parse([]).Some? ==> parse([]).value.backupId == []
    ensures ProtocolOk(Db2Protocol(parse))
  {
  }

  /** The valid requests for one backup ID among the entries of a log. */
  function RequestsFor(parse: Bytes -> Option<ClientLog>, log: seq<Entry>, id: Bytes): (h: seq<Request>)
    ensures AllValid(h)
  {
    if log == [] then []
    else
      var n := |log| - 1;
      var before := RequestsFor(parse, log[..n], id);
      if !log[n].payload.Data? then before
      else
        match parse(log[n].payload.bytes)
        case None => before
        case Some(op) => if ValidateClientLog(op) == Ok && op.backupId == id then before + [op.req] else before
  }

  /** Users do not affect each other: a row of the database is determined by the
      requests for its own backup ID, however interleaved with others. */
  lemma {:induction false} RowsAreIndependent(parse: Bytes -> Option<ClientLog>, log: seq<Entry>, id: Bytes)
    ensures Get(Fold(Db2Protocol(parse), log), id) == RowAfter(RequestsFor(parse, log, id))
  {
    hide RowAfter, StepRow, Run;
    NeverBackedUp([]);
    if log != [] {
      var n := |log| - 1;
      RowsAreIndependent(parse, log[..n], id);
      if log[n].payload.Data? && parse(log[n].payload.bytes).Some? {
        var op := parse(log[n].payload.bytes).value;
        if ValidateClientLog(op) == Ok {
          RowAfterSnoc(RequestsFor(parse, log[..n], id), op.req);
          RunAt(parse, Fold(Db2Protocol(parse), log[..n]), op, id);
        }
      }
    }
  }

  lemma RowAfterSnoc(h: seq<Request>, r: Request)
    ensures RowAfter(h + [r]) == StepRow(r, RowAfter(h))
  {
    assert (h + [r])[..|h|] == h;
  }

  lemma RunAt(parse: Bytes -> Option<ClientLog>, db: map<Bytes, Row>, op: ClientLog, id: Bytes)
    ensures Get(Run(Db2Protocol(parse), db, op), id) ==
            if op.backupId == id then StepRow(op.req, Get(db, id)) else Get(db, id)
  {
  }

  lemma {:induction false} LatestExists(h: seq<Request>) returns (b: nat)
    requires !NoBackup(h)
    ensures LatestBackup(h, b)
  {
    b := |h| - 1;
    if !h[b].Backup? {
      var k :| 0 <= k < |h| && h[k].Backup?;
      assert h[..b][k].Backup?;
      b := LatestExists(h[..b]);
    }
  }

  /** The row is that of some backup in `h`, the latest, and its tries and the wrong
      guesses made since add up to what that backup allowed. */
  ghost predicate WithinBudget(h: seq<Request>, row: Row) {
    exists b: nat | LatestBackup(h, b) ::
      && row.data == h[b].data && row.pin == h[b].pin && 1 <= row.tries <= 255
      && row.tries + WrongGuesses(h, b, h[b].data, h[b].pin) == h[b].maxTries
  }

  /** Guess budget of a whole database: whatever the log, every row keeps it. */
  lemma LogBudget(parse: Bytes -> Option<ClientLog>, log: seq<Entry>, id: Bytes)
    requires id in Fold(Db2Protocol(parse), log)
    ensures WithinBudget(RequestsFor(parse, log, id), Fold(Db2Protocol(parse), log)[id])
  {
    hide Fold, RowAfter, WrongGuesses, DeletedSince, ExposedSince;
    var h := RequestsFor(parse, log, id);
    RowsAreIndependent(parse, log, id);
    if NoBackup(h) { NeverBackedUp(h); }
    var b := LatestExists(h);
    GuessBudget(h, b);
    RowIsHistory(h, b);
  }

  /** Every row that any log produces is in order, so rows transferred from a
      replica never start at zero. */
  lemma {:induction false} FoldRowsOk(parse: Bytes -> Option<ClientLog>, log: seq<Entry>)
    ensures RowsOk(Fold(Db2Protocol(parse), log))
  {
    if log != [] {
      var n := |log| - 1;
      FoldRowsOk(parse, log[..n]);
      var p, db := Db2Protocol(parse), Fold(Db2Protocol(parse), log[..n]);
      if log[n].payload.Data? && parse(log[n].payload.bytes).Some? {
        var op := parse(log[n].payload.bytes).value;
        if ValidateClientLog(op) == Ok {
          StepKeepsRowOk(op.backupId, op.req, Get(db, op.backupId));
        }
      }
    }
  }

  // ------------------------------------------------------------ the database

  function StateCode(s: State): nat {
    match s case Uninitiated => 0 case Populated => 1 case Available => 2
  }

  /** The bytes that are hashed into the row's Merkle leaf. */
  function HashRow(id: Bytes, row: Row): Bytes {
    id + BigEndian(StateCode(row.state), 4) + BigEndian(row.tries, 4) + BigEndian(|row.data|, 4)
    + row.data + Padding(row.data) + row.pin
  }

  /** Fills data up to its largest size. */
  function Padding(data: Bytes): Bytes {
    if |data| < MAX_DATA_SIZE then seq(MAX_DATA_SIZE - |data|, _ => 0) else []
  }

  /** Where each part of a row is among the bytes hashed. */
  lemma HashRowParts(id: Bytes, row: Row)
    requires RowLoadable(id, row)
    ensures var h := HashRow(id, row);
            && |h| == 108 && h[..16] == id && h[16..20] == BigEndian(StateCode(row.state), 4) && h[20..24] == BigEndian(row.tries, 4)
            && h[24..28] == BigEndian(|row.data|, 4) && h[28..28 + |row.data|] == row.data && h[76..] == row.pin
  {
    hide BigEndian, StateCode;
    var a := id + BigEndian(StateCode(row.state), 4) + BigEndian(row.tries, 4) + BigEndian(|row.data|, 4);
    var body := row.data + Padding(row.data);
    assert HashRow(id, row) == a + body + row.pin;
    assert |a| == 28 && |body| == 48;
    assert a[..16] == id && a[16..20] == BigEndian(StateCode(row.state), 4) && a[20..24] == BigEndian(row.tries, 4);
    assert body[..|row.data|] == row.data;
  }

  /** What is hashed determines the row and its ID: no two rows have the same leaf but by
      a collision. */
  lemma HashRowInjective(id: Bytes, row: Row, id': Bytes, row': Row)
    requires RowLoadable(id, row) && RowLoadable(id', row') && HashRow(id, row) == HashRow(id', row')
    ensures id == id' && row == row'
  {
    HashRowParts(id, row);
    HashRowParts(id', row');
    hide HashRow, BigEndian;
    FourBytes(StateCode(row.state), StateCode(row'.state));
    FourBytes(row.tries, row'.tries);
    FourBytes(|row.data|, |row'.data|);
  }

  lemma RunIs(parse: Bytes -> Option<ClientLog>, db: map<Bytes, Row>, log: ClientLog)
    ensures Run(Db2Protocol(parse), db, log) == Set(db, log.backupId, StepRow(log.req, Get(db, log.backupId)))
  {
  }

  /** The rows, each with its leaf in the Merkle tree. */
  class Database2 {
    const table: LeafRows<Row>

    /** The tree is valid and every row's leaf holds the row's hash. */
    ghost predicate Valid()
      reads this, table, table.tree
    {
      table.Valid()
    }

    /** `digest` is the 8-byte prefix of the keyed hash. */
    constructor (tree: Merkle.Tree, digest: Bytes -> Merkle.Hash)
      requires tree.Valid()
      ensures Valid() && fresh(table) && table.tree == tree && table.rows == map[]
    {
      table := new LeafRows<Row>(tree, (id: Bytes, row: Row) => digest(HashRow(id, row)));
    }

    method RunBackup(id: Bytes, req: Request) returns (resp: Response)
      requires Valid() && req.Backup? && ValidateRequest(req) == Ok
      modifies table, table.tree
      ensures Valid() && table.Others() == old(table.Others()) && resp == Reply(req, old(Get(table.rows, id)))
      ensures table.rows == Set(old(table.rows), id, StepRow(req, old(Get(table.rows, id))))
    {
      hide LeafRows.Valid, LeafRows.Others;
      assert req.maxTries % 256 == req.maxTries;
      table.Store(id, Row(Populated, req.maxTries, req.data, req.pin));
      resp := BackupOk;
    }

    /** The walk from the row's leaf to the root of the tree never fails, so a restore
        never answers with an error. */
    method RunRestore(id: Bytes, pin: Bytes) returns (resp: Response)
      requires Valid()
      modifies table, table.tree
      ensures Valid() && table.Others() == old(table.Others()) && resp != RestoreError
      ensures resp == Reply(Restore(pin), old(Get(table.rows, id)))
      ensures table.rows == Set(old(table.rows), id, StepRow(Restore(pin), old(Get(table.rows, id))))
    {
      hide LeafRows.Valid, LeafRows.Others;
      if id !in table.rows || table.rows[id].state != Available { return RestoreMissing; }
      var row := table.rows[id];
      var ok := table.Verify(id);
      if !ok { return RestoreError; }
      if pin == row.pin { return RestoreOk(row.data, row.tries); }
      row := row.(tries := Decrement(row.tries));
      if row.tries == 0 {
        table.Erase(id);
        return RestoreMissing;
      }
      table.Store(id, row);
      return PinMismatch(row.tries);
    }

    method RunExpose(id: Bytes, data: Bytes) returns (resp: Response)
      requires Valid()
      modifies table, table.tree
      ensures Valid() && table.Others() == old(table.Others()) && resp == Reply(Expose(data), old(Get(table.rows, id)))
      ensures table.rows == Set(old(table.rows), id, StepRow(Expose(data), old(Get(table.rows, id))))
    {
      hide LeafRows.Valid, LeafRows.Others;
      if id !in table.rows { return ExposeError; }
      var row := table.rows[id];
      var ok := table.Verify(id);
      if !ok { return ExposeError; }
      if !(row.data <= data) { return ExposeError; }
      if row.state == Uninitiated { return ExposeError; }
      table.Store(id, row.(state := Available));
      return ExposeOk;
    }

    method RunDelete(id: Bytes) returns (resp: Response)
      requires Valid()
      modifies table, table.tree
      ensures Valid() && table.Others() == old(table.Others()) && resp == Reply(Delete, old(Get(table.rows, id)))
      ensures table.rows == Set(old(table.rows), id, StepRow(Delete, old(Get(table.rows, id))))
    {
      hide LeafRows.Valid, LeafRows.Others;
      resp := DeleteDone;
      if id in table.rows { table.Erase(id); }
    }

    method RunTries(id: Bytes) returns (resp: Response)
      ensures resp == Reply(Tries, Get(table.rows, id))
    {
      if id !in table.rows { return TriesMissing; }
      return TriesOk(table.rows[id].state == Available, table.rows[id].tries);
    }

    /** Runs a valid client log.  The other leaves of the tree keep their values. */
    method RunLog(log: ClientLog, ghost parse: Bytes -> Option<ClientLog>) returns (resp: Response)
      requires Valid() && ValidateClientLog(log) == Ok
      modifies table, table.tree
      ensures Valid() && table.Others() == old(table.Others()) && table.rows == Run(Db2Protocol(parse), old(table.rows), log)
      ensures resp == Reply(log.req, old(Get(table.rows, log.backupId)))
    {
      hide StepRow, Reply, Run, Set, LeafRows.Valid, LeafRows.Others;
      RunIs(parse, table.rows, log);
      match log.req
      case Backup(_, _, _) => resp := RunBackup(log.backupId, log.req);
      case Restore(pin) => resp := RunRestore(log.backupId, pin);
      case Expose(data) => resp := RunExpose(log.backupId, data);
      case Delete => resp := RunDelete(log.backupId);
      case Tries =>
        resp := RunTries(log.backupId);
        TriesChange(table.rows, log.backupId);
    }
  }

  lemma TriesChange(rows: map<Bytes, Row>, id: Bytes)
    ensures Set(rows, id, StepRow(Tries, Get(rows, id))) == rows
  {
  }
}
