/** The SVR3 database: per-user keys for blinded evaluations, each good for a
    limited number of evaluations. */
module Db3 {
  import opened RaftTypes
  import opened HashChain
  import opened Keys
  import opened Database
  import Merkle
  import opened GuardedRows

  const BACKUP_ID_SIZE := 16
  const ELEMENT_SIZE := 32
  const SCALAR_SIZE := 32

  datatype Request =
    | Create(maxTries: nat, element: Bytes, privateKey: Bytes)
    | Evaluate(element: Bytes)
    | Remove
    | Query
    | Unset

  datatype ClientLog = ClientLog(backupId: Bytes, req: Request)

  datatype Row = Row(priv: Bytes, tries: nat)

  datatype Response =
    | CreateOk(evaluated: Bytes)
    | CreateError
    | EvaluateOk(evaluated: Bytes, tries: nat)
    | EvaluateMissing
    | EvaluateError
    | RemoveDone
    | QueryOk(tries: nat)
    | QueryMissing

  /** Scalar multiplication on ristretto255; it fails on invalid elements. */
  type Curve = (Bytes, Bytes) -> Option<Bytes>

  predicate ValidRequest(req: Request) {
    match req
    case Create(maxTries, element, priv) => 1 <= maxTries <= 255 && |element| == ELEMENT_SIZE && |priv| == SCALAR_SIZE
    case Evaluate(element) => |element| == ELEMENT_SIZE
    case Remove => true
    case Query => true
    case Unset => false
  }

  predicate ValidClientLog(log: ClientLog) {
    |log.backupId| == BACKUP_ID_SIZE && ValidRequest(log.req)
  }

  function Decrement(tries: nat): nat { (tries + 255) % 256 }

  function StepRow(curve: Curve, req: Request, row: Option<Row>): Option<Row> {
    match req
    case Create(maxTries, element, priv) => if curve(priv, element).None? then row else Some(Row(priv, maxTries % 256))
    case Evaluate(element) =>
      if row.None? || curve(row.value.priv, element).None? then row
      else if Decrement(row.value.tries) == 0 then None
      else Some(row.value.(tries := Decrement(row.value.tries)))
    case Remove => None
    case Query => row
    case Unset => row
  }

  function Reply(curve: Curve, req: Request, row: Option<Row>): Response
    requires !req.Unset?
  {
    match req
    case Create(_, element, priv) => if curve(priv, element).None? then CreateError else CreateOk(curve(priv, element).value)
    case Evaluate(element) =>
      if row.None? then EvaluateMissing
      else if curve(row.value.priv, element).None? then EvaluateError
      else EvaluateOk(curve(row.value.priv, element).value, Decrement(row.value.tries))
    case Remove => RemoveDone
    case Query => if row.None? then QueryMissing else QueryOk(row.value.tries)
  }

  // -------------------------------------------------------- a row's whole history

  function RowAfter(curve: Curve, h: seq<Request>): Option<Row> {
    if h == [] then None else StepRow(curve, h[|h| - 1], RowAfter(curve, h[..|h| - 1]))
  }

  predicate AllValid(h: seq<Request>) {
    forall k | 0 <= k < |h| :: ValidRequest(h[k])
  }

  /** A create whose own evaluation succeeds; any other leaves no trace. */
  predicate Creates(curve: Curve, req: Request) {
    req.Create? && curve(req.privateKey, req.element).Some?
  }

  predicate LatestCreate(curve: Curve, h: seq<Request>, b: nat) {
    b < |h| && Creates(curve, h[b]) && forall k | b < k < |h| :: !Creates(curve, h[k])
  }

  predicate RemovedSince(h: seq<Request>, b: nat) {
    exists k | b < k < |h| :: h[k].Remove?
  }

  /** Evaluations since position `b` that the key can answer. */
  function Evaluations(curve: Curve, h: seq<Request>, b: nat, priv: Bytes): nat {
    if |h| <= b + 1 then 0
    else
      var n := |h| - 1;
      Evaluations(curve, h[..n], b, priv) + if h[n].Evaluate? && curve(priv, h[n].element).Some? then 1 else 0
  }

  function Described(curve: Curve, h: seq<Request>, b: nat): Option<Row>
    requires LatestCreate(curve, h, b)
  {
    var q := h[b];
    var used := Evaluations(curve, h, b, q.privateKey);
    if RemovedSince(h, b) || used >= q.maxTries then None else Some(Row(q.privateKey, q.maxTries - used))
  }

  lemma RemovedSnoc(h: seq<Request>, b: nat)
    requires b < |h| - 1
    ensures RemovedSince(h, b) <==> RemovedSince(h[..|h| - 1], b) || h[|h| - 1].Remove?
  {
    var n := |h| - 1;
    if RemovedSince(h[..n], b) {
      var k :| b < k < n && h[..n][k].Remove?;
      assert h[k].Remove?;
    }
    if RemovedSince(h, b) && !h[n].Remove? {
      var k :| b < k < |h| && h[k].Remove?;
      assert h[..n][k].Remove?;
    }
  }

  /** The row is the key of the latest successful create, with as many tries left
      as evaluations have not used, unless it was removed or is used up. */
  lemma {:induction false} RowIsHistory(curve: Curve, h: seq<Request>, b: nat)
    requires AllValid(h) && LatestCreate(curve, h, b)
    ensures RowAfter(curve, h) == Described(curve, h, b)
    decreases |h|
  {
    var n := |h| - 1;
    assert ValidRequest(h[b]);
    if b < n {
      RowIsHistory(curve, h[..n], b);
      RemovedSnoc(h, b);
      assert h[..n][b] == h[b] && !Creates(curve, h[n]);
    }
  }

  /** Evaluation budget: tries left and answered evaluations add up to the
      maximum, and the 8-bit decrement never wraps. */
  lemma EvaluationBudget(curve: Curve, h: seq<Request>, b: nat)
    requires AllValid(h) && LatestCreate(curve, h, b) && RowAfter(curve, h).Some?
    ensures RowAfter(curve, h).value.tries + Evaluations(curve, h, b, h[b].privateKey) == h[b].maxTries
    ensures 1 <= RowAfter(curve, h).value.tries <= 255
    ensures Decrement(RowAfter(curve, h).value.tries) == RowAfter(curve, h).value.tries - 1
  {
    RowIsHistory(curve, h, b);
    assert ValidRequest(h[b]);
  }

  /** An evaluation is answered, with the latest key, exactly while the key is not
      removed and the budget not used up. */
  lemma EvaluateMeetsHistory(curve: Curve, h: seq<Request>, b: nat, element: Bytes)
    requires AllValid(h) && LatestCreate(curve, h, b)
    ensures var q, used := h[b], Evaluations(curve, h, b, h[b].privateKey);
            var r := Reply(curve, Evaluate(element), RowAfter(curve, h));
            && (r.EvaluateMissing? <==> RemovedSince(h, b) || used >= q.maxTries)
            && (r.EvaluateOk? <==> !RemovedSince(h, b) && used < q.maxTries && curve(q.privateKey, element).Some?)
            && (r.EvaluateOk? ==> Some(r.evaluated) == curve(q.privateKey, element) && r.tries == q.maxTries - used - 1)
  {
    hide RowAfter, RemovedSince, Evaluations;
    RowIsHistory(curve, h, b);
    assert ValidRequest(h[b]);
  }

  /** A create is answered with the element evaluated under the key it brings, exactly if
      that can be done, whatever went before; and then it is that key which evaluates. */
  lemma CreateMeetsHistory(curve: Curve, h: seq<Request>, req: Request)
    requires AllValid(h) && ValidRequest(req) && req.Create?
    ensures var value, r := curve(req.privateKey, req.element), Reply(curve, req, RowAfter(curve, h));
            && (r.CreateOk? <==> value.Some?) && (r.CreateError? <==> value.None?) && (r.CreateOk? ==> value == Some(r.evaluated))
            && RowAfter(curve, h + [req]) == if value.Some? then Some(Row(req.privateKey, req.maxTries)) else RowAfter(curve, h)
  {
    hide RowAfter;
    RowAfterSnoc(curve, h, req);
  }

  /** Every request is answered in its own kind, a removal always with success. */
  lemma AnsweredInKind(curve: Curve, req: Request, row: Option<Row>)
    requires !req.Unset?
    ensures var r := Reply(curve, req, row);
            match req
            case Create(_, _, _) => r.CreateOk? || r.CreateError?
            case Evaluate(_) => r.EvaluateOk? || r.EvaluateMissing? || r.EvaluateError?
            case Remove => r == RemoveDone
            case Query => r.QueryOk? || r.QueryMissing?
            case _ => true
  {
  }

  lemma NoCreateNoAnswer(curve: Curve, h: seq<Request>, element: Bytes)
    requires NoCreate(curve, h)
    ensures Reply(curve, Evaluate(element), RowAfter(curve, h)) == EvaluateMissing
    ensures Reply(curve, Query, RowAfter(curve, h)) == QueryMissing
  {
    NeverCreated(curve, h);
  }

  /** What a client is told by a query: the key is there exactly if the latest one has
      not been removed and evaluations are left, and then how many. */
  lemma QueryMeetsHistory(curve: Curve, h: seq<Request>, b: nat)
    requires AllValid(h) && LatestCreate(curve, h, b)
    ensures var q, used := h[b], Evaluations(curve, h, b, h[b].privateKey);
            var r := Reply(curve, Query, RowAfter(curve, h));
            && (r.QueryMissing? <==> RemovedSince(h, b) || used >= q.maxTries)
            && (r.QueryOk? ==> r.tries == q.maxTries - used)
  {
    hide RowAfter, RemovedSince, Evaluations;
    RowIsHistory(curve, h, b);
  }

  predicate NoCreate(curve: Curve, h: seq<Request>) {
    forall k | 0 <= k < |h| :: !Creates(curve, h[k])
  }

  lemma {:induction false} NeverCreated(curve: Curve, h: seq<Request>)
    requires NoCreate(curve, h)
    ensures RowAfter(curve, h) == None
  {
    if h != [] {
      assert forall k | 0 <= k < |h| - 1 :: h[..|h| - 1][k] == h[k];
      NeverCreated(curve, h[..|h| - 1]);
      assert !Creates(curve, h[|h| - 1]);
    }
  }

  lemma {:induction false} LatestExists(curve: Curve, h: seq<Request>) returns (b: nat)
    requires !NoCreate(curve, h)
    ensures LatestCreate(curve, h, b)
  {
    b := |h| - 1;
    if !Creates(curve, h[b]) {
      var k :| 0 <= k < |h| && Creates(curve, h[k]);
      assert h[..b][k] == h[k];
      b := LatestExists(curve, h[..b]);
    }
  }

  // ------------------------------------------------------------------ transfer

  predicate RowLoadable(id: Bytes, row: Row) {
    1 <= row.tries <= 255 && |row.priv| == SCALAR_SIZE && |id| == BACKUP_ID_SIZE
  }

  predicate RowsOk(rows: map<Bytes, Row>) {
    forall k | k in rows :: RowLoadable(k, rows[k])
  }

  lemma StepKeepsRowOk(curve: Curve, id: Bytes, req: Request, row: Option<Row>)
    requires ValidRequest(req) && |id| == BACKUP_ID_SIZE
    requires row.Some? ==> RowLoadable(id, row.value)
    ensures StepRow(curve, req, row).Some? ==> RowLoadable(id, StepRow(curve, req, row).value)
  {
  }

  /** A create that can be evaluated is admitted exactly if its element could be sent
      for evaluation and the row it leaves passes the load check. */
  lemma CreateAdmitted(curve: Curve, id: Bytes, req: Request)
    requires Creates(curve, req) && |id| == BACKUP_ID_SIZE
    ensures ValidRequest(req) <==>
            ValidRequest(Evaluate(req.element)) && req.maxTries <= 255 && RowLoadable(id, StepRow(curve, req, None).value)
  {
  }

  function Db3Protocol(parse: Bytes -> Option<ClientLog>, curve: Curve): Protocol<ClientLog, Row> {
    Protocol(parse, (log: ClientLog) => log.backupId, (log: ClientLog) => ValidClientLog(log),
             (log: ClientLog, row: Option<Row>) => StepRow(curve, log.req, row), (id: Bytes, row: Row) => RowLoadable(id, row))
  }

  lemma Db3ProtocolOk(parse: Bytes -> Option<ClientLog>, curve: Curve)
    requires parse([]).Some? ==> parse([]).value.backupId == []
    ensures ProtocolOk(Db3Protocol(parse, curve))
  {
  }

  /** The valid requests for one backup ID among the entries of a log. */
  function RequestsFor(parse: Bytes -> Option<ClientLog>, log: seq<Entry>, id: Bytes): (h: seq<Request>)
    ensures AllValid(h)
  {
    if log == [] then []
    else
      var n := |log| - 1;
      var before := RequestsFor(parse, log[..n], id);
      if !log[n].payload.Data? then before
      else
        match parse(log[n].payload.bytes)
        case None => before
        case Some(op) => if ValidClientLog(op) && op.backupId == id then before + [op.req] else before
  }

  /** Users do not affect each other: a row of the database is determined by the
      requests for its own backup ID, however interleaved with others. */
  lemma {:induction false} RowsAreIndependent(parse: Bytes -> Option<ClientLog>, curve: Curve, log: seq<Entry>, id: Bytes)
    ensures Get(Fold(Db3Protocol(parse, curve), log), id) == RowAfter(curve, RequestsFor(parse, log, id))
  {
    hide RowAfter, StepRow, Run;
    NeverCreated(curve, []);
    if log != [] {
      var n := |log| - 1;
      RowsAreIndependent(parse, curve, log[..n], id);
      if log[n].payload.Data? && parse(log[n].payload.bytes).Some? {
        var op := parse(log[n].payload.bytes).value;
        if ValidClientLog(op) {
          RowAfterSnoc(curve, RequestsFor(parse, log[..n], id), op.req);
          RunAt(parse, curve, Fold(Db3Protocol(parse, curve), log[..n]), op, id);
        }
      }
    }
  }

  lemma RowAfterSnoc(curve: Curve, h: seq<Request>, r: Request)
    ensures RowAfter(curve, h + [r]) == StepRow(curve, r, RowAfter(curve, h))
  {
    assert (h + [r])[..|h|] == h;
  }

  lemma RunAt(parse: Bytes -> Option<ClientLog>, curve: Curve, db: map<Bytes, Row>, op: ClientLog, id: Bytes)
    ensures Get(Run(Db3Protocol(parse, curve), db, op), id) ==
            if op.backupId == id then StepRow(curve, op.req, Get(db, id)) else Get(db, id)
  {
  }

  /** The row is that of some creation in `h`, the latest, and its tries and the
      evaluations made since add up to what that creation allowed. */
  ghost predicate WithinBudget(curve: Curve, h: seq<Request>, row: Row) {
    exists b: nat | LatestCreate(curve, h, b) ::
      && row.priv == h[b].privateKey && 1 <= row.tries <= 255
      && row.tries + Evaluations(curve, h, b, h[b].privateKey) == h[b].maxTries
  }

  /** Evaluation budget of a whole database: whatever the log, every row keeps it. */
  lemma LogBudget(parse: Bytes -> Option<ClientLog>, curve: Curve, log: seq<Entry>, id: Bytes)
    requires id in Fold(Db3Protocol(parse, curve), log)
    ensures WithinBudget(curve, RequestsFor(parse, log, id), Fold(Db3Protocol(parse, curve), log)[id])
  {
    hide Fold, RowAfter, Evaluations, RemovedSince;
    var h := RequestsFor(parse, log, id);
    RowsAreIndependent(parse, curve, log, id);
    if NoCreate(curve, h) { NeverCreated(curve, h); }
    var b := LatestExists(curve, h);
    EvaluationBudget(curve, h, b);
    RowIsHistory(curve, h, b);
  }

  /** Any log leaves only rows that the load check accepts, so no row a replica
      sends is ever refused. */
  lemma {:induction false} FoldRowsOk(parse: Bytes -> Option<ClientLog>, curve: Curve, log: seq<Entry>)
    ensures RowsOk(Fold(Db3Protocol(parse, curve), log))
  {
    if log != [] {
      var n := |log| - 1;
      FoldRowsOk(parse, curve, log[..n]);
      var p, db := Db3Protocol(parse, curve), Fold(Db3Protocol(parse, curve), log[..n]);
      if log[n].payload.Data? && parse(log[n].payload.bytes).Some? {
        var op := parse(log[n].payload.bytes).value;
        if ValidClientLog(op) {
          StepKeepsRowOk(curve, op.backupId, op.req, Get(db, op.backupId));
        }
      }
    }
  }

  // -------------------------------------------------------------- the database

  /** The bytes hashed into the row's Merkle leaf. */
  function HashRow(id: Bytes, row: Row): Bytes {
    id + BigEndian(row.tries, 4) + row.priv
  }

  /** What is hashed determines the row and its ID. */
  lemma HashRowInjective(id: Bytes, row: Row, id': Bytes, row': Row)
    requires RowLoadable(id, row) && RowLoadable(id', row') && HashRow(id, row) == HashRow(id', row')
    ensures id == id' && row == row'
  {
    hide BigEndian;
    var h, h' := HashRow(id, row), HashRow(id', row');
    assert h[..16] == id && h'[..16] == id' && h[20..] == row.priv && h'[20..] == row'.priv;
    assert h[16..20] == BigEndian(row.tries, 4) && h'[16..20] == BigEndian(row'.tries, 4);
    FourBytes(row.tries, row'.tries);
  }

  lemma RunIs(parse: Bytes -> Option<ClientLog>, curve: Curve, db: map<Bytes, Row>, log: ClientLog)
    ensures Run(Db3Protocol(parse, curve), db, log) == Set(db, log.backupId, StepRow(curve, log.req, Get(db, log.backupId)))
  {
  }

  /** The rows, each with its leaf in the Merkle tree. */
  class Database3 {
    const curve: Curve
    const table: LeafRows<Row>

    ghost predicate Valid()
      reads this, table, table.tree
    {
      table.Valid()
    }

    constructor (curve: Curve, tree: Merkle.Tree, digest: Bytes -> Merkle.Hash)
      requires tree.Valid()
      ensures Valid() && fresh(table) && table.tree == tree && table.rows == map[] && this.curve == curve
    {
      this.curve := curve;
      table := new LeafRows<Row>(tree, (id: Bytes, row: Row) => digest(HashRow(id, row)));
    }

    method RunCreate(id: Bytes, req: Request) returns (resp: Response)
      requires Valid() && req.Create? && ValidRequest(req)
      modifies table, table.tree
      ensures Valid() && table.Others() == old(table.Others()) && resp == Reply(curve, req, old(Get(table.rows, id)))
      ensures table.rows == Set(old(table.rows), id, StepRow(curve, req, old(Get(table.rows, id))))
    {
      hide LeafRows.Valid, LeafRows.Others;
      var evaluated := curve(req.privateKey, req.element);
      if evaluated.None? { return CreateError; }
      table.Store(id, Row(req.privateKey, req.maxTries % 256));
      return CreateOk(evaluated.value);
    }

    /** A failed evaluation costs nothing; the walk from the row's leaf to the root of
        the tree never fails. */
    method RunEvaluate(id: Bytes, element: Bytes) returns (resp: Response)
      requires Valid()
      modifies table, table.tree
      ensures Valid() && table.Others() == old(table.Others()) && resp == Reply(curve, Evaluate(element), old(Get(table.rows, id)))
      ensures table.rows == Set(old(table.rows), id, StepRow(curve, Evaluate(element), old(Get(table.rows, id))))
    {
      hide LeafRows.Valid, LeafRows.Others;
      if id !in table.rows { return EvaluateMissing; }
      var row := table.rows[id];
      var ok := table.Verify(id);
      if !ok { return EvaluateError; }
      var evaluated := curve(row.priv, element);
      if evaluated.None? { return EvaluateError; }
      row := row.(tries := Decrement(row.tries));
      if row.tries == 0 {
        table.Erase(id);
      } else {
        table.Store(id, row);
      }
      return EvaluateOk(evaluated.value, row.tries);
    }

    method RunRemove(id: Bytes) returns (resp: Response)
      requires Valid()
      modifies table, table.tree
      ensures Valid() && table.Others() == old(table.Others()) && resp == Reply(curve, Remove, old(Get(table.rows, id)))
      ensures table.rows == Set(old(table.rows), id, StepRow(curve, Remove, old(Get(table.rows, id))))
    {
      hide LeafRows.Valid, LeafRows.Others;
      if id in table.rows { table.Erase(id); }
      resp := RemoveDone;
    }

    method RunQuery(id: Bytes) returns (resp: Response)
      ensures resp == Reply(curve, Query, Get(table.rows, id))
    {
      if id !in table.rows { return QueryMissing; }
      return QueryOk(table.rows[id].tries);
    }

    /** Runs a valid client log.  The other leaves of the tree keep their values. */
    method RunLog(log: ClientLog, ghost parse: Bytes -> Option<ClientLog>) returns (resp: Response)
      requires Valid() && ValidClientLog(log)
      modifies table, table.tree
      ensures Valid() && table.Others() == old(table.Others())
      ensures table.rows == Run(Db3Protocol(parse, curve), old(table.rows), log)
      ensures resp == Reply(curve, log.req, old(Get(table.rows, log.backupId)))
    {
      hide StepRow, Reply, Run, Set, LeafRows.Valid, LeafRows.Others;
      RunIs(parse, curve, table.rows, log);
      match log.req
      case Create(_, _, _) => resp := RunCreate(log.backupId, log.req);
      case Evaluate(element) => resp := RunEvaluate(log.backupId, element);
      case Remove => resp := RunRemove(log.backupId);
      case Query =>
        resp := RunQuery(log.backupId);
        QueryChange(curve, table.rows, log.backupId);
    }
  }

  lemma QueryChange(curve: Curve, rows: map<Bytes, Row>, id: Bytes)
    ensures Set(rows, id, StepRow(curve, Query, Get(rows, id))) == rows
  {
  }
}
