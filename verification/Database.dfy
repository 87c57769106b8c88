/** A database driven by the log: a map from keys to rows in which one log entry
    changes at most the row under its own key. */
module Database {
  import opened RaftTypes
  import opened Keys

  /** What the core asks of a database protocol.  `parse` is the deserialisation
      of a client log, `step` the row that running a valid one leaves under its
      key, `rowOk` the checks made on a row that is loaded from another replica. */
  datatype Protocol<!Op, !Row> = Protocol(
    parse: Bytes -> Option<Op>, key: Op -> Bytes, valid: Op -> bool,
    step: (Op, Option<Row>) -> Option<Row>, rowOk: (Bytes, Row) -> bool)

  /** Keys of valid logs are not empty, and empty data is not a valid log. */
  ghost predicate ProtocolOk<Op(!new), Row>(p: Protocol<Op, Row>) {
    && (forall op | p.valid(op) :: p.key(op) != [])
    && (p.parse([]).Some? ==> !p.valid(p.parse([]).value))
  }

  function Get<V>(m: map<Bytes, V>, k: Bytes): Option<V> {
    if k in m then Some(m[k]) else None
  }

  function Set<V>(m: map<Bytes, V>, k: Bytes, v: Option<V>): map<Bytes, V> {
    match v case None => m - {k} case Some(x) => m[k := x]
  }

  function Run<Op, Row>(p: Protocol<Op, Row>, db: map<Bytes, Row>, op: Op): map<Bytes, Row> {
    Set(db, p.key(op), p.step(op, Get(db, p.key(op))))
  }

  /** A committed entry: data that parses and is valid is run, all else passes. */
  function Apply<Op, Row>(p: Protocol<Op, Row>, db: map<Bytes, Row>, e: Entry): map<Bytes, Row> {
    if !e.payload.Data? then db
    else
      match p.parse(e.payload.bytes)
      case None => db
      case Some(op) => if p.valid(op) then Run(p, db, op) else db
  }

  /** The database after a log, from the empty one. */
  function Fold<Op, Row>(p: Protocol<Op, Row>, log: seq<Entry>): map<Bytes, Row> {
    if log == [] then map[] else Apply(p, Fold(p, log[..|log| - 1]), log[|log| - 1])
  }

  lemma {:induction false} FoldKeys<Op(!new), Row>(p: Protocol<Op, Row>, log: seq<Entry>)
    requires ProtocolOk(p)
    ensures [] !in Fold(p, log)
  {
    if log != [] { FoldKeys(p, log[..|log| - 1]); }
  }

  /** The part of a database with keys up to `high`. */
  function Upto<V>(m: map<Bytes, V>, high: Bytes): map<Bytes, V> {
    map k | k in m && AtMost(k, high) :: m[k]
  }

  /** Running a log whose key lies in the loaded part is the same on the part. */
  lemma RunInside<Op, Row>(p: Protocol<Op, Row>, db: map<Bytes, Row>, op: Op, high: Bytes)
    requires AtMost(p.key(op), high)
    ensures Upto(Run(p, db, op), high) == Run(p, Upto(db, high), op)
  {
  }

  /** Running a log whose key lies beyond leaves the part alone. */
  lemma RunOutside<Op, Row>(p: Protocol<Op, Row>, db: map<Bytes, Row>, op: Op, high: Bytes)
    requires !AtMost(p.key(op), high)
    ensures Upto(Run(p, db, op), high) == Upto(db, high)
  {
  }

  lemma UptoWindow<V>(m: map<Bytes, V>, low: Bytes, high: Bytes)
    requires AtMost(low, high)
    ensures Upto(m, high) == Upto(m, low) + Window(m, low, high)
  {
    forall k | k in m ensures AtMost(k, high) <==> AtMost(k, low) || (Less(low, k) && AtMost(k, high)) {
      LessTotal(k, low);
      if Less(k, low) && Less(low, high) { LessTransitive(k, low, high); }
    }
  }

  lemma UptoEnd<V>(m: map<Bytes, V>, high: Bytes)
    requires After(m.Keys, high) == {}
    ensures Upto(m, high) == m
  {
    forall k | k in m ensures AtMost(k, high) {
      LessTotal(k, high);
      assert k !in After(m.Keys, high);
    }
  }
}
