/** The bounded in-memory log: a deque of entries whose first index moves up as
    old entries are dropped to make room. */
module BoundedLog {
  import opened RaftTypes

  // Sizes of C++ objects on the target; nothing below depends on the values.
  const SIZEOF_STRING: nat := 32
  const SIZEOF_LOG_ENTRY: nat := 56
  const SIZEOF_REPLICA_GROUP: nat := 48
  const SIZEOF_REPLICA: nat := 32
  const SIZEOF_PEER_ID: nat := 32
  const HASH_SIZE: nat := 32
  const INT_MAX: nat := 0x7fff_ffff

  /** Estimated memory of an entry inside the log. */
  function MemSize(e: Entry): (n: nat)
    ensures n > 0
  {
    (if e.payload.MembershipChange?
     then SIZEOF_REPLICA_GROUP + |e.payload.replicas| * (SIZEOF_PEER_ID + SIZEOF_REPLICA) else 0)
    + (if e.hash == Absent then 0 else HASH_SIZE + SIZEOF_STRING)
    + SIZEOF_LOG_ENTRY + SIZEOF_STRING + DataSize(e)
  }

  function DataSize(e: Entry): nat {
    if e.payload.Data? then |e.payload.bytes| else 0
  }

  /** Length of the serialised entry; the exact varint overhead is not modelled. */
  function SerializedSize(e: Entry): (n: nat) {
    2 + (if e.hash == Absent then 0 else HASH_SIZE + 2)
    + match e.payload
      case Noop => 0
      case Data(b) => |b| + 6
      case MembershipChange(g) => 40 * |g| + 6
      case Minimums(l) => |l| + 6
  }

  function TotalSize(entries: seq<Entry>): nat {
    if entries == [] then 0 else MemSize(entries[0]) + TotalSize(entries[1..])
  }

  lemma {:induction false} TotalSizeAppend(a: seq<Entry>, b: seq<Entry>)
    ensures TotalSize(a + b) == TotalSize(a) + TotalSize(b)
  {
    if a == [] {
      assert a + b == b;
    } else {
      assert (a + b)[1..] == a[1..] + b;
      TotalSizeAppend(a[1..], b);
    }
  }

  const EMPTY_ENTRY := Entry(0, Noop, Absent)

  datatype LogState = LogState(oldest: nat, entries: seq<Entry>, bytes: nat, maxBytes: nat) {

    /** The byte count bounds what is stored from above, and the budget bounds
        the byte count. */
    predicate Bounded() {
      TotalSize(entries) <= bytes <= maxBytes
    }

    function OldestStored(): nat { if entries == [] then 0 else oldest }

    function LastIdx(): nat { if entries == [] then 0 else oldest + |entries| - 1 }

    function NextIdx(): nat { LastIdx() + 1 }

    function At(idx: nat): Option<Entry> {
      if idx < oldest || idx - oldest >= |entries| then None else Some(entries[idx - oldest])
    }

    function TermAt(idx: nat): nat {
      match At(idx) case None => 0 case Some(e) => e.term
    }

    function HashAt(idx: nat): Hash {
      match At(idx) case None => Absent case Some(e) => e.hash
    }

    function LastTerm(): nat {
      if entries == [] then 0 else entries[|entries| - 1].term
    }

    /** Scans backwards for an entry with a hash; zeros when there is none. */
    function MostRecentHash(): Hash {
      LastHash(entries)
    }

    static function LastHash(entries: seq<Entry>): Hash {
      if entries == [] then Zeros
      else if entries[|entries| - 1].hash != Absent then entries[|entries| - 1].hash
      else LastHash(entries[..|entries| - 1])
    }

    function CancelFrom(idx: nat): Result<LogState> {
      if idx < oldest then Failure(CancelingBeforeFirst)
      else Success(this.(entries := Resize(entries, idx - oldest)))
    }

    static function Resize(entries: seq<Entry>, n: nat): (r: seq<Entry>)
      ensures |r| == n
    {
      if n <= |entries| then entries[..n] else entries + seq(n - |entries|, _ => EMPTY_ENTRY)
    }

    /** Drops oldest entries below `truncateTo` while `need` more bytes do not fit. */
    function MakeRoom(need: nat, truncateTo: nat): (r: LogState)
      decreases |entries|
    {
      if bytes + need > maxBytes && oldest < truncateTo && entries != [] && MemSize(entries[0]) <= bytes then
        DropOldest().MakeRoom(need, truncateTo)
      else this
    }

    function DropOldest(): LogState
      requires entries != [] && MemSize(entries[0]) <= bytes
    {
      LogState(oldest + 1, entries[1..], bytes - MemSize(entries[0]), maxBytes)
    }

    /** The log after an attempt to append, and the error if it failed.  A failed
        attempt may still have dropped old entries. */
    function Append(e: Entry, truncateTo: nat): (LogState, Error) {
      if e.term == 0 then (this, AppendWithoutTerm)
      else if e.hash == Absent then (this, NoHashChainInAppend)
      else
        var roomy := MakeRoom(MemSize(e), truncateTo);
        if roomy.bytes + MemSize(e) > maxBytes then (roomy, LogOutOfSpace)
        else if SerializedSize(e) > INT_MAX then (roomy, LogEntryTooLarge)
        else (roomy.(entries := roomy.entries + [e], bytes := roomy.bytes + MemSize(e)), NoError)
    }
  }

  /** `full` is the sequence of every entry at indexes 1 to the end; the log
      stores its tail from `oldest` on. */
  ghost predicate Stores(log: LogState, full: seq<Entry>) {
    && 1 <= log.oldest <= |full| + 1
    && log.entries == full[log.oldest - 1..]
    && (full == [] ==> log.oldest == 1)
    && (full != [] ==> log.oldest <= |full|)
  }

  lemma StoresLast(log: LogState, full: seq<Entry>)
    requires Stores(log, full)
    ensures log.LastIdx() == |full|
    ensures forall k: nat | log.oldest <= k <= |full| :: log.At(k) == Some(full[k - 1])
    ensures forall k: nat | k < log.oldest || |full| < k :: log.At(k) == None
  {
  }

  /** One index of the log. */
  lemma StoresAt(log: LogState, full: seq<Entry>, k: nat)
    requires Stores(log, full)
    ensures log.LastIdx() == |full|
    ensures log.At(k) == if log.oldest <= k <= |full| then Some(full[k - 1]) else None
  {
  }

  /** Making room keeps the newest entries, never drops one at or above
      `truncateTo`, and stops as soon as the new entry fits. */
  lemma {:induction false} MakeRoomKeepsTail(log: LogState, full: seq<Entry>, need: nat, truncateTo: nat)
    requires Stores(log, full) && log.Bounded() && truncateTo <= |full|
    ensures var r := log.MakeRoom(need, truncateTo);
            && Stores(r, full) && r.Bounded() && r.maxBytes == log.maxBytes
            && log.oldest <= r.oldest <= Max(log.oldest, truncateTo)
            && (r.bytes + need > r.maxBytes ==> r.oldest >= truncateTo)
            && (r.oldest > log.oldest ==> log.bytes + need > log.maxBytes)
    decreases |log.entries|
  {
    if log.bytes + need > log.maxBytes && log.oldest < truncateTo {
      assert log.entries[0] == full[log.oldest - 1];
      MakeRoomKeepsTail(log.DropOldest(), full, need, truncateTo);
    }
  }

  /** The stored entries below `truncateTo`, which may go. */
  function Droppable(log: LogState, truncateTo: nat): seq<Entry> {
    log.entries[..Max(0, Min(truncateTo - log.oldest, |log.entries|))]
  }

  lemma {:induction false} TotalSizeGrows(entries: seq<Entry>, i: nat, j: nat)
    requires i <= j <= |entries|
    ensures TotalSize(entries[..i]) <= TotalSize(entries[..j])
  {
    assert entries[..j] == entries[..i] + entries[i..j];
    TotalSizeAppend(entries[..i], entries[i..j]);
  }

  /** Making room drops the fewest entries that will do, and all that may go where even
      that is not enough. */
  lemma {:induction false} RoomMade(log: LogState, need: nat, truncateTo: nat) returns (d: nat)
    requires TotalSize(log.entries) <= log.bytes
    ensures d <= |Droppable(log, truncateTo)| && TotalSize(log.entries[..d]) <= log.bytes
    ensures log.MakeRoom(need, truncateTo)
            == log.(oldest := log.oldest + d, entries := log.entries[d..], bytes := log.bytes - TotalSize(log.entries[..d]))
    ensures d > 0 ==> log.bytes - TotalSize(log.entries[..d - 1]) + need > log.maxBytes
    ensures log.bytes - TotalSize(log.entries[..d]) + need <= log.maxBytes || d == |Droppable(log, truncateTo)|
    decreases |log.entries|
  {
    var es := log.entries;
    d := 0;
    if log.bytes + need > log.maxBytes && log.oldest < truncateTo && es != [] {
      var d' := RoomMade(log.DropOldest(), need, truncateTo);
      d := d' + 1;
      assert es[1..][..d'] == es[..d][1..] && es[1..][d'..] == es[d..];
      if d' > 0 { assert es[1..][..d' - 1] == es[..d - 1][1..]; }
    }
  }

  /** When an append succeeds, and with which error it fails otherwise: room is counted
      as if everything that may go had gone. */
  lemma AppendExactly(log: LogState, e: Entry, truncateTo: nat)
    requires log.Bounded()
    ensures log.Append(e, truncateTo).1 ==
      if e.term == 0 then AppendWithoutTerm
      else if e.hash == Absent then NoHashChainInAppend
      else if log.bytes + MemSize(e) > log.maxBytes + TotalSize(Droppable(log, truncateTo)) then LogOutOfSpace
      else if SerializedSize(e) > INT_MAX then LogEntryTooLarge
      else NoError
  {
    var d := RoomMade(log, MemSize(e), truncateTo);
    var n := |Droppable(log, truncateTo)|;
    assert Droppable(log, truncateTo) == log.entries[..n];
    TotalSizeGrows(log.entries, d, n);
    hide MemSize, SerializedSize, LogState.MakeRoom, TotalSize;
  }

  /** What is stored and may not go, and what an append adds to it. */
  lemma AppendAdds(log: LogState, full: seq<Entry>, e: Entry, truncateTo: nat)
    requires Stores(log, full) && log.Bounded() && truncateTo <= |full| && log.Append(e, truncateTo).1 == NoError
    ensures var r := log.Append(e, truncateTo).0;
            && r.maxBytes == log.maxBytes
            && r.bytes - TotalSize(Droppable(r, truncateTo)) == log.bytes - TotalSize(Droppable(log, truncateTo)) + MemSize(e)
  {
    AppendCases(log, e, truncateTo);
    var d := RoomMade(log, MemSize(e), truncateTo);
    var drop, n := Droppable(log, truncateTo), |Droppable(log, truncateTo)|;
    var r := log.Append(e, truncateTo).0;
    hide LogState.Append, LogState.MakeRoom, MemSize;
    assert drop == drop[..d] + drop[d..] && drop[..d] == log.entries[..d];
    assert Droppable(r, truncateTo) == drop[d..];
    TotalSizeAppend(drop[..d], drop[d..]);
  }

  /** Append refines appending to the full sequence: on success exactly the new
      entry is added at the next index, on failure nothing is added, and in both
      cases only entries below `truncateTo` can go. */
  lemma AppendRefines(log: LogState, full: seq<Entry>, e: Entry, truncateTo: nat)
    requires Stores(log, full) && log.Bounded() && truncateTo <= |full|
    ensures var (r, err) := log.Append(e, truncateTo);
            && Stores(r, if err == NoError then full + [e] else full)
            && r.Bounded() && r.maxBytes == log.maxBytes
            && log.oldest <= r.oldest <= Max(log.oldest, truncateTo)
    ensures log.Append(e, truncateTo).1 == NoError ==> e.term != 0 && e.hash != Absent
  {
    AppendCases(log, e, truncateTo);
    var (r, err) := log.Append(e, truncateTo);
    var need := MemSize(e);
    hide LogState.Append, MemSize;
    MakeRoomKeepsTail(log, full, need, truncateTo);
    hide LogState.MakeRoom;
    var roomy := log.MakeRoom(need, truncateTo);
    PutAtEnd(roomy, full, e);
    hide Stores, LogState.Bounded;
    if err == NoError {
      assert r.oldest == roomy.oldest;
    } else {
      assert r == log || r == roomy;
    }
  }

  lemma AppendCases(log: LogState, e: Entry, truncateTo: nat)
    ensures var (r, err) := log.Append(e, truncateTo);
            var roomy := log.MakeRoom(MemSize(e), truncateTo);
            && (err == NoError ==> e.term != 0 && e.hash != Absent && roomy.bytes + MemSize(e) <= log.maxBytes
                                   && r == roomy.(entries := roomy.entries + [e], bytes := roomy.bytes + MemSize(e)))
            && (err != NoError ==> r == log || r == roomy)
  {
    hide MemSize, SerializedSize, LogState.MakeRoom;
  }

  lemma PutAtEnd(log: LogState, full: seq<Entry>, e: Entry)
    requires Stores(log, full) && log.Bounded()
    ensures var r := log.(entries := log.entries + [e], bytes := log.bytes + MemSize(e));
            Stores(r, full + [e]) && (r.bytes <= r.maxBytes ==> r.Bounded())
  {
    hide MemSize;
    TotalSizeAppend(log.entries, [e]);
    assert TotalSize([e]) == MemSize(e);
    assert (full + [e])[log.oldest - 1..] == full[log.oldest - 1..] + [e];
  }

  /** Append reports "out of space" only when dropping everything it may drop
      would not have been enough. */
  lemma OutOfSpaceMeansFull(log: LogState, full: seq<Entry>, e: Entry, truncateTo: nat)
    requires Stores(log, full) && log.Bounded() && truncateTo <= |full|
    requires log.Append(e, truncateTo).1 == LogOutOfSpace
    ensures var r := log.Append(e, truncateTo).0;
            r.oldest >= truncateTo && r.bytes + MemSize(e) > log.maxBytes
  {
    MakeRoomKeepsTail(log, full, MemSize(e), truncateTo);
  }

  /** Cancelling cuts the full sequence and leaves the byte count as it was, so
      the count stays an upper bound without staying exact. */
  lemma CancelRefines(log: LogState, full: seq<Entry>, idx: nat)
    requires Stores(log, full) && log.Bounded() && idx <= |full| + 1
    requires idx > log.oldest || (idx == 1 && log.oldest == 1)
    ensures log.CancelFrom(idx).Success?
    ensures var r := log.CancelFrom(idx).value;
            Stores(r, full[..idx - 1]) && r.Bounded() && r.oldest == log.oldest
  {
    var n := idx - log.oldest;
    assert log.entries == log.entries[..n] + log.entries[n..];
    TotalSizeAppend(log.entries[..n], log.entries[n..]);
    assert full[..idx - 1][log.oldest - 1..] == full[log.oldest - 1..][..n];
  }

  class Log {
    var entries: seq<Entry>
    var oldestStoredIdx: nat
    var currBytes: nat
    const maxBytes: nat

    ghost predicate Valid()
      reads this
    {
      State().Bounded()
    }

    function State(): LogState
      reads this
    {
      LogState(oldestStoredIdx, entries, currBytes, maxBytes)
    }

    constructor (maxBytes: nat)
      ensures Valid() && State() == LogState(1, [], 0, maxBytes)
    {
      this.entries, this.oldestStoredIdx, this.currBytes, this.maxBytes := [], 1, 0, maxBytes;
    }

    /** Drops the oldest entry unless it must be kept.  The caller never asks to
        truncate beyond the stored entries, so there is one to drop. */
    method RemoveOldestLogOlderThan(truncateTo: nat) returns (removed: bool)
      requires Valid() && truncateTo <= oldestStoredIdx + |entries|
      modifies this
      ensures Valid()
      ensures removed == (old(oldestStoredIdx) < truncateTo)
      ensures removed ==> old(entries != [] && MemSize(entries[0]) <= currBytes)
      ensures State() == if removed then old(State().DropOldest()) else old(State())
    {
      if oldestStoredIdx >= truncateTo { return false; }
      var mem := MemSize(entries[0]);
      entries := entries[1..];
      oldestStoredIdx := oldestStoredIdx + 1;
      currBytes := currBytes - mem;
      return true;
    }

    method Append(e: Entry, maybeTruncateTo: nat) returns (err: Error)
      requires Valid() && maybeTruncateTo <= oldestStoredIdx + |entries|
      modifies this
      ensures Valid()
      ensures (State(), err) == old(State()).Append(e, maybeTruncateTo)
    {
      if e.term == 0 { return AppendWithoutTerm; }
      if e.hash == Absent { return NoHashChainInAppend; }
      var mem := MemSize(e);
      while currBytes + mem > maxBytes
        invariant Valid() && maybeTruncateTo <= oldestStoredIdx + |entries|
        invariant State().MakeRoom(mem, maybeTruncateTo) == old(State()).MakeRoom(mem, maybeTruncateTo)
        decreases |entries|
      {
        var removed := RemoveOldestLogOlderThan(maybeTruncateTo);
        if !removed { return LogOutOfSpace; }
      }
      if SerializedSize(e) > INT_MAX { return LogEntryTooLarge; }
      TotalSizeAppend(entries, [e]);
      entries := entries + [e];
      currBytes := currBytes + mem;
      return NoError;
    }

    /** Beyond the end this pads the log with empty entries that are not counted, so the
        byte count need not bound it any more. */
    method CancelFrom(fromIdx: nat) returns (err: Error)
      requires Valid()
      modifies this
      ensures fromIdx <= old(oldestStoredIdx + |entries|) ==> Valid()
      ensures match old(State()).CancelFrom(fromIdx)
              case Failure(e) => err == e && State() == old(State())
              case Success(s) => err == NoError && State() == s
    {
      if fromIdx < oldestStoredIdx { return CancelingBeforeFirst; }
      var n := fromIdx - oldestStoredIdx;
      if n <= |entries| {
        TotalSizeAppend(entries[..n], entries[n..]);
        assert entries == entries[..n] + entries[n..];
      }
      entries := LogState.Resize(entries, n);
      return NoError;
    }

    method MostRecentHash() returns (h: Hash)
      ensures h == State().MostRecentHash()
    {
      var k := |entries|;
      assert entries[..k] == entries;
      while k > 0
        invariant 0 <= k <= |entries|
        invariant LogState.LastHash(entries[..k]) == LogState.LastHash(entries)
      {
        assert entries[..k][..k - 1] == entries[..k - 1];
        if entries[k - 1].hash != Absent { return entries[k - 1].hash; }
        k := k - 1;
      }
      return Zeros;
    }

    method SetNextIdx(idx: nat) returns (err: Error)
      modifies this
      ensures State() == if old(entries) == [] then old(State()).(oldest := idx) else old(State())
      ensures err == if old(entries) == [] then NoError else SetNextOnNonemptyLog
    {
      if entries != [] { return SetNextOnNonemptyLog; }
      oldestStoredIdx := idx;
      return NoError;
    }
  }
}
