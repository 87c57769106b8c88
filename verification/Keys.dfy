/** Byte strings in the order of std::string and of std::map over byte arrays,
    and walking a map in that order. */
module Keys {
  type Bytes = seq<nat>

  /** Lexicographic; a proper prefix comes first. */
  predicate Less(a: Bytes, b: Bytes)
    decreases |a|
  {
    b != [] && (a == [] || a[0] < b[0] || (a[0] == b[0] && Less(a[1..], b[1..])))
  }

  predicate AtMost(a: Bytes, b: Bytes) { a == b || Less(a, b) }

  lemma {:induction false} LessIrreflexive(a: Bytes)
    ensures !Less(a, a)
  {
    if a != [] { LessIrreflexive(a[1..]); }
  }

  lemma {:induction false} LessTransitive(a: Bytes, b: Bytes, c: Bytes)
    requires Less(a, b) && Less(b, c)
    ensures Less(a, c)
    decreases |a|
  {
    if a != [] && a[0] == b[0] && b[0] == c[0] {
      LessTransitive(a[1..], b[1..], c[1..]);
    }
  }

  lemma {:induction false} LessTotal(a: Bytes, b: Bytes)
    ensures Less(a, b) || a == b || Less(b, a)
    decreases |a|
  {
    if a != [] && b != [] && a[0] == b[0] {
      LessTotal(a[1..], b[1..]);
      assert a == [a[0]] + a[1..] && b == [b[0]] + b[1..];
    }
  }

  lemma LessAsymmetric(a: Bytes, b: Bytes)
    requires Less(a, b)
    ensures !Less(b, a) && a != b
  {
    LessIrreflexive(a);
    if Less(b, a) { LessTransitive(a, b, a); }
  }

  /** Every key is the empty string, or after it. */
  lemma EmptyFirst(a: Bytes)
    ensures a != [] ==> Less([], a)
    ensures !Less(a, [])
  {
  }

  ghost predicate IsFirst(s: set<Bytes>, k: Bytes) {
    k in s && forall x | x in s :: AtMost(k, x)
  }

  lemma {:induction false} FirstExists(s: set<Bytes>)
    requires s != {}
    ensures exists k :: IsFirst(s, k)
  {
    var k :| k in s;
    if s == {k} {
      assert IsFirst(s, k);
    } else {
      FirstExists(s - {k});
      var j :| IsFirst(s - {k}, j);
      LessTotal(k, j);
      if Less(k, j) {
        forall x | x in s ensures AtMost(k, x) {
          if x != k && x != j {
            assert x in s - {k};
            LessTransitive(k, j, x);
          }
        }
        assert IsFirst(s, k);
      } else {
        assert forall x | x in s :: x == k || x in s - {k};
        assert IsFirst(s, j);
      }
    }
  }

  lemma FirstUnique(s: set<Bytes>, j: Bytes, k: Bytes)
    requires IsFirst(s, j) && IsFirst(s, k)
    ensures j == k
  {
    if j != k { LessAsymmetric(j, k); }
  }

  /** The first key in iteration order. */
  function First(s: set<Bytes>): (k: Bytes)
    requires s != {}
    ensures IsFirst(s, k)
  {
    assert exists k :: k in s && forall x | x in s :: AtMost(k, x) by {
      FirstExists(s);
      var k :| IsFirst(s, k);
    }
    assert forall j, k | j in s && k in s && (forall x | x in s :: AtMost(j, x)) && (forall x | x in s :: AtMost(k, x)) :: j == k by {
      forall j, k | j in s && k in s && (forall x | x in s :: AtMost(j, x)) && (forall x | x in s :: AtMost(k, x)) ensures j == k {
        FirstUnique(s, j, k);
      }
    }
    var k :| k in s && forall x | x in s :: AtMost(k, x);
    k
  }

  /** Keys strictly after `start`. */
  function After(s: set<Bytes>, start: Bytes): set<Bytes> {
    set k | k in s && Less(start, k)
  }

  /** Up to `n` entries of `m` after `start`, in order. */
  function Rows<V>(m: map<Bytes, V>, start: Bytes, n: nat): (r: seq<(Bytes, V)>)
    ensures |r| <= n
    decreases n
  {
    var rest := After(m.Keys, start);
    if n == 0 || rest == {} then []
    else [(First(rest), m[First(rest)])] + Rows(m, First(rest), n - 1)
  }

  /** Where a walk that started after `start` has got to. */
  function Reach<V>(rows: seq<(Bytes, V)>, start: Bytes): Bytes {
    if rows == [] then start else rows[|rows| - 1].0
  }

  predicate Increasing<V>(rows: seq<(Bytes, V)>) {
    forall i, j | 0 <= i < j < |rows| :: Less(rows[i].0, rows[j].0)
  }

  function AsMap<V>(rows: seq<(Bytes, V)>): map<Bytes, V> {
    if rows == [] then map[]
    else AsMap(rows[..|rows| - 1])[rows[|rows| - 1].0 := rows[|rows| - 1].1]
  }

  /** The entries of `m` with keys in (low, high]. */
  function Window<V>(m: map<Bytes, V>, low: Bytes, high: Bytes): map<Bytes, V> {
    map k | k in m && Less(low, k) && AtMost(k, high) :: m[k]
  }

  /** A walk visits exactly the keys between its start and where it got to, in
      order; when it returns fewer than asked, nothing lies beyond. */
  lemma {:induction false} RowsAreWindow<V>(m: map<Bytes, V>, start: Bytes, n: nat)
    ensures var r := Rows(m, start, n);
            && Increasing(r) && (forall i | 0 <= i < |r| :: Less(start, r[i].0))
            && (r != [] ==> Less(start, Reach(r, start)))
            && AsMap(r) == Window(m, start, Reach(r, start))
            && (|r| < n ==> After(m.Keys, Reach(r, start)) == {})
    decreases n
  {
    var rest := After(m.Keys, start);
    if n == 0 || rest == {} {
      forall k | k in m ensures !(Less(start, k) && AtMost(k, start)) {
        LessIrreflexive(start);
        if Less(start, k) && Less(k, start) { LessAsymmetric(start, k); }
      }
    } else {
      var k := First(rest);
      var tail := Rows(m, k, n - 1);
      RowsAreWindow(m, k, n - 1);
      ConsWindow(m, start, k, tail);
    }
  }

  /** It returns as many as asked, or all there are. */
  lemma {:induction false} RowsCounted<V>(m: map<Bytes, V>, start: Bytes, n: nat)
    ensures var all := |After(m.Keys, start)|; |Rows(m, start, n)| == if n < all then n else all
    decreases n
  {
    var rest := After(m.Keys, start);
    if n > 0 && rest != {} {
      var k := First(rest);
      RowsCounted(m, k, n - 1);
      AfterFirst(m.Keys, start, k);
    }
  }

  lemma AfterFirst(s: set<Bytes>, start: Bytes, k: Bytes)
    requires IsFirst(After(s, start), k)
    ensures After(s, k) == After(s, start) - {k} && |After(s, k)| == |After(s, start)| - 1
  {
    LessIrreflexive(k);
    forall x | x in After(s, k) ensures x in After(s, start) {
      LessTransitive(start, k, x);
    }
  }

  lemma ConsWindow<V>(m: map<Bytes, V>, start: Bytes, k: Bytes, tail: seq<(Bytes, V)>)
    requires IsFirst(After(m.Keys, start), k)
    requires Increasing(tail) && (forall i | 0 <= i < |tail| :: Less(k, tail[i].0))
    requires AsMap(tail) == Window(m, k, Reach(tail, k)) && (tail != [] ==> Less(k, Reach(tail, k)))
    ensures var r := [(k, m[k])] + tail;
            && Increasing(r) && (forall i | 0 <= i < |r| :: Less(start, r[i].0))
            && Less(start, Reach(r, start)) && Reach(r, start) == Reach(tail, k)
            && AsMap(r) == Window(m, start, Reach(r, start))
  {
    var r := [(k, m[k])] + tail;
    forall i | 0 <= i < |r| ensures Less(start, r[i].0) {
      if i > 0 { LessTransitive(start, k, r[i].0); }
    }
    assert Increasing(r) by {
      forall i, j | 0 <= i < j < |r| ensures Less(r[i].0, r[j].0) {
        if i > 0 { assert Less(tail[i - 1].0, tail[j - 1].0); }
      }
    }
    forall i | 0 <= i < |tail| ensures tail[i].0 != k { LessIrreflexive(k); }
    AsMapCons((k, m[k]), tail);
    WindowSplit(m, start, k, Reach(tail, k));
  }

  lemma {:induction false} AsMapCons<V>(x: (Bytes, V), tail: seq<(Bytes, V)>)
    requires forall i | 0 <= i < |tail| :: tail[i].0 != x.0
    ensures AsMap([x] + tail) == AsMap(tail)[x.0 := x.1]
  {
    if tail != [] {
      var n := |tail| - 1;
      assert ([x] + tail)[..|tail|] == [x] + tail[..n];
      AsMapCons(x, tail[..n]);
    } else {
      assert ([x] + tail)[..0] == [];
    }
  }

  lemma WindowSplit<V>(m: map<Bytes, V>, start: Bytes, k: Bytes, high: Bytes)
    requires IsFirst(After(m.Keys, start), k) && AtMost(k, high)
    ensures Window(m, start, high) == Window(m, k, high)[k := m[k]]
  {
    var a, b := Window(m, start, high), Window(m, k, high)[k := m[k]];
    forall x | x in a ensures x in b {
      assert x in After(m.Keys, start);
    }
    forall x | x in b ensures x in a {
      if x != k { LessTransitive(start, k, x); }
    }
    assert a.Keys == b.Keys;
  }
}
