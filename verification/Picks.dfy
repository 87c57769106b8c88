/** The leader's rule for promising and committing: list one index a voter, sort
    the list downwards, take the element at the quorum. */
module Picks {
  import opened RaftTypes
  import opened Quorum

  predicate Descending(s: seq<nat>) {
    forall i, j | 0 <= i < j < |s| :: s[i] >= s[j]
  }

  function CountGe(s: seq<nat>, k: nat): (n: nat)
    ensures n <= |s|
  {
    if s == [] then 0 else CountGe(s[..|s| - 1], k) + if s[|s| - 1] >= k then 1 else 0
  }

  lemma {:induction false} CountGeAppend(a: seq<nat>, b: seq<nat>, k: nat)
    ensures CountGe(a + b, k) == CountGe(a, k) + CountGe(b, k)
  {
    if b == [] {
      assert a + b == a;
    } else {
      assert (a + b)[..|a + b| - 1] == a + b[..|b| - 1];
      CountGeAppend(a, b[..|b| - 1], k);
    }
  }

  lemma CountGeSnoc(s: seq<nat>, x: nat, k: nat)
    ensures CountGe(s + [x], k) == CountGe(s, k) + if x >= k then 1 else 0
  {
    assert (s + [x])[..|s|] == s;
  }

  lemma CountGeInsert(a: seq<nat>, x: nat, b: seq<nat>, k: nat)
    ensures CountGe(a + [x] + b, k) == CountGe(a + b, k) + if x >= k then 1 else 0
  {
    CountGeAppend(a + [x], b, k);
    CountGeSnoc(a, x, k);
    CountGeAppend(a, b, k);
  }

  method InsertDescending(t: seq<nat>, x: nat) returns (u: seq<nat>)
    requires Descending(t)
    ensures Descending(u) && |u| == |t| + 1 && multiset(u) == multiset(t + [x])
    ensures forall k :: CountGe(u, k) == CountGe(t + [x], k)
  {
    var j := |t|;
    while j > 0 && t[j - 1] < x
      invariant 0 <= j <= |t|
      invariant forall m | j <= m < |t| :: t[m] < x
    {
      j := j - 1;
    }
    u := t[..j] + [x] + t[j..];
    InsertedDescends(t, j, x);
    InsertedSame(t, j, x);
  }

  lemma InsertedDescends(t: seq<nat>, j: nat, x: nat)
    requires Descending(t) && j <= |t|
    requires j > 0 ==> t[j - 1] >= x
    requires forall m | j <= m < |t| :: t[m] < x
    ensures Descending(t[..j] + [x] + t[j..])
  {
    var u := t[..j] + [x] + t[j..];
    forall a, b | 0 <= a < b < |u| ensures u[a] >= u[b] {
      if a < j { assert u[a] == t[a] >= t[j - 1] >= x; }
    }
  }

  lemma InsertedSame(t: seq<nat>, j: nat, x: nat)
    requires j <= |t|
    ensures multiset(t[..j] + [x] + t[j..]) == multiset(t + [x])
    ensures forall k :: CountGe(t[..j] + [x] + t[j..], k) == CountGe(t + [x], k)
  {
    assert t == t[..j] + t[j..];
    forall k: nat ensures CountGe(t[..j] + [x] + t[j..], k) == CountGe(t + [x], k) {
      CountGeInsert(t[..j], x, t[j..], k);
      CountGeSnoc(t, x, k);
    }
  }

  /** Sorts downwards. */
  method SortDescending(s: seq<nat>) returns (t: seq<nat>)
    ensures Descending(t) && |t| == |s| && multiset(t) == multiset(s)
    ensures forall k :: CountGe(t, k) == CountGe(s, k)
  {
    t := [];
    for i := 0 to |s|
      invariant Descending(t) && |t| == i && multiset(t) == multiset(s[..i])
      invariant forall k :: CountGe(t, k) == CountGe(s[..i], k)
    {
      assert s[..i + 1] == s[..i] + [s[i]];
      forall k: nat ensures CountGe(t + [s[i]], k) == CountGe(s[..i + 1], k) {
        CountGeSnoc(t, s[i], k);
        CountGeSnoc(s[..i], s[i], k);
      }
      t := InsertDescending(t, s[i]);
    }
    assert s[..|s|] == s;
  }

  /** In a descending list exactly the elements before the first smaller one reach `k`. */
  lemma {:induction false} DescendingCount(t: seq<nat>, k: nat, q: nat)
    requires Descending(t) && q <= |t|
    requires forall m | 0 <= m < q :: t[m] >= k
    requires q < |t| ==> t[q] < k
    ensures CountGe(t, k) == q
  {
    if t != [] {
      var n := |t| - 1;
      DescendingCount(t[..n], k, Min(q, n));
    }
  }

  lemma {:induction false} FirstBelow(t: seq<nat>, k: nat) returns (q: nat)
    requires Descending(t)
    ensures q <= |t| && (forall m | 0 <= m < q :: t[m] >= k) && (q < |t| ==> t[q] < k)
  {
    q := 0;
    while q < |t| && t[q] >= k
      invariant q <= |t| && forall m | 0 <= m < q :: t[m] >= k
    {
      q := q + 1;
    }
  }

  /** The element at position `q - 1` is the greatest index that `q` elements reach. */
  lemma ElementAtQuorum(t: seq<nat>, q: nat)
    requires Descending(t) && 1 <= q <= |t|
    ensures CountGe(t, t[q - 1]) >= q && CountGe(t, t[q - 1] + 1) < q
  {
    var m := FirstBelow(t, t[q - 1]);
    DescendingCount(t, t[q - 1], m);
    var n := FirstBelow(t, t[q - 1] + 1);
    DescendingCount(t, t[q - 1] + 1, n);
  }

  /** `s` lists the indexes of `at`: as many reach any `k` in one as in the other. */
  ghost predicate Lists(s: seq<nat>, at: map<PeerId, nat>) {
    |s| == |at| && forall k :: CountGe(s, k) == |Reached(at, k)|
  }

  lemma ListsEmpty()
    ensures Lists([], map[])
  {
    forall k: nat ensures |Reached(map[], k)| == 0 {
      assert Reached(map[], k) == {};
    }
  }

  lemma ListsSnoc(s: seq<nat>, at: map<PeerId, nat>, p: PeerId, x: nat)
    requires Lists(s, at) && p !in at
    ensures Lists(s + [x], at[p := x])
  {
    assert at[p := x].Keys == at.Keys + {p};
    assert |at[p := x]| == |at[p := x].Keys| && |at| == |at.Keys|;
    forall k: nat ensures CountGe(s + [x], k) == |Reached(at[p := x], k)| {
      CountGeSnoc(s, x, k);
      assert Reached(at[p := x], k) == if x >= k then Reached(at, k) + {p} else Reached(at, k);
    }
  }

  /** Sorting and picking computes the index a quorum has reached. */
  method QuorumIndex(s: seq<nat>, q: nat, ghost at: map<PeerId, nat>) returns (k: nat)
    requires Lists(s, at) && 1 <= q <= |s|
    ensures k == Pick(at, q)
  {
    var t := SortDescending(s);
    ElementAtQuorum(t, q);
    k := t[q - 1];
    assert IsPick(at, q, k);
    PickUnique(at, q, k, Pick(at, q));
  }
}
