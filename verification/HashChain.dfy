/** The hash chain over log entries: each entry's hash covers its index, its
    term, its payload and the hash before it. */
module HashChain {
  import opened RaftTypes

  /** Big-endian bytes of the low `width` bytes of `n`. */
  function BigEndian(n: nat, width: nat): (b: seq<nat>)
    ensures |b| == width
  {
    if width == 0 then [] else BigEndian(n / 256, width - 1) + [n % 256]
  }

  function Pow256(width: nat): (p: nat)
    ensures p >= 1
  {
    if width == 0 then 1 else 256 * Pow256(width - 1)
  }

  lemma {:induction false} BigEndianInjective(m: nat, n: nat, width: nat)
    requires m < Pow256(width) && n < Pow256(width)
    requires BigEndian(m, width) == BigEndian(n, width)
    ensures m == n
  {
    if width > 0 {
      var a, b := BigEndian(m / 256, width - 1), BigEndian(n / 256, width - 1);
      assert (a + [m % 256])[width - 1] == (b + [n % 256])[width - 1];
      assert a == (a + [m % 256])[..width - 1] == (b + [n % 256])[..width - 1] == b;
      BigEndianInjective(m / 256, n / 256, width - 1);
    }
  }

  lemma FourBytes(m: nat, n: nat)
    requires m < 256 && n < 256 && BigEndian(m, 4) == BigEndian(n, 4)
    ensures m == n
  {
    assert Pow256(4) >= 256 by { assert Pow256(4) == 256 * Pow256(3); }
    BigEndianInjective(m, n, 4);
  }

  lemma Pow256Eight()
    ensures Pow256(8) == U64
  {
    assert Pow256(2) == 0x1_0000;
    assert Pow256(4) == 0x1_0000_0000;
    assert Pow256(6) == 0x1_0000_0000_0000;
  }

  /** Stand-in for the deterministic protobuf serialisation of a group: like
      protobuf it is injective, and like protobuf its output may coincide with
      the bytes of some other kind of payload. */
  function SerializeGroup(g: seq<ReplicaProto>): (b: seq<nat>)
    ensures |b| == 2 * |g|
  {
    if g == [] then []
    else
      [match g[0].peerId case None => 0 case Some(p) => p + 1, if g[0].voting then 1 else 0]
      + SerializeGroup(g[1..])
  }

  lemma {:induction false} SerializeGroupInjective(g: seq<ReplicaProto>, g': seq<ReplicaProto>)
    requires SerializeGroup(g) == SerializeGroup(g')
    ensures g == g'
  {
    assert |g| == |g'|;
    if g != [] {
      var s, s' := SerializeGroup(g), SerializeGroup(g');
      assert s[0] == s'[0] && s[1] == s'[1];
      assert s[2..] == SerializeGroup(g[1..]) && s'[2..] == SerializeGroup(g'[1..]);
      SerializeGroupInjective(g[1..], g'[1..]);
      assert g == [g[0]] + g[1..] && g' == [g'[0]] + g'[1..];
    }
  }

  function Body(p: Payload): seq<nat> {
    match p
    case Noop => []
    case Data(b) => b
    case MembershipChange(g) => SerializeGroup(g)
    case Minimums(l) => l
  }

  function Tag(p: Payload): nat {
    match p
    case Noop => 3
    case Data(_) => 1
    case MembershipChange(_) => 2
    case Minimums(_) => 4
  }

  /** The bytes under the HMAC: a tag, the index, the term, the payload. */
  function HashInput(idx: nat, term: nat, p: Payload): seq<nat> {
    [Tag(p)] + BigEndian(idx, 8) + BigEndian(term, 8) + Body(p)
  }

  function Next(prev: Hash, idx: nat, term: nat, p: Payload): Hash {
    Mac(prev, HashInput(idx, term, p))
  }

  /** The tag and the fixed-width header make the input determine index, term
      and payload, although payload bytes alone do not determine the payload. */
  lemma HashInputInjective(idx: nat, term: nat, p: Payload, idx': nat, term': nat, p': Payload)
    requires idx < U64 && term < U64 && idx' < U64 && term' < U64
    requires HashInput(idx, term, p) == HashInput(idx', term', p')
    ensures idx == idx' && term == term' && p == p'
  {
    var a, a' := HashInput(idx, term, p), HashInput(idx', term', p');
    assert a[0] == Tag(p) && a'[0] == Tag(p');
    assert a[1..9] == BigEndian(idx, 8) && a'[1..9] == BigEndian(idx', 8);
    assert a[9..17] == BigEndian(term, 8) && a'[9..17] == BigEndian(term', 8);
    assert a[17..] == Body(p) && a'[17..] == Body(p');
    Pow256Eight();
    BigEndianInjective(idx, idx', 8);
    BigEndianInjective(term, term', 8);
    if p.MembershipChange? {
      SerializeGroupInjective(p.replicas, p'.replicas);
    }
  }

  /** `log` holds the entries at indexes 1, 2, ...; every hash is the one its
      predecessor calls for. */
  predicate Chained(log: seq<Entry>) {
    forall k | 0 <= k < |log| :: ChainedAt(log, k)
  }

  predicate ChainedAt(log: seq<Entry>, k: nat)
    requires k < |log|
  {
    log[k].hash == Next(PrevHash(log, k), k + 1, log[k].term, log[k].payload)
  }

  function PrevHash(log: seq<Entry>, k: nat): Hash
    requires k <= |log|
  {
    if k == 0 then Zeros else log[k - 1].hash
  }

  predicate WordSized(log: seq<Entry>) {
    |log| < U64 && forall k | 0 <= k < |log| :: log[k].term < U64
  }

  /** One hash fixes the whole history below it, and even its position: two
      chained logs that carry the same hash anywhere carry it at the same index
      and are equal up to that index. */
  lemma {:induction false} SameHashSameHistory(a: seq<Entry>, b: seq<Entry>, i: nat, j: nat)
    requires Chained(a) && Chained(b) && WordSized(a) && WordSized(b)
    requires i < |a| && j < |b| && a[i].hash == b[j].hash
    ensures i == j && a[..i + 1] == b[..j + 1]
  {
    assert ChainedAt(a, i) && ChainedAt(b, j);
    HashInputInjective(i + 1, a[i].term, a[i].payload, j + 1, b[j].term, b[j].payload);
    if i > 0 {
      SameHashSameHistory(a, b, i - 1, j - 1);
      assert a[..i + 1] == a[..i] + [a[i]];
      assert b[..j + 1] == b[..j] + [b[j]];
    }
  }
}
