/** Quorum sizes with a super-majority, the overlap they give, and the index a
    quorum has reached. */
module Quorum {
  import opened RaftTypes

  /** Computed on unsigned 64-bit words: with fewer voters than the
      super-majority the subtraction wraps, and the minimum then asks for every
      voter. */
  function QuorumSize(voters: nat, superMajority: nat): nat {
    Min(voters, ((voters - superMajority) % U64 / 2 + 1 + superMajority) % U64)
  }

  /** `super_majority` is a 32-bit field of the group configuration. */
  const U32: nat := 0x1_0000_0000

  lemma QuorumSizeValue(n: nat, sm: nat)
    requires n < U32 && sm < U32
    ensures QuorumSize(n, sm) == if n <= sm then n else Min(n, (n + sm + 2) / 2)
    ensures QuorumSize(n, sm) <= n
    ensures n > 0 ==> QuorumSize(n, sm) >= 1
    ensures 2 * QuorumSize(n, sm) >= Min(2 * n, n + sm + 1)
  {
    if n < sm {
      assert (n - sm) % U64 == n - sm + U64;
    } else {
      assert (n - sm) % U64 == n - sm;
      assert ((n - sm) / 2 + 1 + sm) % U64 == (n - sm) / 2 + 1 + sm;
    }
  }

  lemma {:induction false} SubsetSize<T>(a: set<T>, b: set<T>)
    requires a <= b
    ensures |a| <= |b|
  {
    assert b == a + (b - a);
  }

  lemma UnionSize<T>(a: set<T>, b: set<T>)
    ensures |a + b| + |a * b| == |a| + |b|
  {
    assert a + b == a + (b - a);
    assert b == (b - a) + (a * b);
  }

  /** Any two quorums of one voter set share more than `superMajority` voters,
      or everyone when there are no more voters than that. */
  lemma QuorumOverlap(voters: set<PeerId>, sm: nat, q: set<PeerId>, q': set<PeerId>)
    requires |voters| < U32 && sm < U32
    requires q <= voters && |q| >= QuorumSize(|voters|, sm)
    requires q' <= voters && |q'| >= QuorumSize(|voters|, sm)
    ensures |q * q'| >= Min(sm + 1, |voters|)
  {
    QuorumSizeValue(|voters|, sm);
    UnionSize(q, q');
    SubsetSize(q + q', voters);
  }

  lemma QuorumsMeet(voters: set<PeerId>, sm: nat, q: set<PeerId>, q': set<PeerId>) returns (p: PeerId)
    requires 0 < |voters| < U32 && sm < U32
    requires q <= voters && |q| >= QuorumSize(|voters|, sm)
    requires q' <= voters && |q'| >= QuorumSize(|voters|, sm)
    ensures p in q && p in q'
  {
    QuorumOverlap(voters, sm, q, q');
    assert q * q' != {};
    p :| p in q * q';
  }

  /** Across a membership step that adds or removes one voter, quorums of the two
      voter sets still overlap in `superMajority + 1` voters, or in all of the
      smaller set. */
  lemma StepOverlap(from: set<PeerId>, to: set<PeerId>, sm: nat, q: set<PeerId>, q': set<PeerId>)
    requires |from| < U32 && |to| < U32 && sm < U32
    requires |from - to| + |to - from| <= 1
    requires q <= from && |q| >= QuorumSize(|from|, sm)
    requires q' <= to && |q'| >= QuorumSize(|to|, sm)
    ensures |q * q'| >= Min(sm + 1, Min(|from|, |to|))
  {
    hide QuorumSize;
    StepUnion(from, to);
    StepSizes(|from|, |to|, sm);
    UnionSize(q, q');
    SubsetSize(q + q', from + to);
  }

  /** One voter apart, the two sets together are as many as the larger. */
  lemma StepUnion(from: set<PeerId>, to: set<PeerId>)
    requires |from - to| + |to - from| <= 1
    ensures |from + to| == Max(|from|, |to|) && |from| <= |to| + 1 && |to| <= |from| + 1
  {
    UnionSize(from, to);
    assert from == (from - to) + (from * to);
    assert to == (to - from) + (from * to);
  }

  lemma StepSizes(f: nat, t: nat, sm: nat)
    requires f < U32 && t < U32 && sm < U32 && f <= t + 1 && t <= f + 1
    ensures QuorumSize(f, sm) + QuorumSize(t, sm) >= Max(f, t) + Min(sm + 1, Min(f, t))
  {
    QuorumSizeValue(f, sm);
    QuorumSizeValue(t, sm);
    hide QuorumSize;
  }

  /** The voters whose index has reached `k`. */
  function Reached(at: map<PeerId, nat>, k: nat): set<PeerId> {
    set p | p in at && at[p] >= k
  }

  /** `k` is the greatest index that at least `q` voters have reached. */
  predicate IsPick(at: map<PeerId, nat>, q: nat, k: nat) {
    |Reached(at, k)| >= q && |Reached(at, k + 1)| < q
  }

  lemma ReachedShrinks(at: map<PeerId, nat>, k: nat, k': nat)
    requires k <= k'
    ensures |Reached(at, k')| <= |Reached(at, k)|
  {
    SubsetSize(Reached(at, k'), Reached(at, k));
  }

  lemma PickUnique(at: map<PeerId, nat>, q: nat, k: nat, k': nat)
    requires IsPick(at, q, k) && IsPick(at, q, k')
    ensures k == k'
  {
    if k < k' {
      ReachedShrinks(at, k + 1, k');
    } else if k' < k {
      ReachedShrinks(at, k' + 1, k);
    }
  }

  lemma PickExists(at: map<PeerId, nat>, q: nat, bound: nat) returns (k: nat)
    requires 1 <= q <= |at|
    requires forall p | p in at :: at[p] <= bound
    ensures IsPick(at, q, k)
  {
    assert Reached(at, 0) == at.Keys;
    assert Reached(at, bound + 1) == {};
    k := 0;
    while |Reached(at, k + 1)| >= q
      invariant |Reached(at, k)| >= q && k <= bound
      decreases bound - k
    {
      k := k + 1;
      if k == bound + 1 { assert false; }
    }
  }

  lemma {:induction false} BoundExists(at: map<PeerId, nat>, keys: set<PeerId>) returns (bound: nat)
    requires keys <= at.Keys
    ensures forall p | p in keys :: at[p] <= bound
  {
    if keys == {} {
      bound := 0;
    } else {
      var p :| p in keys;
      var rest := BoundExists(at, keys - {p});
      bound := Max(rest, at[p]);
    }
  }

  /** The index that a quorum of `q` has reached; 0 when there are not `q` voters
      to look at. */
  ghost function Pick(at: map<PeerId, nat>, q: nat): (k: nat)
    ensures 1 <= q <= |at| ==> IsPick(at, q, k)
  {
    if exists k: nat :: IsPick(at, q, k) then
      var k: nat :| IsPick(at, q, k); k
    else
      assert 1 <= q <= |at| ==> false by {
        if 1 <= q <= |at| {
          var bound := BoundExists(at, at.Keys);
          var k := PickExists(at, q, bound);
        }
      }
      0
  }

  /** The pick is one of the indexes looked at. */
  lemma PickIsSome(at: map<PeerId, nat>, q: nat) returns (p: PeerId)
    requires 1 <= q <= |at|
    ensures p in at && at[p] == Pick(at, q)
  {
    var k := Pick(at, q);
    assert Reached(at, k) != Reached(at, k + 1);
    p :| p in Reached(at, k) && p !in Reached(at, k + 1);
  }

  /** Pointwise smaller indexes give a smaller pick. */
  lemma PickMonotone(at: map<PeerId, nat>, at': map<PeerId, nat>, q: nat)
    requires at.Keys == at'.Keys && 1 <= q <= |at|
    requires forall p | p in at :: at[p] <= at'[p]
    ensures Pick(at, q) <= Pick(at', q)
  {
    var k, k' := Pick(at, q), Pick(at', q);
    assert |at'| == |at'.Keys| == |at.Keys| == |at|;
    if k' < k {
      ReachedShrinks(at, k' + 1, k);
      SubsetSize(Reached(at, k' + 1), Reached(at', k' + 1));
    }
  }
}
