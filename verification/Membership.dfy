/** Replica groups: who belongs to the group, who votes, and which single steps
    from one group to the next a leader may take. */
module GroupMembership {
  import opened RaftTypes
  import opened Quorum

  datatype Membership = Membership(all: set<PeerId>, voting: set<PeerId>)

  /** What the lines of a group message describe, reading from the left and
      stopping at the first bad line. */
  function FromGroup(g: seq<ReplicaProto>): (r: Result<Membership>)
    ensures r.Success? ==> r.value.voting <= r.value.all
    ensures r.Failure? ==> r.error != NoError
  {
    if g == [] then Success(Membership({}, {}))
    else
      match FromGroup(g[..|g| - 1])
      case Failure(e) => Failure(e)
      case Success(m) => AddReplica(m, g[|g| - 1])
  }

  function AddReplica(m: Membership, line: ReplicaProto): (r: Result<Membership>) {
    match line.peerId
    case None => Failure(InvalidPeerId)
    case Some(p) =>
      if p in m.all then Failure(DuplicateReplicaInReplicaGroup)
      else Success(Membership(m.all + {p}, if line.voting then m.voting + {p} else m.voting))
  }

  lemma {:induction false} GroupSize(g: seq<ReplicaProto>)
    requires FromGroup(g).Success?
    ensures |FromGroup(g).value.all| == |g|
  {
    if g != [] { GroupSize(g[..|g| - 1]); }
  }

  predicate DistinctIds(g: seq<ReplicaProto>) {
    && (forall k | 0 <= k < |g| :: g[k].peerId.Some?)
    && (forall j, k | 0 <= j < k < |g| :: g[j].peerId != g[k].peerId)
  }

  function Listed(g: seq<ReplicaProto>): set<PeerId> {
    set k | 0 <= k < |g| && g[k].peerId.Some? :: g[k].peerId.value
  }

  function ListedVoting(g: seq<ReplicaProto>): set<PeerId> {
    set k | 0 <= k < |g| && g[k].peerId.Some? && g[k].voting :: g[k].peerId.value
  }

  /** A group message is accepted exactly when its IDs are well formed and
      distinct, and then it means the set of its lines. */
  lemma {:induction false} FromGroupMeans(g: seq<ReplicaProto>)
    ensures FromGroup(g).Success? <==> DistinctIds(g)
    ensures FromGroup(g).Success? ==> FromGroup(g).value == Membership(Listed(g), ListedVoting(g))
  {
    if g != [] {
      var n := |g| - 1;
      FromGroupMeans(g[..n]);
      if DistinctIds(g) {
        assert DistinctIds(g[..n]);
        assert g[n].peerId.value !in Listed(g[..n]);
      }
      if FromGroup(g[..n]).Success? {
        assert DistinctIds(g) <==> g[n].peerId.Some? && g[n].peerId.value !in Listed(g[..n]) by {
          if g[n].peerId.Some? && g[n].peerId.value !in Listed(g[..n]) {
            forall j | 0 <= j < n ensures g[j].peerId != g[n].peerId {
              assert g[..n][j].peerId.value in Listed(g[..n]);
            }
          }
        }
      }
      if g[n].peerId.Some? {
        assert Listed(g) == Listed(g[..n]) + {g[n].peerId.value} by { ListedSnoc(g); }
        assert ListedVoting(g) == if g[n].voting then ListedVoting(g[..n]) + {g[n].peerId.value} else ListedVoting(g[..n]) by { ListedSnoc(g); }
      }
    }
  }

  lemma ListedSnoc(g: seq<ReplicaProto>)
    requires g != [] && g[|g| - 1].peerId.Some?
    ensures Listed(g) == Listed(g[..|g| - 1]) + {g[|g| - 1].peerId.value}
    ensures ListedVoting(g) ==
      if g[|g| - 1].voting then ListedVoting(g[..|g| - 1]) + {g[|g| - 1].peerId.value} else ListedVoting(g[..|g| - 1])
  {
    var n := |g| - 1;
    forall p | p in Listed(g) ensures p in Listed(g[..n]) + {g[n].peerId.value} {
      var k :| 0 <= k < |g| && g[k].peerId.Some? && g[k].peerId.value == p;
      if k < n { assert g[..n][k] == g[k]; }
    }
    forall p | p in ListedVoting(g) && p != g[n].peerId.value ensures p in ListedVoting(g[..n]) {
      var k :| 0 <= k < |g| && g[k].peerId.Some? && g[k].voting && g[k].peerId.value == p;
      assert g[..n][k] == g[k];
    }
    forall p | p in Listed(g[..n]) ensures p in Listed(g) {
      var k :| 0 <= k < n && g[..n][k].peerId.Some? && g[..n][k].peerId.value == p;
      assert g[k].peerId.value == p;
    }
    forall p | p in ListedVoting(g[..n]) ensures p in ListedVoting(g) {
      var k :| 0 <= k < n && g[..n][k].peerId.Some? && g[..n][k].voting && g[..n][k].peerId.value == p;
      assert g[k].voting && g[k].peerId.value == p;
    }
    if !g[n].voting && g[n].peerId.value in ListedVoting(g) {
      var k :| 0 <= k < |g| && g[k].peerId.Some? && g[k].voting && g[k].peerId.value == g[n].peerId.value;
      assert g[..n][k] == g[k];
    }
  }

  method FromProto(g: seq<ReplicaProto>) returns (r: Result<Membership>)
    ensures r == FromGroup(g)
  {
    var all: set<PeerId>, voting: set<PeerId> := {}, {};
    for i := 0 to |g|
      invariant FromGroup(g[..i]) == Success(Membership(all, voting))
    {
      assert g[..i + 1][..i] == g[..i];
      if g[i].peerId.None? || g[i].peerId.value in all {
        r := Failure(if g[i].peerId.None? then InvalidPeerId else DuplicateReplicaInReplicaGroup);
        FailsEarly(g, i + 1);
        return;
      }
      all := all + {g[i].peerId.value};
      if g[i].voting { voting := voting + {g[i].peerId.value}; }
    }
    assert g[..|g|] == g;
    r := Success(Membership(all, voting));
  }

  lemma {:induction false} FailsEarly(g: seq<ReplicaProto>, n: nat)
    requires n <= |g| && FromGroup(g[..n]).Failure?
    ensures FromGroup(g) == FromGroup(g[..n])
  {
    if n < |g| {
      assert g[..|g| - 1][..n] == g[..n];
      FailsEarly(g[..|g| - 1], n);
    } else {
      assert g[..n] == g;
    }
  }

  /** A group written out again, in ID order, one line a replica. */
  method AsProto(m: Membership) returns (g: seq<ReplicaProto>)
    requires m.voting <= m.all
    ensures FromGroup(g) == Success(m) && |g| == |m.all|
  {
    g := [];
    var rest := m.all;
    assert m.all - rest == {} && m.voting - rest == {};
    while rest != {}
      invariant rest <= m.all
      invariant FromGroup(g) == Success(Membership(m.all - rest, m.voting - rest))
      decreases rest
    {
      var p := Least(rest);
      var line := ReplicaProto(Some(p), p in m.voting);
      assert (g + [line])[..|g|] == g;
      g := g + [line];
      assert m.all - (rest - {p}) == (m.all - rest) + {p};
      assert m.voting - (rest - {p}) == if p in m.voting then (m.voting - rest) + {p} else m.voting - rest;
      rest := rest - {p};
    }
    assert m.all - {} == m.all && m.voting - {} == m.voting;
    GroupSize(g);
  }

  ghost predicate IsLeast(s: set<PeerId>, p: PeerId) {
    p in s && forall q | q in s :: p <= q
  }

  lemma {:induction false} LeastExists(s: set<PeerId>)
    requires s != {}
    ensures exists p :: IsLeast(s, p)
  {
    var p :| p in s;
    if s == {p} {
      assert IsLeast(s, p);
    } else {
      LeastExists(s - {p});
      var q: PeerId :| IsLeast(s - {p}, q);
      assert forall x | x in s :: x == p || x in s - {p};
      if p <= q { assert IsLeast(s, p); } else { assert IsLeast(s, q); }
    }
  }

  /** The first element in iteration order. */
  function Least(s: set<PeerId>): (p: PeerId)
    requires s != {}
    ensures IsLeast(s, p)
  {
    assert exists p :: p in s && forall q | q in s :: p <= q by {
      LeastExists(s);
      var p :| IsLeast(s, p);
    }
    var p :| p in s && forall q | q in s :: p <= q;
    p
  }

  predicate Ascending(s: seq<PeerId>) {
    forall i, j | 0 <= i < j < |s| :: s[i] < s[j]
  }

  function Elems(s: seq<PeerId>): set<PeerId> {
    set k | 0 <= k < |s| :: s[k]
  }

  /** One pass over two sets in iteration order counts the elements of the first
      that the second lacks. */
  method SetDiffSize(a: seq<PeerId>, b: seq<PeerId>) returns (out: nat)
    requires Ascending(a) && Ascending(b)
    ensures out == |Elems(a) - Elems(b)|
  {
    hide Elems, Below;
    var i, j := 0, 0;
    out := 0;
    NothingYet(a, b);
    while i < |a|
      invariant 0 <= i <= |a| && 0 <= j <= |b|
      invariant i < |a| ==> Below(b[..j], a[i])
      invariant out == |Elems(a[..i]) - Elems(b)|
      decreases |a| - i + |b| - j
    {
      if j == |b| || a[i] < b[j] {
        ElemsStep(a, i, b);
        SkippedOver(a[i], b, j);
        BelowNext(a, i, b, j);
        out := out + 1;
        i := i + 1;
      } else if b[j] < a[i] {
        BelowMore(b, j, a[i]);
        j := j + 1;
      } else {
        ElemsStep(a, i, b);
        IsElem(b, j);
        BelowNext(a, i, b, j);
        if i + 1 < |a| { BelowMore(b, j, a[i + 1]); }
        i := i + 1;
        j := j + 1;
      }
    }
    assert a[..|a|] == a;
  }

  lemma NothingYet(a: seq<PeerId>, b: seq<PeerId>)
    ensures |Elems(a[..0]) - Elems(b)| == 0
    ensures a != [] ==> Below(b[..0], a[0])
  {
  }

  lemma IsElem(b: seq<PeerId>, j: nat)
    requires j < |b|
    ensures b[j] in Elems(b)
  {
  }

  lemma BelowMore(b: seq<PeerId>, j: nat, p: PeerId)
    requires j < |b| && Below(b[..j], p) && b[j] < p
    ensures Below(b[..j + 1], p)
  {
    assert b[..j + 1] == b[..j] + [b[j]];
  }

  lemma BelowNext(a: seq<PeerId>, i: nat, b: seq<PeerId>, j: nat)
    requires Ascending(a) && i < |a| && j <= |b| && Below(b[..j], a[i])
    ensures i + 1 < |a| ==> Below(b[..j], a[i + 1])
  {
  }

  predicate Below(s: seq<PeerId>, p: PeerId) {
    forall k | 0 <= k < |s| :: s[k] < p
  }

  lemma SkippedOver(p: PeerId, b: seq<PeerId>, j: nat)
    requires Ascending(b) && j <= |b| && Below(b[..j], p)
    requires j < |b| ==> p < b[j]
    ensures p !in Elems(b)
  {
    forall k | 0 <= k < |b| ensures b[k] != p {
      if k < j { assert b[..j][k] == b[k]; }
    }
  }

  lemma ElemsStep(a: seq<PeerId>, i: nat, b: seq<PeerId>)
    requires Ascending(a) && i < |a|
    ensures |Elems(a[..i + 1]) - Elems(b)| ==
            |Elems(a[..i]) - Elems(b)| + if a[i] in Elems(b) then 0 else 1
  {
    var low, high := Elems(a[..i]), Elems(a[..i + 1]);
    assert high == low + {a[i]} by {
      forall p | p in high ensures p in low + {a[i]} {
        var k :| 0 <= k < i + 1 && a[..i + 1][k] == p;
        if k < i { assert a[..i][k] == p; }
      }
      forall p | p in low + {a[i]} ensures p in high {
        if p in low {
          var k :| 0 <= k < i && a[..i][k] == p;
          assert a[..i + 1][k] == p;
        } else {
          assert a[..i + 1][i] == p;
        }
      }
    }
    assert a[i] !in low;
    if a[i] in Elems(b) {
      assert high - Elems(b) == low - Elems(b);
    } else {
      assert high - Elems(b) == (low - Elems(b)) + {a[i]};
    }
  }

  /** The checks a leader makes, in their order, before it logs a change of the
      group from `from` to `to`. */
  function ValidProgressionForLeader(leader: PeerId, from: Membership, to: Membership, superMajority: nat): Error {
    var votingAdded := |to.voting - from.voting|;
    var votingRemoved := from.voting - to.voting;
    var allAdded := |to.all - from.all|;
    var allRemoved := from.all - to.all;
    var changes := votingAdded + |votingRemoved| + allAdded + |allRemoved|;
    if |from.voting| > superMajority && |to.voting| <= superMajority then SuperMajorityLost
    else if |to.voting| == 0 || |to.all| == 0 then EmptySet
    else if changes > 1 && !(changes == 2 && |votingRemoved| == 1 && |allRemoved| == 1 && votingRemoved == allRemoved) then
      TooManyMembershipChanges
    else if changes == 0 then NoMembershipChanges
    else if leader !in to.voting then LeaderRemovedFromVoting
    else if leader !in to.all then LeaderRemovedFromAll
    else if |to.all - to.voting| != (|to.all| - |to.voting|) % U64 then VotingNotSubset
    else NoError
  }

  /** A set as its iterator gives it. */
  method InOrder(s: set<PeerId>) returns (q: seq<PeerId>)
    ensures Ascending(q) && Elems(q) == s
  {
    q := [];
    var rest := s;
    while rest != {}
      invariant Ascending(q) && Elems(q) == s - rest && rest <= s
      invariant forall x, y | x in q && y in rest :: x < y
      decreases rest
    {
      var p := Least(rest);
      ElemsSnoc(q, p);
      AscendingSnoc(q, p);
      assert s - (rest - {p}) == (s - rest) + {p};
      q, rest := q + [p], rest - {p};
    }
  }

  lemma ElemsSnoc(q: seq<PeerId>, p: PeerId)
    ensures Elems(q + [p]) == Elems(q) + {p}
  {
    forall x | x in Elems(q) + {p} ensures x in Elems(q + [p]) {
      if x in Elems(q) {
        var k :| 0 <= k < |q| && q[k] == x;
        assert (q + [p])[k] == x;
      } else {
        assert (q + [p])[|q|] == x;
      }
    }
  }

  lemma AscendingSnoc(q: seq<PeerId>, p: PeerId)
    requires Ascending(q) && forall x | x in q :: x < p
    ensures Ascending(q + [p])
  {
    forall j, k | 0 <= j < k < |q| + 1 ensures (q + [p])[j] < (q + [p])[k] {
      assert q[j] in q;
    }
  }

  method DiffSize(a: set<PeerId>, b: set<PeerId>) returns (n: nat)
    ensures n == |a - b|
  {
    var x := InOrder(a);
    var y := InOrder(b);
    n := SetDiffSize(x, y);
  }

  /** The same checks with the counting loops. */
  method CheckProgression(leader: PeerId, from: Membership, to: Membership, superMajority: nat) returns (err: Error)
    ensures err == ValidProgressionForLeader(leader, from, to, superMajority)
  {
    if |from.voting| > superMajority && |to.voting| <= superMajority { return SuperMajorityLost; }
    var votingAdded := DiffSize(to.voting, from.voting);
    var votingRemoved := from.voting - to.voting;
    var allAdded := DiffSize(to.all, from.all);
    var allRemoved := from.all - to.all;
    var changes := votingAdded + |votingRemoved| + allAdded + |allRemoved|;
    if |to.voting| == 0 || |to.all| == 0 { return EmptySet; }
    if changes == 2 && |votingRemoved| == 1 && |allRemoved| == 1 && votingRemoved == allRemoved {
    } else if changes > 1 {
      return TooManyMembershipChanges;
    }
    if changes == 0 { return NoMembershipChanges; }
    if leader !in to.voting { return LeaderRemovedFromVoting; }
    if leader !in to.all { return LeaderRemovedFromAll; }
    var outside := DiffSize(to.all, to.voting);
    if outside != (|to.all| - |to.voting|) % U64 { return VotingNotSubset; }
    return NoError;
  }

  lemma SubsetBySize(all: set<PeerId>, voting: set<PeerId>)
    requires |all| < U64 && |voting| < U64
    ensures |all - voting| == (|all| - |voting|) % U64 <==> voting <= all
  {
    assert all == (all - voting) + (all * voting);
    assert voting == (voting - all) + (all * voting);
    if |all - voting| == (|all| - |voting|) % U64 {
      assert |voting - all| == 0;
    }
  }

  /** A leader may add or remove one member or one vote, or take a voter out of the group
      altogether; it keeps its own vote, no one votes from outside, and a group that has
      more voters than its super majority keeps more. */
  ghost predicate LeaderMayStep(leader: PeerId, from: Membership, to: Membership, sm: nat) {
    && leader in to.voting && to.voting <= to.all && (|from.voting| > sm ==> |to.voting| > sm)
    && (OneMember(from, to) || OneVote(from, to) || OneVoterLeaves(from, to))
  }

  /** A member without a vote comes or goes. */
  ghost predicate OneMember(from: Membership, to: Membership) {
    && to.voting == from.voting
    && exists p :: (p !in from.all && to.all == from.all + {p}) || (p in from.all && to.all == from.all - {p})
  }

  /** A member gets the vote or loses it. */
  ghost predicate OneVote(from: Membership, to: Membership) {
    && to.all == from.all
    && exists p :: (p !in from.voting && to.voting == from.voting + {p}) || (p in from.voting && to.voting == from.voting - {p})
  }

  ghost predicate OneVoterLeaves(from: Membership, to: Membership) {
    exists p :: p in from.all && p in from.voting && to.all == from.all - {p} && to.voting == from.voting - {p}
  }

  lemma OneIn(a: set<PeerId>, b: set<PeerId>)
    ensures |b - a| == 1 && |a - b| == 0 <==> exists p :: p !in a && b == a + {p}
    ensures |a - b| == 1 && |b - a| == 0 <==> exists p :: p in a && b == a - {p}
  {
    if |b - a| == 1 && |a - b| == 0 {
      var p :| p in b - a;
      One(b - a, p);
      assert b == a + {p};
    }
    if |a - b| == 1 && |b - a| == 0 {
      var p :| p in a - b;
      One(a - b, p);
      assert b == a - {p};
    }
    if p :| p !in a && b == a + {p} { assert b - a == {p} && a - b == {}; }
    if p :| p in a && b == a - {p} { assert a - b == {p} && b - a == {}; }
  }

  lemma One(s: set<PeerId>, p: PeerId)
    requires |s| == 1 && p in s
    ensures s == {p}
  {
    assert |s - {p}| == 0;
  }

  /** The checks accept exactly the steps a leader may make. */
  lemma StepAllowed(leader: PeerId, from: Membership, to: Membership, sm: nat)
    requires |to.voting| < U64 && |to.all| < U64
    ensures ValidProgressionForLeader(leader, from, to, sm) == NoError <==> LeaderMayStep(leader, from, to, sm)
  {
    SubsetBySize(to.all, to.voting);
    StepShapes(from, to);
    hide OneMember, OneVote, OneVoterLeaves;
  }

  ghost predicate FewChanges(from: Membership, to: Membership) {
    var va, vr, aa, ar := |to.voting - from.voting|, |from.voting - to.voting|, |to.all - from.all|, |from.all - to.all|;
    va + vr + aa + ar == 1 || (va + vr + aa + ar == 2 && vr == 1 && ar == 1 && from.voting - to.voting == from.all - to.all)
  }

  lemma StepShapes(from: Membership, to: Membership)
    ensures FewChanges(from, to) <==> OneMember(from, to) || OneVote(from, to) || OneVoterLeaves(from, to)
  {
    OneIn(from.voting, to.voting);
    OneIn(from.all, to.all);
    SameBySize(from.voting, to.voting);
    SameBySize(from.all, to.all);
    if OneVoterLeaves(from, to) {
      var p :| p in from.all && p in from.voting && to.all == from.all - {p} && to.voting == from.voting - {p};
      assert from.voting - to.voting == {p} && from.all - to.all == {p};
    }
    if FewChanges(from, to) && |from.voting - to.voting| == 1 && |from.all - to.all| == 1 {
      var p :| p in from.voting - to.voting;
      One(from.voting - to.voting, p);
      assert to.voting == from.voting - {p} && to.all == from.all - {p};
    }
  }

  lemma SameBySize(a: set<PeerId>, b: set<PeerId>)
    ensures |a - b| == 0 && |b - a| == 0 <==> a == b
  {
  }

  /** What an accepted step gives, whichever of its shapes it takes: the leader
      keeps its vote, voters belong to the group, at most one voter changes, and
      any quorum before and any quorum after share `superMajority + 1` voters or
      the whole smaller voter set. */
  lemma AcceptedStepOverlaps(leader: PeerId, from: Membership, to: Membership, sm: nat, q: set<PeerId>, q': set<PeerId>)
    requires ValidProgressionForLeader(leader, from, to, sm) == NoError
    requires |from.voting| < U32 && |to.voting| < U32 && |to.all| < U64 && sm < U32
    requires q <= from.voting && |q| >= QuorumSize(|from.voting|, sm)
    requires q' <= to.voting && |q'| >= QuorumSize(|to.voting|, sm)
    ensures leader in to.voting && to.voting <= to.all
    ensures |from.voting - to.voting| + |to.voting - from.voting| <= 1
    ensures |from.voting| > sm ==> |to.voting| > sm
    ensures |q * q'| >= Min(sm + 1, Min(|from.voting|, |to.voting|))
  {
    SubsetBySize(to.all, to.voting);
    StepOverlap(from.voting, to.voting, sm, q, q');
  }
}
