/** The in-memory Merkle tree that guards the database rows: nodes of five slots
    linked to their parents, one leaf per row, grown at the right and pruned
    upwards.  Nodes and leaves are kept by address, so that a pointer is an address
    and deleting a part takes its address away. */
module Merkle {

  type Address = nat

  /** Eight bytes; zero stands for an empty slot. */
  type Hash = nat

  const NODE_SIZE := 5

  datatype Child = Nothing | LeafAt(leaf: Address) | NodeAt(node: Address)

  /** Where a part's hash is kept: the parent and the slot in it, or the tree. */
  datatype Place = Root | Slot(node: Address, index: nat)

  datatype Node = Node(place: Place, children: seq<Child>, hashes: seq<Hash>, isRoot: bool, isCurr: bool)

  /** `next` is the allocator's next address. */
  datatype State = State(nodes: map<Address, Node>, leaves: map<Address, Place>, root: Address, curr: Address,
                         rootHash: Hash, next: Address)

  type Sip = seq<Hash> -> Hash
  type Heights = map<Address, nat>

  function NewNode(place: Place): Node {
    Node(place, seq(NODE_SIZE, _ => Nothing), seq(NODE_SIZE, _ => 0), false, false)
  }

  predicate Full(n: Node) {
    forall i | 0 <= i < |n.children| :: n.children[i] != Nothing
  }

  predicate Empty(n: Node) {
    forall i | 0 <= i < |n.children| :: n.children[i] == Nothing
  }

  // -------------------------------------------------------------------- invariant

  ghost predicate Holds(s: State, place: Place, child: Child) {
    && place.Slot? && place.node in s.nodes && place.index < |s.nodes[place.node].children|
    && s.nodes[place.node].children[place.index] == child
  }

  ghost predicate SlotOk(s: State, height: Heights, n: Address, i: nat)
    requires height.Keys == s.nodes.Keys && n in s.nodes && i < |s.nodes[n].children|
  {
    match s.nodes[n].children[i]
    case Nothing => true
    case LeafAt(l) => l in s.leaves && s.leaves[l] == Slot(n, i) && height[n] == 0
    case NodeAt(c) => c in s.nodes && s.nodes[c].place == Slot(n, i) && height[n] == height[c] + 1
  }

  ghost predicate PlaceOk(s: State, height: Heights, n: Address)
    requires height.Keys == s.nodes.Keys && n in s.nodes && s.root in s.nodes
  {
    if n == s.root then s.nodes[n].place == Root
    else Holds(s, s.nodes[n].place, NodeAt(n)) && height[n] < height[s.root]
  }

  /** `spare` are the nodes that may be empty for the moment. */
  ghost predicate NodeOk(s: State, height: Heights, spare: set<Address>, n: Address)
    requires height.Keys == s.nodes.Keys && n in s.nodes && s.root in s.nodes
  {
    && n < s.next && |s.nodes[n].children| == NODE_SIZE
    && (s.nodes[n].isRoot <==> n == s.root) && (s.nodes[n].isCurr <==> n == s.curr)
    && PlaceOk(s, height, n)
    && (forall i {:trigger SlotOk(s, height, n, i)} | 0 <= i < NODE_SIZE :: SlotOk(s, height, n, i))
    && (n == s.root || n == s.curr || n in spare || !Empty(s.nodes[n]))
  }

  /** Parents and children agree, every step up adds one to the height, leaves hang
      at height zero, and only the root and the current node may be empty. */
  ghost predicate Shape(s: State, height: Heights, spare: set<Address>) {
    && height.Keys == s.nodes.Keys && s.root in s.nodes && s.curr in s.nodes && height[s.curr] == 0
    && (forall n {:trigger NodeOk(s, height, spare, n)} | n in s.nodes :: NodeOk(s, height, spare, n))
    && (forall l {:trigger Holds(s, s.leaves[l], LeafAt(l))} | l in s.leaves :: Holds(s, s.leaves[l], LeafAt(l)))
  }

  ghost predicate ZerosAt(n: Node) {
    |n.hashes| == |n.children| && forall i | 0 <= i < |n.children| :: n.children[i] == Nothing ==> n.hashes[i] == 0
  }

  /** Empty slots hold zero. */
  ghost predicate Zeros(s: State) {
    forall n {:trigger ZerosAt(s.nodes[n])} | n in s.nodes :: ZerosAt(s.nodes[n])
  }

  ghost function Stored(s: State, place: Place): Hash {
    if place.Root? then s.rootHash
    else if place.node in s.nodes && place.index < |s.nodes[place.node].hashes|
      then s.nodes[place.node].hashes[place.index]
    else 0
  }

  /** The hash kept for a node is the hash of its slots. */
  ghost predicate HashOk(sip: Sip, s: State, n: Address)
    requires n in s.nodes
  {
    Stored(s, s.nodes[n].place) == sip(s.nodes[n].hashes)
  }

  ghost predicate HashesOkBut(sip: Sip, s: State, stale: set<Address>) {
    forall n {:trigger HashOk(sip, s, n)} | n in s.nodes && n !in stale :: HashOk(sip, s, n)
  }

  /** Everything is in order, save that hashes of `stale` nodes may be out of date
      and that `spare` nodes may be empty. */
  ghost predicate Coherent(sip: Sip, s: State, height: Heights, spare: set<Address>, stale: set<Address>) {
    Shape(s, height, spare) && Zeros(s) && HashesOkBut(sip, s, stale)
  }

  /** What the leaves hold. */
  ghost function Values(s: State): map<Address, Hash> {
    map l | l in s.leaves :: Stored(s, s.leaves[l])
  }

  // ------------------------------------------------------------------------ paths

  /** `path` leads from its first node to the root. */
  ghost predicate IsPath(s: State, path: seq<Address>) {
    && path != [] && path[|path| - 1] == s.root
    && (forall k | 0 <= k < |path| :: path[k] in s.nodes)
    && (forall k | 0 <= k < |path| - 1 :: s.nodes[path[k]].place.Slot? && s.nodes[path[k]].place.node == path[k + 1])
  }

  ghost function Along(path: seq<Address>): set<Address> {
    set n | n in path
  }

  lemma PathStep(s: State, height: Heights, spare: set<Address>, path: seq<Address>)
    requires Shape(s, height, spare) && IsPath(s, path)
    ensures s.nodes[path[0]].place.Root? <==> |path| == 1
    ensures |path| == 1 ==> path[1..] == []
    ensures |path| > 1 ==> IsPath(s, path[1..]) && path[1] == s.nodes[path[0]].place.node
  {
    assert NodeOk(s, height, spare, s.root);
    if |path| > 1 {
      assert s.nodes[path[0]].place.node == path[0 + 1];
      var rest := path[1..];
      forall k | 0 <= k < |rest| - 1 ensures s.nodes[rest[k]].place.Slot? && s.nodes[rest[k]].place.node == rest[k + 1] {
        assert s.nodes[path[k + 1]].place.node == path[k + 1 + 1];
      }
    }
  }

  lemma HeightUp(s: State, height: Heights, spare: set<Address>, n: Address)
    requires Shape(s, height, spare) && n in s.nodes && n != s.root
    ensures Holds(s, s.nodes[n].place, NodeAt(n)) && height[s.nodes[n].place.node] == height[n] + 1
  {
    assert NodeOk(s, height, spare, n) && NodeOk(s, height, spare, s.nodes[n].place.node);
    assert SlotOk(s, height, s.nodes[n].place.node, s.nodes[n].place.index);
  }

  /** Parent pointers never run in a circle: they lead to the root from everywhere. */
  lemma {:induction false} PathUp(s: State, height: Heights, spare: set<Address>, n: Address) returns (path: seq<Address>)
    requires Shape(s, height, spare) && n in s.nodes
    ensures IsPath(s, path) && path[0] == n && |path| + height[n] == height[s.root] + 1
    decreases height[s.root] as int - height[n]
  {
    assert NodeOk(s, height, spare, n);
    if n == s.root {
      path := [n];
    } else {
      HeightUp(s, height, spare, n);
      var p := s.nodes[n].place.node;
      assert NodeOk(s, height, spare, p);
      var rest := PathUp(s, height, spare, p);
      path := [n] + rest;
    }
  }

  /** The tree is balanced: every leaf has the same number of nodes above it. */
  lemma LeavesLevel(s: State, height: Heights, spare: set<Address>, l: Address, path: seq<Address>)
    requires Shape(s, height, spare) && l in s.leaves && IsPath(s, path) && s.leaves[l].Slot? && path[0] == s.leaves[l].node
    ensures |path| == height[s.root] + 1
  {
    var p := s.leaves[l];
    assert Holds(s, p, LeafAt(l)) && NodeOk(s, height, spare, p.node) && SlotOk(s, height, p.node, p.index);
    PathLength(s, height, spare, path);
  }

  lemma {:induction false} PathLength(s: State, height: Heights, spare: set<Address>, path: seq<Address>)
    requires Shape(s, height, spare) && IsPath(s, path)
    ensures |path| + height[path[0]] == height[s.root] + 1
    decreases |path|
  {
    PathStep(s, height, spare, path);
    assert NodeOk(s, height, spare, path[0]);
    if |path| > 1 {
      HeightUp(s, height, spare, path[0]);
      PathLength(s, height, spare, path[1..]);
    }
  }

  /** Each step along a path adds one to the height. */
  lemma {:induction false} PathHeight(s: State, height: Heights, spare: set<Address>, path: seq<Address>, k: nat)
    requires Shape(s, height, spare) && IsPath(s, path) && k < |path|
    ensures height[path[k]] == height[path[0]] + k
  {
    if k > 0 {
      PathStep(s, height, spare, path);
      assert NodeOk(s, height, spare, s.root);
      HeightUp(s, height, spare, path[0]);
      PathHeight(s, height, spare, path[1..], k - 1);
    }
  }

  // --------------------------------------------------------------- writing a hash

  predicate Writable(s: State, place: Place) {
    place.Slot? ==> place.node in s.nodes && place.index < |s.nodes[place.node].hashes|
  }

  function WithHash(s: State, place: Place, h: Hash): State
    requires Writable(s, place)
  {
    match place
    case Root => s.(rootHash := h)
    case Slot(p, i) => s.(nodes := s.nodes[p := s.nodes[p].(hashes := s.nodes[p].hashes[i := h])])
  }

  ghost predicate SameLinks(a: State, b: State) {
    && a.nodes.Keys == b.nodes.Keys && a.leaves == b.leaves && a.root == b.root && a.curr == b.curr && a.next == b.next
    && forall n | n in a.nodes :: a.nodes[n].(hashes := []) == b.nodes[n].(hashes := [])
  }

  lemma LinksKeep(a: State, b: State, height: Heights, spare: set<Address>)
    requires SameLinks(a, b) && Shape(a, height, spare)
    ensures Shape(b, height, spare)
  {
    forall l | l in b.leaves ensures Holds(b, b.leaves[l], LeafAt(l)) {
      assert Holds(a, a.leaves[l], LeafAt(l));
    }
    forall n | n in b.nodes ensures NodeOk(b, height, spare, n) {
      LinksKeepNode(a, b, height, spare, n);
    }
  }

  lemma SamePart(a: State, b: State, n: Address)
    requires SameLinks(a, b) && n in a.nodes
    ensures n in b.nodes && a.nodes[n].children == b.nodes[n].children && a.nodes[n].place == b.nodes[n].place
    ensures a.nodes[n].isRoot == b.nodes[n].isRoot && a.nodes[n].isCurr == b.nodes[n].isCurr
  {
    assert a.nodes[n].(hashes := []) == b.nodes[n].(hashes := []);
  }

  lemma LinksKeepNode(a: State, b: State, height: Heights, spare: set<Address>, n: Address)
    requires SameLinks(a, b) && height.Keys == a.nodes.Keys && a.root in a.nodes && n in a.nodes && NodeOk(a, height, spare, n)
    ensures NodeOk(b, height, spare, n)
  {
    SamePart(a, b, n);
    if n != a.root { SamePart(a, b, a.nodes[n].place.node); }
    forall i | 0 <= i < NODE_SIZE ensures SlotOk(b, height, n, i) {
      assert SlotOk(a, height, n, i);
      var c := a.nodes[n].children[i];
      if c.NodeAt? { SamePart(a, b, c.node); }
    }
  }

  lemma PathKeeps(a: State, b: State, path: seq<Address>)
    requires SameLinks(a, b) && IsPath(a, path)
    ensures IsPath(b, path)
  {
    forall k | 0 <= k < |path| - 1 ensures b.nodes[path[k]].place.Slot? && b.nodes[path[k]].place.node == path[k + 1] {
      SamePart(a, b, path[k]);
    }
  }

  /** A node's hash goes out of date only if one of its slots or the hash kept for
      it changes. */
  lemma WriteKeepsHash(sip: Sip, s: State, place: Place, h: Hash, n: Address)
    requires Writable(s, place)
    requires n in s.nodes && HashOk(sip, s, n) && s.nodes[n].place != place && (place.Slot? ==> place.node != n)
    ensures HashOk(sip, WithHash(s, place, h), n)
  {
  }

  lemma WriteKeepsZeros(s: State, place: Place, h: Hash, child: Child)
    requires place.Slot? ==> Holds(s, place, child) && (child == Nothing ==> h == 0)
    requires Zeros(s) && Writable(s, place)
    ensures Zeros(WithHash(s, place, h))
  {
    var t := WithHash(s, place, h);
    forall n | n in t.nodes ensures ZerosAt(t.nodes[n]) {
      assert ZerosAt(s.nodes[n]);
    }
  }

  /** No two parts share a place. */
  lemma PlacesDiffer(s: State, height: Heights, spare: set<Address>, n: Address, m: Address)
    requires Shape(s, height, spare) && n in s.nodes && m in s.nodes && n != m
    ensures s.nodes[n].place != s.nodes[m].place
  {
    assert NodeOk(s, height, spare, n) && NodeOk(s, height, spare, m);
  }

  lemma PlaceHolds(s: State, height: Heights, spare: set<Address>, n: Address)
    requires Shape(s, height, spare) && n in s.nodes
    ensures var place := s.nodes[n].place; place.Slot? ==> Holds(s, place, NodeAt(n)) && place.node != n
  {
    assert NodeOk(s, height, spare, n);
    if n != s.root { HeightUp(s, height, spare, n); }
  }

  lemma HashesAreSized(s: State, place: Place, child: Child)
    requires Zeros(s) && (place.Slot? ==> Holds(s, place, child))
    ensures Writable(s, place)
  {
    if place.Slot? { assert ZerosAt(s.nodes[place.node]); }
  }

  /** Storing a node's hash makes it right; of the others it can leave only those above
      stale. */
  lemma StoreStep(sip: Sip, s: State, height: Heights, spare: set<Address>, path: seq<Address>, stale: set<Address>)
    requires Coherent(sip, s, height, spare, stale) && IsPath(s, path)
    requires Writable(s, s.nodes[path[0]].place)
    ensures var t := WithHash(s, s.nodes[path[0]].place, sip(s.nodes[path[0]].hashes));
      Coherent(sip, t, height, spare, stale - {path[0]} + Along(path[1..])) && SameLinks(s, t) && Values(t) == Values(s)
  {
    hide Shape, Holds, Stored, Values, ZerosAt;
    var n := path[0];
    var place := s.nodes[n].place;
    var h := sip(s.nodes[n].hashes);
    PlaceHolds(s, height, spare, n);
    WriteKeepsZeros(s, place, h, NodeAt(n));
    var t := WithHash(s, place, h);
    LinksKeep(s, t, height, spare);
    forall m | m in t.nodes && m !in stale - {n} + Along(path[1..]) ensures HashOk(sip, t, m) {
      if m == n {
        WrittenIsRight(sip, s, n);
      } else {
        assert HashOk(sip, s, m) && m !in path[1..];
        PlacesDiffer(s, height, spare, n, m);
        PathStep(s, height, spare, path);
        WriteKeepsHash(sip, s, place, h, m);
      }
    }
    WriteKeepsValues(s, height, spare, place, NodeAt(n), h);
  }

  lemma WrittenIsRight(sip: Sip, s: State, n: Address)
    requires n in s.nodes && Writable(s, s.nodes[n].place) && (s.nodes[n].place.Slot? ==> s.nodes[n].place.node != n)
    ensures HashOk(sip, WithHash(s, s.nodes[n].place, sip(s.nodes[n].hashes)), n)
  {
  }

  /** Writing the hash of a part leaves the values of all leaves but that part. */
  lemma WriteKeepsValues(s: State, height: Heights, spare: set<Address>, place: Place, child: Child, h: Hash)
    requires Shape(s, height, spare) && (place.Slot? ==> Holds(s, place, child)) && Writable(s, place)
    ensures forall l | l in s.leaves && child != LeafAt(l) :: Stored(WithHash(s, place, h), s.leaves[l]) == Stored(s, s.leaves[l])
    ensures !child.LeafAt? ==> Values(WithHash(s, place, h)) == Values(s)
  {
    hide NodeOk;
    var t := WithHash(s, place, h);
    forall l | l in s.leaves && child != LeafAt(l) ensures Stored(t, s.leaves[l]) == Stored(s, s.leaves[l]) {
      assert Holds(s, s.leaves[l], LeafAt(l));
    }
  }

  /** Giving a leaf a value makes no node stale but the one the leaf is in. */
  lemma LeafWrite(sip: Sip, s: State, height: Heights, l: Address, h: Hash, stale: set<Address>)
    requires Coherent(sip, s, height, {}, stale) && l in s.leaves && s.leaves[l].Slot?
    ensures Writable(s, s.leaves[l])
    ensures var t := WithHash(s, s.leaves[l], h);
      Coherent(sip, t, height, {}, stale + {s.leaves[l].node}) && SameLinks(s, t) && Values(t) == Values(s)[l := h]
  {
    var place := s.leaves[l];
    LeafHeld(s, height, {}, l);
    HashesAreSized(s, place, LeafAt(l));
    hide Shape, Stored, ZerosAt;
    var t := WithHash(s, place, h);
    WriteKeepsZeros(s, place, h, LeafAt(l));
    LinksKeep(s, t, height, {});
    LeafValue(s, height, l, h);
    forall m | m in t.nodes && m !in stale + {place.node} ensures HashOk(sip, t, m) {
      assert HashOk(sip, s, m);
      PlaceHolds(s, height, {}, m);
      WriteKeepsHash(sip, s, place, h, m);
    }
  }

  lemma LeafHeld(s: State, height: Heights, spare: set<Address>, l: Address)
    requires Shape(s, height, spare) && l in s.leaves
    ensures Holds(s, s.leaves[l], LeafAt(l))
  {
  }

  lemma LeafValue(s: State, height: Heights, l: Address, h: Hash)
    requires Shape(s, height, {}) && l in s.leaves && Holds(s, s.leaves[l], LeafAt(l)) && Writable(s, s.leaves[l])
    ensures Values(WithHash(s, s.leaves[l], h)) == Values(s)[l := h]
  {
    hide Shape;
    WriteKeepsValues(s, height, {}, s.leaves[l], LeafAt(l), h);
  }

  // -------------------------------------------------------------------- verifying

  ghost predicate Sized(s: State) {
    forall n {:trigger s.nodes[n]} | n in s.nodes :: |s.nodes[n].hashes| == |s.nodes[n].children|
  }

  /** `h` is the leaf's hash, and so on up to the root. */
  ghost predicate Verifies(sip: Sip, s: State, l: Address, h: Hash, path: seq<Address>)
    requires l in s.leaves && IsPath(s, path)
  {
    h == Stored(s, s.leaves[l]) && forall k | 0 <= k < |path| :: HashOk(sip, s, path[k])
  }

  /** In a valid tree a leaf verifies exactly against the value last given to it. */
  lemma ValidVerifies(sip: Sip, s: State, height: Heights, l: Address, h: Hash, path: seq<Address>)
    requires Coherent(sip, s, height, {}, {}) && l in s.leaves && IsPath(s, path)
    ensures Sized(s) && (Verifies(sip, s, l, h, path) <==> h == Values(s)[l])
  {
    forall n | n in s.nodes ensures |s.nodes[n].hashes| == |s.nodes[n].children| {
      assert ZerosAt(s.nodes[n]);
    }
  }

  ghost predicate Injective(sip: Sip) {
    forall a, b | sip(a) == sip(b) :: a == b
  }

  /** What the tree is for.  Let any hashes in the nodes, and so any leaf's hash, be
      put back to older ones, but not the root's: then nothing verifies but the
      values last given. */
  lemma RollbackIsFound(sip: Sip, s: State, t: State, height: Heights, l: Address, h: Hash, path: seq<Address>)
    requires Injective(sip) && Coherent(sip, s, height, {}, {}) && SameLinks(s, t) && s.rootHash == t.rootHash
    requires l in s.leaves && s.leaves[l].Slot? && IsPath(t, path) && path[0] == s.leaves[l].node
    requires Verifies(sip, t, l, h, path)
    ensures h == Values(s)[l]
  {
    assert Holds(s, s.leaves[l], LeafAt(l));
    SameHashes(sip, s, t, height, path, 0);
  }

  /** From the root down, nodes that verify hold what they held. */
  lemma {:induction false} SameHashes(sip: Sip, s: State, t: State, height: Heights, path: seq<Address>, k: nat)
    requires Injective(sip) && Coherent(sip, s, height, {}, {}) && SameLinks(s, t) && s.rootHash == t.rootHash
    requires IsPath(t, path) && k < |path| && forall j | 0 <= j < |path| :: HashOk(sip, t, path[j])
    ensures s.nodes[path[k]].hashes == t.nodes[path[k]].hashes
    decreases |path| - k
  {
    hide NodeOk;
    var n := path[k];
    SamePart(s, t, n);
    assert HashOk(sip, s, n) && HashOk(sip, t, n);
    if k + 1 < |path| {
      assert t.nodes[path[k]].place.node == path[k + 1];
      SameHashes(sip, s, t, height, path, k + 1);
    } else {
      RootPlace(s, height, {});
    }
  }

  lemma RootPlace(s: State, height: Heights, spare: set<Address>)
    requires Shape(s, height, spare)
    ensures s.nodes[s.root].place == Root
  {
    assert NodeOk(s, height, spare, s.root);
  }

  // ------------------------------------------------------------- adding and moving

  function WithChild(s: State, p: Address, i: nat, child: Child): map<Address, Node>
    requires p in s.nodes && i < |s.nodes[p].children|
  {
    s.nodes[p := s.nodes[p].(children := s.nodes[p].children[i := child])]
  }

  function AddLeaf(s: State, p: Address, i: nat, l: Address): State
    requires p in s.nodes && i < |s.nodes[p].children|
  {
    s.(nodes := WithChild(s, p, i, LeafAt(l)), leaves := s.leaves[l := Slot(p, i)])
  }

  ghost predicate Vacant(s: State, p: Address, i: nat) {
    p in s.nodes && i < |s.nodes[p].children| && s.nodes[p].children[i] == Nothing
  }

  lemma AddLeafShape(s: State, height: Heights, p: Address, i: nat, l: Address)
    requires Shape(s, height, {}) && Vacant(s, p, i) && height[p] == 0 && l !in s.leaves
    ensures Shape(AddLeaf(s, p, i, l), height, {})
  {
    var t := AddLeaf(s, p, i, l);
    forall n | n in t.nodes ensures NodeOk(t, height, {}, n) {
      assert NodeOk(s, height, {}, n);
      forall j | 0 <= j < NODE_SIZE ensures SlotOk(t, height, n, j) {
        assert SlotOk(s, height, n, j);
      }
      assert n == p ==> t.nodes[p].children[i] != Nothing;
    }
    forall k | k in t.leaves ensures Holds(t, t.leaves[k], LeafAt(k)) {
      assert k != l ==> Holds(s, s.leaves[k], LeafAt(k));
    }
  }

  /** A new leaf holds zero, and the hashes stay as they were. */
  lemma AddLeafKeeps(sip: Sip, s: State, height: Heights, stale: set<Address>, p: Address, i: nat, l: Address)
    requires Coherent(sip, s, height, {}, stale) && Vacant(s, p, i) && height[p] == 0 && l !in s.leaves
    ensures var t := AddLeaf(s, p, i, l); Coherent(sip, t, height, {}, stale) && Values(t) == Values(s)[l := 0]
  {
    hide NodeOk;
    var t := AddLeaf(s, p, i, l);
    AddLeafShape(s, height, p, i, l);
    assert ZerosAt(s.nodes[p]);
    forall n | n in t.nodes ensures ZerosAt(t.nodes[n]) {
      assert ZerosAt(s.nodes[n]);
    }
    forall n | n in t.nodes && n !in stale ensures HashOk(sip, t, n) {
      assert HashOk(sip, s, n);
    }
  }

  /** Puts a new node in slot `i` of `p`. */
  function AddNode(s: State, p: Address, i: nat): State
    requires p in s.nodes && i < |s.nodes[p].children|
  {
    s.(nodes := WithChild(s, p, i, NodeAt(s.next))[s.next := NewNode(Slot(p, i))], next := s.next + 1)
  }

  lemma AddNodeShape(s: State, height: Heights, p: Address, i: nat)
    requires Shape(s, height, {p}) && Vacant(s, p, i) && height[p] > 0
    ensures Shape(AddNode(s, p, i), height[s.next := height[p] - 1], {s.next})
  {
    var t, a := AddNode(s, p, i), s.next;
    var higher := height[a := height[p] - 1];
    assert NodeOk(s, height, {p}, p);
    NextIsNew(s, height, {p});
    forall n | n in t.nodes ensures NodeOk(t, higher, {a}, n) {
      if n != a { AddNodeOther(s, height, p, i, n); }
    }
    forall k | k in t.leaves ensures Holds(t, t.leaves[k], LeafAt(k)) {
      assert Holds(s, s.leaves[k], LeafAt(k));
      assert NodeOk(s, height, {p}, s.leaves[k].node);
    }
  }

  lemma AddNodeOther(s: State, height: Heights, p: Address, i: nat, n: Address)
    requires Shape(s, height, {p}) && Vacant(s, p, i) && height[p] > 0 && n in s.nodes
    ensures AddNode(s, p, i).nodes.Keys == height[s.next := height[p] - 1].Keys
    ensures NodeOk(AddNode(s, p, i), height[s.next := height[p] - 1], {s.next}, n)
  {
    var t, a := AddNode(s, p, i), s.next;
    var higher := height[a := height[p] - 1];
    assert NodeOk(s, height, {p}, n) && NodeOk(s, height, {p}, p);
    NextIsNew(s, height, {p});
    if n != s.root { assert NodeOk(s, height, {p}, s.nodes[n].place.node); }
    forall j | 0 <= j < NODE_SIZE ensures SlotOk(t, higher, n, j) {
      assert SlotOk(s, height, n, j);
      var c := s.nodes[n].children[j];
      if c.NodeAt? { assert NodeOk(s, height, {p}, c.node); }
    }
    assert n == p ==> t.nodes[p].children[i] != Nothing;
  }

  lemma AddNodePath(s: State, height: Heights, path: seq<Address>, p: Address, i: nat)
    requires Shape(s, height, {p}) && IsPath(s, path) && path[0] == p && Vacant(s, p, i)
    ensures IsPath(AddNode(s, p, i), [s.next] + path)
  {
    hide NodeOk;
    NextIsNew(s, height, {p});
  }

  /** A new node is stale at first. */
  lemma AddNodeKeeps(sip: Sip, s: State, height: Heights, path: seq<Address>, stale: set<Address>, p: Address, i: nat)
    requires Coherent(sip, s, height, {p}, stale) && IsPath(s, path) && path[0] == p
    requires Vacant(s, p, i) && height[p] > 0
    ensures var t := AddNode(s, p, i);
      && Coherent(sip, t, height[s.next := height[p] - 1], {s.next}, stale + {s.next})
      && IsPath(t, [s.next] + path) && Values(t) == Values(s) && Vacant(t, s.next, 0)
  {
    hide NodeOk, IsPath;
    var t, a := AddNode(s, p, i), s.next;
    AddNodeShape(s, height, p, i);
    AddNodePath(s, height, path, p, i);
    NextIsNew(s, height, {p});
    assert ZerosAt(s.nodes[p]);
    forall n | n in t.nodes ensures ZerosAt(t.nodes[n]) {
      assert n != a ==> ZerosAt(s.nodes[n]);
    }
    forall n | n in t.nodes && n !in stale + {a} ensures HashOk(sip, t, n) {
      assert HashOk(sip, s, n);
      PlaceHolds(s, height, {p}, n);
    }
    forall l | l in s.leaves ensures Stored(t, s.leaves[l]) == Stored(s, s.leaves[l]) {
      assert Holds(s, s.leaves[l], LeafAt(l));
    }
  }

  lemma NextIsNew(s: State, height: Heights, spare: set<Address>)
    requires Shape(s, height, spare)
    ensures s.next !in s.nodes
  {
    assert s.next in s.nodes ==> NodeOk(s, height, spare, s.next);
  }

  /** Puts a new root above a full one and keeps the old root's hash in it. */
  function Grow(s: State): State
    requires s.root in s.nodes
  {
    var top := NewNode(Root);
    var newRoot := top.(children := top.children[0 := NodeAt(s.root)], hashes := top.hashes[0 := s.rootHash], isRoot := true);
    s.(nodes := s.nodes[s.root := s.nodes[s.root].(place := Slot(s.next, 0), isRoot := false)][s.next := newRoot],
       root := s.next, next := s.next + 1)
  }

  lemma GrowNode(s: State, height: Heights, n: Address)
    requires Shape(s, height, {}) && !Empty(s.nodes[s.root]) && n in s.nodes
    ensures Grow(s).nodes.Keys == height[s.next := height[s.root] + 1].Keys
    ensures NodeOk(Grow(s), height[s.next := height[s.root] + 1], {}, n)
  {
    var t := Grow(s);
    var higher := height[s.next := height[s.root] + 1];
    NextIsNew(s, height, {});
    assert NodeOk(s, height, {}, n);
    forall j | 0 <= j < NODE_SIZE ensures SlotOk(t, higher, n, j) {
      assert SlotOk(s, height, n, j);
      var c := s.nodes[n].children[j];
      if c.NodeAt? { assert NodeOk(s, height, {}, c.node); }
    }
  }

  lemma GrowShape(s: State, height: Heights)
    requires Shape(s, height, {}) && !Empty(s.nodes[s.root])
    ensures Shape(Grow(s), height[s.next := height[s.root] + 1], {})
  {
    hide Empty;
    var t := Grow(s);
    var higher := height[s.next := height[s.root] + 1];
    NextIsNew(s, height, {});
    forall n | n in t.nodes ensures NodeOk(t, higher, {}, n) {
      if n == s.next { assert t.nodes[n].children[0] == NodeAt(s.root); } else { GrowNode(s, height, n); }
    }
    forall k | k in t.leaves ensures Holds(t, t.leaves[k], LeafAt(k)) {
      assert Holds(s, s.leaves[k], LeafAt(k));
    }
  }

  /** Only the new root becomes stale. */
  lemma GrowKeeps(sip: Sip, s: State, height: Heights, stale: set<Address>)
    requires Coherent(sip, s, height, {}, stale) && !Empty(s.nodes[s.root])
    ensures var t := Grow(s);
      && Coherent(sip, t, height[s.next := height[s.root] + 1], {}, stale + {s.next})
      && IsPath(t, [s.next]) && Values(t) == Values(s) && Vacant(t, s.next, 1)
  {
    hide SlotOk, Empty;
    var t, a := Grow(s), s.next;
    GrowShape(s, height);
    NextIsNew(s, height, {});
    forall n | n in t.nodes ensures ZerosAt(t.nodes[n]) {
      assert n != a ==> ZerosAt(s.nodes[n]);
    }
    forall n | n in t.nodes && n !in stale + {a} ensures HashOk(sip, t, n) {
      assert HashOk(sip, s, n) && NodeOk(s, height, {}, n);
    }
    forall l | l in s.leaves ensures Stored(t, s.leaves[l]) == Stored(s, s.leaves[l]) {
      assert Holds(s, s.leaves[l], LeafAt(l));
    }
  }

  /** Marks another node as the current one. */
  function SwitchCurr(s: State, n: Address): State
    requires n in s.nodes && s.curr in s.nodes
  {
    var cleared := s.nodes[s.curr := s.nodes[s.curr].(isCurr := false)];
    s.(nodes := cleared[n := cleared[n].(isCurr := true)], curr := n)
  }

  lemma SwitchCurrKeeps(sip: Sip, s: State, height: Heights, path: seq<Address>, stale: set<Address>, n: Address)
    requires Coherent(sip, s, height, {n}, stale) && IsPath(s, path) && n in s.nodes && height[n] == 0 && !Empty(s.nodes[s.curr])
    ensures var t := SwitchCurr(s, n); Coherent(sip, t, height, {}, stale) && IsPath(t, path) && Values(t) == Values(s)
  {
    hide Empty, NodeOk, Holds, Values;
    var t := SwitchCurr(s, n);
    SwitchCurrValues(s, n);
    SwitchCurrShape(s, height, n);
    forall m | m in t.nodes ensures ZerosAt(t.nodes[m]) {
      assert ZerosAt(s.nodes[m]);
    }
    forall m | m in t.nodes && m !in stale ensures HashOk(sip, t, m) {
      assert HashOk(sip, s, m);
    }
  }

  lemma SwitchCurrValues(s: State, n: Address)
    requires n in s.nodes && s.curr in s.nodes
    ensures Values(SwitchCurr(s, n)) == Values(s)
  {
    var t := SwitchCurr(s, n);
    forall l | l in s.leaves ensures Stored(t, s.leaves[l]) == Stored(s, s.leaves[l]) {
    }
  }

  lemma SwitchCurrShape(s: State, height: Heights, n: Address)
    requires Shape(s, height, {n}) && n in s.nodes && height[n] == 0 && !Empty(s.nodes[s.curr])
    ensures Shape(SwitchCurr(s, n), height, {})
  {
    hide Empty, NodeOk;
    var t := SwitchCurr(s, n);
    forall m | m in t.nodes ensures NodeOk(t, height, {}, m) {
      SwitchCurrNode(s, height, n, m);
    }
    forall l | l in t.leaves ensures Holds(t, t.leaves[l], LeafAt(l)) {
      assert Holds(s, s.leaves[l], LeafAt(l));
    }
  }

  lemma SwitchCurrNode(s: State, height: Heights, n: Address, m: Address)
    requires Shape(s, height, {n}) && n in s.nodes && m in s.nodes && !Empty(s.nodes[s.curr])
    ensures NodeOk(SwitchCurr(s, n), height, {}, m)
  {
    var t := SwitchCurr(s, n);
    assert NodeOk(s, height, {n}, m);
    forall j | 0 <= j < NODE_SIZE ensures SlotOk(t, height, m, j) {
      assert SlotOk(s, height, m, j);
    }
  }

  /** Another leaf takes over a leaf's place. */
  function MoveLeaf(s: State, from: Address, to: Address): State
    requires from in s.leaves && Holds(s, s.leaves[from], LeafAt(from))
  {
    var place := s.leaves[from];
    s.(nodes := WithChild(s, place.node, place.index, LeafAt(to)), leaves := (s.leaves - {from})[to := place])
  }

  /** The value moves with the place. */
  lemma MoveLeafKeeps(sip: Sip, s: State, height: Heights, stale: set<Address>, from: Address, to: Address)
    requires Coherent(sip, s, height, {}, stale) && from in s.leaves && to !in s.leaves
    ensures Holds(s, s.leaves[from], LeafAt(from))
    ensures var t := MoveLeaf(s, from, to);
      Coherent(sip, t, height, {}, stale) && Values(t) == (Values(s) - {from})[to := Values(s)[from]]
  {
    hide NodeOk, Values;
    assert Holds(s, s.leaves[from], LeafAt(from));
    var t := MoveLeaf(s, from, to);
    MoveLeafShape(s, height, from, to);
    MoveLeafValues(s, from, to);
    forall m | m in t.nodes ensures ZerosAt(t.nodes[m]) {
      assert ZerosAt(s.nodes[m]);
    }
    forall m | m in t.nodes && m !in stale ensures HashOk(sip, t, m) {
      assert HashOk(sip, s, m);
    }
  }

  lemma MoveLeafValues(s: State, from: Address, to: Address)
    requires from in s.leaves && to !in s.leaves && Holds(s, s.leaves[from], LeafAt(from))
    ensures Values(MoveLeaf(s, from, to)) == (Values(s) - {from})[to := Values(s)[from]]
  {
    var t := MoveLeaf(s, from, to);
    forall l | l in t.leaves ensures Stored(t, t.leaves[l]) == Stored(s, t.leaves[l]) {
    }
  }

  lemma MoveLeafShape(s: State, height: Heights, from: Address, to: Address)
    requires Shape(s, height, {}) && from in s.leaves && to !in s.leaves && Holds(s, s.leaves[from], LeafAt(from))
    ensures Shape(MoveLeaf(s, from, to), height, {})
  {
    hide NodeOk;
    var t := MoveLeaf(s, from, to);
    forall m | m in t.nodes ensures NodeOk(t, height, {}, m) {
      MoveLeafNode(s, height, from, to, m);
    }
    forall l | l in t.leaves ensures Holds(t, t.leaves[l], LeafAt(l)) {
      assert l != to ==> Holds(s, s.leaves[l], LeafAt(l));
    }
  }

  lemma MoveLeafNode(s: State, height: Heights, from: Address, to: Address, m: Address)
    requires Shape(s, height, {}) && from in s.leaves && to !in s.leaves && m in s.nodes
    requires Holds(s, s.leaves[from], LeafAt(from))
    ensures NodeOk(MoveLeaf(s, from, to), height, {}, m)
  {
    var t, place := MoveLeaf(s, from, to), s.leaves[from];
    assert NodeOk(s, height, {}, m) && NodeOk(s, height, {}, place.node);
    assert t.nodes[place.node].children[place.index] != Nothing;
    assert SlotOk(s, height, place.node, place.index);
    forall j | 0 <= j < NODE_SIZE ensures SlotOk(t, height, m, j) {
      assert SlotOk(s, height, m, j);
    }
    if Empty(t.nodes[m]) && m != place.node { assert t.nodes[m] == s.nodes[m]; }
  }

  // --------------------------------------------------------------------- removing

  /** Empties a slot and zeroes its hash. */
  function Cleared(n: Node, i: nat): Node
    requires i < |n.children| && i < |n.hashes|
  {
    n.(children := n.children[i := Nothing], hashes := n.hashes[i := 0])
  }

  predicate Clearable(s: State, place: Place) {
    && place.Slot? && place.node in s.nodes
    && place.index < |s.nodes[place.node].children| && place.index < |s.nodes[place.node].hashes|
  }

  function DropLeaf(s: State, l: Address): State
    requires l in s.leaves && Clearable(s, s.leaves[l])
  {
    var place := s.leaves[l];
    s.(nodes := s.nodes[place.node := Cleared(s.nodes[place.node], place.index)], leaves := s.leaves - {l})
  }

  lemma DropLeafNode(s: State, height: Heights, l: Address, n: Address)
    requires Shape(s, height, {}) && l in s.leaves && Clearable(s, s.leaves[l]) && n in s.nodes
    ensures NodeOk(DropLeaf(s, l), height, {s.leaves[l].node}, n)
  {
    var t, place := DropLeaf(s, l), s.leaves[l];
    assert NodeOk(s, height, {}, n) && Holds(s, place, LeafAt(l));
    forall j | 0 <= j < NODE_SIZE ensures SlotOk(t, height, n, j) {
      assert SlotOk(s, height, n, j);
    }
  }

  lemma DropLeafShape(s: State, height: Heights, l: Address)
    requires Shape(s, height, {}) && l in s.leaves && Clearable(s, s.leaves[l])
    ensures Shape(DropLeaf(s, l), height, {s.leaves[l].node})
  {
    hide NodeOk;
    var t, place := DropLeaf(s, l), s.leaves[l];
    forall n | n in t.nodes ensures NodeOk(t, height, {place.node}, n) {
      DropLeafNode(s, height, l, n);
    }
    assert Holds(s, place, LeafAt(l));
    forall k | k in t.leaves ensures Holds(t, t.leaves[k], LeafAt(k)) {
      assert Holds(s, s.leaves[k], LeafAt(k));
    }
  }

  /** Taking a leaf out makes no node stale but the one it was in. */
  lemma DropLeafKeeps(sip: Sip, s: State, height: Heights, stale: set<Address>, l: Address, path: seq<Address>)
    requires Coherent(sip, s, height, {}, stale) && l in s.leaves && Clearable(s, s.leaves[l])
    requires IsPath(s, path) && path[0] == s.leaves[l].node
    ensures var t := DropLeaf(s, l);
      Coherent(sip, t, height, {path[0]}, stale + {path[0]}) && IsPath(t, path) && Values(t) == Values(s) - {l}
  {
    hide NodeOk;
    var t, place := DropLeaf(s, l), s.leaves[l];
    DropLeafShape(s, height, l);
    assert Holds(s, place, LeafAt(l));
    forall n | n in t.nodes ensures ZerosAt(t.nodes[n]) {
      assert ZerosAt(s.nodes[n]);
    }
    forall n | n in t.nodes && n !in stale + {path[0]} ensures HashOk(sip, t, n) {
      assert HashOk(sip, s, n);
      PlaceHolds(s, height, {}, n);
    }
    forall k | k in t.leaves ensures Stored(t, t.leaves[k]) == Stored(s, s.leaves[k]) {
      assert Holds(s, s.leaves[k], LeafAt(k));
    }
  }

  function DropNode(s: State, c: Address): State
    requires c in s.nodes && Clearable(s, s.nodes[c].place)
  {
    var place := s.nodes[c].place;
    s.(nodes := s.nodes[place.node := Cleared(s.nodes[place.node], place.index)] - {c})
  }

  /** `c` is an empty node that nothing refers to but its parent. */
  ghost predicate Prunable(s: State, height: Heights, c: Address) {
    && c in s.nodes && Shape(s, height, {c}) && Empty(s.nodes[c]) && c != s.root && c != s.curr
    && Clearable(s, s.nodes[c].place)
  }

  lemma DropNodeNode(s: State, height: Heights, c: Address, n: Address)
    requires Prunable(s, height, c) && n in s.nodes && n != c
    ensures DropNode(s, c).nodes.Keys == (height - {c}).Keys
    ensures NodeOk(DropNode(s, c), height - {c}, {s.nodes[c].place.node}, n)
  {
    var t, place := DropNode(s, c), s.nodes[c].place;
    assert NodeOk(s, height, {c}, n) && NodeOk(s, height, {c}, c);
    HeightUp(s, height, {c}, c);
    forall j | 0 <= j < NODE_SIZE ensures SlotOk(t, height - {c}, n, j) {
      assert SlotOk(s, height, n, j);
    }
  }

  lemma DropNodeShape(s: State, height: Heights, c: Address)
    requires Prunable(s, height, c)
    ensures Shape(DropNode(s, c), height - {c}, {s.nodes[c].place.node})
  {
    hide NodeOk;
    var t, place := DropNode(s, c), s.nodes[c].place;
    HeightUp(s, height, {c}, c);
    forall n | n in t.nodes ensures NodeOk(t, height - {c}, {place.node}, n) {
      DropNodeNode(s, height, c, n);
    }
    forall k | k in t.leaves ensures Holds(t, t.leaves[k], LeafAt(k)) {
      assert Holds(s, s.leaves[k], LeafAt(k));
    }
  }

  /** Pruning an empty node changes no value and makes no node stale but the one above. */
  lemma DropNodeKeeps(sip: Sip, s: State, height: Heights, stale: set<Address>, c: Address, path: seq<Address>)
    requires Prunable(s, height, c) && Coherent(sip, s, height, {c}, stale) && IsPath(s, [c] + path) && path != []
    ensures var t := DropNode(s, c);
      Coherent(sip, t, height - {c}, {path[0]}, stale + {path[0]}) && IsPath(t, path) && Values(t) == Values(s)
  {
    hide NodeOk;
    var t, place := DropNode(s, c), s.nodes[c].place;
    DropNodeShape(s, height, c);
    DropNodePath(s, height, c, path);
    HeightUp(s, height, {c}, c);
    forall n | n in t.nodes ensures ZerosAt(t.nodes[n]) {
      assert ZerosAt(s.nodes[n]);
    }
    forall n | n in t.nodes && n !in stale + {path[0]} ensures HashOk(sip, t, n) {
      assert HashOk(sip, s, n);
      PlaceHolds(s, height, {c}, n);
    }
    forall k | k in t.leaves ensures Stored(t, t.leaves[k]) == Stored(s, s.leaves[k]) {
      assert Holds(s, s.leaves[k], LeafAt(k));
    }
  }

  lemma DropNodePath(s: State, height: Heights, c: Address, path: seq<Address>)
    requires Prunable(s, height, c) && IsPath(s, [c] + path) && path != []
    ensures path[0] == s.nodes[c].place.node && IsPath(DropNode(s, c), path)
  {
    PathStep(s, height, {c}, [c] + path);
    assert ([c] + path)[1..] == path;
    forall k | 0 <= k < |path| ensures path[k] != c {
      PathHeight(s, height, {c}, path, k);
      HeightUp(s, height, {c}, c);
    }
  }

  lemma FlagsTell(s: State, height: Heights, spare: set<Address>, n: Address)
    requires Shape(s, height, spare) && n in s.nodes
    ensures (s.nodes[n].isRoot <==> n == s.root) && (s.nodes[n].isCurr <==> n == s.curr)
  {
    assert NodeOk(s, height, spare, n);
  }

  /** A leaf is in one slot only. */
  lemma OnePlace(s: State, height: Heights, p: Address, i: nat, l: Address)
    requires Shape(s, height, {}) && p in s.nodes && i < |s.nodes[p].children| && s.nodes[p].children[i] == LeafAt(l)
    ensures l in s.leaves && s.leaves[l] == Slot(p, i)
  {
    assert NodeOk(s, height, {}, p) && SlotOk(s, height, p, i);
  }

  lemma FullIsNotEmpty(s: State, height: Heights, spare: set<Address>, n: Address)
    requires Shape(s, height, spare) && n in s.nodes && Full(s.nodes[n])
    ensures !Empty(s.nodes[n])
  {
    assert NodeOk(s, height, spare, n);
    assert s.nodes[n].children[0] != Nothing;
  }

  lemma SpareMore(sip: Sip, s: State, height: Heights, n: Address, stale: set<Address>)
    requires Coherent(sip, s, height, {}, stale)
    ensures Coherent(sip, s, height, {n}, stale)
  {
    forall m | m in s.nodes ensures NodeOk(s, height, {n}, m) {
      assert NodeOk(s, height, {}, m);
    }
  }

  /** Spare nodes that are not empty, or may be, need no exception. */
  lemma SpareLess(sip: Sip, s: State, height: Heights, n: Address, stale: set<Address>)
    requires Coherent(sip, s, height, {n}, stale)
    requires n in s.nodes ==> n == s.root || n == s.curr || !Empty(s.nodes[n])
    ensures Coherent(sip, s, height, {}, stale)
  {
    forall m | m in s.nodes ensures NodeOk(s, height, {}, m) {
      assert NodeOk(s, height, {n}, m);
    }
  }

  // ---------------------------------------------------- leaves that await an update

  /** `chain` leads from node `from` up to node `to`. */
  ghost predicate Leads(s: State, from: Address, to: Address, chain: seq<Address>) {
    && chain != [] && chain[0] == from && chain[|chain| - 1] == to
    && (forall k | 0 <= k < |chain| :: chain[k] in s.nodes)
    && (forall k | 0 <= k < |chain| - 1 :: s.nodes[chain[k]].place.Slot? && s.nodes[chain[k]].place.node == chain[k + 1])
  }

  /** Node `n` is above leaf `l`. */
  ghost predicate Above(s: State, l: Address, n: Address) {
    l in s.leaves && s.leaves[l].Slot? && exists chain :: Leads(s, s.leaves[l].node, n, chain)
  }

  ghost predicate AboveSome(s: State, ls: set<Address>, n: Address) {
    exists l :: l in ls && Above(s, l, n)
  }

  /** Every stale node is above one of the leaves `ls`. */
  ghost predicate Covered(s: State, ls: set<Address>, stale: set<Address>) {
    ls <= s.leaves.Keys && forall n | n in stale :: AboveSome(s, ls, n)
  }

  /** `b` has all of `a`'s parts, each where it was; the root may have got a parent. */
  ghost predicate Extends(a: State, b: State) {
    && a.nodes.Keys <= b.nodes.Keys && a.leaves.Keys <= b.leaves.Keys
    && (forall n | n in a.nodes && a.nodes[n].place.Slot? :: b.nodes[n].place == a.nodes[n].place)
    && (forall l | l in a.leaves :: b.leaves[l] == a.leaves[l])
  }

  lemma LinksExtend(a: State, b: State)
    requires SameLinks(a, b)
    ensures Extends(a, b)
  {
    forall n | n in a.nodes ensures b.nodes[n].place == a.nodes[n].place {
      SamePart(a, b, n);
    }
  }

  lemma AboveStays(a: State, b: State, l: Address, n: Address)
    requires Extends(a, b) && Above(a, l, n)
    ensures Above(b, l, n)
  {
    var chain :| Leads(a, a.leaves[l].node, n, chain);
    assert Leads(b, b.leaves[l].node, n, chain);
  }

  lemma CoveredStays(a: State, b: State, ls: set<Address>, stale: set<Address>)
    requires Extends(a, b) && Covered(a, ls, stale)
    ensures Covered(b, ls, stale)
  {
    hide Extends, Above;
    forall n | n in stale ensures AboveSome(b, ls, n) {
      assert AboveSome(a, ls, n);
      var l :| l in ls && Above(a, l, n);
      AboveStays(a, b, l, n);
    }
    assert ls <= b.leaves.Keys by { LeavesStay(a, b); }
  }

  lemma LeavesStay(a: State, b: State)
    requires Extends(a, b)
    ensures a.leaves.Keys <= b.leaves.Keys
  {
  }

  /** The nodes on the path from a leaf are above it, and no others are. */
  lemma PathIsAbove(s: State, l: Address, path: seq<Address>, n: Address)
    requires l in s.leaves && s.leaves[l].Slot? && IsPath(s, path) && path[0] == s.leaves[l].node && n in path
    ensures Above(s, l, n)
  {
    var k :| 0 <= k < |path| && path[k] == n;
    assert Leads(s, s.leaves[l].node, n, path[..k + 1]);
  }

  lemma AboveIsOnPath(s: State, height: Heights, spare: set<Address>, l: Address, path: seq<Address>, n: Address)
    requires Shape(s, height, spare) && Above(s, l, n) && IsPath(s, path) && path[0] == s.leaves[l].node
    ensures n in path
  {
    var chain :| Leads(s, s.leaves[l].node, n, chain);
    ChainOnPath(s, height, spare, path, chain, n);
  }

  lemma {:induction false} ChainOnPath(s: State, height: Heights, spare: set<Address>, path: seq<Address>, chain: seq<Address>, n: Address)
    requires Shape(s, height, spare) && IsPath(s, path) && Leads(s, path[0], n, chain)
    ensures n in path
    decreases |chain|
  {
    hide NodeOk, Holds;
    if |chain| > 1 {
      assert s.nodes[chain[0]].place.node == chain[0 + 1];
      PathStep(s, height, spare, path);
      var rest := chain[1..];
      forall k | 0 <= k < |rest| - 1 ensures s.nodes[rest[k]].place.Slot? && s.nodes[rest[k]].place.node == rest[k + 1] {
        assert s.nodes[chain[k + 1]].place.node == chain[k + 1 + 1];
      }
      ChainOnPath(s, height, spare, path[1..], rest, n);
    }
  }

  /** Of the stale nodes those not on a leaf's path are above another leaf. */
  lemma CoveredOffPath(s: State, height: Heights, spare: set<Address>, ls: set<Address>, stale: set<Address>, l: Address, path: seq<Address>)
    requires Shape(s, height, spare) && Covered(s, ls, stale) && l in s.leaves && IsPath(s, path) && s.leaves[l].Slot? && path[0] == s.leaves[l].node
    ensures Covered(s, ls - {l}, stale - Along(path))
  {
    hide Shape, Above, IsPath;
    forall n | n in stale - Along(path) ensures AboveSome(s, ls - {l}, n) {
      assert AboveSome(s, ls, n);
      var k :| k in ls && Above(s, k, n);
      if k == l { AboveIsOnPath(s, height, spare, l, path, n); }
    }
  }

  /** A new leaf covers the nodes on its path. */
  lemma CoveredByNew(s: State, t: State, ls: set<Address>, stale: set<Address>, l: Address, path: seq<Address>)
    requires Covered(s, ls, stale) && Extends(s, t)
    requires l in t.leaves && t.leaves[l].Slot? && IsPath(t, path) && path[0] == t.leaves[l].node
    ensures Covered(t, ls + {l}, stale + Along(path))
  {
    hide Extends, Above, IsPath;
    CoveredStays(s, t, ls, stale);
    forall n | n in stale + Along(path) ensures AboveSome(t, ls + {l}, n) {
      if n in stale {
        assert AboveSome(t, ls, n);
      } else {
        PathIsAbove(t, l, path, n);
      }
    }
  }

  function Renamed(ls: set<Address>, from: Address, to: Address): set<Address> {
    if from in ls then ls - {from} + {to} else ls
  }

  lemma CoveredMoved(s: State, ls: set<Address>, stale: set<Address>, from: Address, to: Address)
    requires Covered(s, ls, stale) && from in s.leaves && to !in s.leaves && Holds(s, s.leaves[from], LeafAt(from))
    ensures Covered(MoveLeaf(s, from, to), Renamed(ls, from, to), stale)
  {
    var t := MoveLeaf(s, from, to);
    forall n | n in stale ensures AboveSome(t, Renamed(ls, from, to), n) {
      assert AboveSome(s, ls, n);
      var l :| l in ls && Above(s, l, n);
      var chain :| Leads(s, s.leaves[l].node, n, chain);
      var l' := if l == from then to else l;
      assert Leads(t, t.leaves[l'].node, n, chain);
      assert Above(t, l', n);
    }
  }

  /** Nodes keep their places when a leaf is taken out. */
  lemma CoveredDropLeaf(s: State, ls: set<Address>, stale: set<Address>, l: Address)
    requires Covered(s, ls, stale) && l in s.leaves && l !in ls && Clearable(s, s.leaves[l])
    ensures Covered(DropLeaf(s, l), ls, stale)
  {
    var t := DropLeaf(s, l);
    forall n | n in stale ensures AboveSome(t, ls, n) {
      assert AboveSome(s, ls, n);
      var k :| k in ls && Above(s, k, n);
      var chain :| Leads(s, s.leaves[k].node, n, chain);
      assert Leads(t, t.leaves[k].node, n, chain);
      assert Above(t, k, n);
    }
  }

  /** An empty node is above no leaf. */
  lemma ChainAvoids(s: State, height: Heights, c: Address, l: Address, n: Address, chain: seq<Address>, k: nat)
    requires Shape(s, height, {c}) && c in s.nodes && Empty(s.nodes[c]) && l in s.leaves && s.leaves[l].Slot?
    requires Leads(s, s.leaves[l].node, n, chain) && k < |chain|
    ensures chain[k] != c
  {
    hide NodeOk;
    if k == 0 {
      assert Holds(s, s.leaves[l], LeafAt(l));
    } else {
      assert s.nodes[chain[k - 1]].place.node == chain[k - 1 + 1];
      if chain[k - 1] == s.root {
        RootPlace(s, height, {c});
      } else {
        HeightUp(s, height, {c}, chain[k - 1]);
      }
    }
  }

  lemma CoveredDropNode(s: State, height: Heights, ls: set<Address>, stale: set<Address>, c: Address)
    requires Prunable(s, height, c) && Covered(s, ls, stale)
    ensures Covered(DropNode(s, c), ls, stale)
  {
    hide Shape, Empty;
    var t := DropNode(s, c);
    forall n | n in stale ensures AboveSome(t, ls, n) {
      assert AboveSome(s, ls, n);
      var k :| k in ls && Above(s, k, n);
      var chain :| Leads(s, s.leaves[k].node, n, chain);
      forall j | 0 <= j < |chain| ensures chain[j] != c {
        ChainAvoids(s, height, c, k, n, chain, j);
      }
      assert Leads(t, t.leaves[k].node, n, chain);
      assert Above(t, k, n);
    }
  }

  lemma ValueKeys(s: State)
    ensures Values(s).Keys == s.leaves.Keys
  {
  }

  lemma LinksTrans(a: State, b: State, c: State)
    requires SameLinks(a, b) && SameLinks(b, c)
    ensures SameLinks(a, c)
  {
  }

  lemma ExtendsSelf(a: State)
    ensures Extends(a, a)
  {
  }

  lemma ExtendsTrans(a: State, b: State, c: State)
    requires Extends(a, b) && Extends(b, c)
    ensures Extends(a, c)
  {
  }

  lemma SwitchExtends(s: State, n: Address)
    requires n in s.nodes && s.curr in s.nodes
    ensures Extends(s, SwitchCurr(s, n))
  {
  }

  lemma AddLeafExtends(a: State, s: State, p: Address, i: nat, l: Address)
    requires Extends(a, s) && l !in a.leaves && p in s.nodes && i < |s.nodes[p].children|
    ensures Extends(a, AddLeaf(s, p, i, l))
  {
  }

  /** More nodes may be taken for stale than are. */
  lemma MoreStale(sip: Sip, s: State, height: Heights, spare: set<Address>, stale: set<Address>, path: seq<Address>)
    requires Coherent(sip, s, height, spare, stale)
    ensures Coherent(sip, s, height, spare, stale + Along(path))
  {
  }

  lemma NotWaiting(s: State, ls: set<Address>, stale: set<Address>, l: Address)
    requires Covered(s, ls, stale) && l !in s.leaves
    ensures ls - {l} == ls && Values(s) - {l} == Values(s)
  {
  }

  // --------------------------------------------------------------------- the tree

  class Tree {
    const sip: Sip
    var nodes: map<Address, Node>
    var leaves: map<Address, Place>
    var root: Address
    var curr: Address
    var rootHash: Hash
    var next: Address
    ghost var height: Heights

    /** Leaves that have been created and not been updated yet. */
    ghost var awaiting: set<Address>

    function View(): State
      reads this
    {
      State(nodes, leaves, root, curr, rootHash, next)
    }

    ghost predicate Partly(spare: set<Address>, stale: set<Address>)
      reads this
    {
      Coherent(sip, View(), height, spare, stale)
    }

    ghost function AsPlain(): Plain
      reads this
    {
      Plain(Values(View()), awaiting)
    }

    ghost predicate Awaits(stale: set<Address>)
      reads this
    {
      Partly({}, stale) && Covered(View(), awaiting, stale)
    }

    /** Everything is in order but for hashes above leaves that await their update. */
    ghost predicate Sound()
      reads this
    {
      exists stale :: Awaits(stale)
    }

    ghost predicate Valid()
      reads this
    {
      Sound() && awaiting == {}
    }

    /** With no leaf waiting no hash is stale. */
    lemma ValidMeans()
      requires Valid()
      ensures Partly({}, {})
    {
      var stale :| Awaits(stale);
      assert forall n | n in stale :: AboveSome(View(), awaiting, n);
      assert forall n :: !AboveSome(View(), {}, n);
      assert stale == {};
    }

    /** A tree starts as one empty node. */
    constructor (sip: Sip)
      ensures Valid() && Values(View()) == map[] && |nodes| == 1 && this.sip == sip
    {
      this.sip := sip;
      var n := NewNode(Root).(isRoot := true, isCurr := true);
      nodes, leaves, root, curr, next := map[0 := n], map[], 0, 0, 1;
      rootHash := sip(n.hashes);
      height, awaiting := map[0 := 0], {};
      new;
      assert Awaits({});
    }

    /** Writes the hash of the part kept at `place`. */
    method Store(place: Place, h: Hash)
      requires Writable(View(), place)
      modifies this`nodes, this`rootHash
      ensures View() == WithHash(old(View()), place, h)
    {
      match place
      case Root => rootHash := h;
      case Slot(p, i) => nodes := nodes[p := nodes[p].(hashes := nodes[p].hashes[i := h])];
    }

    /** Recomputes the hashes from `n` up to the root.  They are then right, the others
        are as they were, and no leaf's value changes. */
    method UpdateNode(n: Address, ghost spare: set<Address>, ghost path: seq<Address>, ghost stale: set<Address>)
      requires Partly(spare, stale) && IsPath(View(), path) && path[0] == n
      modifies this`nodes, this`rootHash
      ensures Partly(spare, stale - Along(path)) && SameLinks(old(View()), View()) && Values(View()) == old(Values(View()))
      decreases |path|
    {
      hide Shape, Zeros, HashesOkBut, Values;
      ghost var s := View();
      PathStep(s, height, spare, path);
      PlaceHolds(s, height, spare, n);
      HashesAreSized(s, nodes[n].place, NodeAt(n));
      StoreStep(sip, s, height, spare, path, stale);
      var place := nodes[n].place;
      Store(place, sip(nodes[n].hashes));
      assert path == [n] + path[1..];
      if place.Slot? {
        PathKeeps(s, View(), path[1..]);
        UpdateNode(place.node, spare, path[1..], stale - {n} + Along(path[1..]));
        assert stale - {n} + Along(path[1..]) - Along(path[1..]) == stale - Along(path);
      } else {
        assert stale - {n} + Along(path[1..]) == stale - Along(path);
      }
    }

    /** Gives a leaf its value, and repairs what creating the leaf left stale. */
    method Update(l: Address, h: Hash)
      requires Sound() && l in Values(View())
      modifies this`nodes, this`rootHash, this`awaiting
      ensures Sound() && awaiting == old(awaiting) - {l}
      ensures Values(View()) == old(Values(View()))[l := h] && SameLinks(old(View()), View())
    {
      ValueKeys(View());
      hide Shape, Zeros, HashesOkBut, Values, Covered, SameLinks;
      ghost var stale :| Awaits(stale);
      ghost var s := View();
      LeafHeld(s, height, {}, l);
      var place := leaves[l];
      ghost var path := PathUp(s, height, {}, place.node);
      CoveredOffPath(s, height, {}, awaiting, stale, l, path);
      LeafWrite(sip, s, height, l, h, stale);
      Store(place, h);
      PathKeeps(s, View(), path);
      ghost var t := View();
      UpdateNode(place.node, {}, path, stale + {place.node});
      assert stale + {place.node} - Along(path) == stale - Along(path);
      awaiting := awaiting - {l};
      LinksTrans(s, t, View());
      LinksExtend(s, View());
      CoveredStays(s, View(), awaiting, stale - Along(path));
      assert Awaits(stale - Along(path));
    }

    /** Asks no more of the tree than that its links are whole, so that it can find
        out whether the hashes are. */
    method Verify(l: Address, h: Hash, ghost path: seq<Address>) returns (ok: bool)
      requires Shape(View(), height, {}) && Sized(View())
      requires l in leaves && leaves[l].Slot? && IsPath(View(), path) && path[0] == leaves[l].node
      ensures ok <==> Verifies(sip, View(), l, h, path)
    {
      hide NodeOk, HashOk;
      assert Holds(View(), leaves[l], LeafAt(l));
      var place := leaves[l];
      if nodes[place.node].hashes[place.index] != h { return false; }
      ghost var rest := path;
      while place.Slot?
        invariant place.Slot? ==> IsPath(View(), rest) && rest[0] == place.node
        invariant rest == path[|path| - |rest|..] && |rest| <= |path| && (place.Slot? <==> rest != [])
        invariant forall k | 0 <= k < |path| - |rest| :: HashOk(sip, View(), path[k])
        decreases |rest|
      {
        ok := CheckNode(place.node);
        assert rest[0] == path[|path| - |rest|];
        if !ok { return false; }
        PathStep(View(), height, {}, rest);
        place := nodes[place.node].place;
        rest := rest[1..];
      }
      return true;
    }

    /** In a valid tree a leaf verifies exactly against the value last given to it. */
    method Confirm(l: Address, h: Hash) returns (ok: bool)
      requires Valid() && l in Values(View())
      ensures ok <==> h == Values(View())[l]
    {
      ValidMeans();
      hide Zeros, HashesOkBut, NodeOk, Verifies, Sound;
      ghost var s := View();
      LeafHeld(s, height, {}, l);
      ghost var path := PathUp(s, height, {}, s.leaves[l].node);
      ValidVerifies(sip, s, height, l, h, path);
      ok := Verify(l, h, path);
    }

    /** Where the allocator puts the next leaf. */
    method NewAddress() returns (l: Address)
      ensures l !in Values(View())
    {
      l := 0;
      ghost var seen: set<Address> := {};
      while l in leaves
        invariant forall k | k in seen :: k < l
        decreases leaves.Keys - seen
      {
        assert l in leaves.Keys - seen;
        seen := seen + {l};
        l := l + 1;
      }
    }

    /** Compares a node's hash with the one kept for it. */
    method CheckNode(n: Address) returns (ok: bool)
      requires Shape(View(), height, {}) && Sized(View()) && n in nodes
      ensures ok <==> HashOk(sip, View(), n)
    {
      PlaceHolds(View(), height, {}, n);
      match nodes[n].place
      case Root => return sip(nodes[n].hashes) == rootHash;
      case Slot(p, i) => return sip(nodes[n].hashes) == nodes[p].hashes[i];
    }

    /** The first slot holding `child`. */
    method Find(n: Address, child: Child) returns (i: nat)
      requires n in nodes && exists k :: 0 <= k < |nodes[n].children| && nodes[n].children[k] == child
      ensures i < |nodes[n].children| && nodes[n].children[i] == child
      ensures forall k | 0 <= k < i :: nodes[n].children[k] != child
    {
      i := 0;
      while nodes[n].children[i] != child
        invariant i < |nodes[n].children|
        invariant forall k | 0 <= k < i :: nodes[n].children[k] != child
        decreases |nodes[n].children| - i
      {
        i := i + 1;
      }
    }

    // ------------------------------------------------------------------ growing

    /** The lowest node with a free slot, going up from the current node; the root if
        all are full. */
    method Climb() returns (n: Address, i: nat)
      requires Shape(View(), height, {})
      ensures n in nodes && height[n] == i && (Full(nodes[n]) ==> n == root)
      ensures Full(nodes[curr]) || n == curr
    {
      n, i := curr, 0;
      while n != root && Full(nodes[n])
        invariant n in nodes && height[n] == i && (Full(nodes[curr]) || n == curr)
        invariant i <= height[root]
        decreases height[root] - i
      {
        HeightUp(View(), height, {}, n);
        n, i := nodes[n].place.node, i + 1;
        assert NodeOk(View(), height, {}, n);
      }
    }

    method MakeRoot(ghost stale: set<Address>)
      requires Partly({}, stale) && Full(nodes[root])
      modifies this`nodes, this`root, this`next, this`height
      ensures Partly({}, stale + {root}) && IsPath(View(), [root]) && Values(View()) == old(Values(View()))
      ensures !Full(nodes[root]) && height[root] == old(height[root]) + 1
      ensures curr == old(curr) && nodes[curr].children == old(nodes[curr].children)
      ensures Extends(old(View()), View())
    {
      hide NodeOk;
      FullIsNotEmpty(View(), height, {}, root);
      NextIsNew(View(), height, {});
      RootPlace(View(), height, {});
      GrowKeeps(sip, View(), height, stale);
      var top := NewNode(Root);
      var newRoot := top.(children := top.children[0 := NodeAt(root)], hashes := top.hashes[0 := rootHash], isRoot := true);
      height := height[next := height[root] + 1];
      nodes := nodes[root := nodes[root].(place := Slot(next, 0), isRoot := false)][next := newRoot];
      root, next := next, next + 1;
    }

    method NewChild(p: Address, ghost path: seq<Address>, ghost stale: set<Address>) returns (n: Address)
      requires Partly({p}, stale) && IsPath(View(), path) && path[0] == p && !Full(nodes[p]) && height[p] > 0
      modifies this`nodes, this`next, this`height
      ensures Partly({n}, stale + {n}) && IsPath(View(), [n] + path) && Values(View()) == old(Values(View()))
      ensures n in nodes && n in height && !Full(nodes[n]) && height[n] + 1 == old(height[p])
      ensures curr == old(curr) && nodes[curr].children == old(nodes[curr].children)
      ensures Extends(old(View()), View())
    {
      hide NodeOk;
      var i := Find(p, Nothing);
      NextIsNew(View(), height, {p});
      AddNodeKeeps(sip, View(), height, path, stale, p, i);
      height := height[next := height[p] - 1];
      nodes := nodes[p := nodes[p].(children := nodes[p].children[i := NodeAt(next)])][next := NewNode(Slot(p, i))];
      n, next := next, next + 1;
    }

    /** The node for the next leaf.  It always has room, it is the current node, and
        its height is that of all nodes with leaves: the branch built down to it is
        as deep as the climb was high. */
    method CurrentWithSpace(ghost stale: set<Address>) returns (n: Address, ghost path: seq<Address>)
      requires Partly({}, stale)
      modifies this`nodes, this`root, this`curr, this`next, this`height
      ensures Partly({}, stale + Along(path)) && IsPath(View(), path) && path[0] == n && Values(View()) == old(Values(View()))
      ensures n == curr && !Full(nodes[n]) && Extends(old(View()), View())
    {
      hide NodeOk, Zeros, Values, Extends, HashOk;
      var i: nat;
      n, i := Climb();
      path := PathUp(View(), height, {}, n);
      ExtendsSelf(View());
      if Full(nodes[n]) {
        MakeRoot(stale);
        n, i, path := root, i + 1, [root];
        assert stale + {root} == stale + Along(path);
      } else {
        MoreStale(sip, View(), height, {}, stale, path);
      }
      SpareMore(sip, View(), height, n, stale + Along(path));
      while i > 0
        invariant n in nodes && n in height && height[n] == i && !Full(nodes[n]) && Partly({n}, stale + Along(path))
        invariant IsPath(View(), path) && path[0] == n && Values(View()) == old(Values(View()))
        invariant curr in nodes && (n != curr ==> Full(nodes[curr])) && Extends(old(View()), View())
      {
        ghost var s := View();
        n := NewChild(n, path, stale + Along(path));
        assert stale + Along(path) + {n} == stale + Along([n] + path);
        path := [n] + path;
        i := i - 1;
        ExtendsTrans(old(View()), s, View());
      }
      ghost var s := View();
      MarkCurrent(n, path, stale + Along(path));
      ExtendsTrans(old(View()), s, View());
    }

    /** Makes `n` the current node. */
    method MarkCurrent(n: Address, ghost path: seq<Address>, ghost stale: set<Address>)
      requires Partly({n}, stale) && IsPath(View(), path) && n in nodes && height[n] == 0 && (n != curr ==> Full(nodes[curr]))
      modifies this`nodes, this`curr
      ensures Partly({}, stale) && IsPath(View(), path) && Values(View()) == old(Values(View()))
      ensures n == curr && n in nodes && nodes[n].children == old(nodes[n].children) && Extends(old(View()), View())
    {
      hide NodeOk, Zeros, Values, HashOk;
      if n == curr {
        SpareLess(sip, View(), height, n, stale);
      } else {
        FullIsNotEmpty(View(), height, {n}, curr);
        SwitchCurrKeeps(sip, View(), height, path, stale, n);
        SwitchExtends(View(), n);
        nodes := nodes[curr := nodes[curr].(isCurr := false)];
        nodes := nodes[n := nodes[n].(isCurr := true)];
        curr := n;
      }
    }

    /** Puts a new leaf in the tree, with value zero.  Until the leaf is updated,
        hashes above it may be stale. */
    method Create(l: Address)
      requires Sound() && l !in Values(View())
      modifies this`nodes, this`leaves, this`root, this`curr, this`next, this`height, this`awaiting
      ensures Sound() && awaiting == old(awaiting) + {l} && Values(View()) == old(Values(View()))[l := 0]
    {
      ValueKeys(View());
      hide NodeOk, Values, Zeros, HashOk, Covered, Extends;
      ghost var stale :| Awaits(stale);
      ghost var path;
      var n;
      n, path := CurrentWithSpace(stale);
      var i := Find(n, Nothing);
      AddLeafKeeps(sip, View(), height, stale + Along(path), n, i, l);
      ghost var s := View();
      nodes := nodes[n := nodes[n].(children := nodes[n].children[i := LeafAt(l)])];
      leaves := leaves[l := Slot(n, i)];
      assert IsPath(View(), path);
      AddLeafExtends(old(View()), s, n, i, l);
      CoveredByNew(old(View()), View(), awaiting, stale, l, path);
      awaiting := awaiting + {l};
      assert Awaits(stale + Along(path));
    }

    // ----------------------------------------------------------------- removing

    /** Takes a leaf out of the tree and prunes the nodes this leaves empty.  Of a
        leaf that has been moved away nothing is left to remove. */
    method Destroy(l: Address)
      requires Sound()
      modifies this`nodes, this`leaves, this`rootHash, this`height, this`awaiting
      ensures Sound() && awaiting == old(awaiting) - {l} && Values(View()) == old(Values(View())) - {l}
    {
      hide NodeOk, HashOk, ZerosAt, Covered;
      ghost var stale :| Awaits(stale);
      ghost var s := View();
      if l !in leaves {
        NotWaiting(s, awaiting, stale, l);
        return;
      }
      assert Holds(s, leaves[l], LeafAt(l));
      HashesAreSized(s, leaves[l], LeafAt(l));
      ghost var path := PathUp(s, height, {}, leaves[l].node);
      CoveredOffPath(s, height, {}, awaiting, stale, l, path);
      CoveredDropLeaf(s, awaiting - {l}, stale - Along(path), l);
      DropLeafKeeps(sip, s, height, stale, l, path);
      var p := leaves[l].node;
      var i := Find(p, LeafAt(l));
      OnePlace(s, height, p, i, l);
      nodes := nodes[p := Cleared(nodes[p], i)];
      leaves := leaves - {l};
      awaiting := awaiting - {l};
      Repair(p, path, stale);
    }

    /** The hashes above the slot that was cleared are put right, and then the nodes
        that are empty go. */
    method Repair(p: Address, ghost path: seq<Address>, ghost stale: set<Address>)
      requires Partly({p}, stale + {p}) && IsPath(View(), path) && path[0] == p && Covered(View(), awaiting, stale - Along(path))
      modifies this`nodes, this`rootHash, this`height
      ensures Sound() && Values(View()) == old(Values(View()))
    {
      hide Coherent, Covered, Values, SameLinks;
      ghost var s, left := View(), stale - Along(path);
      UpdateNode(p, {p}, path, stale + {p});
      assert stale + {p} - Along(path) == left;
      PathKeeps(s, View(), path);
      LinksExtend(s, View());
      CoveredStays(s, View(), awaiting, left);
      Prune(p, path, left);
      assert Awaits(left);
    }

    /** Deletes `n` if it is empty and neither root nor current, then looks at its
        parent in the same way. */
    method Prune(n: Address, ghost path: seq<Address>, ghost stale: set<Address>)
      requires Partly({n}, stale) && IsPath(View(), path) && path[0] == n
      requires Covered(View(), awaiting, stale) && stale !! Along(path)
      modifies this`nodes, this`rootHash, this`height
      ensures Awaits(stale) && Values(View()) == old(Values(View()))
      decreases |path|
    {
      hide NodeOk, HashOk, ZerosAt, Values, Covered, SameLinks;
      if !Empty(nodes[n]) || nodes[n].isRoot || nodes[n].isCurr {
        FlagsTell(View(), height, {n}, n);
        SpareLess(sip, View(), height, n, stale);
        return;
      }
      ghost var s, rest := View(), path[1..];
      var i := FindNode(n, path, stale);
      var p := nodes[n].place.node;
      DropNodeKeeps(sip, s, height, stale, n, rest);
      CoveredDropNode(s, height, awaiting, stale, n);
      nodes := nodes[p := Cleared(nodes[p], i)] - {n};
      height := height - {n};
      UpdateNode(p, {p}, rest, stale + {p});
      assert stale + {p} - Along(rest) == stale;
      PathKeeps(DropNode(s, n), View(), rest);
      LinksExtend(DropNode(s, n), View());
      CoveredStays(DropNode(s, n), View(), awaiting, stale);
      Prune(p, rest, stale);
    }

    method FindNode(n: Address, ghost path: seq<Address>, ghost stale: set<Address>) returns (i: nat)
      requires Partly({n}, stale) && IsPath(View(), path) && path[0] == n
      requires Empty(nodes[n]) && !nodes[n].isRoot && !nodes[n].isCurr
      ensures Prunable(View(), height, n) && nodes[n].place.index == i && path == [n] + path[1..] && path[1..] != []
    {
      hide Empty;
      ghost var s := View();
      FlagsTell(s, height, {n}, n);
      PathStep(s, height, {n}, path);
      HeightUp(s, height, {n}, n);
      HashesAreSized(s, nodes[n].place, NodeAt(n));
      i := Find(nodes[n].place.node, NodeAt(n));
      assert NodeOk(s, height, {n}, nodes[n].place.node) && SlotOk(s, height, nodes[n].place.node, i);
    }

    /** The value goes with the leaf when the leaf moves to another address. */
    method Move(from: Address, to: Address)
      requires Sound() && from in Values(View()) && to !in Values(View())
      modifies this`nodes, this`leaves, this`awaiting
      ensures Sound() && awaiting == Renamed(old(awaiting), from, to)
      ensures Values(View()) == (old(Values(View())) - {from})[to := old(Values(View()))[from]]
    {
      ValueKeys(View());
      hide NodeOk, HashOk, ZerosAt, Values, Covered;
      ghost var stale :| Awaits(stale);
      MoveLeafKeeps(sip, View(), height, stale, from, to);
      CoveredMoved(View(), awaiting, stale, from, to);
      var p := leaves[from].node;
      var i := Find(p, LeafAt(from));
      OnePlace(View(), height, p, i, from);
      leaves := (leaves - {from})[to := leaves[from]];
      nodes := nodes[p := nodes[p].(children := nodes[p].children[i := LeafAt(to)])];
      awaiting := Renamed(awaiting, from, to);
      assert Awaits(stale);
    }
  }

  // -------------------------------------------------------------------- whole runs

  /** What is done to leaves, in any order: a leaf may be created while others still
      await their first update. */
  datatype Change =
    | New(leaf: Address)
    | Set(leaf: Address, value: Hash)
    | Shift(from: Address, to: Address)
    | Delete(leaf: Address)

  /** A plain map, and which of its entries have never been set. */
  datatype Plain = Plain(values: map<Address, Hash>, awaiting: set<Address>)

  predicate Allowed(m: Plain, c: Change) {
    match c
    case New(l) => l !in m.values
    case Set(l, _) => l in m.values
    case Shift(from, to) => from in m.values && to !in m.values
    case Delete(_) => true
  }

  function Changed(m: Plain, c: Change): Plain
    requires Allowed(m, c)
  {
    match c
    case New(l) => Plain(m.values[l := 0], m.awaiting + {l})
    case Set(l, h) => Plain(m.values[l := h], m.awaiting - {l})
    case Shift(from, to) => Plain((m.values - {from})[to := m.values[from]], Renamed(m.awaiting, from, to))
    case Delete(l) => Plain(m.values - {l}, m.awaiting - {l})
  }

  predicate AllAllowed(m: Plain, cs: seq<Change>)
    decreases |cs|
  {
    cs == [] || (Allowed(m, cs[0]) && AllAllowed(Changed(m, cs[0]), cs[1..]))
  }

  function ChangedAll(m: Plain, cs: seq<Change>): Plain
    requires AllAllowed(m, cs)
    decreases |cs|
  {
    if cs == [] then m else ChangedAll(Changed(m, cs[0]), cs[1..])
  }

  method Perform(tree: Tree, c: Change)
    requires tree.Sound() && Allowed(tree.AsPlain(), c)
    modifies tree
    ensures tree.Sound() && tree.AsPlain() == Changed(old(tree.AsPlain()), c)
  {
    hide Tree.Sound, Values;
    match c
    case New(l) => tree.Create(l);
    case Set(l, h) => tree.Update(l, h);
    case Shift(from, to) => tree.Move(from, to);
    case Delete(l) => tree.Destroy(l);
  }

  /** Over every run of changes the tree holds what a plain map would, and whenever no
      leaf awaits its first update the tree is valid. */
  method PerformAll(tree: Tree, cs: seq<Change>)
    requires tree.Sound() && AllAllowed(tree.AsPlain(), cs)
    modifies tree
    ensures tree.Sound() && tree.AsPlain() == ChangedAll(old(tree.AsPlain()), cs)
    ensures tree.Valid() <==> ChangedAll(old(tree.AsPlain()), cs).awaiting == {}
  {
    hide Tree.Sound, Values, Changed, Allowed;
    var i := 0;
    assert cs[0..] == cs;
    while i < |cs|
      invariant 0 <= i <= |cs| && tree.Sound() && AllAllowed(tree.AsPlain(), cs[i..])
      invariant ChangedAll(tree.AsPlain(), cs[i..]) == ChangedAll(old(tree.AsPlain()), cs)
    {
      assert cs[i..][0] == cs[i] && cs[i..][1..] == cs[i + 1..];
      Perform(tree, cs[i]);
      i := i + 1;
    }
  }
}
