/** The rows of a database with a Merkle leaf in each.  The tree is shared: other parts
    of the enclave have leaves in it too. */
module GuardedRows {
  import opened Keys
  import opened Database
  import opened Merkle
  import Transfer

  /** No two rows share a leaf. */
  ghost predicate Apart(at: map<Bytes, Address>) {
    forall j, k | j in at && k in at && j != k :: at[j] != at[k]
  }

  /** Every row's leaf holds the row's hash. */
  ghost predicate Guarded<Row>(rows: map<Bytes, Row>, at: map<Bytes, Address>, values: map<Address, Hash>, hash: (Bytes, Row) -> Hash) {
    && at.Keys == rows.Keys && Apart(at)
    && forall k | k in rows :: Holding(rows, at, values, hash, k)
  }

  ghost predicate Holding<Row>(rows: map<Bytes, Row>, at: map<Bytes, Address>, values: map<Address, Hash>, hash: (Bytes, Row) -> Hash, k: Bytes)
    requires k in rows && k in at
  {
    at[k] in values && values[at[k]] == hash(k, rows[k])
  }

  /** The leaves that are not the rows'. */
  ghost function Foreign(at: map<Bytes, Address>, values: map<Address, Hash>): map<Address, Hash> {
    values - (set k | k in at :: at[k])
  }

  lemma GuardStored<Row>(rows: map<Bytes, Row>, at: map<Bytes, Address>, values: map<Address, Hash>, hash: (Bytes, Row) -> Hash,
                         id: Bytes, row: Row, l: Address)
    requires Guarded(rows, at, values, hash)
    requires if id in rows then at[id] == l else l !in values
    ensures Guarded(rows[id := row], at[id := l], values[l := hash(id, row)], hash)
    ensures Foreign(at[id := l], values[l := hash(id, row)]) == Foreign(at, values)
  {
    var rows', at', values' := rows[id := row], at[id := l], values[l := hash(id, row)];
    forall k | k in rows' ensures Holding(rows', at', values', hash, k) {
      if k != id { assert Holding(rows, at, values, hash, k); }
    }
    forall j, k | j in at' && k in at' && j != k ensures at'[j] != at'[k] {
      if j != id { assert Holding(rows, at, values, hash, j); }
      if k != id { assert Holding(rows, at, values, hash, k); }
    }
    SameForeign(at, at', values, values', l, id);
  }

  lemma SameForeign(at: map<Bytes, Address>, at': map<Bytes, Address>, values: map<Address, Hash>, values': map<Address, Hash>, l: Address, id: Bytes)
    requires at' == at[id := l] && l in values' && values' == values[l := values'[l]]
    requires if id in at then at[id] == l else l !in values
    ensures Foreign(at', values') == Foreign(at, values)
  {
    var own, own' := set k | k in at :: at[k], set k | k in at' :: at'[k];
    assert own' == own + {l} by {
      forall a | a in own ensures a in own' {
        var k :| k in at && at[k] == a;
        assert k in at' && at'[k] == a;
      }
      assert id in at' && at'[id] == l;
    }
  }

  lemma GuardErased<Row>(rows: map<Bytes, Row>, at: map<Bytes, Address>, values: map<Address, Hash>, hash: (Bytes, Row) -> Hash, id: Bytes)
    requires Guarded(rows, at, values, hash) && id in rows
    ensures Guarded(rows - {id}, at - {id}, values - {at[id]}, hash)
    ensures Foreign(at - {id}, values - {at[id]}) == Foreign(at, values)
  {
    var rows', at', values' := rows - {id}, at - {id}, values - {at[id]};
    forall k | k in rows' ensures Holding(rows', at', values', hash, k) {
      assert Holding(rows, at, values, hash, k);
    }
    var own, own' := set k | k in at :: at[k], set k | k in at' :: at'[k];
    assert own == own' + {at[id]} by {
      forall a | a in own ensures a in own' + {at[id]} {
        var k :| k in at && at[k] == a;
        if k != id { assert k in at' && at'[k] == a; }
      }
      assert id in at;
    }
  }

  class LeafRows<Row> {
    const tree: Tree
    const hash: (Bytes, Row) -> Hash
    var rows: map<Bytes, Row>
    var at: map<Bytes, Address>

    /** The tree is valid and every row's leaf is up to date in it. */
    ghost predicate Valid()
      reads this, tree
    {
      tree.Valid() && Guarded(rows, at, Values(tree.View()), hash)
    }

    ghost function Others(): map<Address, Hash>
      reads this, tree
    {
      Foreign(at, Values(tree.View()))
    }

    constructor (tree: Tree, hash: (Bytes, Row) -> Hash)
      requires tree.Valid()
      ensures Valid() && rows == map[] && this.tree == tree && this.hash == hash && Others() == Values(tree.View())
    {
      this.tree, this.hash, rows, at := tree, hash, map[], map[];
    }

    /** A leaf with value `h`, for a row that is not there yet. */
    method NewLeaf(h: Hash) returns (l: Address)
      requires tree.Valid()
      modifies tree
      ensures tree.Valid() && l !in old(Values(tree.View())) && Values(tree.View()) == old(Values(tree.View()))[l := h]
    {
      hide Tree.Sound, Values;
      l := tree.NewAddress();
      tree.Create(l);
      tree.Update(l, h);
    }

    /** Writes a row, new or old, and brings its leaf up to date. */
    method Store(id: Bytes, row: Row)
      requires Valid()
      modifies this, tree
      ensures Valid() && rows == old(rows)[id := row] && Others() == old(Others())
    {
      hide Tree.Sound, Guarded, Foreign, Values;
      var l: Address;
      ghost var values := Values(tree.View());
      GuardedKeys(rows, at, values, hash);
      if id in rows {
        l := at[id];
        tree.Update(l, hash(id, row));
      } else {
        l := NewLeaf(hash(id, row));
      }
      GuardStored(rows, at, values, hash, id, row, l);
      rows, at := rows[id := row], at[id := l];
    }

    /** Erases a row, and with it its leaf. */
    method Erase(id: Bytes)
      requires Valid() && id in rows
      modifies this, tree
      ensures Valid() && rows == old(rows) - {id} && Others() == old(Others())
    {
      hide Tree.Sound, Guarded, Foreign, Values;
      GuardedKeys(rows, at, Values(tree.View()), hash);
      GuardErased(rows, at, Values(tree.View()), hash, id);
      tree.Destroy(at[id]);
      rows, at := rows - {id}, at - {id};
    }

    /** The walk from the row's leaf to the root never fails. */
    method Verify(id: Bytes) returns (ok: bool)
      requires Valid() && id in rows
      ensures ok
    {
      assert Holding(rows, at, Values(tree.View()), hash, id);
      ok := tree.Confirm(at[id], hash(id, rows[id]));
    }

    /** A loaded row is built with a leaf of its own, which is given its hash and then
        moves with the row to where the row stays. */
    method Load(id: Bytes, row: Row)
      requires Valid() && id !in rows
      modifies this, tree
      ensures Valid() && rows == old(rows)[id := row] && Others() == old(Others())
    {
      hide Tree.Valid, Guarded, Foreign, Values;
      ghost var values := Values(tree.View());
      GuardedKeys(rows, at, values, hash);
      var l := MovedLeaf(hash(id, row));
      GuardStored(rows, at, values, hash, id, row, l);
      rows, at := rows[id := row], at[id := l];
    }

    /** A leaf that has been moved once.  Nothing is left to destroy where it was. */
    method MovedLeaf(h: Hash) returns (l: Address)
      requires tree.Valid()
      modifies tree
      ensures tree.Valid() && l !in old(Values(tree.View())) && Values(tree.View()) == old(Values(tree.View()))[l := h]
    {
      hide Tree.Sound, Values;
      ghost var values := Values(tree.View());
      var from := NewLeaf(h);
      l := tree.NewAddress();
      tree.Move(from, l);
      Moved(values, from, l, h);
      tree.Destroy(from);
    }

    /** Loads rows until one is refused; the key of the last row, or the empty string. */
    method LoadRowsFromProtos<Op>(p: Protocol<Op, Row>, incoming: seq<(Bytes, Row)>) returns (last: Bytes)
      requires Valid() && incoming != []
      modifies this, tree
      ensures Valid() && Others() == old(Others())
      ensures var (loaded, ok) := Transfer.LoadRows(p, old(rows), incoming);
              rows == loaded && last == if ok then incoming[|incoming| - 1].0 else []
    {
      hide Valid, Others;
      var i := 0;
      assert incoming[0..] == incoming;
      while i < |incoming|
        invariant 0 <= i <= |incoming| && Valid() && Others() == old(Others())
        invariant Transfer.LoadRows(p, rows, incoming[i..]) == Transfer.LoadRows(p, old(rows), incoming)
      {
        assert incoming[i..][0] == incoming[i] && incoming[i..][1..] == incoming[i + 1..];
        if !Transfer.Loadable(p, rows, incoming[i]) { return []; }
        if incoming[i].0 in rows { LessIrreflexive(incoming[i].0); }
        Load(incoming[i].0, incoming[i].1);
        i := i + 1;
      }
      last := incoming[|incoming| - 1].0;
    }
  }

  lemma Moved(values: map<Address, Hash>, from: Address, l: Address, h: Hash)
    requires from !in values && l !in values && l != from
    ensures ((values[from := h] - {from})[l := h]) - {from} == values[l := h]
  {
  }

  lemma GuardedKeys<Row>(rows: map<Bytes, Row>, at: map<Bytes, Address>, values: map<Address, Hash>, hash: (Bytes, Row) -> Hash)
    requires Guarded(rows, at, values, hash)
    ensures at.Keys == rows.Keys && forall k | k in rows :: at[k] in values
  {
    forall k | k in rows ensures at[k] in values {
      assert Holding(rows, at, values, hash, k);
    }
  }
}
