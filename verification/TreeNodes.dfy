/** The in-memory nodes, how they relate to the store, and what marking and saving make of them. */
module TreeNodes {
  import opened Options
  import opened Chunking
  import opened TreeStore

  // One DNode. Pointers to nodes are positions in the node table.
  datatype DNode = DNode(
    name: string, attrs: Attrs, version: nat, prevSig: Key,
    childSigs: map<string, Key>, dataBlocks: seq<Key>,
    sig: Key, dirty: bool, metaDirty: bool, loadFromDB: bool,
    parent: Option<nat>, kids: map<string, nat>, data: Data)

  type Nodes = seq<DNode>

  // ---- Shape ----------------------------------------------------------------------------------

  // Parent and kid pointers agree; a kid has the name it is listed under and is younger than its
  // parent; a node with kids was loaded.
  ghost predicate LinkedAt(nodes: Nodes, i: nat)
    requires i < |nodes|
  {
    var n := nodes[i];
    && (n.parent.Some? ==> n.parent.value < i && !nodes[n.parent.value].loadFromDB)
    && (forall k :: k in n.kids ==>
        i < n.kids[k] < |nodes| && nodes[n.kids[k]].parent == Some(i) && nodes[n.kids[k]].name == k)
    && (n.loadFromDB ==> n.kids == map[] && !n.metaDirty && n.sig != "")
  }

  // A parent is older than its kids, and loaded.
  ghost predicate ParentsLoaded(nodes: Nodes) {
    forall j: nat :: j < |nodes| && nodes[j].parent.Some? ==>
        nodes[j].parent.value < j && !nodes[nodes[j].parent.value].loadFromDB
  }

  // A dirty kid has a dirty parent.
  ghost predicate DirtyUp(nodes: Nodes, i: nat)
    requires i < |nodes|
  {
    forall k :: k in nodes[i].kids && nodes[i].kids[k] < |nodes| && nodes[nodes[i].kids[k]].metaDirty ==>
        nodes[i].metaDirty
  }

  // The node's own history is in the store.
  ghost predicate KnownAt(db: DB, arch: Archive, n: DNode) {
    && HasBlocks(db, n.dataBlocks)
    && (if n.sig == "" then n.version == 0 && n.prevSig == "" && !n.loadFromDB
        else n.sig in arch && arch[n.sig].version == n.version)
  }

  // A clean node that was ever saved agrees with the record at its signature: kid names and kid
  // signatures, blocks and, unless data waits to be flushed, the attributes.
  ghost predicate CleanAt(c: Codec, nodes: Nodes, root: nat, db: DB, i: nat)
    requires i < |nodes|
  {
    var n := nodes[i];
    !n.metaDirty ==>
      if n.sig == "" then i == root && n.kids == map[]
      else
        && HasNode(c, db, n.sig)
        && var r := NodeAt(c, db, n.sig);
           && r.name == n.name && r.version == n.version && r.prevSig == n.prevSig && r.dataBlocks == n.dataBlocks
           && r.childSigs == n.childSigs && (!n.dirty ==> r.attrs == n.attrs)
           && (!n.loadFromDB ==> n.kids.Keys == r.childSigs.Keys
                                 && forall k :: k in n.kids && n.kids[k] < |nodes| ==>
                                     nodes[n.kids[k]].sig == r.childSigs[k])
  }

  ghost predicate RowOk(c: Codec, nodes: Nodes, root: nat, db: DB, arch: Archive, i: nat)
    requires i < |nodes|
  {
    LinkedAt(nodes, i) && DirtyUp(nodes, i) && KnownAt(db, arch, nodes[i]) && CleanAt(c, nodes, root, db, i)
  }

  ghost predicate StoreOk(c: Codec, db: DB, arch: Archive) {
    Sound(c) && Addressed(c, db) && Archived(c, db, arch)
  }

  ghost predicate Inv(c: Codec, nodes: Nodes, root: nat, db: DB, arch: Archive) {
    && StoreOk(c, db, arch)
    && root < |nodes| && nodes[root].parent.None? && !nodes[root].loadFromDB
    && forall i: nat :: i < |nodes| ==> RowOk(c, nodes, root, db, arch, i)
  }

  lemma InvRow(c: Codec, nodes: Nodes, root: nat, db: DB, arch: Archive, i: nat)
    requires Inv(c, nodes, root, db, arch) && i < |nodes|
    ensures RowOk(c, nodes, root, db, arch, i)
  {
  }

  // ---- Marking a node and its ancestors -------------------------------------------------------

  ghost predicate OnPath(nodes: Nodes, i: nat, r: nat)
    requires i < |nodes|
    decreases i
  {
    r == i || (nodes[i].parent.Some? && nodes[i].parent.value < i && OnPath(nodes, nodes[i].parent.value, r))
  }

  function Marked(n: DNode, now: int): DNode {
    n.(attrs := n.attrs.(mtime := now), metaDirty := true)
  }

  // update: exactly the node and its ancestors get the time and become dirty.
  ghost function Updated(nodes: Nodes, i: nat, now: int): Nodes
    requires i < |nodes|
  {
    seq(|nodes|, r requires 0 <= r < |nodes| => if OnPath(nodes, i, r) then Marked(nodes[r], now) else nodes[r])
  }

  lemma {:induction false} PathDown(nodes: Nodes, i: nat, r: nat)
    requires i < |nodes| && OnPath(nodes, i, r)
    ensures r <= i
    decreases i
  {
    if r != i {
      PathDown(nodes, nodes[i].parent.value, r);
    }
  }

  lemma {:induction false} PathParent(nodes: Nodes, i: nat, r: nat)
    requires i < |nodes| && r < |nodes| && OnPath(nodes, i, r) && nodes[r].parent.Some? && nodes[r].parent.value < r
    ensures OnPath(nodes, i, nodes[r].parent.value)
    decreases i
  {
    if r == i {
      assert OnPath(nodes, nodes[i].parent.value, nodes[i].parent.value);
    } else {
      PathParent(nodes, nodes[i].parent.value, r);
    }
  }

  lemma {:induction false} PathLoaded(nodes: Nodes, i: nat, r: nat)
    requires i < |nodes| && OnPath(nodes, i, r) && !nodes[i].loadFromDB
    requires forall j: nat :: j < |nodes| ==> LinkedAt(nodes, j)
    ensures r < |nodes| && !nodes[r].loadFromDB
    decreases i
  {
    if r != i {
      assert LinkedAt(nodes, i);
      PathLoaded(nodes, nodes[i].parent.value, r);
    }
  }

  lemma LinkedParents(nodes: Nodes)
    requires forall j: nat :: j < |nodes| ==> LinkedAt(nodes, j)
    ensures ParentsLoaded(nodes)
  {
    forall j: nat | j < |nodes| && nodes[j].parent.Some?
      ensures nodes[j].parent.value < j && !nodes[nodes[j].parent.value].loadFromDB
    {
      assert LinkedAt(nodes, j);
    }
  }

  lemma UpdatedLinks(nodes: Nodes, i: nat, now: int, j: nat)
    requires i < |nodes| && !nodes[i].loadFromDB && j < |nodes|
    requires forall r: nat :: r < |nodes| ==> LinkedAt(nodes, r)
    ensures LinkedAt(Updated(nodes, i, now), j)
  {
    assert LinkedAt(nodes, j);
    if OnPath(nodes, i, j) {
      PathLoaded(nodes, i, j);
    }
  }

  lemma OffPathKids(nodes: Nodes, i: nat, now: int, j: nat, k: string)
    requires i < |nodes| && j < |nodes| && LinkedAt(nodes, j) && !OnPath(nodes, i, j) && k in nodes[j].kids
    ensures Updated(nodes, i, now)[nodes[j].kids[k]] == nodes[nodes[j].kids[k]]
  {
    var r := nodes[j].kids[k];
    if OnPath(nodes, i, r) {
      PathParent(nodes, i, r);
    }
  }

  lemma UpdatedOffPath(c: Codec, nodes: Nodes, root: nat, db: DB, i: nat, now: int, j: nat)
    requires i < |nodes| && j < |nodes| && LinkedAt(nodes, j) && !OnPath(nodes, i, j)
    requires DirtyUp(nodes, j) && CleanAt(c, nodes, root, db, j)
    ensures DirtyUp(Updated(nodes, i, now), j) && CleanAt(c, Updated(nodes, i, now), root, db, j)
  {
    forall k | k in nodes[j].kids ensures Updated(nodes, i, now)[nodes[j].kids[k]] == nodes[nodes[j].kids[k]] {
      OffPathKids(nodes, i, now, j, k);
    }
  }

  // Row j is fine once i and its ancestors are marked.
  ghost predicate Repairable(c: Codec, nodes: Nodes, root: nat, db: DB, arch: Archive, i: nat, j: nat)
    requires i < |nodes| && j < |nodes|
  {
    LinkedAt(nodes, j) && KnownAt(db, arch, nodes[j]) &&
    (!OnPath(nodes, i, j) ==> DirtyUp(nodes, j) && CleanAt(c, nodes, root, db, j))
  }

  // Whatever was just changed on the path from i upwards, marking it dirty makes the table
  // consistent again.
  lemma UpdateRestores(c: Codec, nodes: Nodes, root: nat, db: DB, arch: Archive, i: nat, now: int)
    requires StoreOk(c, db, arch) && i < |nodes| && !nodes[i].loadFromDB
    requires root < |nodes| && nodes[root].parent.None? && !nodes[root].loadFromDB
    requires forall j: nat :: j < |nodes| ==> Repairable(c, nodes, root, db, arch, i, j)
    ensures Inv(c, Updated(nodes, i, now), root, db, arch)
  {
    var nodes' := Updated(nodes, i, now);
    assert forall j: nat :: j < |nodes| ==> LinkedAt(nodes, j) by {
      forall j: nat | j < |nodes| ensures LinkedAt(nodes, j) {
        assert Repairable(c, nodes, root, db, arch, i, j);
      }
    }
    forall j: nat | j < |nodes'| ensures RowOk(c, nodes', root, db, arch, j) {
      assert Repairable(c, nodes, root, db, arch, i, j);
      UpdatedLinks(nodes, i, now, j);
      if !OnPath(nodes, i, j) {
        UpdatedOffPath(c, nodes, root, db, i, now, j);
      }
    }
  }

  lemma {:induction false} AncestorsDirty(c: Codec, nodes: Nodes, root: nat, db: DB, arch: Archive, i: nat, r: nat)
    requires Inv(c, nodes, root, db, arch) && i < |nodes| && nodes[i].metaDirty && Attached(nodes, i, r)
    ensures r < |nodes| && nodes[r].metaDirty
    decreases i
  {
    if r != i {
      var p := nodes[i].parent.value;
      InvRow(c, nodes, root, db, arch, p);
      AncestorsDirty(c, nodes, root, db, arch, p, r);
    }
  }

  // r is an ancestor of i through kid links as well as parent links, so i can be reached from r.
  ghost predicate Attached(nodes: Nodes, i: nat, r: nat)
    requires i < |nodes|
    decreases i
  {
    || r == i
    || (&& nodes[i].parent.Some? && nodes[i].parent.value < i
        && (exists k :: k in nodes[nodes[i].parent.value].kids && nodes[nodes[i].parent.value].kids[k] == i)
        && Attached(nodes, nodes[i].parent.value, r))
  }
}
