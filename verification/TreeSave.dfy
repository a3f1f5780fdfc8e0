/** Saving: the in-memory tree, the tree a reload would build, and when the two are the same. */
module TreeSave {
  import opened Options
  import opened TreeStore
  import opened TreeNodes

  // The tree held in memory; what was never loaded stands for what the store holds, under the
  // attributes the node has by now: bytes written to an unloaded node go when it is loaded.
  ghost function MemTree(nodes: Nodes, arch: Archive, i: nat): Tree
    requires i < |nodes|
    decreases |nodes| - i
  {
    var n := nodes[i];
    if n.loadFromDB && n.sig in arch then arch[n.sig].(attrs := n.attrs)
    else Tree(n.name, n.attrs, n.version, n.prevSig, n.data,
              map k | k in n.kids && i < n.kids[k] < |nodes| :: MemTree(nodes, arch, n.kids[k]))
  }

  // The node's bytes are the bytes of its blocks, and a clean node's attributes are those last saved.
  ghost predicate SyncedAt(db: DB, arch: Archive, n: DNode) {
    && (n.loadFromDB || (HasBlocks(db, n.dataBlocks) && n.data == BlockBytes(db, n.dataBlocks)))
    && (!n.metaDirty ==> n.sig in arch && arch[n.sig].attrs == n.attrs)
  }

  ghost predicate SyncedUnder(nodes: Nodes, db: DB, arch: Archive, i: nat)
    requires i < |nodes|
    decreases |nodes| - i
  {
    SyncedAt(db, arch, nodes[i]) &&
    forall k :: k in nodes[i].kids && i < nodes[i].kids[k] < |nodes| ==> SyncedUnder(nodes, db, arch, nodes[i].kids[k])
  }

  lemma CleanKid(c: Codec, nodes: Nodes, root: nat, db: DB, arch: Archive, i: nat, k: string)
    requires Inv(c, nodes, root, db, arch) && i < |nodes| && k in nodes[i].kids
    ensures var j := nodes[i].kids[k];
      && i < j < |nodes| && (nodes[j].metaDirty ==> nodes[i].metaDirty)
      && (!nodes[j].metaDirty ==> nodes[j].sig in arch && nodes[j].sig != "")
  {
    InvRow(c, nodes, root, db, arch, i);
    InvRow(c, nodes, root, db, arch, nodes[i].kids[k]);
  }

  // A clean node that was saved reads back as what is in memory exactly when it and everything
  // below it is synced: so saving may skip clean subtrees.
  lemma {:induction false} CleanReadsBack(c: Codec, nodes: Nodes, root: nat, db: DB, arch: Archive, i: nat)
    requires Inv(c, nodes, root, db, arch) && i < |nodes| && !nodes[i].metaDirty && nodes[i].sig != ""
    ensures nodes[i].sig in arch
    ensures arch[nodes[i].sig] == MemTree(nodes, arch, i) <==> SyncedUnder(nodes, db, arch, i)
    decreases |nodes| - i
  {
    InvRow(c, nodes, root, db, arch, i);
    ArchiveAt(c, db, arch, nodes[i].sig);
    forall k | k in nodes[i].kids
      ensures var j := nodes[i].kids[k];
        i < j < |nodes| && nodes[j].sig in arch
        && (arch[nodes[j].sig] == MemTree(nodes, arch, j) <==> SyncedUnder(nodes, db, arch, j))
    {
      CleanKid(c, nodes, root, db, arch, i, k);
      CleanReadsBack(c, nodes, root, db, arch, nodes[i].kids[k]);
    }
    ReadsBackStep(c, nodes, root, db, arch, i);
  }

  lemma ReadsBackStep(c: Codec, nodes: Nodes, root: nat, db: DB, arch: Archive, i: nat)
    requires i < |nodes| && !nodes[i].metaDirty && nodes[i].sig != "" && CleanAt(c, nodes, root, db, i)
    requires LinkedAt(nodes, i) && KnownAt(db, arch, nodes[i]) && ArchivedAt(c, db, arch, nodes[i].sig)
    requires forall k :: k in nodes[i].kids ==>
      var j := nodes[i].kids[k];
      i < j < |nodes| && nodes[j].sig in arch
      && (arch[nodes[j].sig] == MemTree(nodes, arch, j) <==> SyncedUnder(nodes, db, arch, j))
    ensures arch[nodes[i].sig] == MemTree(nodes, arch, i) <==> SyncedUnder(nodes, db, arch, i)
  {
    var n := nodes[i];
    var t, m := arch[n.sig], MemTree(nodes, arch, i);
    assert Stores(c, db, n.sig, t);
    if !n.loadFromDB {
      assert m.kids.Keys == n.kids.Keys == t.kids.Keys;
      forall k | k in n.kids ensures t.kids[k] == m.kids[k] <==> SyncedUnder(nodes, db, arch, n.kids[k]) {
        assert NodeAt(c, db, n.sig).childSigs[k] == nodes[n.kids[k]].sig;
      }
      KidsReadBack(nodes, db, arch, i, t.kids, m.kids);
    }
  }

  lemma KidsReadBack(nodes: Nodes, db: DB, arch: Archive, i: nat, t: map<string, Tree>, m: map<string, Tree>)
    requires i < |nodes| && t.Keys == m.Keys == nodes[i].kids.Keys
    requires forall k :: k in nodes[i].kids ==> i < nodes[i].kids[k] < |nodes|
    requires forall k :: k in nodes[i].kids ==> (t[k] == m[k] <==> SyncedUnder(nodes, db, arch, nodes[i].kids[k]))
    ensures t == m <==> forall k :: k in nodes[i].kids ==> SyncedUnder(nodes, db, arch, nodes[i].kids[k])
  {
    if forall k :: k in nodes[i].kids ==> SyncedUnder(nodes, db, arch, nodes[i].kids[k]) {
      assert t == m;
    }
  }

  // ---- What saving a subtree makes of each node -----------------------------------------------

  // The signature node i has once everything dirty below it is saved: a Merkle hash.
  ghost function SavedSig(c: Codec, nodes: Nodes, i: nat): Key
    requires i < |nodes|
    decreases |nodes| - i, 1
  {
    if !nodes[i].metaDirty then nodes[i].sig else c.hash(c.encode(SavedRecord(c, nodes, i)))
  }

  ghost function SavedRecord(c: Codec, nodes: Nodes, i: nat): Record
    requires i < |nodes|
    decreases |nodes| - i, 0
  {
    var n := nodes[i];
    Record(n.name, n.attrs, n.version + 1, n.sig,
           map k | k in n.kids :: if i < n.kids[k] < |nodes| then SavedSig(c, nodes, n.kids[k]) else "", n.dataBlocks)
  }

  ghost function SavedRow(c: Codec, nodes: Nodes, i: nat): DNode
    requires i < |nodes|
  {
    var n := nodes[i];
    if !n.metaDirty then n
    else n.(childSigs := SavedRecord(c, nodes, i).childSigs, prevSig := n.sig, version := n.version + 1,
            sig := SavedSig(c, nodes, i), metaDirty := false)
  }

  // b is a, some dirty nodes saved.
  ghost predicate Partial(c: Codec, a: Nodes, b: Nodes) {
    |a| == |b| && forall j: nat :: j < |a| ==> b[j] == a[j] || b[j] == SavedRow(c, a, j)
  }

  lemma {:induction false} PartialSig(c: Codec, a: Nodes, b: Nodes, j: nat)
    requires Partial(c, a, b) && j < |a|
    ensures SavedSig(c, b, j) == SavedSig(c, a, j) && SavedRow(c, b, j) == SavedRow(c, a, j)
    ensures b[j] == a[j] ==> SavedRecord(c, b, j) == SavedRecord(c, a, j)
    decreases |a| - j
  {
    if b[j] == a[j] {
      forall k | k in a[j].kids && j < a[j].kids[k] < |a|
        ensures SavedSig(c, b, a[j].kids[k]) == SavedSig(c, a, a[j].kids[k])
      {
        PartialSig(c, a, b, a[j].kids[k]);
      }
      assert SavedRecord(c, b, j) == SavedRecord(c, a, j);
    }
  }

  lemma PartialTransitive(c: Codec, a: Nodes, b: Nodes, d: Nodes)
    requires Partial(c, a, b) && Partial(c, b, d)
    ensures Partial(c, a, d)
  {
    forall j: nat | j < |a| ensures d[j] == a[j] || d[j] == SavedRow(c, a, j) {
      PartialSig(c, a, b, j);
    }
  }

  // From i down to the first clean nodes, everything is saved.
  ghost predicate SavedUnder(c: Codec, a: Nodes, b: Nodes, i: nat)
    requires i < |a| == |b|
    decreases |a| - i
  {
    b[i] == SavedRow(c, a, i) &&
    (a[i].metaDirty ==> forall k :: k in a[i].kids && i < a[i].kids[k] < |a| ==> SavedUnder(c, a, b, a[i].kids[k]))
  }

  lemma {:induction false} SavedStays(c: Codec, a: Nodes, b: Nodes, d: Nodes, i: nat)
    requires i < |a| && Partial(c, a, b) && Partial(c, b, d) && SavedUnder(c, a, b, i)
    ensures SavedUnder(c, a, d, i)
    decreases |a| - i
  {
    if a[i].metaDirty {
      forall k | k in a[i].kids && i < a[i].kids[k] < |a| ensures SavedUnder(c, a, d, a[i].kids[k]) {
        SavedStays(c, a, b, d, a[i].kids[k]);
      }
    }
  }

  // Saving relative to a table in which others were already saved is saving relative to the first.
  lemma {:induction false} SavedRebase(c: Codec, a: Nodes, b: Nodes, d: Nodes, i: nat)
    requires i < |a| && Partial(c, a, b) && Partial(c, b, d) && SavedUnder(c, b, d, i)
    requires forall k: nat :: k < |a| && a[k].metaDirty && !b[k].metaDirty ==> SavedUnder(c, a, b, k)
    ensures SavedUnder(c, a, d, i)
    decreases |a| - i
  {
    PartialSig(c, a, b, i);
    if a[i].metaDirty {
      if b[i].metaDirty {
        forall k | k in a[i].kids && i < a[i].kids[k] < |a| ensures SavedUnder(c, a, d, a[i].kids[k]) {
          SavedRebase(c, a, b, d, a[i].kids[k]);
        }
      } else {
        SavedStays(c, a, b, d, i);
      }
    }
  }

  ghost predicate Grows(arch: Archive, arch': Archive) {
    forall s :: s in arch ==> s in arch' && arch'[s] == arch[s]
  }

  // b, db and arch are what saving some dirty nodes of a leaves: rows are saved rows, the store and
  // the archive only grew, by exactly the records of the nodes saved, and whatever was saved was
  // saved with everything dirty below it.
  ghost predicate Saved(c: Codec, a: Nodes, db0: DB, arch0: Archive, b: Nodes, db: DB, arch: Archive) {
    && Partial(c, a, b) && Extends(db0, db) && Grows(arch0, arch)
    && (forall j: nat :: j < |a| && a[j].metaDirty && !b[j].metaDirty ==>
          SavedUnder(c, a, b, j) && RecordIn(c, db, SavedSig(c, a, j), SavedRecord(c, a, j)))
    && (forall k :: k in db && k !in db0 ==> SomeRecord(c, a, b, k))
  }

  ghost predicate RecordIn(c: Codec, db: DB, sig: Key, r: Record) {
    sig in db && db[sig] == c.encode(r)
  }

  // k is the signature of a node that was saved between a and b.
  ghost predicate SomeRecord(c: Codec, a: Nodes, b: Nodes, k: Key) {
    exists j: nat :: j < |a| && j < |b| && a[j].metaDirty && !b[j].metaDirty && k == SavedSig(c, a, j)
  }

  lemma SavedNothing(c: Codec, a: Nodes, db: DB, arch: Archive)
    ensures Saved(c, a, db, arch, a, db, arch)
    ensures forall i: nat :: i < |a| && !a[i].metaDirty ==> SavedUnder(c, a, a, i)
  {
  }

  lemma SavedKeysCompose(c: Codec, a: Nodes, b: Nodes, d: Nodes, k: Key)
    requires Partial(c, a, b) && Partial(c, b, d)
    requires SomeRecord(c, a, b, k) || SomeRecord(c, b, d, k)
    ensures SomeRecord(c, a, d, k)
  {
    if SomeRecord(c, a, b, k) {
      var j: nat :| j < |a| && j < |b| && a[j].metaDirty && !b[j].metaDirty && k == SavedSig(c, a, j);
      assert !d[j].metaDirty;
    } else {
      var j: nat :| j < |b| && j < |d| && b[j].metaDirty && !d[j].metaDirty && k == SavedSig(c, b, j);
      PartialSig(c, a, b, j);
      assert a[j].metaDirty;
    }
  }

  lemma SavedNodesCompose(c: Codec, a: Nodes, db0: DB, arch0: Archive, b: Nodes, db1: DB, arch1: Archive,
                          d: Nodes, db: DB, arch: Archive, j: nat)
    requires Saved(c, a, db0, arch0, b, db1, arch1) && Saved(c, b, db1, arch1, d, db, arch)
    requires j < |a| && a[j].metaDirty && !d[j].metaDirty
    ensures SavedUnder(c, a, d, j) && RecordIn(c, db, SavedSig(c, a, j), SavedRecord(c, a, j))
  {
    if !b[j].metaDirty {
      SavedStays(c, a, b, d, j);
    } else {
      PartialSig(c, a, b, j);
      SavedRebase(c, a, b, d, j);
    }
  }

  // Saving some nodes and then some more is saving them all.
  lemma SavedCompose(c: Codec, a: Nodes, db0: DB, arch0: Archive, b: Nodes, db1: DB, arch1: Archive,
                     d: Nodes, db: DB, arch: Archive)
    requires Saved(c, a, db0, arch0, b, db1, arch1) && Saved(c, b, db1, arch1, d, db, arch)
    ensures Saved(c, a, db0, arch0, d, db, arch)
  {
    PartialTransitive(c, a, b, d);
    forall j: nat | j < |a| && a[j].metaDirty && !d[j].metaDirty
      ensures SavedUnder(c, a, d, j) && RecordIn(c, db, SavedSig(c, a, j), SavedRecord(c, a, j))
    {
      SavedNodesCompose(c, a, db0, arch0, b, db1, arch1, d, db, arch, j);
    }
    forall k | k in db && k !in db0 ensures SomeRecord(c, a, d, k) {
      SavedKeysCompose(c, a, b, d, k);
    }
  }

  lemma {:induction false} AttachedSame(c: Codec, a: Nodes, b: Nodes, j: nat, r: nat)
    requires Partial(c, a, b) && j < |a|
    ensures Attached(b, j, r) == Attached(a, j, r)
    decreases j
  {
    if a[j].parent.Some? && a[j].parent.value < j {
      var p := a[j].parent.value;
      assert b[p].kids == a[p].kids;
      AttachedSame(c, a, b, p, r);
    }
  }

  lemma {:induction false} AttachedUp(a: Nodes, j: nat, kid: nat, i: nat, k: string)
    requires j < |a| && kid < |a| && i < kid && a[kid].parent == Some(i) && k in a[i].kids && a[i].kids[k] == kid
    requires Attached(a, j, kid)
    ensures Attached(a, j, i)
    decreases j
  {
    if j == kid {
      assert Attached(a, i, i);
    } else {
      AttachedUp(a, a[j].parent.value, kid, i, k);
    }
  }

  // ---- Saving one node ------------------------------------------------------------------------

  ghost predicate KidsClean(nodes: Nodes, i: nat)
    requires i < |nodes|
  {
    forall k :: k in nodes[i].kids ==> nodes[i].kids[k] < |nodes| && !nodes[nodes[i].kids[k]].metaDirty
  }

  function KidSigs(nodes: Nodes, i: nat): map<string, Key>
    requires i < |nodes| && forall k :: k in nodes[i].kids ==> nodes[i].kids[k] < |nodes|
  {
    map k | k in nodes[i].kids :: nodes[nodes[i].kids[k]].sig
  }

  function RecordNow(nodes: Nodes, i: nat): Record
    requires i < |nodes| && forall k :: k in nodes[i].kids ==> nodes[i].kids[k] < |nodes|
  {
    var n := nodes[i];
    Record(n.name, n.attrs, n.version + 1, n.sig, KidSigs(nodes, i), n.dataBlocks)
  }

  function SaveNow(c: Codec, nodes: Nodes, i: nat): DNode
    requires i < |nodes| && forall k :: k in nodes[i].kids ==> nodes[i].kids[k] < |nodes|
  {
    var r := RecordNow(nodes, i);
    nodes[i].(childSigs := r.childSigs, prevSig := r.prevSig, version := r.version, sig := c.hash(c.encode(r)),
        metaDirty := false)
  }

  ghost function TreeNow(nodes: Nodes, db: DB, arch: Archive, i: nat): Tree
    requires i < |nodes| && HasBlocks(db, nodes[i].dataBlocks)
  {
    var n := nodes[i];
    Tree(n.name, n.attrs, n.version + 1, n.sig, BlockBytes(db, n.dataBlocks),
         map k | k in n.kids && n.kids[k] < |nodes| && nodes[n.kids[k]].sig in arch :: arch[nodes[n.kids[k]].sig])
  }

  lemma NewKeyStores(c: Codec, nodes: Nodes, root: nat, db: DB, arch: Archive, i: nat)
    requires Inv(c, nodes, root, db, arch) && i < |nodes| && nodes[i].metaDirty && KidsClean(nodes, i)
    ensures var r := RecordNow(nodes, i);
      var db' := PutBlob(c, db, c.encode(r));
      && HasBlocks(db, nodes[i].dataBlocks)
      && Extends(db, db') && Addressed(c, db') && Archived(c, db', arch)
      && Stores(c, db', c.hash(c.encode(r)), TreeNow(nodes, db, arch, i))
      && NodeAt(c, db', c.hash(c.encode(r))) == r
  {
    InvRow(c, nodes, root, db, arch, i);
    var r := RecordNow(nodes, i);
    var db' := PutBlob(c, db, c.encode(r));
    PutExtends(c, db, c.encode(r));
    ArchivedForever(c, db, db', arch);
    BlockBytesExtend(db, db', nodes[i].dataBlocks);
    var t := TreeNow(nodes, db, arch, i);
    assert c.decode(db'[c.hash(c.encode(r))]) == Some(r);
    forall k | k in nodes[i].kids ensures k in t.kids && Stores(c, db', r.childSigs[k], t.kids[k]) {
      CleanKid(c, nodes, root, db, arch, i, k);
      ArchiveAt(c, db', arch, r.childSigs[k]);
    }
    assert t.kids.Keys == nodes[i].kids.Keys;
  }

  // The key s, decoding to t, is fit to join the archive: its children and its previous version are there.
  ghost predicate Joins(c: Codec, db: DB, arch: Archive, s: Key, t: Tree) {
    && Stores(c, db, s, t)
    && (var r := NodeAt(c, db, s);
        forall k :: k in r.childSigs ==> r.childSigs[k] in arch && k in t.kids && arch[r.childSigs[k]] == t.kids[k]
                                         && t.kids[k].name == k)
    && t.version >= 1
    && (if t.version == 1 then t.prevSig == "" else t.prevSig in arch && arch[t.prevSig].version == t.version - 1)
  }

  lemma ArchiveAdds(c: Codec, db: DB, arch: Archive, s: Key, t: Tree)
    requires Archived(c, db, arch) && Joins(c, db, arch, s, t)
    ensures Grows(arch, arch[s := t]) && Archived(c, db, arch[s := t])
  {
    var arch' := arch[s := t];
    SameIfArchived(c, db, arch, s, t);
    JoinsArchive(c, db, arch, arch', s, t);
    forall q | q in arch' ensures ArchivedAt(c, db, arch', q) {
      if q != s {
        ArchiveAt(c, db, arch, q);
        StaysArchived(c, db, arch, arch', q);
      }
    }
  }

  lemma SameIfArchived(c: Codec, db: DB, arch: Archive, s: Key, t: Tree)
    requires Archived(c, db, arch) && Stores(c, db, s, t)
    ensures s in arch ==> arch[s] == t
  {
    if s in arch {
      ArchiveAt(c, db, arch, s);
      StoresUnique(c, db, s, t, arch[s]);
    }
  }

  lemma JoinsArchive(c: Codec, db: DB, arch: Archive, arch': Archive, s: Key, t: Tree)
    requires Joins(c, db, arch, s, t) && Grows(arch, arch') && s in arch' && arch'[s] == t
    ensures ArchivedAt(c, db, arch', s)
  {
  }

  lemma StaysArchived(c: Codec, db: DB, arch: Archive, arch': Archive, q: Key)
    requires ArchivedAt(c, db, arch, q) && Grows(arch, arch')
    ensures ArchivedAt(c, db, arch', q)
  {
  }

  lemma ArchiveGrows(c: Codec, nodes: Nodes, root: nat, db: DB, arch: Archive, i: nat)
    requires Inv(c, nodes, root, db, arch) && i < |nodes| && nodes[i].metaDirty && KidsClean(nodes, i)
    ensures HasBlocks(db, nodes[i].dataBlocks)
    ensures var s := c.hash(c.encode(RecordNow(nodes, i)));
      var db' := PutBlob(c, db, c.encode(RecordNow(nodes, i)));
      var arch' := arch[s := TreeNow(nodes, db, arch, i)];
      Grows(arch, arch') && Archived(c, db', arch')
  {
    InvRow(c, nodes, root, db, arch, i);
    NewKeyStores(c, nodes, root, db, arch, i);
    var r := RecordNow(nodes, i);
    var t := TreeNow(nodes, db, arch, i);
    forall k | k in r.childSigs
      ensures r.childSigs[k] in arch && k in t.kids && arch[r.childSigs[k]] == t.kids[k] && t.kids[k].name == k
    {
      CleanKid(c, nodes, root, db, arch, i, k);
      ArchiveAt(c, db, arch, r.childSigs[k]);
      InvRow(c, nodes, root, db, arch, nodes[i].kids[k]);
    }
    if nodes[i].sig != "" {
      ArchiveAt(c, db, arch, nodes[i].sig);
    }
    ArchiveAdds(c, PutBlob(c, db, c.encode(r)), arch, c.hash(c.encode(r)), t);
  }

  lemma OtherRowKept(c: Codec, nodes: Nodes, root: nat, db: DB, arch: Archive, i: nat, j: nat, row: DNode, db': DB,
                     arch': Archive)
    requires Inv(c, nodes, root, db, arch) && i < |nodes| && j < |nodes| && j != i && nodes[i].metaDirty
    requires row.kids == nodes[i].kids && row.parent == nodes[i].parent && row.name == nodes[i].name && !row.metaDirty
    requires row.loadFromDB == nodes[i].loadFromDB
    requires Extends(db, db') && Grows(arch, arch')
    ensures RowOk(c, nodes[i := row], root, db', arch', j)
  {
    InvRow(c, nodes, root, db, arch, j);
    OtherLinksKept(nodes, i, j, row);
    if !nodes[j].metaDirty {
      forall k | k in nodes[j].kids ensures nodes[j].kids[k] != i {
        assert DirtyUp(nodes, j);
      }
    }
    OtherStandingKept(c, nodes, root, db, arch, i, j, row, db', arch');
  }

  lemma OtherLinksKept(nodes: Nodes, i: nat, j: nat, row: DNode)
    requires i < |nodes| && j < |nodes| && j != i && LinkedAt(nodes, j)
    requires row.parent == nodes[i].parent && row.name == nodes[i].name && row.loadFromDB == nodes[i].loadFromDB
    ensures LinkedAt(nodes[i := row], j)
  {
  }

  lemma OtherStandingKept(c: Codec, nodes: Nodes, root: nat, db: DB, arch: Archive, i: nat, j: nat, row: DNode,
                          db': DB, arch': Archive)
    requires i < |nodes| && j < |nodes| && j != i && !row.metaDirty
    requires DirtyUp(nodes, j) && KnownAt(db, arch, nodes[j]) && CleanAt(c, nodes, root, db, j)
    requires !nodes[j].metaDirty ==> forall k :: k in nodes[j].kids ==> nodes[j].kids[k] != i
    requires Extends(db, db') && Grows(arch, arch')
    ensures var b := nodes[i := row]; DirtyUp(b, j) && KnownAt(db', arch', b[j]) && CleanAt(c, b, root, db', j)
  {
  }

  lemma SavedRowOk(c: Codec, nodes: Nodes, root: nat, db: DB, arch: Archive, i: nat, db': DB, arch': Archive)
    requires i < |nodes| && RowOk(c, nodes, root, db, arch, i) && nodes[i].metaDirty && KidsClean(nodes, i)
    requires Extends(db, db') && Sound(c)
    requires var s := c.hash(c.encode(RecordNow(nodes, i)));
      && HasNode(c, db', s) && NodeAt(c, db', s) == RecordNow(nodes, i)
      && s in arch' && arch'[s].version == nodes[i].version + 1
    ensures RowOk(c, nodes[i := SaveNow(c, nodes, i)], root, db', arch', i)
  {
    var nodes' := nodes[i := SaveNow(c, nodes, i)];
    assert LinkedAt(nodes', i) && DirtyUp(nodes', i);
    assert CleanAt(c, nodes', root, db', i);
  }

  // Saving a node whose kids are clean keeps everything consistent.
  lemma SaveKeeps(c: Codec, nodes: Nodes, root: nat, db: DB, arch: Archive, i: nat)
    requires Inv(c, nodes, root, db, arch) && i < |nodes| && nodes[i].metaDirty && KidsClean(nodes, i)
    ensures HasBlocks(db, nodes[i].dataBlocks)
    ensures var r := RecordNow(nodes, i);
      var arch' := arch[c.hash(c.encode(r)) := TreeNow(nodes, db, arch, i)];
      Inv(c, nodes[i := SaveNow(c, nodes, i)], root, PutBlob(c, db, c.encode(r)), arch') && Grows(arch, arch')
  {
    NewKeyStores(c, nodes, root, db, arch, i);
    ArchiveGrows(c, nodes, root, db, arch, i);
    var r := RecordNow(nodes, i);
    var row, db' := SaveNow(c, nodes, i), PutBlob(c, db, c.encode(r));
    var arch' := arch[c.hash(c.encode(r)) := TreeNow(nodes, db, arch, i)];
    var nodes' := nodes[i := row];
    forall j: nat | j < |nodes'| ensures RowOk(c, nodes', root, db', arch', j) {
      InvRow(c, nodes, root, db, arch, j);
      if j != i {
        OtherRowKept(c, nodes, root, db, arch, i, j, row, db', arch');
      } else {
        SavedRowOk(c, nodes, root, db, arch, i, db', arch');
      }
    }
  }

  lemma {:induction false} AttachedIsOlder(a: Nodes, j: nat, r: nat)
    requires j < |a| && Attached(a, j, r)
    ensures r <= j
    decreases j
  {
    if r != j {
      AttachedIsOlder(a, a[j].parent.value, r);
    }
  }

  // Among the kids of i, those named in done have been saved, and nothing outside i's subtree was touched.
  ghost predicate SavingKids(c: Codec, a: Nodes, db0: DB, arch0: Archive, b: Nodes, db: DB, arch: Archive,
                             i: nat, done: set<string>)
  {
    && Saved(c, a, db0, arch0, b, db, arch) && i < |a| && LinkedAt(a, i) && b[i] == a[i] && done <= a[i].kids.Keys
    && (forall q :: q in done ==> SavedUnder(c, a, b, a[i].kids[q]))
    && (forall j: nat :: j < |a| && b[j] != a[j] ==> Attached(a, j, i))
  }

  lemma SavingNone(c: Codec, a: Nodes, db: DB, arch: Archive, root: nat, i: nat)
    requires Inv(c, a, root, db, arch) && i < |a|
    ensures SavingKids(c, a, db, arch, a, db, arch, i, {})
  {
    SavedNothing(c, a, db, arch);
    InvRow(c, a, root, db, arch, i);
  }

  lemma SavingLeavesSelf(c: Codec, a: Nodes, db0: DB, arch0: Archive, b: Nodes, db: DB, arch: Archive, i: nat,
                         done: set<string>)
    requires SavingKids(c, a, db0, arch0, b, db, arch, i, done)
    ensures |b| == |a| && i < |b| && b[i] == a[i]
  {
  }

  // One more kid of i saved, on top of what was saved before.
  lemma AfterKid(c: Codec, a: Nodes, db0: DB, arch0: Archive, b: Nodes, db1: DB, arch1: Archive,
                 d: Nodes, db: DB, arch: Archive, i: nat, k: string, done: set<string>)
    requires SavingKids(c, a, db0, arch0, b, db1, arch1, i, done) && Saved(c, b, db1, arch1, d, db, arch)
    requires k in a[i].kids && SavedUnder(c, b, d, a[i].kids[k])
    requires forall j: nat :: j < |b| && d[j] != b[j] ==> Attached(b, j, a[i].kids[k])
    ensures SavingKids(c, a, db0, arch0, d, db, arch, i, done + {k})
  {
    SavedCompose(c, a, db0, arch0, b, db1, arch1, d, db, arch);
    SavedRebase(c, a, b, d, a[i].kids[k]);
    forall q | q in done ensures SavedUnder(c, a, d, a[i].kids[q]) {
      SavedStays(c, a, b, d, a[i].kids[q]);
    }
    if d[i] != b[i] {
      AttachedIsOlder(b, i, a[i].kids[k]);
    }
    forall j: nat | j < |a| && d[j] != a[j] ensures Attached(a, j, i) {
      if b[j] == a[j] {
        AttachedSame(c, a, b, j, a[i].kids[k]);
        AttachedUp(a, j, a[i].kids[k], i, k);
      }
    }
  }

  // Changing node i itself as well stays within what hangs from i.
  lemma StaysWithin(a: Nodes, b: Nodes, i: nat, row: DNode)
    requires i < |a| == |b| && forall j: nat :: j < |a| && b[j] != a[j] ==> Attached(a, j, i)
    ensures forall j: nat :: j < |a| && b[i := row][j] != a[j] ==> Attached(a, j, i)
  {
  }

  lemma KidsAreClean(c: Codec, a: Nodes, b: Nodes, i: nat)
    requires i < |a| == |b| && b[i] == a[i]
    requires forall k :: k in a[i].kids ==> i < a[i].kids[k] < |b| && SavedUnder(c, a, b, a[i].kids[k])
    ensures KidsClean(b, i)
  {
    forall k | k in b[i].kids ensures b[i].kids[k] < |b| && !b[b[i].kids[k]].metaDirty {
      assert SavedUnder(c, a, b, a[i].kids[k]);
    }
  }

  lemma OneSavedRow(c: Codec, b: Nodes, i: nat)
    requires i < |b| && b[i].metaDirty && KidsClean(b, i) && LinkedAt(b, i)
    ensures var r, d := RecordNow(b, i), b[i := SaveNow(c, b, i)];
      && SavedRecord(c, b, i) == r && SavedSig(c, b, i) == c.hash(c.encode(r))
      && Partial(c, b, d) && SavedUnder(c, b, d, i)
  {
    var r, d := RecordNow(b, i), b[i := SaveNow(c, b, i)];
    assert SavedRecord(c, b, i).childSigs == r.childSigs;
    forall k | k in b[i].kids ensures SavedUnder(c, b, d, b[i].kids[k]) {
      assert d[b[i].kids[k]] == b[b[i].kids[k]];
    }
  }

  // Saving one node whose kids are clean, as a step of its own.
  lemma OneSaved(c: Codec, b: Nodes, db: DB, arch: Archive, i: nat, db': DB, arch': Archive)
    requires i < |b| && b[i].metaDirty && KidsClean(b, i) && LinkedAt(b, i)
    requires db' == PutBlob(c, db, c.encode(RecordNow(b, i))) && Extends(db, db') && Grows(arch, arch')
    ensures Saved(c, b, db, arch, b[i := SaveNow(c, b, i)], db', arch') && SavedUnder(c, b, b[i := SaveNow(c, b, i)], i)
  {
    var d := b[i := SaveNow(c, b, i)];
    OneSavedRow(c, b, i);
    assert SomeRecord(c, b, d, c.hash(c.encode(RecordNow(b, i))));
  }

  lemma AfterSelf(c: Codec, a: Nodes, db0: DB, arch0: Archive, b: Nodes, db: DB, arch: Archive, i: nat, root: nat)
    requires Inv(c, b, root, db, arch) && Saved(c, a, db0, arch0, b, db, arch)
    requires i < |b| && b[i] == a[i] && b[i].metaDirty && KidsClean(b, i)
    ensures HasBlocks(db, b[i].dataBlocks)
    ensures var r := RecordNow(b, i);
      var d := b[i := SaveNow(c, b, i)];
      && Saved(c, a, db0, arch0, d, PutBlob(c, db, c.encode(r)), arch[c.hash(c.encode(r)) := TreeNow(b, db, arch, i)])
      && SavedUnder(c, a, d, i)
  {
    InvRow(c, b, root, db, arch, i);
    SaveKeeps(c, b, root, db, arch, i);
    var r, d := RecordNow(b, i), b[i := SaveNow(c, b, i)];
    PutExtends(c, db, c.encode(r));
    var db', arch' := PutBlob(c, db, c.encode(r)), arch[c.hash(c.encode(r)) := TreeNow(b, db, arch, i)];
    OneSaved(c, b, db, arch, i, db', arch');
    SavedCompose(c, a, db0, arch0, b, db, arch, d, db', arch');
    SavedRebase(c, a, b, d, i);
  }

  // Saving neither syncs nor unsyncs anything below a node that was saved.
  lemma {:induction false} SavingKeepsSynced(c: Codec, a: Nodes, db0: DB, arch0: Archive, b: Nodes, db: DB,
                                             arch: Archive,
                                             root: nat, i: nat)
    requires Inv(c, a, root, db0, arch0) && Inv(c, b, root, db, arch) && Saved(c, a, db0, arch0, b, db, arch)
    requires i < |a| && SavedUnder(c, a, b, i)
    ensures SyncedUnder(b, db, arch, i) <==> SyncedUnder(a, db0, arch0, i)
    decreases |a| - i
  {
    InvRow(c, a, root, db0, arch0, i);
    InvRow(c, b, root, db, arch, i);
    EmptyKeyUnused(c, db, arch);
    if b[i].sig != "" {
      ArchiveAt(c, db, arch, b[i].sig);
    }
    RowKeepsSynced(c, a, db0, arch0, b, db, arch, i);
    forall k | k in a[i].kids && i < a[i].kids[k] < |a|
      ensures SyncedUnder(b, db, arch, a[i].kids[k]) <==> SyncedUnder(a, db0, arch0, a[i].kids[k])
    {
      KidSavedUnder(c, a, b, i, k);
      SavingKeepsSynced(c, a, db0, arch0, b, db, arch, root, a[i].kids[k]);
    }
  }

  lemma KidSavedUnder(c: Codec, a: Nodes, b: Nodes, i: nat, k: string)
    requires i < |a| && Partial(c, a, b) && SavedUnder(c, a, b, i) && DirtyUp(a, i)
    requires k in a[i].kids && i < a[i].kids[k] < |a|
    ensures SavedUnder(c, a, b, a[i].kids[k])
  {
    if !a[i].metaDirty {
      assert !a[a[i].kids[k]].metaDirty;
    }
  }

  lemma RowKeepsSynced(c: Codec, a: Nodes, db0: DB, arch0: Archive, b: Nodes, db: DB, arch: Archive, i: nat)
    requires Sound(c) && i < |a| == |b| && Extends(db0, db) && Grows(arch0, arch) && b[i] == SavedRow(c, a, i)
    requires a[i].metaDirty && !b[i].metaDirty ==> RecordIn(c, db, SavedSig(c, a, i), SavedRecord(c, a, i))
    requires LinkedAt(a, i) && KnownAt(db0, arch0, a[i]) && KnownAt(db, arch, b[i]) && "" !in arch
    requires b[i].sig != "" ==> ArchivedAt(c, db, arch, b[i].sig)
    ensures b[i].kids == a[i].kids
    ensures SyncedAt(db, arch, b[i]) <==> SyncedAt(db0, arch0, a[i])
  {
    BlockBytesExtend(db0, db, a[i].dataBlocks);
    if a[i].metaDirty {
      assert NodeAt(c, db, b[i].sig) == SavedRecord(c, a, i);
    }
  }
}
