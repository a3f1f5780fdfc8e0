/** How far the tree in memory and the blocks in the store agree, and what loading and truncating do to it. */
module TreeSynced {
  import opened Options
  import opened TreeStore
  import opened TreeNodes
  import opened TreeSave
  import opened TreeOps
  import opened TreeSteps

  // Everything attached below a synced node is synced.
  lemma {:induction false} SyncedAttached(nodes: Nodes, db: DB, arch: Archive, r: nat, i: nat)
    requires i < |nodes| && Attached(nodes, i, r) && r < |nodes| && SyncedUnder(nodes, db, arch, r)
    ensures SyncedUnder(nodes, db, arch, i)
    decreases i
  {
    if i != r {
      SyncedAttached(nodes, db, arch, r, nodes[i].parent.value);
    }
  }

  // Rows that stay as synced as they were, with the same kids, leave the tree as synced as it was.
  lemma {:induction false} RowsStaySynced(a: Nodes, b: Nodes, db: DB, arch: Archive, i: nat)
    requires i < |a| == |b| && SyncedUnder(a, db, arch, i)
    requires forall j: nat :: j < |a| ==>
      b[j].kids == a[j].kids && (SyncedAt(db, arch, a[j]) ==> SyncedAt(db, arch, b[j]))
    ensures SyncedUnder(b, db, arch, i)
    decreases |a| - i
  {
    forall k | k in b[i].kids && i < b[i].kids[k] < |b| ensures SyncedUnder(b, db, arch, b[i].kids[k]) {
      RowsStaySynced(a, b, db, arch, b[i].kids[k]);
    }
  }

  lemma {:induction false} SameAttached(a: Nodes, b: Nodes, i: nat, r: nat)
    requires i < |a| <= |b| && Attached(a, i, r)
    requires forall j: nat :: j < |a| ==> b[j].parent == a[j].parent && forall k :: k in a[j].kids ==>
      k in b[j].kids && b[j].kids[k] == a[j].kids[k]
    ensures Attached(b, i, r)
    decreases i
  {
    if i != r {
      var p := a[i].parent.value;
      SameAttached(a, b, p, r);
      var k :| k in a[p].kids && a[p].kids[k] == i;
      assert k in b[p].kids && b[p].kids[k] == i;
    }
  }

  // A fetched node is synced.
  lemma FetchedIsSynced(c: Codec, db: DB, arch: Archive, sig: Key, p: nat)
    requires HasNode(c, db, sig) && ArchivedAt(c, db, arch, sig)
    ensures SyncedAt(db, arch, Fetched(c, db, sig, Some(p)))
  {
  }

  lemma LoadedKidsSynced(c: Codec, a: Nodes, b: Nodes, root: nat, db: DB, arch: Archive, i: nat, k: string)
    requires Inv(c, a, root, db, arch) && i < |a| && a[i].loadFromDB && Loaded(c, db, a, b, i) && k in b[i].kids
    ensures i < b[i].kids[k] < |b| && SyncedUnder(b, db, arch, b[i].kids[k])
  {
    InvRow(c, a, root, db, arch, i);
    ArchiveAt(c, db, arch, a[i].sig);
    ArchiveAt(c, db, arch, a[i].childSigs[k]);
    FetchedIsSynced(c, db, arch, a[i].childSigs[k], i);
  }

  // Loading a node leaves the tree as synced as it was.
  lemma {:induction false} LoadingStaysSynced(c: Codec, a: Nodes, b: Nodes, root: nat, db: DB, arch: Archive, i: nat,
                                              r: nat)
    requires Inv(c, a, root, db, arch) && i < |a| && a[i].loadFromDB && Loaded(c, db, a, b, i)
    requires r < |a| && SyncedUnder(a, db, arch, r)
    ensures SyncedUnder(b, db, arch, r)
    decreases |a| - r
  {
    InvRow(c, a, root, db, arch, r);
    forall k | k in b[r].kids && r < b[r].kids[k] < |b| ensures SyncedUnder(b, db, arch, b[r].kids[k]) {
      if r == i {
        LoadedKidsSynced(c, a, b, root, db, arch, i, k);
      } else {
        LoadingStaysSynced(c, a, b, root, db, arch, i, a[r].kids[k]);
      }
    }
  }

  // After Setattr on a loaded node of a synced tree, the tree is synced exactly when no byte was cut off.
  lemma SetattrSyncs(nodes: Nodes, db: DB, arch: Archive, r: nat, i: nat, req: AttrChange, now: int)
    requires r < |nodes| && i < |nodes| && !nodes[i].loadFromDB && Attached(nodes, i, r)
    requires SyncedUnder(nodes, db, arch, r)
    requires forall j: nat :: j < |nodes| ==> HasBlocks(db, nodes[j].dataBlocks)
    ensures var b := Updated(nodes[i := Changed(nodes[i], req)], i, now);
      SyncedUnder(b, db, arch, r) <==> !Truncates(nodes[i].data, req)
  {
    var a := nodes[i := Changed(nodes[i], req)];
    var b := Updated(a, i, now);
    SyncedAttached(nodes, db, arch, r, i);
    SetattrEffect(nodes, db, arch, i, req, now);
    if Truncates(nodes[i].data, req) {
      SameAttached(nodes, b, i, r);
      if SyncedUnder(b, db, arch, r) {
        SyncedAttached(b, db, arch, r, i);
      }
    } else {
      RowsStaySynced(nodes, b, db, arch, r);
    }
  }

  // ---- Parts of a tree ------------------------------------------------------------------------

  // Of a tree that stands for node r, the part that stands for node i, following names down.
  ghost function Part(nodes: Nodes, i: nat, r: nat, t: Tree): Option<Tree>
    requires i < |nodes|
    decreases i
  {
    if i == r then Some(t)
    else if nodes[i].parent.None? || nodes[i].parent.value >= i then None
    else
      var u := Part(nodes, nodes[i].parent.value, r, t);
      if u.Some? && nodes[i].name in u.value.kids then Some(u.value.kids[nodes[i].name]) else None
  }

  // Of what a clean node decodes to, the part for a node below is what that node decodes to.
  lemma {:induction false} PartOfArchive(c: Codec, nodes: Nodes, root: nat, db: DB, arch: Archive, r: nat, i: nat)
    requires Inv(c, nodes, root, db, arch) && r < |nodes| && i < |nodes| && Attached(nodes, i, r)
    requires !nodes[r].metaDirty && nodes[r].sig != "" && !nodes[r].loadFromDB
    ensures !nodes[i].metaDirty && nodes[i].sig in arch && nodes[r].sig in arch
    ensures Part(nodes, i, r, arch[nodes[r].sig]) == Some(arch[nodes[i].sig])
    decreases i
  {
    InvRow(c, nodes, root, db, arch, i);
    if i != r {
      var p := nodes[i].parent.value;
      PartOfArchive(c, nodes, root, db, arch, r, p);
      InvRow(c, nodes, root, db, arch, p);
      var k :| k in nodes[p].kids && nodes[p].kids[k] == i;
      CleanKid(c, nodes, root, db, arch, p, k);
      EmptyKeyUnused(c, db, arch);
      ArchiveAt(c, db, arch, nodes[p].sig);
    }
  }

  // Of the tree in memory from r down, the part for a node below is the tree from there down.
  lemma {:induction false} PartOfMemory(c: Codec, nodes: Nodes, root: nat, db: DB, arch: Archive, r: nat, i: nat)
    requires Inv(c, nodes, root, db, arch) && r < |nodes| && i < |nodes| && Attached(nodes, i, r)
    ensures Part(nodes, i, r, MemTree(nodes, arch, r)) == Some(MemTree(nodes, arch, i))
    decreases i
  {
    if i != r {
      var p := nodes[i].parent.value;
      PartOfMemory(c, nodes, root, db, arch, r, p);
      InvRow(c, nodes, root, db, arch, p);
      InvRow(c, nodes, root, db, arch, i);
      var k :| k in nodes[p].kids && nodes[p].kids[k] == i;
    }
  }

  // A clean node that was saved decodes to the bytes of its blocks.
  lemma StoredBytes(c: Codec, nodes: Nodes, root: nat, db: DB, arch: Archive, i: nat)
    requires Inv(c, nodes, root, db, arch) && i < |nodes| && !nodes[i].metaDirty && nodes[i].sig in arch
    ensures HasBlocks(db, nodes[i].dataBlocks) && arch[nodes[i].sig].data == BlockBytes(db, nodes[i].dataBlocks)
  {
    InvRow(c, nodes, root, db, arch, i);
    ArchiveAt(c, db, arch, nodes[i].sig);
    EmptyKeyUnused(c, db, arch);
  }
}
