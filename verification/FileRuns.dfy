/** Whole stories: a file is cut short, saved and mounted again. */
module FileRuns {
  import opened Options
  import opened Chunking
  import opened TreeStore
  import opened TreeNodes
  import opened TreeSave
  import opened TreeOps
  import opened TreeSteps
  import opened TreeSynced
  import opened FileTree

  // From a synced tree, a change of attributes, a save and a new mount bring back the tree in memory
  // exactly when no byte was cut off; in any case they bring back the bytes from before the change.
  method SetattrAndRemount(fs: FileSystem, i: nat, req: AttrChange, now: int) returns (fs2: FileSystem)
    requires fs.Valid() && i < |fs.nodes| && Attached(fs.nodes, i, fs.root)
    requires SyncedUnder(fs.nodes, fs.db, fs.archive, fs.root)
    modifies fs
    ensures fs.Valid() && fresh(fs2) && fs2.Valid() && fs.root == old(fs.root) && i < |fs.nodes|
    ensures fs2.Held(fs2.root) == fs.Held(fs.root) <==> !Truncates(old(fs.Held(i)).data, req)
    ensures var u := Part(fs.nodes, i, fs.root, fs.Held(fs.root));
      u.Some? && u.value.data == Cut(old(fs.Held(i)).data, req)
    ensures var u := Part(fs.nodes, i, fs.root, fs2.Held(fs2.root));
      u.Some? && u.value.data == old(fs.Held(i)).data
  {
    ghost var bytes := fs.Held(i).data;
    ChangeAttributes(fs, i, req, now);
    ghost var a, db0, arch0 := fs.nodes, fs.db, fs.archive;
    fs2 := fs.SaveAndRemount();
    SavedStory(fs.c, a, db0, arch0, fs.nodes, fs.root, fs.db, fs.archive, i, bytes);
  }

  // Setattr on a synced tree: it stays synced exactly when no byte is cut off, and the node's blocks
  // still hold the bytes from before.
  method ChangeAttributes(fs: FileSystem, i: nat, req: AttrChange, now: int)
    requires fs.Valid() && i < |fs.nodes| && Attached(fs.nodes, i, fs.root)
    requires SyncedUnder(fs.nodes, fs.db, fs.archive, fs.root)
    modifies fs`nodes
    ensures fs.Valid() && i < |fs.nodes| && !fs.nodes[i].loadFromDB && Attached(fs.nodes, i, fs.root)
    ensures fs.nodes[fs.root].metaDirty && fs.nodes[i].data == Cut(old(fs.Held(i)).data, req)
    ensures SyncedUnder(fs.nodes, fs.db, fs.archive, fs.root) <==> !Truncates(old(fs.Held(i)).data, req)
    ensures HasBlocks(fs.db, fs.nodes[i].dataBlocks)
    ensures BlockBytes(fs.db, fs.nodes[i].dataBlocks) == old(fs.Held(i)).data
  {
    ghost var before := fs.Setattr(i, req, now);
    ChangedStory(fs.c, old(fs.nodes), before, fs.root, fs.db, fs.archive, i, req, now);
  }

  lemma ChangedStory(c: Codec, nodes: Nodes, before: Nodes, root: nat, db: DB, arch: Archive, i: nat, req: AttrChange,
                     now: int)
    requires Inv(c, nodes, root, db, arch) && i < |nodes| && Attached(nodes, i, root)
    requires SyncedUnder(nodes, db, arch, root)
    requires if nodes[i].loadFromDB then Loaded(c, db, nodes, before, i) else before == nodes
    ensures |nodes| <= |before| && HasBlocks(db, before[i].dataBlocks)
    ensures BlockBytes(db, before[i].dataBlocks) == before[i].data
    ensures var b := Updated(before[i := Changed(before[i], req)], i, now);
      && Attached(b, i, root) && b[root].metaDirty && !b[i].loadFromDB
      && (SyncedUnder(b, db, arch, root) <==> !Truncates(before[i].data, req))
  {
    LoadedStory(c, nodes, before, root, db, arch, i);
    MarkedStory(c, before, root, db, arch, i, req, now);
    SyncedAttached(before, db, arch, root, i);
  }

  lemma LoadedStory(c: Codec, nodes: Nodes, before: Nodes, root: nat, db: DB, arch: Archive, i: nat)
    requires Inv(c, nodes, root, db, arch) && i < |nodes| && Attached(nodes, i, root)
    requires SyncedUnder(nodes, db, arch, root)
    requires if nodes[i].loadFromDB then Loaded(c, db, nodes, before, i) else before == nodes
    ensures |nodes| <= |before| && !before[i].loadFromDB
    ensures Inv(c, before, root, db, arch) && Attached(before, i, root) && SyncedUnder(before, db, arch, root)
  {
    if nodes[i].loadFromDB {
      LoadKeeps(c, nodes, before, root, db, arch, i);
      LoadingStaysSynced(c, nodes, before, root, db, arch, i, root);
      InvRow(c, nodes, root, db, arch, i);
      LoadedStaysAttached(c, nodes, before, db, i, root);
    }
  }

  lemma LoadedStaysAttached(c: Codec, nodes: Nodes, before: Nodes, db: DB, i: nat, r: nat)
    requires i < |nodes| && nodes[i].kids == map[] && Loaded(c, db, nodes, before, i) && Attached(nodes, i, r)
    ensures Attached(before, i, r)
  {
    SameAttached(nodes, before, i, r);
  }

  lemma MarkedStory(c: Codec, nodes: Nodes, root: nat, db: DB, arch: Archive, i: nat, req: AttrChange, now: int)
    requires Inv(c, nodes, root, db, arch) && i < |nodes| && !nodes[i].loadFromDB
    requires Attached(nodes, i, root) && SyncedUnder(nodes, db, arch, root)
    ensures var b := Updated(nodes[i := Changed(nodes[i], req)], i, now);
      && Attached(b, i, root) && b[root].metaDirty && !b[i].loadFromDB
      && (SyncedUnder(b, db, arch, root) <==> !Truncates(nodes[i].data, req))
  {
    AllKnown(c, nodes, root, db, arch);
    SetattrSyncs(nodes, db, arch, root, i, req, now);
    MarkedStaysAttached(nodes, i, root, Changed(nodes[i], req), now);
  }

  lemma MarkedStaysAttached(nodes: Nodes, i: nat, r: nat, row: DNode, now: int)
    requires i < |nodes| && r < |nodes| && Attached(nodes, i, r) && row.parent == nodes[i].parent
    requires row.kids == nodes[i].kids
    ensures var b := Updated(nodes[i := row], i, now); Attached(b, i, r) && b[r].metaDirty
  {
    var a := nodes[i := row];
    SameAttached(nodes, a, i, r);
    SameAttached(nodes, Updated(a, i, now), i, r);
    AttachedOnPath(a, i, r);
  }

  lemma {:induction false} AttachedOnPath(nodes: Nodes, i: nat, r: nat)
    requires i < |nodes| && Attached(nodes, i, r)
    ensures OnPath(nodes, i, r)
    decreases i
  {
    if i != r {
      AttachedOnPath(nodes, nodes[i].parent.value, r);
    }
  }

  lemma SavedStory(c: Codec, a: Nodes, db0: DB, arch0: Archive, b: Nodes, root: nat, db: DB, arch: Archive, i: nat,
                   bytes: Data)
    requires Inv(c, b, root, db, arch) && Saved(c, a, db0, arch0, b, db, arch) && i < |a| && Attached(a, i, root)
    requires HasBlocks(db0, a[i].dataBlocks) && BlockBytes(db0, a[i].dataBlocks) == bytes && !a[i].loadFromDB
    requires !b[root].metaDirty && b[root].sig != ""
    ensures b[root].sig in arch
    ensures var u := Part(b, i, root, arch[b[root].sig]); u.Some? && u.value.data == bytes
    ensures var u := Part(b, i, root, MemTree(b, arch, root)); u.Some? && u.value.data == a[i].data
  {
    SameAttached(a, b, i, root);
    PartOfArchive(c, b, root, db, arch, root, i);
    PartOfMemory(c, b, root, db, arch, root, i);
    StoredBytes(c, b, root, db, arch, i);
    BlockBytesExtend(db0, db, a[i].dataBlocks);
  }

  // A fresh file system, a file of one byte, flushed, cut to nothing and flushed again, saved and
  // mounted: the byte is back.
  method CutByteComesBack(c: Codec, owner: (nat, nat), d: Byte, now: int) returns (fs: FileSystem, fs2: FileSystem)
    requires Sound(c)
    ensures fs.Valid() && fs2.Valid() && fs2.Held(fs2.root) != fs.Held(fs.root)
    ensures "f" in fs.Held(fs.root).kids && fs.Held(fs.root).kids["f"].data == []
    ensures "f" in fs2.Held(fs2.root).kids && fs2.Held(fs2.root).kids["f"].data == [d]
  {
    fs := OneFile(c, owner, [d], now);
    fs2 := CutFlushedFile(fs, d, now);
  }

  // A file system of one file, written and flushed.
  method OneFile(c: Codec, owner: (nat, nat), bytes: Data, now: int) returns (fs: FileSystem)
    requires Sound(c)
    ensures fresh(fs) && fs.Valid() && fs.Settled() && !fs.readOnly && fs.root == 0 && OneFileOf(fs.nodes, bytes)
  {
    fs := EmptyFile(c, owner, now);
    var status := fs.Write(1, 0, bytes);
    assert Patched([], 0, bytes) == bytes;
    ghost var before := fs.Flush(1, now);
  }

  method EmptyFile(c: Codec, owner: (nat, nat), now: int) returns (fs: FileSystem)
    requires Sound(c)
    ensures fresh(fs) && fs.Valid() && fs.Settled() && !fs.readOnly && fs.root == 0 && OneFileOf(fs.nodes, [])
  {
    fs := new FileSystem.Create(c, owner, 493, 1, now);
    var status, i := fs.AddNode(0, "f", false, 420, now);
  }

  method CutFlushedFile(fs: FileSystem, d: Byte, now: int) returns (fs2: FileSystem)
    requires fs.Valid() && fs.Settled() && fs.root == 0 && OneFileOf(fs.nodes, [d])
    modifies fs
    ensures fs.Valid() && fs2.Valid() && fs.root == 0 && fs2.Held(fs2.root) != fs.Held(fs.root)
    ensures "f" in fs.Held(fs.root).kids && fs.Held(fs.root).kids["f"].data == []
    ensures "f" in fs2.Held(fs2.root).kids && fs2.Held(fs2.root).kids["f"].data == [d]
  {
    OneFileSynced(fs.c, fs.nodes, fs.db, fs.archive, [d]);
    CutThenFlush(fs, d, now);
    ghost var a, db0, arch0 := fs.nodes, fs.db, fs.archive;
    fs2 := fs.SaveAndRemount();
    SavedStory(fs.c, a, db0, arch0, fs.nodes, 0, fs.db, fs.archive, 1, [d]);
    PartOfRoot(fs.nodes, fs.Held(0));
    PartOfRoot(fs.nodes, fs2.Held(fs2.root));
  }

  // The flush after the cut finds nothing to do.
  method CutThenFlush(fs: FileSystem, d: Byte, now: int)
    requires fs.Valid() && fs.root == 0 && OneFileOf(fs.nodes, [d])
    requires SyncedUnder(fs.nodes, fs.db, fs.archive, 0) && Attached(fs.nodes, 1, 0)
    modifies fs`nodes, fs`db
    ensures fs.Valid() && |fs.nodes| == 2 && fs.nodes[1].parent == Some(0) && fs.nodes[1].name == "f"
    ensures !fs.nodes[1].loadFromDB && Attached(fs.nodes, 1, 0) && fs.nodes[0].metaDirty && fs.nodes[1].data == []
    ensures !SyncedUnder(fs.nodes, fs.db, fs.archive, 0)
    ensures HasBlocks(fs.db, fs.nodes[1].dataBlocks) && BlockBytes(fs.db, fs.nodes[1].dataBlocks) == [d]
  {
    ghost var before := fs.Setattr(1, CutToNothing(), now);
    ChangedStory(fs.c, old(fs.nodes), before, 0, fs.db, fs.archive, 1, CutToNothing(), now);
    before := fs.Flush(1, now);
  }

  function CutToNothing(): AttrChange {
    AttrChange(None, None, None, None, None, None, Some(0))
  }

  // A root with one loaded file.
  ghost predicate OneFileOf(nodes: Nodes, data: Data) {
    && |nodes| == 2 && nodes[0].kids == map["f" := 1] && nodes[0].metaDirty && !nodes[0].dirty && !nodes[0].loadFromDB
    && nodes[1].kids == map[] && nodes[1].parent == Some(0) && nodes[1].name == "f" && nodes[1].metaDirty
    && nodes[1].data == data && !nodes[1].dirty && !nodes[1].loadFromDB
  }

  lemma OneFileSynced(c: Codec, nodes: Nodes, db: DB, arch: Archive, data: Data)
    requires Inv(c, nodes, 0, db, arch) && AllSettled(db, nodes) && OneFileOf(nodes, data)
    ensures SyncedUnder(nodes, db, arch, 0) && Attached(nodes, 1, 0)
  {
    assert FlushedUnder(nodes, 1);
    assert FlushedUnder(nodes, 0);
    SettledIsSynced(c, nodes, 0, db, arch, 0);
    assert nodes[0].kids["f"] == 1;
  }

  lemma PartOfRoot(nodes: Nodes, t: Tree)
    requires |nodes| == 2 && nodes[1].parent == Some(0) && nodes[1].name == "f"
    ensures Part(nodes, 1, 0, t) == if "f" in t.kids then Some(t.kids["f"]) else None
  {
  }
}
