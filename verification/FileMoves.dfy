/** A file moved into another directory, one that was just saved: the move is not. */
module FileMoves {
  import opened Options
  import opened TreeStore
  import opened TreeNodes
  import opened TreeSave
  import opened TreeOps
  import opened FileTree

  // A root with an empty directory and a file, each with its entry in place.
  ghost predicate DirAndFile(nodes: Nodes) {
    && |nodes| == 3 && nodes[0].kids == map["d" := 1, "f" := 2] && nodes[0].parent.None?
    && nodes[1].kids == map[] && nodes[1].parent == Some(0) && !nodes[1].loadFromDB
    && nodes[2].kids == map[] && nodes[2].parent == Some(0) && !nodes[2].loadFromDB
  }

  ghost predicate AllDirty(nodes: Nodes) {
    forall i: nat :: i < |nodes| ==> nodes[i].metaDirty
  }

  method TwoEntries(c: Codec, owner: (nat, nat), now: int) returns (fs: FileSystem)
    requires Sound(c)
    ensures fresh(fs) && fs.Valid() && !fs.readOnly && fs.root == 0 && DirAndFile(fs.nodes) && AllDirty(fs.nodes)
  {
    fs := new FileSystem.Create(c, owner, 493, 1, now);
    var status, d := fs.AddNode(0, "d", true, 493, now);
    var f;
    status, f := fs.AddNode(0, "f", false, 420, now);
  }

  // A save leaves the directory clean and everything in its place.
  lemma SavedClean(c: Codec, a: Nodes, db0: DB, arch0: Archive, b: Nodes, db: DB, arch: Archive)
    requires DirAndFile(a) && AllDirty(a)
    requires Inv(c, b, 0, db, arch) && Saved(c, a, db0, arch0, b, db, arch) && !b[0].metaDirty
    ensures DirAndFile(b) && !b[1].metaDirty && b[1].sig != ""
  {
    SavedRows(c, a, b);
    InvRow(c, b, 0, db, arch, 1);
    assert CleanAt(c, b, 0, db, 1);
  }

  lemma SavedRows(c: Codec, a: Nodes, b: Nodes)
    requires DirAndFile(a) && AllDirty(a) && Partial(c, a, b) && SavedUnder(c, a, b, 0)
    ensures DirAndFile(b) && !b[1].metaDirty
  {
    assert b[0] == SavedRow(c, a, 0) && a[0].kids["d"] == 1;
    assert SavedUnder(c, a, b, 1);
    assert b[2] == a[2] || b[2] == SavedRow(c, a, 2);
  }

  method SaveEntries(fs: FileSystem)
    requires fs.Valid() && fs.root == 0 && DirAndFile(fs.nodes) && AllDirty(fs.nodes)
    modifies fs
    ensures fs.Valid() && fs.root == 0
    ensures DirAndFile(fs.nodes) && !fs.nodes[1].metaDirty && fs.nodes[1].sig != ""
  {
    ghost var a, db0, arch0 := fs.nodes, fs.db, fs.archive;
    fs.SaveAndPublish();
    SavedClean(fs.c, a, db0, arch0, fs.nodes, fs.db, fs.archive);
  }

  method SavedEntries(c: Codec, owner: (nat, nat), now: int) returns (fs: FileSystem)
    requires Sound(c)
    ensures fresh(fs) && fs.Valid() && !fs.readOnly && fs.root == 0
    ensures DirAndFile(fs.nodes) && !fs.nodes[1].metaDirty && fs.nodes[1].sig != ""
  {
    fs := TwoEntries(c, owner, now);
    SaveEntries(fs);
  }

  // A file moved from the root into a directory that is clean: the root no longer lists it, the
  // directory does, and what the next save leaves of the directory is a record without it.
  method MovedFileIsForgotten(c: Codec, owner: (nat, nat), now: int) returns (fs: FileSystem)
    requires Sound(c)
    ensures |fs.nodes| == 3 && fs.root == 0 && "f" !in fs.nodes[0].kids && fs.nodes[1].kids == map["g" := 2]
    ensures SavedRow(fs.c, fs.nodes, 1) == fs.nodes[1] && HasNode(fs.c, fs.db, fs.nodes[1].sig)
    ensures "g" !in NodeAt(fs.c, fs.db, fs.nodes[1].sig).childSigs
  {
    fs := SavedEntries(c, owner, now);
    ghost var a := fs.nodes;
    assert OnPath(a, 2, 1) <==> OnPath(a, 0, 1);
    MovedEntryIsRecordedIff(fs.c, a, 0, fs.db, fs.archive, 0, "f", 1, "g", now);
    ghost var status, before := fs.Rename(0, "f", 1, "g", now);
    MovedRows(a, now);
  }

  lemma MovedRows(nodes: Nodes, now: int)
    requires DirAndFile(nodes)
    ensures var b := Updated(Moved(nodes, 0, "f", 1, "g"), 2, now);
      |b| == 3 && "f" !in b[0].kids && b[1].kids == map["g" := 2]
  {
    MovedRow(nodes, 0, "f", 1, "g", 0);
    MovedRow(nodes, 0, "f", 1, "g", 1);
  }
}
