/** Every change stamps the root, so that asking for an earlier time leads past what was changed since. */
module FileTimes {
  import opened Options
  import opened TreeStore
  import opened TreeNodes
  import opened TreeSave
  import opened TreeOps
  import opened TreeSteps
  import opened TreeHistory
  import opened FileTree

  // ---- The stamp ------------------------------------------------------------------------------

  // Parent pointers lead from i to the root.
  ghost predicate Under(nodes: Nodes, i: nat, root: nat) {
    i < |nodes| && root < |nodes| && OnPath(nodes, i, root)
  }

  // The root was marked at this time; it is saved next over the version it has now.
  ghost predicate Stamped(nodes: Nodes, root: nat, now: int, sig: Key) {
    root < |nodes| && nodes[root].metaDirty && nodes[root].attrs.mtime == now && nodes[root].sig == sig
  }

  lemma MarkingStamps(nodes: Nodes, i: nat, root: nat, now: int)
    requires Under(nodes, i, root)
    ensures Stamped(Updated(nodes, i, now), root, now, nodes[root].sig)
  {
  }

  lemma {:induction false} SameUnder(a: Nodes, b: Nodes, i: nat, root: nat)
    requires Under(a, i, root) && |a| <= |b| && forall j: nat :: j < |a| ==> b[j].parent == a[j].parent
    ensures Under(b, i, root)
    decreases i
  {
    if i != root {
      SameUnder(a, b, a[i].parent.value, root);
    }
  }

  // The request changes something at or below a node that hangs under the root.
  ghost predicate Marks(nodes: Nodes, root: nat, req: Request) {
    match req
    case AddNode(p, name, _, _) => Under(nodes, p, root) && name !in nodes[p].kids
    case Setattr(i, _) => Under(nodes, i, root)
    case Flush(i) => Under(nodes, i, root) && nodes[i].dirty && !NoData(nodes[i])
    case Remove(p, name, wantDir) =>
      Under(nodes, p, root) && name in nodes[p].kids && nodes[p].kids[name] < |nodes|
      && (nodes[nodes[p].kids[name]].attrs.isDir ==> wantDir)
    case Rename(p, oldName, _) => Under(nodes, p, root) && oldName in nodes[p].kids
    case _ => false
  }

  lemma LoadedUnder(c: Codec, db: DB, a: Nodes, b: Nodes, i: nat, j: nat, root: nat)
    requires i < |a| && Under(a, j, root) && if a[i].loadFromDB then Loaded(c, db, a, b, i) else b == a
    ensures Under(b, j, root) && b[root].sig == a[root].sig
  {
    SameUnder(a, b, j, root);
  }

  lemma AddStamps(nodes: Nodes, p: nat, name: string, kid: DNode, root: nat, now: int)
    requires Under(nodes, p, root) && kid.parent == Some(p)
    ensures Stamped(Updated(WithKid(nodes, p, name, kid), |nodes|, now), root, now, nodes[root].sig)
  {
    var b, id := WithKid(nodes, p, name, kid), |nodes|;
    SameUnder(nodes, b, p, root);
    assert b[id] == kid;
    MarkingStamps(b, id, root, now);
  }

  lemma RowStamps(nodes: Nodes, i: nat, row: DNode, root: nat, now: int)
    requires Under(nodes, i, root) && row.parent == nodes[i].parent && row.sig == nodes[i].sig
    ensures Stamped(Updated(nodes[i := row], i, now), root, now, nodes[root].sig)
  {
    SameUnder(nodes, nodes[i := row], i, root);
    MarkingStamps(nodes[i := row], i, root, now);
  }

  lemma MoveStamps(nodes: Nodes, p: nat, oldName: string, newName: string, i: nat, root: nat, now: int)
    requires Under(nodes, i, root) && p < |nodes| && oldName in nodes[p].kids && nodes[p].kids[oldName] < |nodes|
    ensures Stamped(Updated(Moved(nodes, p, oldName, p, newName), i, now), root, now, nodes[root].sig)
  {
    var b := Moved(nodes, p, oldName, p, newName);
    forall j: nat | j < |nodes| ensures b[j].parent == nodes[j].parent && b[j].sig == nodes[j].sig {
      MovedRow(nodes, p, oldName, p, newName, j);
    }
    MovedRow(nodes, p, oldName, p, newName, root);
    SameUnder(nodes, b, i, root);
    MarkingStamps(b, i, root, now);
  }

  // ---- One change -----------------------------------------------------------------------------

  method ChangeStamps(fs: FileSystem, req: Request, now: int)
    requires fs.Valid() && !fs.readOnly && fs.Accepts(req) && Marks(fs.nodes, fs.root, req)
    modifies fs
    ensures fs.Valid() && fs.root == old(fs.root) && Grows(old(fs.archive), fs.archive)
    ensures Stamped(fs.nodes, fs.root, now, old(fs.nodes[fs.root].sig))
  {
    match req
    case AddNode(p, name, isDir, mode) => AddThere(fs, p, name, isDir, mode, now);
    case Setattr(i, change) => SetThere(fs, i, change, now);
    case Flush(i) => FlushThere(fs, i, now);
    case Remove(p, name, wantDir) => RemoveThere(fs, p, name, wantDir, now);
    case Rename(p, oldName, newName) => RenameThere(fs, p, oldName, newName, now);
  }

  method AddThere(fs: FileSystem, p: nat, name: string, isDir: bool, mode: nat, now: int)
    requires fs.Valid() && !fs.readOnly && Marks(fs.nodes, fs.root, Request.AddNode(p, name, isDir, mode))
    requires !fs.nodes[p].loadFromDB
    modifies fs
    ensures fs.Valid() && fs.root == old(fs.root) && fs.archive == old(fs.archive)
    ensures Stamped(fs.nodes, fs.root, now, old(fs.nodes[fs.root].sig))
  {
    ghost var kid := NewNode(name, isDir, mode, fs.nextInd, fs.owner, now, Some(p));
    AddStamps(fs.nodes, p, name, kid, fs.root, now);
    var status, id := fs.AddNode(p, name, isDir, mode, now);
  }

  method SetThere(fs: FileSystem, i: nat, change: AttrChange, now: int)
    requires fs.Valid() && Under(fs.nodes, i, fs.root)
    modifies fs`nodes
    ensures fs.Valid() && Stamped(fs.nodes, fs.root, now, old(fs.nodes[fs.root].sig))
  {
    ghost var before := fs.Setattr(i, change, now);
    LoadedUnder(fs.c, fs.db, old(fs.nodes), before, i, i, fs.root);
    RowStamps(before, i, Changed(before[i], change), fs.root, now);
  }

  method FlushThere(fs: FileSystem, i: nat, now: int)
    requires fs.Valid() && Under(fs.nodes, i, fs.root) && fs.nodes[i].dirty && !NoData(fs.nodes[i])
    modifies fs`nodes, fs`db
    ensures fs.Valid() && Stamped(fs.nodes, fs.root, now, old(fs.nodes[fs.root].sig))
  {
    ghost var data := fs.nodes[i].data;
    ghost var before := fs.Flush(i, now);
    LoadedUnder(fs.c, fs.db, old(fs.nodes), before, i, i, fs.root);
    RowStamps(before, i, Flushed(fs.c, before[i], data), fs.root, now);
  }

  method RemoveThere(fs: FileSystem, p: nat, name: string, wantDir: bool, now: int)
    requires fs.Valid() && !fs.readOnly && Marks(fs.nodes, fs.root, Request.Remove(p, name, wantDir))
    modifies fs`nodes
    ensures fs.Valid() && Stamped(fs.nodes, fs.root, now, old(fs.nodes[fs.root].sig))
  {
    RowStamps(fs.nodes, p, fs.nodes[p].(kids := fs.nodes[p].kids - {name}), fs.root, now);
    var status := fs.Remove(p, name, wantDir, now);
  }

  method RenameThere(fs: FileSystem, p: nat, oldName: string, newName: string, now: int)
    requires fs.Valid() && !fs.readOnly && Under(fs.nodes, p, fs.root) && oldName in fs.nodes[p].kids
    requires !fs.nodes[p].loadFromDB
    modifies fs`nodes
    ensures fs.Valid() && Stamped(fs.nodes, fs.root, now, old(fs.nodes[fs.root].sig))
  {
    ghost var a := fs.nodes;
    KidUnder(fs.c, a, fs.root, fs.db, fs.archive, p, oldName);
    ghost var status, before := fs.Rename(p, oldName, p, newName, now);
    RenameStamps(fs.c, fs.db, a, before, p, oldName, newName, fs.root, now);
  }

  lemma RenameStamps(c: Codec, db: DB, a: Nodes, before: Nodes, p: nat, oldName: string, newName: string, root: nat,
                     now: int)
    requires Under(a, p, root) && oldName in a[p].kids && Under(a, a[p].kids[oldName], root)
    requires if a[a[p].kids[oldName]].loadFromDB && oldName != newName then Loaded(c, db, a, before, a[p].kids[oldName])
             else before == a
    requires |a| <= |before| && before[p].kids == a[p].kids
    ensures var i := if oldName == newName then p else a[p].kids[oldName];
      Stamped(Updated(Moved(before, p, oldName, p, newName), i, now), root, now, a[root].sig)
  {
    var kid := a[p].kids[oldName];
    if oldName == newName {
      MoveStamps(before, p, oldName, newName, p, root, now);
    } else {
      LoadedUnder(c, db, a, before, kid, kid, root);
      MoveStamps(before, p, oldName, newName, kid, root, now);
    }
  }

  lemma KidUnder(c: Codec, nodes: Nodes, root: nat, db: DB, arch: Archive, p: nat, name: string)
    requires Inv(c, nodes, root, db, arch) && Under(nodes, p, root) && name in nodes[p].kids
    ensures Under(nodes, nodes[p].kids[name], root)
  {
    InvRow(c, nodes, root, db, arch, p);
  }

  // ---- And its save ---------------------------------------------------------------------------

  lemma SavedStamp(c: Codec, a: Nodes, db0: DB, arch0: Archive, b: Nodes, db: DB, arch: Archive, root: nat)
    requires Sound(c) && Archived(c, db, arch) && Saved(c, a, db0, arch0, b, db, arch)
    requires root < |a| && a[root].metaDirty && !b[root].metaDirty && SavedSig(c, a, root) in arch
    ensures var s := SavedSig(c, a, root);
      HasNode(c, db, s) && arch[s].attrs == a[root].attrs && arch[s].prevSig == a[root].sig
  {
    ArchiveAt(c, db, arch, SavedSig(c, a, root));
    assert RecordIn(c, db, SavedSig(c, a, root), SavedRecord(c, a, root));
  }

  // A change at 'now', and a save: the version published has that time, and comes after the version
  // the root had before. Asked for the time of the change or an earlier one, the new head's history
  // never yields the new version; asked for a time between the two, it yields the one before.
  method ChangeThenSave(fs: FileSystem, req: Request, now: int)
    requires fs.Valid() && !fs.readOnly && fs.Accepts(req) && Marks(fs.nodes, fs.root, req)
    modifies fs
    ensures fs.Valid() && fs.head.Some? && fs.head.value.root in fs.archive
    ensures var s := fs.head.value.root;
      && HasNode(fs.c, fs.db, s) && fs.archive[s].attrs.mtime == now
      && fs.archive[s].prevSig == old(fs.nodes[fs.root].sig)
      && forall tm :: tm <= now ==> Before(fs.c, fs.db, fs.archive, s, tm)
  {
    ghost var sig := fs.nodes[fs.root].sig;
    ChangeStamps(fs, req, now);
    ghost var a, db0, arch0 := fs.nodes, fs.db, fs.archive;
    fs.SaveAndPublish();
    SavedStamp(fs.c, a, db0, arch0, fs.nodes, fs.db, fs.archive, fs.root);
    forall tm | tm <= now ensures Before(fs.c, fs.db, fs.archive, fs.head.value.root, tm) {
      TravelBack(fs.c, fs.db, fs.archive, fs.head.value.root, tm);
    }
  }

  // The history of s, asked for time tm, skips s, and yields its previous version if that is older.
  ghost predicate Before(c: Codec, db: DB, arch: Archive, s: Key, tm: int) {
    && StoreOk(c, db, arch) && s in arch && HasNode(c, db, s) && Faithful(arch, Fetched(c, db, s, None))
    && var r := TimedVersion(c, db, arch, Fetched(c, db, s, None), tm);
       && (r.Some? ==> r.value.sig != s)
       && (arch[s].prevSig in arch && arch[arch[s].prevSig].attrs.mtime < tm ==>
             r.Some? && r.value.sig == arch[s].prevSig)
  }

  lemma TravelBack(c: Codec, db: DB, arch: Archive, s: Key, tm: int)
    requires StoreOk(c, db, arch) && s in arch && tm <= arch[s].attrs.mtime
    ensures Before(c, db, arch, s, tm)
  {
    ArchiveAt(c, db, arch, s);
    var n := Fetched(c, db, s, None);
    var r := TimedVersion(c, db, arch, n, tm);
    var h := arch[s].prevSig;
    if h in arch && arch[h].attrs.mtime < tm {
      ArchiveAt(c, db, arch, h);
      assert r == TimedVersion(c, db, arch, Fetched(c, db, h, None), tm);
    }
  }
}
