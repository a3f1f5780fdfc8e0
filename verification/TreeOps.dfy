/** What each operation does to the node table, and that the table stays consistent. */
module TreeOps {
  import opened Options
  import opened Chunking
  import opened TreeStore
  import opened TreeNodes
  import opened TreeSave

  // ---- Creating and renaming ------------------------------------------------------------------

  function NewNode(name: string, isDir: bool, mode: nat, inode: nat, owner: (nat, nat), now: int,
                   parent: Option<nat>): DNode {
    DNode(name, Attrs(inode, isDir, mode, 0, now, now, owner.0, owner.1, 0), 0, "", map[], [],
          "", false, false, false, parent, map[], [])
  }

  function WithKid(nodes: Nodes, p: nat, name: string, kid: DNode): Nodes
    requires p < |nodes|
  {
    nodes[p := nodes[p].(kids := nodes[p].kids[name := |nodes|])] + [kid]
  }

  // A node that was just made and has never been saved.
  predicate Newborn(kid: DNode, p: nat, name: string) {
    kid.parent == Some(p) && kid.name == name && kid.kids == map[] && !kid.loadFromDB && kid.dataBlocks == []
    && kid.sig == "" && kid.version == 0 && kid.prevSig == ""
  }

  lemma AddedRow(c: Codec, nodes: Nodes, root: nat, db: DB, arch: Archive, p: nat, name: string, kid: DNode, j: nat)
    requires p < |nodes| && !nodes[p].loadFromDB && Newborn(kid, p, name) && j <= |nodes|
    requires j < |nodes| ==> RowOk(c, nodes, root, db, arch, j)
    ensures Repairable(c, WithKid(nodes, p, name, kid), root, db, arch, |nodes|, j)
  {
    var nodes1 := WithKid(nodes, p, name, kid);
    AddedLink(nodes, p, name, kid, j);
    assert OnPath(nodes1, p, p) && OnPath(nodes1, |nodes|, p);
    if j < |nodes| && j != p {
      AddedElsewhere(c, nodes, root, db, p, name, kid, j);
    }
  }

  lemma AddedLink(nodes: Nodes, p: nat, name: string, kid: DNode, j: nat)
    requires p < |nodes| && !nodes[p].loadFromDB && Newborn(kid, p, name) && j <= |nodes|
    requires j < |nodes| ==> LinkedAt(nodes, j)
    ensures LinkedAt(WithKid(nodes, p, name, kid), j)
  {
    var nodes1 := WithKid(nodes, p, name, kid);
    assert nodes1[|nodes|] == kid;
    if j < |nodes| {
      forall r: nat | r < |nodes| ensures nodes1[r] == nodes[r].(kids := nodes1[r].kids) {
      }
    }
  }

  lemma AddedElsewhere(c: Codec, nodes: Nodes, root: nat, db: DB, p: nat, name: string, kid: DNode, j: nat)
    requires p < |nodes| && j < |nodes| && j != p
    requires LinkedAt(nodes, j) && DirtyUp(nodes, j) && CleanAt(c, nodes, root, db, j)
    ensures DirtyUp(WithKid(nodes, p, name, kid), j) && CleanAt(c, WithKid(nodes, p, name, kid), root, db, j)
  {
    var nodes1 := WithKid(nodes, p, name, kid);
    assert nodes1[j] == nodes[j];
    forall k | k in nodes[j].kids
      ensures var i := nodes[j].kids[k]; nodes1[i].metaDirty == nodes[i].metaDirty && nodes1[i].sig == nodes[i].sig
    {
    }
  }

  lemma AddKeeps(c: Codec, nodes: Nodes, root: nat, db: DB, arch: Archive, p: nat, name: string, kid: DNode, now: int)
    requires Inv(c, nodes, root, db, arch) && p < |nodes| && !nodes[p].loadFromDB && Newborn(kid, p, name)
    ensures Inv(c, Updated(WithKid(nodes, p, name, kid), |nodes|, now), root, db, arch)
  {
    var nodes1 := WithKid(nodes, p, name, kid);
    forall j: nat | j < |nodes1| ensures Repairable(c, nodes1, root, db, arch, |nodes|, j) {
      if j < |nodes| {
        InvRow(c, nodes, root, db, arch, j);
      }
      AddedRow(c, nodes, root, db, arch, p, name, kid, j);
    }
    UpdateRestores(c, nodes1, root, db, arch, |nodes|, now);
  }

  // Any change to one loaded node that keeps its place in the tree and its history is repaired by
  // marking it: new attributes, new data or blocks, fewer kids.
  predicate Edited(n: DNode, m: DNode) {
    && m.parent == n.parent && m.version == n.version && m.prevSig == n.prevSig && m.sig == n.sig
    && m.metaDirty == n.metaDirty && !m.loadFromDB && m.name == n.name
    && (forall k :: k in m.kids ==> k in n.kids && n.kids[k] == m.kids[k])
  }

  lemma EditedRow(c: Codec, nodes: Nodes, root: nat, db: DB, arch: Archive, i: nat, m: DNode, j: nat)
    requires i < |nodes| && !nodes[i].loadFromDB && Edited(nodes[i], m) && HasBlocks(db, m.dataBlocks) && j < |nodes|
    requires RowOk(c, nodes, root, db, arch, j)
    ensures Repairable(c, nodes[i := m], root, db, arch, i, j)
  {
    EditedLinks(nodes, i, m, j);
    assert KnownAt(db, arch, nodes[i := m][j]);
    EditedOffPath(c, nodes, root, db, i, m, j);
  }

  lemma EditedLinks(nodes: Nodes, i: nat, m: DNode, j: nat)
    requires i < |nodes| && !nodes[i].loadFromDB && Edited(nodes[i], m) && j < |nodes| && LinkedAt(nodes, j)
    ensures LinkedAt(nodes[i := m], j)
  {
  }

  lemma EditedOffPath(c: Codec, nodes: Nodes, root: nat, db: DB, i: nat, m: DNode, j: nat)
    requires i < |nodes| && Edited(nodes[i], m) && j < |nodes| && LinkedAt(nodes, j)
    requires DirtyUp(nodes, j) && CleanAt(c, nodes, root, db, j)
    ensures var b := nodes[i := m]; !OnPath(b, i, j) ==> DirtyUp(b, j) && CleanAt(c, b, root, db, j)
  {
    var b := nodes[i := m];
    assert OnPath(b, j, j);
    if !OnPath(b, i, j) {
      assert forall k :: k in nodes[j].kids ==> nodes[j].kids[k] != i;
    }
  }

  lemma EditKeeps(c: Codec, nodes: Nodes, root: nat, db: DB, arch: Archive, i: nat, m: DNode, now: int)
    requires Inv(c, nodes, root, db, arch) && i < |nodes| && !nodes[i].loadFromDB && Edited(nodes[i], m)
    requires HasBlocks(db, m.dataBlocks)
    ensures Inv(c, Updated(nodes[i := m], i, now), root, db, arch)
  {
    var nodes1 := nodes[i := m];
    forall j: nat | j < |nodes1| ensures Repairable(c, nodes1, root, db, arch, i, j) {
      InvRow(c, nodes, root, db, arch, j);
      EditedRow(c, nodes, root, db, arch, i, m, j);
    }
    UpdateRestores(c, nodes1, root, db, arch, i, now);
  }

  function Renamed(nodes: Nodes, p: nat, oldName: string, newName: string): Nodes
    requires p < |nodes| && oldName in nodes[p].kids && nodes[p].kids[oldName] < |nodes| && nodes[p].kids[oldName] != p
  {
    var kid := nodes[p].kids[oldName];
    nodes[kid := nodes[kid].(name := newName)]
         [p := nodes[p].(kids := nodes[p].kids[newName := kid] - {oldName})]
  }

  // The entry of p under oldName goes to q under newName, and out of p.
  function Moved(nodes: Nodes, p: nat, oldName: string, q: nat, newName: string): Nodes
    requires p < |nodes| && q < |nodes| && oldName in nodes[p].kids && nodes[p].kids[oldName] < |nodes|
  {
    var kid := nodes[p].kids[oldName];
    var named := nodes[kid := nodes[kid].(name := newName)];
    var added := named[q := named[q].(kids := named[q].kids[newName := kid])];
    added[p := added[p].(kids := added[p].kids - {oldName})]
  }

  // A move changes names and kids only.
  lemma MovedRow(nodes: Nodes, p: nat, oldName: string, q: nat, newName: string, j: nat)
    requires p < |nodes| && q < |nodes| && oldName in nodes[p].kids && nodes[p].kids[oldName] < |nodes| && j < |nodes|
    ensures var b := Moved(nodes, p, oldName, q, newName);
      && |b| == |nodes| && b[j] == nodes[j].(name := b[j].name, kids := b[j].kids)
      && (q != p && j == q ==> b[j].kids == nodes[j].kids[newName := nodes[p].kids[oldName]])
  {
    var kid := nodes[p].kids[oldName];
    var named := nodes[kid := nodes[kid].(name := newName)];
    assert named[j] == nodes[j].(name := named[j].name);
    var added := named[q := named[q].(kids := named[q].kids[newName := kid])];
    assert added[j] == named[j].(kids := added[j].kids);
  }

  lemma MovedToItself(nodes: Nodes, p: nat, name: string)
    requires p < |nodes| && name in nodes[p].kids && p < nodes[p].kids[name] < |nodes|
    requires nodes[nodes[p].kids[name]].name == name
    ensures Moved(nodes, p, name, p, name) == nodes[p := nodes[p].(kids := nodes[p].kids - {name})]
  {
    var kid := nodes[p].kids[name];
    assert nodes[kid].(name := name) == nodes[kid];
    assert nodes[kid := nodes[kid].(name := name)] == nodes;
    assert nodes[p].kids[name := kid] == nodes[p].kids;
  }

  lemma MovedWithin(nodes: Nodes, p: nat, oldName: string, newName: string)
    requires p < |nodes| && oldName in nodes[p].kids && p < nodes[p].kids[oldName] < |nodes| && oldName != newName
    ensures Moved(nodes, p, oldName, p, newName) == Renamed(nodes, p, oldName, newName)
  {
  }

  // The new directory has the entry, and the save that follows records it there if and only if that
  // directory was dirty before or lies above the entry's old place. Otherwise it stays clean, the save
  // passes it over, and the record it is published under does not mention the entry.
  lemma MovedEntryIsRecordedIff(c: Codec, nodes: Nodes, root: nat, db: DB, arch: Archive, p: nat, oldName: string,
                                q: nat, newName: string, now: int)
    requires Inv(c, nodes, root, db, arch) && p < |nodes| && q < |nodes| && oldName in nodes[p].kids
    requires !nodes[q].loadFromDB && (nodes[q].metaDirty || nodes[q].sig != "") && newName !in nodes[q].kids
    requires nodes[p].kids[oldName] < |nodes|
    ensures var kid := nodes[p].kids[oldName];
      var b := Updated(Moved(nodes, p, oldName, q, newName), kid, now);
      var recorded := nodes[q].metaDirty || OnPath(nodes, kid, q);
      && newName in b[q].kids && b[q].kids[newName] == kid
      && (newName in SavedRow(c, b, q).childSigs <==> recorded)
      && (recorded && q < kid ==> SavedRow(c, b, q).childSigs[newName] == SavedSig(c, b, kid))
      && (!recorded ==> SavedRow(c, b, q) == b[q] && HasNode(c, db, b[q].sig)
                        && newName !in NodeAt(c, db, b[q].sig).childSigs)
  {
    var kid := nodes[p].kids[oldName];
    var b := Updated(Moved(nodes, p, oldName, q, newName), kid, now);
    MovedAndMarked(nodes, p, oldName, q, newName, now);
    SavedNames(c, b, q, newName);
    CleanRecord(c, nodes, root, db, arch, q, newName);
  }

  // What saving a row records of an entry.
  lemma SavedNames(c: Codec, nodes: Nodes, q: nat, k: string)
    requires q < |nodes| && k in nodes[q].kids
    ensures !nodes[q].metaDirty ==> SavedRow(c, nodes, q) == nodes[q]
    ensures nodes[q].metaDirty ==>
      && k in SavedRow(c, nodes, q).childSigs
      && (q < nodes[q].kids[k] < |nodes| ==>
            SavedRow(c, nodes, q).childSigs[k] == SavedSig(c, nodes, nodes[q].kids[k]))
  {
  }

  // A clean node's record has the names of its kids and no other.
  lemma CleanRecord(c: Codec, nodes: Nodes, root: nat, db: DB, arch: Archive, q: nat, k: string)
    requires Inv(c, nodes, root, db, arch) && q < |nodes| && !nodes[q].loadFromDB && k !in nodes[q].kids
    ensures !nodes[q].metaDirty && nodes[q].sig != "" ==>
      && k !in nodes[q].childSigs && HasNode(c, db, nodes[q].sig)
      && k !in NodeAt(c, db, nodes[q].sig).childSigs
  {
    InvRow(c, nodes, root, db, arch, q);
    assert CleanAt(c, nodes, root, db, q);
  }

  lemma MovedAndMarked(nodes: Nodes, p: nat, oldName: string, q: nat, newName: string, now: int)
    requires p < |nodes| && q < |nodes| && oldName in nodes[p].kids && nodes[p].kids[oldName] < |nodes|
    requires newName !in nodes[q].kids
    ensures var kid := nodes[p].kids[oldName];
      var b := Updated(Moved(nodes, p, oldName, q, newName), kid, now);
      && |b| == |nodes| && newName in b[q].kids && b[q].kids[newName] == kid
      && (if OnPath(nodes, kid, q) then b[q].metaDirty
          else b[q] == nodes[q].(name := b[q].name, kids := b[q].kids))
      && (nodes[q].metaDirty ==> b[q].metaDirty)
  {
    var kid := nodes[p].kids[oldName];
    SamePathMoved(nodes, p, oldName, q, newName, kid, q);
    MovedRow(nodes, p, oldName, q, newName, q);
    MovedEntry(nodes, p, oldName, q, newName);
  }

  lemma MovedEntry(nodes: Nodes, p: nat, oldName: string, q: nat, newName: string)
    requires p < |nodes| && q < |nodes| && oldName in nodes[p].kids && nodes[p].kids[oldName] < |nodes|
    requires newName !in nodes[q].kids
    ensures var b := Moved(nodes, p, oldName, q, newName);
      |b| == |nodes| && newName in b[q].kids && b[q].kids[newName] == nodes[p].kids[oldName]
  {
    var kid := nodes[p].kids[oldName];
    var named := nodes[kid := nodes[kid].(name := newName)];
    assert named[q].kids == nodes[q].kids;
    var added := named[q := named[q].(kids := named[q].kids[newName := kid])];
    assert p == q ==> oldName != newName;
    assert p != q ==> Moved(nodes, p, oldName, q, newName)[q] == added[q];
  }

  lemma {:induction false} SamePathMoved(nodes: Nodes, p: nat, oldName: string, q: nat, newName: string, i: nat, r: nat)
    requires p < |nodes| && q < |nodes| && oldName in nodes[p].kids && nodes[p].kids[oldName] < |nodes| && i < |nodes|
    ensures OnPath(Moved(nodes, p, oldName, q, newName), i, r) == OnPath(nodes, i, r)
    decreases i
  {
    var n := nodes[i];
    MovedRow(nodes, p, oldName, q, newName, i);
    if n.parent.Some? && n.parent.value < i {
      SamePathMoved(nodes, p, oldName, q, newName, n.parent.value, r);
    }
  }

  lemma UpdatedTwice(nodes: Nodes, i: nat, p: nat, now: int)
    requires i < |nodes| && nodes[i].parent == Some(p) && p < i
    ensures Updated(Updated(nodes, i, now), p, now) == Updated(nodes, i, now)
  {
    var a := Updated(nodes, i, now);
    forall r: nat | r < |nodes| ensures Updated(a, p, now)[r] == a[r] {
      SamePath(nodes, i, now, p, r);
      assert OnPath(nodes, p, r) ==> OnPath(nodes, i, r);
    }
  }

  lemma {:induction false} SamePath(nodes: Nodes, i: nat, now: int, p: nat, r: nat)
    requires i < |nodes| && p < |nodes|
    ensures OnPath(Updated(nodes, i, now), p, r) == OnPath(nodes, p, r)
    decreases p
  {
    var n := nodes[p];
    assert Updated(nodes, i, now)[p].parent == n.parent;
    if n.parent.Some? && n.parent.value < p {
      SamePath(nodes, i, now, n.parent.value, r);
    }
  }

  lemma RenamedAt(nodes: Nodes, p: nat, oldName: string, newName: string, j: nat)
    requires p < |nodes| && oldName in nodes[p].kids && p < nodes[p].kids[oldName] < |nodes| && j < |nodes|
    ensures var b, kid := Renamed(nodes, p, oldName, newName), nodes[p].kids[oldName];
      |b| == |nodes| &&
      b[j] == if j == p then nodes[p].(kids := nodes[p].kids[newName := kid] - {oldName})
              else if j == kid then nodes[kid].(name := newName) else nodes[j]
  {
  }

  lemma RenamedHome(nodes: Nodes, p: nat, oldName: string, newName: string)
    requires p < |nodes| && oldName in nodes[p].kids && LinkedAt(nodes, p)
    ensures LinkedAt(Renamed(nodes, p, oldName, newName), p)
  {
    var b, kid := Renamed(nodes, p, oldName, newName), nodes[p].kids[oldName];
    RenamedAt(nodes, p, oldName, newName, p);
    RenamedAt(nodes, p, oldName, newName, kid);
    if nodes[p].parent.Some? {
      RenamedAt(nodes, p, oldName, newName, nodes[p].parent.value);
    }
    forall k | k in b[p].kids
      ensures p < b[p].kids[k] < |b| && b[b[p].kids[k]].parent == Some(p) && b[b[p].kids[k]].name == k
    {
      if k != newName {
        RenamedAt(nodes, p, oldName, newName, nodes[p].kids[k]);
      }
    }
  }

  lemma RenamedElsewhere(nodes: Nodes, p: nat, oldName: string, newName: string, j: nat)
    requires p < |nodes| && oldName in nodes[p].kids && j < |nodes| && j != p && LinkedAt(nodes, p)
    requires LinkedAt(nodes, j)
    ensures LinkedAt(Renamed(nodes, p, oldName, newName), j)
  {
    var b := Renamed(nodes, p, oldName, newName);
    RenamedAt(nodes, p, oldName, newName, j);
    if nodes[j].parent.Some? {
      RenamedAt(nodes, p, oldName, newName, nodes[j].parent.value);
    }
    forall k | k in b[j].kids ensures b[b[j].kids[k]].parent == Some(j) && b[b[j].kids[k]].name == k {
      RenamedAt(nodes, p, oldName, newName, nodes[j].kids[k]);
    }
  }

  lemma RenamedLinks(db: DB, nodes: Nodes, arch: Archive, p: nat, oldName: string, newName: string, j: nat)
    requires p < |nodes| && oldName in nodes[p].kids && j < |nodes|
    requires LinkedAt(nodes, p) && LinkedAt(nodes, j) && KnownAt(db, arch, nodes[j])
    ensures LinkedAt(Renamed(nodes, p, oldName, newName), j)
    ensures KnownAt(db, arch, Renamed(nodes, p, oldName, newName)[j])
  {
    RenamedAt(nodes, p, oldName, newName, j);
    if j == p {
      RenamedHome(nodes, p, oldName, newName);
    } else {
      RenamedElsewhere(nodes, p, oldName, newName, j);
    }
  }

  lemma RenamedOthers(c: Codec, nodes: Nodes, root: nat, db: DB, p: nat, oldName: string, newName: string, j: nat)
    requires p < |nodes| && oldName in nodes[p].kids && j < |nodes| && p < nodes[p].kids[oldName] < |nodes|
    requires j != p && j != nodes[p].kids[oldName] && DirtyUp(nodes, j) && CleanAt(c, nodes, root, db, j)
    ensures DirtyUp(Renamed(nodes, p, oldName, newName), j)
    ensures CleanAt(c, Renamed(nodes, p, oldName, newName), root, db, j)
  {
    var nodes1 := Renamed(nodes, p, oldName, newName);
    assert nodes1[j] == nodes[j];
    assert forall r: nat :: r < |nodes| ==> nodes1[r].metaDirty == nodes[r].metaDirty && nodes1[r].sig == nodes[r].sig;
  }

  lemma RenameKeeps(c: Codec, nodes: Nodes, root: nat, db: DB, arch: Archive, p: nat, oldName: string, newName: string,
                    now: int)
    requires Inv(c, nodes, root, db, arch) && p < |nodes| && oldName in nodes[p].kids
    requires p < nodes[p].kids[oldName] < |nodes| && !nodes[nodes[p].kids[oldName]].loadFromDB
    ensures var kid := nodes[p].kids[oldName];
      var nodes1 := Renamed(nodes, p, oldName, newName);
      Inv(c, Updated(nodes1, kid, now), root, db, arch)
      && Updated(Updated(nodes1, kid, now), p, now) == Updated(nodes1, kid, now)
  {
    var kid := nodes[p].kids[oldName];
    var nodes1 := Renamed(nodes, p, oldName, newName);
    RenameRows(c, nodes, root, db, arch, p, oldName, newName);
    UpdateRestores(c, nodes1, root, db, arch, kid, now);
    UpdatedTwice(nodes1, kid, p, now);
  }

  lemma RenameRows(c: Codec, nodes: Nodes, root: nat, db: DB, arch: Archive, p: nat, oldName: string, newName: string)
    requires Inv(c, nodes, root, db, arch) && p < |nodes| && oldName in nodes[p].kids
    requires p < nodes[p].kids[oldName] < |nodes|
    ensures var nodes1 := Renamed(nodes, p, oldName, newName);
      && nodes1[nodes[p].kids[oldName]].parent == Some(p) && !nodes1[root].loadFromDB && nodes1[root].parent.None?
      && forall j: nat :: j < |nodes1| ==> Repairable(c, nodes1, root, db, arch, nodes[p].kids[oldName], j)
  {
    var kid := nodes[p].kids[oldName];
    var nodes1 := Renamed(nodes, p, oldName, newName);
    InvRow(c, nodes, root, db, arch, p);
    InvRow(c, nodes, root, db, arch, kid);
    RenamedAt(nodes, p, oldName, newName, kid);
    RenamedAt(nodes, p, oldName, newName, root);
    forall j: nat | j < |nodes1| ensures Repairable(c, nodes1, root, db, arch, kid, j) {
      InvRow(c, nodes, root, db, arch, j);
      RenamedRow(c, nodes, root, db, arch, p, oldName, newName, j);
    }
  }

  lemma RenamedRow(c: Codec, nodes: Nodes, root: nat, db: DB, arch: Archive, p: nat, oldName: string, newName: string,
                   j: nat)
    requires p < |nodes| && oldName in nodes[p].kids && j < |nodes| && p < nodes[p].kids[oldName] < |nodes|
    requires LinkedAt(nodes, p) && LinkedAt(nodes, nodes[p].kids[oldName]) && RowOk(c, nodes, root, db, arch, j)
    ensures Repairable(c, Renamed(nodes, p, oldName, newName), root, db, arch, nodes[p].kids[oldName], j)
  {
    var kid := nodes[p].kids[oldName];
    var nodes1 := Renamed(nodes, p, oldName, newName);
    RenamedLinks(db, nodes, arch, p, oldName, newName, j);
    RenamedAt(nodes, p, oldName, newName, kid);
    assert OnPath(nodes1, p, p) && OnPath(nodes1, kid, p);
    if j != p && j != kid {
      RenamedOthers(c, nodes, root, db, p, oldName, newName, j);
    }
  }

  // ---- Writing --------------------------------------------------------------------------------

  // buf laid over data at offset, data growing if buf reaches past its end.
  function Patched(data: Data, offset: nat, buf: Data): Data
    requires offset <= |data|
  {
    data[..offset] + buf + (if offset + |buf| <= |data| then data[offset + |buf|..] else [])
  }

  function Written(n: DNode, offset: nat, buf: Data): DNode
    requires offset <= |n.data|
  {
    var data := Patched(n.data, offset, buf);
    n.(data := data, attrs := n.attrs.(size := |data|), dirty := true)
  }

  lemma WriteKeeps(c: Codec, nodes: Nodes, root: nat, db: DB, arch: Archive, i: nat, offset: nat, buf: Data)
    requires Inv(c, nodes, root, db, arch) && i < |nodes| && offset <= |nodes[i].data|
    ensures Inv(c, nodes[i := Written(nodes[i], offset, buf)], root, db, arch)
  {
    var nodes' := nodes[i := Written(nodes[i], offset, buf)];
    forall j: nat | j < |nodes'| ensures RowOk(c, nodes', root, db, arch, j) {
      InvRow(c, nodes, root, db, arch, j);
      SameRow(c, nodes, nodes', root, db, arch, j);
    }
  }

  // A row depends on others only through what a write leaves alone.
  lemma SameRow(c: Codec, nodes: Nodes, nodes': Nodes, root: nat, db: DB, arch: Archive, j: nat)
    requires j < |nodes| == |nodes'| && RowOk(c, nodes, root, db, arch, j)
    requires nodes'[j] == nodes[j] ||
      nodes'[j] == nodes[j].(data := nodes'[j].data, attrs := nodes'[j].attrs, dirty := true)
    requires forall r: nat :: r < |nodes| ==>
      && nodes'[r].parent == nodes[r].parent && nodes'[r].metaDirty == nodes[r].metaDirty
      && nodes'[r].name == nodes[r].name
      && nodes'[r].sig == nodes[r].sig && nodes'[r].loadFromDB == nodes[r].loadFromDB
    ensures RowOk(c, nodes', root, db, arch, j)
  {
  }

  // The store only grew under the same table.
  lemma StoreGrew(c: Codec, nodes: Nodes, root: nat, db: DB, db': DB, arch: Archive)
    requires Inv(c, nodes, root, db, arch) && Extends(db, db') && Addressed(c, db')
    ensures Inv(c, nodes, root, db', arch)
  {
    ArchivedForever(c, db, db', arch);
    forall j: nat | j < |nodes| ensures RowOk(c, nodes, root, db', arch, j) {
      InvRow(c, nodes, root, db, arch, j);
    }
  }

  // ---- Lazy loading ---------------------------------------------------------------------------

  function Fetched(c: Codec, db: DB, sig: Key, parent: Option<nat>): DNode
    requires HasNode(c, db, sig)
  {
    var r := NodeAt(c, db, sig);
    DNode(r.name, r.attrs, r.version, r.prevSig, r.childSigs, r.dataBlocks, sig, false, false, true, parent, map[], [])
  }

  ghost predicate IsKid(n: DNode, j: nat) {
    exists k :: k in n.kids && n.kids[k] == j
  }

  // loadAllData: the node gets its data and a fresh, unloaded kid for every child signature.
  ghost predicate Loaded(c: Codec, db: DB, a: Nodes, b: Nodes, i: nat)
    requires i < |a|
  {
    && |a| <= |b| && HasBlocks(db, a[i].dataBlocks)
    && (forall j: nat :: j < |a| && j != i ==> b[j] == a[j])
    && b[i] == a[i].(kids := b[i].kids, data := BlockBytes(db, a[i].dataBlocks), loadFromDB := false)
    && b[i].kids.Keys == a[i].childSigs.Keys
    && (forall k :: k in b[i].kids ==>
          |a| <= b[i].kids[k] < |b| && HasNode(c, db, a[i].childSigs[k])
          && b[b[i].kids[k]] == Fetched(c, db, a[i].childSigs[k], Some(i)))
    && (forall j: nat :: |a| <= j < |b| ==> IsKid(b[i], j))
  }

  lemma FetchedOk(c: Codec, nodes: Nodes, root: nat, db: DB, arch: Archive, j: nat, sig: Key, p: nat)
    requires StoreOk(c, db, arch) && sig in arch && p < j < |nodes| && !nodes[p].loadFromDB && HasNode(c, db, sig)
    requires nodes[j] == Fetched(c, db, sig, Some(p))
    ensures RowOk(c, nodes, root, db, arch, j)
  {
    ArchiveAt(c, db, arch, sig);
    EmptyKeyUnused(c, db, arch);
  }

  lemma LoadedRow(c: Codec, a: Nodes, b: Nodes, root: nat, db: DB, arch: Archive, i: nat)
    requires Inv(c, a, root, db, arch) && i < |a| && a[i].loadFromDB && Loaded(c, db, a, b, i)
    ensures RowOk(c, b, root, db, arch, i)
  {
    InvRow(c, a, root, db, arch, i);
    assert CleanAt(c, b, root, db, i);
    assert LinkedAt(b, i);
  }

  lemma NewRowLoaded(c: Codec, a: Nodes, b: Nodes, root: nat, db: DB, arch: Archive, i: nat, j: nat)
    requires Inv(c, a, root, db, arch) && i < |a| && a[i].loadFromDB && Loaded(c, db, a, b, i) && |a| <= j < |b|
    ensures RowOk(c, b, root, db, arch, j)
  {
    InvRow(c, a, root, db, arch, i);
    ArchiveAt(c, db, arch, a[i].sig);
    assert IsKid(b[i], j);
    var k :| k in b[i].kids && b[i].kids[k] == j;
    FetchedOk(c, b, root, db, arch, j, a[i].childSigs[k], i);
  }

  lemma LoadKeeps(c: Codec, a: Nodes, b: Nodes, root: nat, db: DB, arch: Archive, i: nat)
    requires Inv(c, a, root, db, arch) && i < |a| && a[i].loadFromDB && Loaded(c, db, a, b, i)
    ensures Inv(c, b, root, db, arch)
  {
    forall j: nat | j < |b| ensures RowOk(c, b, root, db, arch, j) {
      if j == i {
        LoadedRow(c, a, b, root, db, arch, i);
      } else if j < |a| {
        InvRow(c, a, root, db, arch, j);
        OtherRowLoaded(c, a, b, root, db, arch, i, j);
      } else {
        NewRowLoaded(c, a, b, root, db, arch, i, j);
      }
    }
  }

  lemma OtherRowLoaded(c: Codec, a: Nodes, b: Nodes, root: nat, db: DB, arch: Archive, i: nat, j: nat)
    requires i < |a| && j < |a| && j != i && Loaded(c, db, a, b, i) && RowOk(c, a, root, db, arch, j)
    ensures RowOk(c, b, root, db, arch, j)
  {
  }

  // Loading is invisible: every node stands for the same tree before and after.
  lemma {:induction false} LoadIsInvisible(c: Codec, a: Nodes, b: Nodes, root: nat, db: DB, arch: Archive, i: nat,
                                           j: nat)
    requires Inv(c, a, root, db, arch) && i < |a| && a[i].loadFromDB && Loaded(c, db, a, b, i) && j < |a|
    ensures MemTree(b, arch, j) == MemTree(a, arch, j)
    decreases |a| - j
  {
    InvRow(c, a, root, db, arch, j);
    if j == i {
      ArchiveAt(c, db, arch, a[i].sig);
      LoadedTree(c, a, b, root, db, arch, i);
    } else {
      forall k | k in a[j].kids ensures MemTree(b, arch, a[j].kids[k]) == MemTree(a, arch, a[j].kids[k]) {
        LoadIsInvisible(c, a, b, root, db, arch, i, a[j].kids[k]);
      }
      SameTree(a, b, arch, j);
    }
  }

  lemma SameTree(a: Nodes, b: Nodes, arch: Archive, j: nat)
    requires j < |a| <= |b| && b[j] == a[j] && LinkedAt(a, j)
    requires forall k :: k in a[j].kids ==> MemTree(b, arch, a[j].kids[k]) == MemTree(a, arch, a[j].kids[k])
    ensures MemTree(b, arch, j) == MemTree(a, arch, j)
  {
    if !(a[j].loadFromDB && a[j].sig in arch) {
      TreeOfLoaded(a, arch, j);
      TreeOfLoaded(b, arch, j);
      SameKids(a[j].kids, MemTree(a, arch, j).kids, MemTree(b, arch, j).kids);
    }
  }

  lemma SameKids(names: map<string, nat>, x: map<string, Tree>, y: map<string, Tree>)
    requires x.Keys == names.Keys && y.Keys == names.Keys && forall k :: k in names ==> x[k] == y[k]
    ensures x == y
  {
  }

  lemma TreeOfLoaded(nodes: Nodes, arch: Archive, j: nat)
    requires j < |nodes| && !(nodes[j].loadFromDB && nodes[j].sig in arch)
    requires forall k :: k in nodes[j].kids ==> j < nodes[j].kids[k] < |nodes|
    ensures var n, t := nodes[j], MemTree(nodes, arch, j);
      && t == Tree(n.name, n.attrs, n.version, n.prevSig, n.data, t.kids) && t.kids.Keys == n.kids.Keys
      && forall k :: k in n.kids ==> t.kids[k] == MemTree(nodes, arch, n.kids[k])
  {
  }

  lemma LoadedTree(c: Codec, a: Nodes, b: Nodes, root: nat, db: DB, arch: Archive, i: nat)
    requires i < |a| && a[i].loadFromDB && Loaded(c, db, a, b, i)
    requires KnownAt(db, arch, a[i]) && CleanAt(c, a, root, db, i) && LinkedAt(a, i)
    requires ArchivedAt(c, db, arch, a[i].sig)
    ensures MemTree(b, arch, i) == MemTree(a, arch, i)
  {
    var t, m := arch[a[i].sig], MemTree(b, arch, i);
    assert m.kids.Keys == b[i].kids.Keys;
    forall k | k in b[i].kids ensures k in t.kids && m.kids[k] == t.kids[k] {
      LoadedKid(c, a, b, root, db, arch, i, k);
    }
    assert m.kids == t.kids;
  }

  lemma LoadedKid(c: Codec, a: Nodes, b: Nodes, root: nat, db: DB, arch: Archive, i: nat, k: string)
    requires i < |a| && a[i].loadFromDB && Loaded(c, db, a, b, i) && k in b[i].kids
    requires KnownAt(db, arch, a[i]) && CleanAt(c, a, root, db, i) && LinkedAt(a, i)
    requires ArchivedAt(c, db, arch, a[i].sig)
    ensures i < b[i].kids[k] < |b| && k in arch[a[i].sig].kids
    ensures MemTree(b, arch, b[i].kids[k]) == arch[a[i].sig].kids[k]
  {
    assert NodeAt(c, db, a[i].sig).childSigs == a[i].childSigs;
    assert Stores(c, db, a[i].childSigs[k], arch[a[i].sig].kids[k]);
  }
}
