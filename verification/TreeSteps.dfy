/** The requests the file system serves, and what each step of serving them relies on. */
module TreeSteps {
  import opened Options
  import opened Chunking
  import opened TreeStore
  import opened TreeNodes
  import opened TreeSave
  import opened TreeOps

  datatype Status = Done | NotPermitted | Exists | NoEntry

  // The fields a Setattr request may carry.
  datatype AttrChange = AttrChange(
    mode: Option<nat>, atime: Option<int>, mtime: Option<int>, uid: Option<nat>, gid: Option<nat>,
    flags: Option<nat>, size: Option<nat>)

  function Or<T>(x: Option<T>, default: T): T {
    if x.Some? then x.value else default
  }

  function Changed(n: DNode, req: AttrChange): DNode {
    n.(attrs := n.attrs.(mode := Or(req.mode, n.attrs.mode), atime := Or(req.atime, n.attrs.atime),
                         mtime := Or(req.mtime, n.attrs.mtime), uid := Or(req.uid, n.attrs.uid),
                         gid := Or(req.gid, n.attrs.gid), flags := Or(req.flags, n.attrs.flags),
                         size := Or(req.size, n.attrs.size)),
       data := if req.size.Some? && req.size.value < |n.data| then n.data[..req.size.value] else n.data)
  }

  // The keys of the chunks of a file's bytes.
  function ChunkKeys(c: Codec, data: Data): seq<Key> {
    var chunks := Chunks(data);
    seq(|chunks|, i requires 0 <= i < |chunks| => c.hash(chunks[i]))
  }

  // The data has these chunks, and the keys are those of as many of them as come before off.
  ghost predicate KeyedTo(c: Codec, data: Data, off: nat, keys: seq<Key>) {
    var chunks := Chunks(data);
    && off <= |data| && |keys| <= |chunks| && Chunks(data[off..]) == chunks[|keys|..]
    && keys == ChunkKeys(c, data)[..|keys|]
  }

  lemma KeyedAtEnds(c: Codec, data: Data, keys: seq<Key>)
    ensures KeyedTo(c, data, 0, [])
    ensures KeyedTo(c, data, |data|, keys) ==> keys == ChunkKeys(c, data)
  {
    assert data[0..] == data && data[|data|..] == [];
    assert Chunks([]) == [];
    assert ChunkKeys(c, data)[..|Chunks(data)|] == ChunkKeys(c, data);
  }

  // The next chunk starts at off and ends at the next cut.
  lemma NextChunk(c: Codec, data: Data, off: nat, keys: seq<Key>)
    requires off < |data| && KeyedTo(c, data, off, keys)
    ensures var step := NextCut(data[off..]);
      1 <= step <= |data| - off && KeyedTo(c, data, off + step, keys + [c.hash(data[off..off + step])])
  {
    var chunks, n := Chunks(data), |keys|;
    var rest := data[off..];
    NextCutBounds(rest);
    var step := NextCut(rest);
    assert rest[..step] == data[off..off + step] && rest[step..] == data[off + step..];
    assert chunks[n..][0] == chunks[n] && chunks[n..][1..] == chunks[n + 1..];
  }

  // The store grew by the keys, and by nothing else.
  ghost predicate Added(db0: DB, db: DB, keys: seq<Key>) {
    HasBlocks(db, keys) && Extends(db0, db) && forall k :: k in db ==> k in db0 || k in keys
  }

  lemma OneAdded(c: Codec, db0: DB, db: DB, keys: seq<Key>, block: Data)
    requires Sound(c) && Addressed(c, db) && Added(db0, db, keys)
    ensures Added(db0, PutBlob(c, db, block), keys + [c.hash(block)])
  {
    PutExtends(c, db, block);
  }

  lemma ChunksAreStored(c: Codec, db: DB, data: Data)
    requires Sound(c) && Addressed(c, db) && HasBlocks(db, ChunkKeys(c, data))
    ensures BlockBytes(db, ChunkKeys(c, data)) == data
  {
    var keys := ChunkKeys(c, data);
    assert seq(|keys|, i requires 0 <= i < |keys| => db[keys[i]]) == Chunks(data);
    ChunksRebuild(data);
  }

  // The blocks are the chunks of the data, one each, in order.
  ghost predicate HoldChunks(db: DB, blocks: seq<Key>, data: Data) {
    && |blocks| == |Chunks(data)|
    && forall k :: 0 <= k < |blocks| ==> blocks[k] in db && db[blocks[k]] == Chunks(data)[k]
  }

  lemma ChunkKeysHold(c: Codec, db: DB, data: Data)
    requires Sound(c) && Addressed(c, db) && HasBlocks(db, ChunkKeys(c, data))
    ensures HoldChunks(db, ChunkKeys(c, data), data)
  {
  }

  // ---- Rows field by field --------------------------------------------------------------------

  lemma AddedExactly(nodes: Nodes, p: nat, name: string, isDir: bool, mode: nat, inode: nat, owner: (nat, nat),
                     now: int)
    requires p < |nodes|
    ensures var id := |nodes|;
      var b := Updated(WithKid(nodes, p, name, NewNode(name, isDir, mode, inode, owner, now, Some(p))), id, now);
      && |b| == |nodes| + 1 && b[p].kids == nodes[p].kids[name := id]
      && b[id] == DNode(name, Attrs(inode, isDir, mode, 0, now, now, owner.0, owner.1, 0), 0, "", map[], [],
                        "", false, true, false, Some(p), map[], [])
  {
  }

  lemma ChangedExactly(nodes: Nodes, i: nat, req: AttrChange, now: int)
    requires i < |nodes|
    ensures var a, data := nodes[i].attrs, nodes[i].data;
      Updated(nodes[i := Changed(nodes[i], req)], i, now)[i] ==
        nodes[i].(
          attrs := Attrs(a.inode, a.isDir,
                         if req.mode.Some? then req.mode.value else a.mode,
                         if req.size.Some? then req.size.value else a.size,
                         if req.atime.Some? then req.atime.value else a.atime,
                         now,
                         if req.uid.Some? then req.uid.value else a.uid,
                         if req.gid.Some? then req.gid.value else a.gid,
                         if req.flags.Some? then req.flags.value else a.flags),
          data := if req.size.Some? && req.size.value < |data| then data[..req.size.value] else data,
          metaDirty := true)
  {
  }

  // Byte by byte: buf where it was written, the bytes from before elsewhere.
  ghost predicate WrittenOver(was: Data, offset: nat, buf: Data, data: Data) {
    && |data| == (if offset + |buf| > |was| then offset + |buf| else |was|)
    && forall k :: 0 <= k < |data| && (offset <= k < offset + |buf| || k < |was|) ==>
         data[k] == if offset <= k < offset + |buf| then buf[k - offset] else was[k]
  }

  lemma PatchedExactly(was: Data, offset: nat, buf: Data)
    requires offset <= |was|
    ensures WrittenOver(was, offset, buf, Patched(was, offset, buf))
  {
  }

  // Names and entries after a move, whatever was marked.
  ghost predicate MovedOnly(a: Nodes, p: nat, oldName: string, q: nat, newName: string, b: Nodes) {
    && p < |a| && q < |a| && |b| == |a| && oldName in a[p].kids && a[p].kids[oldName] < |a|
    && var kid := a[p].kids[oldName];
       && b[kid].name == newName
       && (if p == q then b[p].kids == a[p].kids[newName := kid] - {oldName}
           else b[p].kids == a[p].kids - {oldName} && b[q].kids == a[q].kids[newName := kid])
       && (forall j: nat :: j < |a| && j != kid ==> b[j].name == a[j].name)
       && forall j: nat :: j < |a| && j != p && j != q ==> b[j].kids == a[j].kids
  }

  lemma MovedExactly(nodes: Nodes, p: nat, oldName: string, q: nat, newName: string, i: nat, now: int)
    requires p < |nodes| && q < |nodes| && oldName in nodes[p].kids && nodes[p].kids[oldName] < |nodes| && i < |nodes|
    ensures MovedOnly(nodes, p, oldName, q, newName, Updated(Moved(nodes, p, oldName, q, newName), i, now))
  {
    var moved := Moved(nodes, p, oldName, q, newName);
    var b := Updated(moved, i, now);
    forall j: nat | j < |nodes|
      ensures b[j].name == if j == nodes[p].kids[oldName] then newName else nodes[j].name
      ensures b[j].kids == MovedKids(nodes, p, oldName, q, newName, j)
    {
      MovedRowExactly(nodes, p, oldName, q, newName, j);
      MarkedKeepsEntries(moved, i, now, j);
    }
  }

  function MovedKids(nodes: Nodes, p: nat, oldName: string, q: nat, newName: string, j: nat): map<string, nat>
    requires p < |nodes| && oldName in nodes[p].kids && j < |nodes|
  {
    var kids := if j == q then nodes[j].kids[newName := nodes[p].kids[oldName]] else nodes[j].kids;
    if j == p then kids - {oldName} else kids
  }

  lemma MovedRowExactly(nodes: Nodes, p: nat, oldName: string, q: nat, newName: string, j: nat)
    requires p < |nodes| && q < |nodes| && oldName in nodes[p].kids && nodes[p].kids[oldName] < |nodes| && j < |nodes|
    ensures var b := Moved(nodes, p, oldName, q, newName);
      && |b| == |nodes| && b[j].name == (if j == nodes[p].kids[oldName] then newName else nodes[j].name)
      && b[j].kids == MovedKids(nodes, p, oldName, q, newName, j)
  {
    var kid := nodes[p].kids[oldName];
    var named := nodes[kid := nodes[kid].(name := newName)];
    assert named[j].kids == nodes[j].kids && named[q].kids == nodes[q].kids;
    var added := named[q := named[q].(kids := named[q].kids[newName := kid])];
    assert added[j].name == named[j].name;
    assert added[p].kids == if p == q then nodes[p].kids[newName := kid] else nodes[p].kids;
  }

  lemma MarkedKeepsEntries(nodes: Nodes, i: nat, now: int, j: nat)
    requires i < |nodes| && j < |nodes|
    ensures var b := Updated(nodes, i, now); |b| == |nodes| && b[j].name == nodes[j].name && b[j].kids == nodes[j].kids
  {
  }

  // What FUSE asks of the file system, a lookup into an unloaded node, and a round of the Flusher.
  datatype Request =
    | AddNode(p: nat, name: string, isDir: bool, mode: nat)
    | Setattr(i: nat, change: AttrChange)
    | Write(i: nat, offset: nat, buf: Data)
    | Flush(i: nat)
    | Remove(p: nat, name: string, wantDir: bool)
    | Rename(p: nat, oldName: string, newName: string)
    | Load(i: nat)
    | Save

  predicate KeepsSize(req: Request) {
    req.Setattr? ==> req.change.size.None?
  }

  predicate Truncates(data: Data, req: AttrChange) {
    req.size.Some? && req.size.value < |data|
  }

  // What Setattr leaves of the data.
  function Cut(data: Data, req: AttrChange): Data {
    if Truncates(data, req) then data[..req.size.value] else data
  }

  ghost predicate SettledAt(db: DB, n: DNode) {
    n.dirty || n.loadFromDB || (HasBlocks(db, n.dataBlocks) && n.data == BlockBytes(db, n.dataBlocks))
  }

  ghost predicate AllSettled(db: DB, nodes: Nodes) {
    forall j: nat :: j < |nodes| ==> SettledAt(db, nodes[j])
  }

  lemma LoadingSettles(c: Codec, db: DB, a: Nodes, b: Nodes, i: nat)
    requires i < |a| && Loaded(c, db, a, b, i) && AllSettled(db, a)
    ensures AllSettled(db, b)
  {
    forall j: nat | j < |b| ensures SettledAt(db, b[j]) {
      if j < |a| {
        assert SettledAt(db, a[j]);
      } else {
        assert IsKid(b[i], j);
      }
    }
  }

  // A row keeps its bytes, its blocks and its flag.
  predicate SameBytes(n: DNode, m: DNode) {
    m.data == n.data && m.dataBlocks == n.dataBlocks && m.dirty == n.dirty && m.loadFromDB == n.loadFromDB
  }

  // Every row either keeps its bytes or is settled anew, over a store that grew.
  lemma ChangeSettles(db: DB, db': DB, a: Nodes, b: Nodes)
    requires |a| <= |b| && AllSettled(db, a) && Extends(db, db')
    requires forall j: nat :: j < |a| ==>
      HasBlocks(db, a[j].dataBlocks) && (SameBytes(a[j], b[j]) || SettledAt(db', b[j]))
    requires forall j: nat :: |a| <= j < |b| ==> SettledAt(db', b[j])
    ensures AllSettled(db', b)
  {
    forall j: nat | j < |b| ensures SettledAt(db', b[j]) {
      if j < |a| {
        assert SettledAt(db, a[j]);
        BlockBytesExtend(db, db', a[j].dataBlocks);
      }
    }
  }

  lemma EditSettles(db: DB, db': DB, a: Nodes, i: nat, row: DNode, now: int)
    requires i < |a| && AllSettled(db, a) && Extends(db, db') && (SettledAt(db', row) || SameBytes(a[i], row))
    requires forall j: nat :: j < |a| ==> HasBlocks(db, a[j].dataBlocks)
    ensures AllSettled(db', Updated(a[i := row], i, now))
  {
    ChangeSettles(db, db', a, Updated(a[i := row], i, now));
  }

  // A newborn has no bytes and no blocks.
  lemma AddSettles(db: DB, a: Nodes, p: nat, name: string, kid: DNode, now: int)
    requires p < |a| && AllSettled(db, a) && kid.data == [] && kid.dataBlocks == []
    requires forall j: nat :: j < |a| ==> HasBlocks(db, a[j].dataBlocks)
    ensures AllSettled(db, Updated(WithKid(a, p, name, kid), |a|, now))
  {
    var b := Updated(WithKid(a, p, name, kid), |a|, now);
    assert SettledAt(db, b[|a|]);
    ChangeSettles(db, db, a, b);
  }

  // What Setattr does to a loaded node's standing with the store.
  lemma SetattrEffect(nodes: Nodes, db: DB, arch: Archive, i: nat, req: AttrChange, now: int)
    requires i < |nodes| && !nodes[i].loadFromDB && forall j: nat :: j < |nodes| ==> HasBlocks(db, nodes[j].dataBlocks)
    ensures var row := Updated(nodes[i := Changed(nodes[i], req)], i, now)[i];
      && row.dirty == nodes[i].dirty
      && (SyncedAt(db, arch, nodes[i]) ==> (SyncedAt(db, arch, row) <==> !Truncates(nodes[i].data, req)))
    ensures AllSettled(db, nodes) && !Truncates(nodes[i].data, req) ==>
      AllSettled(db, Updated(nodes[i := Changed(nodes[i], req)], i, now))
  {
    var n := Changed(nodes[i], req);
    assert OnPath(nodes[i := n], i, i);
    if AllSettled(db, nodes) && !Truncates(nodes[i].data, req) {
      assert SettledAt(db, nodes[i]);
      EditSettles(db, db, nodes, i, n, now);
    }
  }

  // A node whose data was never made: nothing loaded, nothing written.
  predicate NoData(n: DNode) {
    n.loadFromDB && n.data == []
  }

  function Flushed(c: Codec, n: DNode, data: Data): DNode {
    n.(data := data, dataBlocks := ChunkKeys(c, data), dirty := false)
  }

  // What loading a node needs is in the store.
  lemma AllLoadable(c: Codec, nodes: Nodes, root: nat, db: DB, arch: Archive, i: nat)
    requires Inv(c, nodes, root, db, arch) && i < |nodes| && nodes[i].loadFromDB
    ensures HasBlocks(db, nodes[i].dataBlocks) && nodes[i].kids == map[]
    ensures forall k :: k in nodes[i].childSigs ==> HasNode(c, db, nodes[i].childSigs[k])
  {
    InvRow(c, nodes, root, db, arch, i);
    FetchedIsLoadable(c, db, arch, nodes[i].sig);
  }

  // Giving a node its new blocks and then loading it is loading it and then giving it its new blocks.
  lemma LateLoad(c: Codec, a: Nodes, before: Nodes, b: Nodes, root: nat, db: DB, arch: Archive, i: nat, data: Data,
                 now: int)
    requires Inv(c, a, root, db, arch) && i < |a| && a[i].loadFromDB
    requires HasBlocks(db, a[i].dataBlocks) && HasBlocks(db, ChunkKeys(c, data))
    requires BlockBytes(db, ChunkKeys(c, data)) == data
    requires Loaded(c, db, a[i := a[i].(dataBlocks := ChunkKeys(c, data), dirty := false)], b, i)
    requires before ==
      b[i := b[i].(dataBlocks := a[i].dataBlocks, data := BlockBytes(db, a[i].dataBlocks), dirty := a[i].dirty)]
    ensures Loaded(c, db, a, before, i) && b == before[i := Flushed(c, before[i], data)] && !b[i].loadFromDB
    ensures Inv(c, Updated(b, i, now), root, db, arch) && ParentsLoaded(b)
    ensures AllSettled(db, a) ==> AllSettled(db, Updated(b, i, now))
  {
    forall j: nat | |a| <= j < |before| ensures IsKid(before[i], j) {
      assert IsKid(b[i], j);
    }
    LoadKeeps(c, a, before, root, db, arch, i);
    assert b == before[i := b[i]];
    EditAll(c, before, root, db, arch, i, b[i], now);
    if AllSettled(db, a) {
      LoadingSettles(c, db, a, before, i);
    }
  }

  // All that editing and marking a loaded node keeps.
  lemma EditAll(c: Codec, nodes: Nodes, root: nat, db: DB, arch: Archive, i: nat, row: DNode, now: int)
    requires Inv(c, nodes, root, db, arch) && i < |nodes| && !nodes[i].loadFromDB && Edited(nodes[i], row)
    requires HasBlocks(db, row.dataBlocks)
    ensures Inv(c, Updated(nodes[i := row], i, now), root, db, arch) && ParentsLoaded(nodes[i := row])
    ensures AllSettled(db, nodes) && (SettledAt(db, row) || SameBytes(nodes[i], row)) ==>
      AllSettled(db, Updated(nodes[i := row], i, now))
  {
    EditKeeps(c, nodes, root, db, arch, i, row, now);
    EditedLinks(c, nodes, root, db, arch, i, row);
    AllKnown(c, nodes, root, db, arch);
    if AllSettled(db, nodes) && (SettledAt(db, row) || SameBytes(nodes[i], row)) {
      EditSettles(db, db, nodes, i, row, now);
    }
  }

  lemma AllKnown(c: Codec, nodes: Nodes, root: nat, db: DB, arch: Archive)
    requires Inv(c, nodes, root, db, arch)
    ensures forall j: nat :: j < |nodes| ==> HasBlocks(db, nodes[j].dataBlocks)
  {
    forall j: nat | j < |nodes| ensures HasBlocks(db, nodes[j].dataBlocks) {
      InvRow(c, nodes, root, db, arch, j);
    }
  }

  // No file from node i down waits to be flushed.
  ghost predicate FlushedUnder(nodes: Nodes, i: nat)
    requires i < |nodes|
    decreases |nodes| - i
  {
    !nodes[i].dirty && forall k :: k in nodes[i].kids && i < nodes[i].kids[k] < |nodes| ==>
        FlushedUnder(nodes, nodes[i].kids[k])
  }

  lemma {:induction false} SettledIsSynced(c: Codec, nodes: Nodes, root: nat, db: DB, arch: Archive, i: nat)
    requires Inv(c, nodes, root, db, arch) && AllSettled(db, nodes) && i < |nodes| && FlushedUnder(nodes, i)
    requires nodes[i].metaDirty || nodes[i].sig != ""
    ensures SyncedUnder(nodes, db, arch, i)
    decreases |nodes| - i
  {
    InvRow(c, nodes, root, db, arch, i);
    assert SettledAt(db, nodes[i]);
    if nodes[i].sig != "" {
      ArchiveAt(c, db, arch, nodes[i].sig);
    }
    forall k | k in nodes[i].kids && i < nodes[i].kids[k] < |nodes|
      ensures SyncedUnder(nodes, db, arch, nodes[i].kids[k])
    {
      CleanKid(c, nodes, root, db, arch, i, k);
      SettledIsSynced(c, nodes, root, db, arch, nodes[i].kids[k]);
    }
  }

  lemma UnlinkedIsInvalid(c: Codec, nodes: Nodes, root: nat, db: DB, arch: Archive, i: nat)
    requires i < |nodes| && !LinkedAt(nodes, i)
    ensures !Inv(c, nodes, root, db, arch)
  {
    if Inv(c, nodes, root, db, arch) {
      InvRow(c, nodes, root, db, arch, i);
    }
  }

  lemma AllLinked(c: Codec, nodes: Nodes, root: nat, db: DB, arch: Archive)
    requires Inv(c, nodes, root, db, arch)
    ensures ParentsLoaded(nodes)
  {
    forall j: nat | j < |nodes| ensures LinkedAt(nodes, j) {
      InvRow(c, nodes, root, db, arch, j);
    }
    LinkedParents(nodes);
  }

  // After a move to another directory the links do not agree, whatever gets marked.
  lemma MovedReady(c: Codec, nodes: Nodes, root: nat, db: DB, arch: Archive, p: nat, oldName: string, q: nat,
                   newName: string, now: int)
    requires Inv(c, nodes, root, db, arch) && p < |nodes| && q < |nodes| && p != q && oldName in nodes[p].kids
    requires p < nodes[p].kids[oldName] < |nodes| && !nodes[nodes[p].kids[oldName]].loadFromDB
    ensures var kid := nodes[p].kids[oldName];
      var nodes1 := Moved(nodes, p, oldName, q, newName);
      && ParentsLoaded(nodes1) && ParentsLoaded(Updated(nodes1, kid, now)) && !nodes1[kid].loadFromDB
      && !nodes1[p].loadFromDB
      && !LinkedAt(Updated(nodes1, kid, now), q)
      && Updated(Updated(nodes1, kid, now), p, now) == Updated(nodes1, kid, now)
  {
    var kid := nodes[p].kids[oldName];
    var nodes1 := Moved(nodes, p, oldName, q, newName);
    AllLinked(c, nodes, root, db, arch);
    InvRow(c, nodes, root, db, arch, p);
    MovedParents(nodes, p, oldName, q, newName);
    MarkedParents(nodes1, kid, now);
    UpdatedTwice(nodes1, kid, p, now);
    MovedIsUnlinked(nodes, p, oldName, q, newName, now);
  }

  lemma MovedStaysSettled(c: Codec, nodes: Nodes, root: nat, db: DB, arch: Archive, p: nat, oldName: string, q: nat,
                          newName: string, now: int)
    requires Inv(c, nodes, root, db, arch) && p < |nodes| && q < |nodes| && oldName in nodes[p].kids
    requires nodes[p].kids[oldName] < |nodes|
    ensures AllSettled(db, nodes) ==>
            AllSettled(db, Updated(Moved(nodes, p, oldName, q, newName), nodes[p].kids[oldName], now))
  {
    if AllSettled(db, nodes) {
      AllKnown(c, nodes, root, db, arch);
      MovedSettles(nodes, db, p, oldName, q, newName, now);
    }
  }

  lemma MovedParents(nodes: Nodes, p: nat, oldName: string, q: nat, newName: string)
    requires p < |nodes| && q < |nodes| && oldName in nodes[p].kids && nodes[p].kids[oldName] < |nodes|
    ensures var b := Moved(nodes, p, oldName, q, newName);
      && |b| == |nodes| && (ParentsLoaded(nodes) ==> ParentsLoaded(b))
      && forall j: nat :: j < |b| ==> b[j].parent == nodes[j].parent && SameBytes(nodes[j], b[j])
  {
    var b := Moved(nodes, p, oldName, q, newName);
    forall j: nat | j < |b| ensures b[j].parent == nodes[j].parent && SameBytes(nodes[j], b[j]) {
      MovedRow(nodes, p, oldName, q, newName, j);
    }
  }

  lemma MarkedParents(nodes: Nodes, i: nat, now: int)
    requires i < |nodes| && ParentsLoaded(nodes)
    ensures ParentsLoaded(Updated(nodes, i, now))
  {
  }

  lemma MovedIsUnlinked(nodes: Nodes, p: nat, oldName: string, q: nat, newName: string, now: int)
    requires p < |nodes| && q < |nodes| && p != q && oldName in nodes[p].kids && nodes[p].kids[oldName] < |nodes|
    requires nodes[nodes[p].kids[oldName]].parent == Some(p)
    ensures !LinkedAt(Updated(Moved(nodes, p, oldName, q, newName), nodes[p].kids[oldName], now), q)
  {
    MovedRow(nodes, p, oldName, q, newName, q);
    MovedRow(nodes, p, oldName, q, newName, nodes[p].kids[oldName]);
    var b := Updated(Moved(nodes, p, oldName, q, newName), nodes[p].kids[oldName], now);
    assert newName in b[q].kids && b[q].kids[newName] == nodes[p].kids[oldName];
  }

  lemma MovedSettles(nodes: Nodes, db: DB, p: nat, oldName: string, q: nat, newName: string, now: int)
    requires p < |nodes| && q < |nodes| && oldName in nodes[p].kids && nodes[p].kids[oldName] < |nodes|
    requires AllSettled(db, nodes) && forall j: nat :: j < |nodes| ==> HasBlocks(db, nodes[j].dataBlocks)
    ensures AllSettled(db, Updated(Moved(nodes, p, oldName, q, newName), nodes[p].kids[oldName], now))
  {
    MovedParents(nodes, p, oldName, q, newName);
    var b := Updated(Moved(nodes, p, oldName, q, newName), nodes[p].kids[oldName], now);
    ChangeSettles(db, db, nodes, b);
  }

  lemma MoveReady(c: Codec, nodes: Nodes, root: nat, db: DB, arch: Archive, p: nat, oldName: string, newName: string,
                  now: int)
    requires Inv(c, nodes, root, db, arch) && p < |nodes| && oldName in nodes[p].kids
    requires p < nodes[p].kids[oldName] < |nodes| && !nodes[nodes[p].kids[oldName]].loadFromDB
    ensures var kid := nodes[p].kids[oldName];
      var nodes1 := Renamed(nodes, p, oldName, newName);
      && ParentsLoaded(nodes1) && !nodes1[p].loadFromDB && !nodes1[kid].loadFromDB
      && Inv(c, Updated(nodes1, kid, now), root, db, arch)
      && Updated(Updated(nodes1, kid, now), p, now) == Updated(nodes1, kid, now)
  {
    var nodes1 := Renamed(nodes, p, oldName, newName);
    RenameKeeps(c, nodes, root, db, arch, p, oldName, newName, now);
    RenameRows(c, nodes, root, db, arch, p, oldName, newName);
    RepairableLinks(c, nodes1, root, db, arch, nodes[p].kids[oldName]);
    InvRow(c, nodes, root, db, arch, p);
  }

  lemma RepairableLinks(c: Codec, nodes: Nodes, root: nat, db: DB, arch: Archive, i: nat)
    requires i < |nodes| && forall j: nat :: j < |nodes| ==> Repairable(c, nodes, root, db, arch, i, j)
    ensures ParentsLoaded(nodes)
  {
    forall j: nat | j < |nodes| ensures LinkedAt(nodes, j) {
      assert Repairable(c, nodes, root, db, arch, i, j);
    }
    LinkedParents(nodes);
  }

  lemma AddedLinks(c: Codec, nodes: Nodes, root: nat, db: DB, arch: Archive, p: nat, name: string, kid: DNode)
    requires Inv(c, nodes, root, db, arch) && p < |nodes| && !nodes[p].loadFromDB && Newborn(kid, p, name)
    ensures ParentsLoaded(WithKid(nodes, p, name, kid))
  {
    forall j: nat | j <= |nodes| ensures LinkedAt(WithKid(nodes, p, name, kid), j) {
      if j < |nodes| {
        InvRow(c, nodes, root, db, arch, j);
      }
      AddedRow(c, nodes, root, db, arch, p, name, kid, j);
    }
    LinkedParents(WithKid(nodes, p, name, kid));
  }

  lemma EditedLinks(c: Codec, nodes: Nodes, root: nat, db: DB, arch: Archive, i: nat, m: DNode)
    requires Inv(c, nodes, root, db, arch) && i < |nodes| && !nodes[i].loadFromDB && Edited(nodes[i], m)
    requires HasBlocks(db, m.dataBlocks)
    ensures ParentsLoaded(nodes[i := m])
  {
    var nodes1 := nodes[i := m];
    forall j: nat | j < |nodes1| ensures LinkedAt(nodes1, j) {
      InvRow(c, nodes, root, db, arch, j);
      EditedRow(c, nodes, root, db, arch, i, m, j);
    }
    LinkedParents(nodes1);
  }

  lemma FetchedIsLoadable(c: Codec, db: DB, arch: Archive, s: Key)
    requires StoreOk(c, db, arch) && s in arch && HasNode(c, db, s)
    ensures var r := NodeAt(c, db, s);
      HasBlocks(db, r.dataBlocks) && forall k :: k in r.childSigs ==> HasNode(c, db, r.childSigs[k])
  {
    ArchiveAt(c, db, arch, s);
    var r := NodeAt(c, db, s);
    forall k | k in r.childSigs ensures HasNode(c, db, r.childSigs[k]) {
      ArchiveAt(c, db, arch, r.childSigs[k]);
    }
  }

  // The root of a store just opened stands for the tree its head decodes to.
  lemma RootReadsBack(c: Codec, db: DB, arch: Archive, s: Key, nodes: Nodes)
    requires StoreOk(c, db, arch) && s in arch && HasNode(c, db, s)
    requires Loaded(c, db, [Fetched(c, db, s, None)], nodes, 0)
    ensures Inv(c, nodes, 0, db, arch) && MemTree(nodes, arch, 0) == arch[s]
  {
    var a := [Fetched(c, db, s, None)];
    ArchiveAt(c, db, arch, s);
    EmptyKeyUnused(c, db, arch);
    RootRow(c, db, arch, s, nodes);
    LoadedTree(c, a, nodes, 0, db, arch, 0);
    forall j: nat | j < |nodes| ensures RowOk(c, nodes, 0, db, arch, j) {
      if j > 0 {
        assert IsKid(nodes[0], j);
        var k :| k in nodes[0].kids && nodes[0].kids[k] == j;
        FetchedOk(c, nodes, 0, db, arch, j, a[0].childSigs[k], 0);
      }
    }
  }

  lemma RootRow(c: Codec, db: DB, arch: Archive, s: Key, nodes: Nodes)
    requires ArchivedAt(c, db, arch, s) && s != "" && Loaded(c, db, [Fetched(c, db, s, None)], nodes, 0)
    ensures RowOk(c, nodes, 0, db, arch, 0)
  {
    var a := [Fetched(c, db, s, None)];
    assert nodes[0] == a[0].(kids := nodes[0].kids, data := nodes[0].data, loadFromDB := false);
    forall k | k in nodes[0].kids ensures nodes[nodes[0].kids[k]].name == k {
      assert Stores(c, db, NodeAt(c, db, s).childSigs[k], arch[s].kids[k]);
    }
    assert CleanAt(c, nodes, 0, db, 0);
  }

  ghost predicate Names(kids: map<string, nat>, j: nat) {
    exists k :: k in kids && kids[k] == j
  }

  // The table rows from a on are freshly fetched kids of i, one for every name in kids.
  ghost predicate FetchedKids(c: Codec, db: DB, a: nat, nodes: Nodes, kids: map<string, nat>, sigs: map<string, Key>,
                              i: nat) {
    && a <= |nodes|
    && (forall k :: k in kids ==> k in sigs && a <= kids[k] < |nodes| && HasNode(c, db, sigs[k])
                                  && nodes[kids[k]] == Fetched(c, db, sigs[k], Some(i)))
    && forall j: nat :: a <= j < |nodes| ==> Names(kids, j)
  }

  lemma FetchedOneMore(c: Codec, db: DB, a: nat, nodes: Nodes, kids: map<string, nat>, sigs: map<string, Key>, i: nat,
                       k: string)
    requires FetchedKids(c, db, a, nodes, kids, sigs, i) && k !in kids && k in sigs && HasNode(c, db, sigs[k])
    ensures FetchedKids(c, db, a, nodes + [Fetched(c, db, sigs[k], Some(i))], kids[k := |nodes|], sigs, i)
  {
    var nodes', kids' := nodes + [Fetched(c, db, sigs[k], Some(i))], kids[k := |nodes|];
    forall j: nat | a <= j < |nodes'| ensures Names(kids', j) {
      if j == |nodes| {
        assert kids'[k] == j;
      } else {
        assert Names(kids, j);
        var q :| q in kids && kids[q] == j;
        assert kids'[q] == j;
      }
    }
  }

  // With its kids fetched and its blocks read, a node is loaded.
  lemma FetchedIsLoaded(c: Codec, db: DB, a: Nodes, b: Nodes, i: nat, kids: map<string, nat>, data: Data)
    requires i < |a| <= |b| && forall j: nat :: j < |a| ==> b[j] == a[j]
    requires kids.Keys == a[i].childSigs.Keys && FetchedKids(c, db, |a|, b, kids, a[i].childSigs, i)
    requires HasBlocks(db, a[i].dataBlocks) && data == BlockBytes(db, a[i].dataBlocks)
    ensures Loaded(c, db, a, b[i := b[i].(kids := kids, data := data, loadFromDB := false)], i)
  {
    var d := b[i := b[i].(kids := kids, data := data, loadFromDB := false)];
    forall j: nat | |a| <= j < |d| ensures IsKid(d[i], j) {
      assert Names(kids, j);
    }
  }

  lemma BlockBytesAppend(db: DB, blocks: seq<Key>, b: nat)
    requires b < |blocks| && HasBlocks(db, blocks)
    ensures HasBlocks(db, blocks[..b]) && HasBlocks(db, blocks[..b + 1])
    ensures BlockBytes(db, blocks[..b + 1]) == BlockBytes(db, blocks[..b]) + db[blocks[b]]
  {
    var s := seq(b + 1, i requires 0 <= i < b + 1 => db[blocks[..b + 1][i]]);
    assert s[..b] == seq(b, i requires 0 <= i < b => db[blocks[..b][i]]);
  }
}
