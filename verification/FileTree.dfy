/** The file system as it runs: a table of nodes changed in place over an append-only store. */
module FileTree {
  import opened Options
  import opened Chunking
  import opened TreeStore
  import opened TreeNodes
  import opened TreeSave
  import opened TreeOps
  import opened TreeSteps
  import opened TreeMoments

  class FileSystem {
    const c: Codec
    const readOnly: bool
    const owner: (nat, nat)
    var nodes: Nodes
    var root: nat
    var db: DB
    var head: Option<Head>
    var nextInd: nat
    ghost var archive: Archive
    ghost var published: set<Key>      // every root signature ever put at the head

    ghost predicate Valid()
      reads this
    {
      && Inv(c, nodes, root, db, archive)
      && (forall s :: s in published ==> s == "" || s in archive)
      && (head.Some? ==> head.value.root in published)
    }

    // The tree held in memory from node i down.
    ghost function Held(i: nat): Tree
      requires i < |nodes|
      reads this
    {
      MemTree(nodes, archive, i)
    }

    // No byte is out of the store unless the node's flag says so.
    ghost predicate Settled()
      reads this
    {
      AllSettled(db, nodes)
    }

    // A fresh file system: a clean root that was never saved.
    constructor Create(c: Codec, owner: (nat, nat), mode: nat, nextInd: nat, now: int)
      requires Sound(c)
      ensures Valid() && Settled() && this.c == c && !readOnly && head.None? && published == {} && archive == map[]
      ensures nodes == [NewNode("ROOT", true, mode, nextInd, owner, now, None)] && root == 0
    {
      this.c, this.owner, readOnly := c, owner, false;
      nodes := [NewNode("ROOT", true, mode, nextInd, owner, now, None)];
      root, db, head := 0, map[], None;
      this.nextInd := nextInd + 1;
      archive, published := map[], {};
    }

    // The root node of a store's head, fetched but not loaded yet.
    constructor Open(c: Codec, readOnly: bool, owner: (nat, nat), db: DB, head: Head, ghost archive: Archive,
                     ghost published: set<Key>)
      requires StoreOk(c, db, archive) && head.root in archive && head.root in published
      requires forall s :: s in published ==> s == "" || s in archive
      ensures JustOpened() && this.c == c && this.db == db && this.archive == archive && this.published == published
      ensures this.head == Some(head) && nextInd == head.nextInd && this.readOnly == readOnly
    {
      ArchiveAt(c, db, archive, head.root);
      this.c, this.owner, this.readOnly := c, owner, readOnly;
      this.db, this.head, nextInd := db, Some(head), head.nextInd;
      this.archive, this.published := archive, published;
      nodes, root := [Fetched(c, db, head.root, None)], 0;
    }

    ghost predicate JustOpened()
      reads this
    {
      && StoreOk(c, db, archive) && head.Some? && head.value.root in published && head.value.root in archive
      && (forall s :: s in published ==> s == "" || s in archive)
      && HasNode(c, db, head.value.root) && root == 0 && nodes == [Fetched(c, db, head.value.root, None)]
    }

    // The root is loaded, and nothing below it.
    ghost predicate JustLoaded()
      reads this
    {
      && root < |nodes| && !nodes[root].loadFromDB
      && forall k :: k in nodes[root].kids ==>
          && root < nodes[root].kids[k] < |nodes|
          && nodes[nodes[root].kids[k]].loadFromDB && nodes[nodes[root].kids[k]].data == []
    }

    // The rest of getHead: on a store that published its head, the root becomes what it decodes to.
    method LoadRoot()
      requires JustOpened()
      modifies this`nodes
      ensures Valid() && Settled() && Held(root) == archive[head.value.root] && JustLoaded()
    {
      FetchedIsLoadable(c, db, archive, head.value.root);
      LoadInto(0);
      LoadingSettles(c, db, old(nodes), nodes, 0);
      RootReadsBack(c, db, archive, head.value.root, nodes);
    }

    // ---- Lazy loading -------------------------------------------------------------------------

    // The loop of loadAllData over the child signatures, in any order.
    method FetchKids(i: nat, sigs: map<string, Key>) returns (kids: map<string, nat>)
      requires forall k :: k in sigs ==> HasNode(c, db, sigs[k])
      modifies this`nodes
      ensures Fetching(old(nodes), kids, sigs, i, {})
    {
      kids := map[];
      var todo := sigs.Keys;
      while todo != {}
        invariant Fetching(old(nodes), kids, sigs, i, todo)
        decreases |todo|
      {
        var k :| k in todo;
        kids := FetchKid(i, k, sigs, kids, old(nodes), todo);
        todo := todo - {k};
      }
    }

    // The table is a with the kids of node i that are not in todo fetched after it.
    ghost predicate Fetching(a: Nodes, kids: map<string, nat>, sigs: map<string, Key>, i: nat, todo: set<string>)
      reads this
    {
      && |a| <= |nodes| && nodes[..|a|] == a && FetchedKids(c, db, |a|, nodes, kids, sigs, i)
      && todo <= sigs.Keys && kids.Keys == sigs.Keys - todo
    }

    method FetchKid(i: nat, k: string, sigs: map<string, Key>, kids: map<string, nat>, ghost a: Nodes,
                    ghost todo: set<string>) returns (more: map<string, nat>)
      requires k in todo && k in sigs && HasNode(c, db, sigs[k]) && Fetching(a, kids, sigs, i, todo)
      modifies this`nodes
      ensures Fetching(a, more, sigs, i, todo - {k})
    {
      FetchedOneMore(c, db, |a|, nodes, kids, sigs, i, k);
      more := kids[k := |nodes|];
      nodes := nodes + [Fetched(c, db, sigs[k], Some(i))];
    }

    method ReadBlocks(blocks: seq<Key>) returns (data: Data)
      requires HasBlocks(db, blocks)
      ensures data == BlockBytes(db, blocks)
    {
      data := [];
      for b := 0 to |blocks|
        invariant HasBlocks(db, blocks[..b]) && data == BlockBytes(db, blocks[..b])
      {
        BlockBytesAppend(db, blocks, b);
        data := data + db[blocks[b]];
      }
      assert blocks[..|blocks|] == blocks;
    }

    method LoadInto(i: nat)
      requires i < |nodes| && nodes[i].loadFromDB && nodes[i].kids == map[]
      requires HasBlocks(db, nodes[i].dataBlocks)
      requires forall k :: k in nodes[i].childSigs ==> HasNode(c, db, nodes[i].childSigs[k])
      modifies this`nodes
      ensures Loaded(c, db, old(nodes), nodes, i)
    {
      ghost var a := nodes;
      var kids := FetchKids(i, nodes[i].childSigs);
      forall j: nat | j < |a| ensures nodes[j] == a[j] {
        assert nodes[..|a|][j] == a[j];
      }
      var data := ReadBlocks(nodes[i].dataBlocks);
      FetchedIsLoaded(c, db, a, nodes, i, kids, data);
      nodes := nodes[i := nodes[i].(kids := kids, data := data, loadFromDB := false)];
    }

    method LoadAllData(i: nat)
      requires Valid() && i < |nodes| && nodes[i].loadFromDB
      modifies this`nodes
      ensures Valid() && Loaded(c, db, old(nodes), nodes, i) && (old(Settled()) ==> Settled())
      ensures forall j: nat :: j < |old(nodes)| ==> MemTree(nodes, archive, j) == MemTree(old(nodes), archive, j)
    {
      AllLoadable(c, nodes, root, db, archive, i);
      LoadInto(i);
      if old(Settled()) {
        LoadingSettles(c, db, old(nodes), nodes, i);
      }
      LoadKeeps(c, old(nodes), nodes, root, db, archive, i);
      forall j: nat | j < |old(nodes)| ensures MemTree(nodes, archive, j) == MemTree(old(nodes), archive, j) {
        LoadIsInvisible(c, old(nodes), nodes, root, db, archive, i, j);
      }
    }

    method EnsureLoaded(i: nat)
      requires Valid() && i < |nodes|
      modifies this`nodes
      ensures Valid() && |old(nodes)| <= |nodes| && !nodes[i].loadFromDB && (old(Settled()) ==> Settled())
      ensures if old(nodes)[i].loadFromDB then Loaded(c, db, old(nodes), nodes, i) else nodes == old(nodes)
      ensures nodes[i].data == old(Held(i)).data && forall j: nat :: j < |old(nodes)| && j != i ==>
        nodes[j] == old(nodes)[j]
    {
      if nodes[i].loadFromDB {
        LoadAllData(i);
      }
    }

    // ---- Marking ------------------------------------------------------------------------------

    // Walks up the parent pointers. Every node with a child pointer has been loaded, so the test
    // for unloaded nodes only ever concerned the first one; its callers load that one.
    method Update(i: nat, now: int)
      requires i < |nodes| && !nodes[i].loadFromDB && ParentsLoaded(nodes)
      modifies this`nodes
      ensures nodes == Updated(old(nodes), i, now) && |nodes| == |old(nodes)|
      ensures forall r: nat :: r < |nodes| && OnPath(old(nodes), i, r) ==>
        && nodes[r].attrs.mtime == now && nodes[r].metaDirty
        && nodes[r] == old(nodes)[r].(attrs := old(nodes)[r].attrs.(mtime := now), metaDirty := true)
      ensures forall r: nat :: r < |nodes| && !OnPath(old(nodes), i, r) ==> nodes[r] == old(nodes)[r]
    {
      ghost var a := nodes;
      var cur: Option<nat> := Some(i);
      while cur.Some?
        invariant |nodes| == |a| && (cur.Some? ==> cur.value < |a| && OnPath(a, i, cur.value))
        invariant forall r: nat :: r < |a| ==>
          nodes[r] == if OnPath(a, i, r) && !(cur.Some? && OnPath(a, cur.value, r)) then Marked(a[r], now) else a[r]
        decreases if cur.Some? then cur.value + 1 else 0
      {
        var j := cur.value;
        assert nodes[j] == a[j];
        ghost var before := nodes;
        nodes := nodes[j := nodes[j].(attrs := nodes[j].attrs.(mtime := now), metaDirty := true)];
        cur := nodes[j].parent;
        if cur.Some? {
          PathParent(a, i, j);
        }
        forall r: nat | r < |a|
          ensures nodes[r] == if OnPath(a, i, r) && !(cur.Some? && OnPath(a, cur.value, r))
                              then Marked(a[r], now) else a[r]
        {
          assert OnPath(a, j, r) <==> r == j || (cur.Some? && OnPath(a, cur.value, r));
          if cur.Some? && OnPath(a, cur.value, r) {
            PathDown(a, cur.value, r);
          }
        }
      }
    }

    // ---- Operations ---------------------------------------------------------------------------

    // Create and Mkdir. The inode number is spent even when the name is taken.
    method AddNode(p: nat, name: string, isDir: bool, mode: nat, now: int) returns (status: Status, id: nat)
      requires Valid() && p < |nodes| && !nodes[p].loadFromDB
      modifies this
      ensures Valid() && root == old(root) && db == old(db) && head == old(head)
      ensures archive == old(archive) && published == old(published)
      ensures readOnly ==> status == NotPermitted && nodes == old(nodes) && nextInd == old(nextInd)
      ensures !readOnly ==> nextInd == old(nextInd) + 1
      ensures !readOnly && name in old(nodes)[p].kids ==> status == Exists && nodes == old(nodes)
      ensures !readOnly && name !in old(nodes)[p].kids ==>
        var kid := NewNode(name, isDir, mode, old(nextInd), owner, now, Some(p));
        status == Done && id == |old(nodes)| && nodes == Updated(WithKid(old(nodes), p, name, kid), id, now)
      ensures !readOnly && name !in old(nodes)[p].kids ==>
        && |nodes| == id + 1 && nodes[p].kids == old(nodes)[p].kids[name := id]
        && nodes[id] == DNode(name, Attrs(old(nextInd), isDir, mode, 0, now, now, owner.0, owner.1, 0), 0, "",
                              map[], [], "", false, true, false, Some(p), map[], [])
      ensures old(Settled()) ==> Settled()
    {
      AddedExactly(nodes, p, name, isDir, mode, nextInd, owner, now);
      id := 0;
      if readOnly {
        return NotPermitted, 0;
      }
      var kid := NewNode(name, isDir, mode, nextInd, owner, now, Some(p));
      nextInd := nextInd + 1;
      if name in nodes[p].kids {
        return Exists, 0;
      }
      id := Attach(p, name, kid, now);
      status := Done;
    }

    method Mkdir(p: nat, name: string, mode: nat, now: int) returns (status: Status, id: nat)
      requires Valid() && p < |nodes| && !nodes[p].loadFromDB
      modifies this
      ensures Valid() && nextInd == (if readOnly then old(nextInd) else old(nextInd) + 1)
      ensures status == if readOnly then NotPermitted else if name in old(nodes)[p].kids then Exists else Done
      ensures status.Done? ==> id < |nodes| && nodes[id].attrs.isDir && nodes[id].attrs.inode == old(nextInd)
      ensures status.Done? ==> p < |nodes| && nodes[p].kids == old(nodes)[p].kids[name := id]
      ensures !status.Done? ==> nodes == old(nodes)
    {
      status, id := AddNode(p, name, true, mode, now);
    }

    method CreateFile(p: nat, name: string, mode: nat, now: int) returns (status: Status, id: nat)
      requires Valid() && p < |nodes| && !nodes[p].loadFromDB
      modifies this
      ensures Valid() && nextInd == (if readOnly then old(nextInd) else old(nextInd) + 1)
      ensures status == if readOnly then NotPermitted else if name in old(nodes)[p].kids then Exists else Done
      ensures status.Done? ==>
        id < |nodes| && !nodes[id].attrs.isDir && nodes[id].attrs.inode == old(nextInd) && nodes[id].data == []
      ensures status.Done? ==> p < |nodes| && nodes[p].kids == old(nodes)[p].kids[name := id]
      ensures !status.Done? ==> nodes == old(nodes)
    {
      status, id := AddNode(p, name, false, mode, now);
    }

    method Attach(p: nat, name: string, kid: DNode, now: int) returns (id: nat)
      requires Valid() && p < |nodes| && !nodes[p].loadFromDB && Newborn(kid, p, name) && kid.data == []
      modifies this`nodes
      ensures Valid() && id == |old(nodes)| && nodes == Updated(WithKid(old(nodes), p, name, kid), id, now)
      ensures old(Settled()) ==> Settled()
    {
      AddKeeps(c, nodes, root, db, archive, p, name, kid, now);
      AddedLinks(c, nodes, root, db, archive, p, name, kid);
      if Settled() {
        AllKnown(c, nodes, root, db, archive);
        AddSettles(db, nodes, p, name, kid, now);
      }
      id := |nodes|;
      nodes := nodes[p := nodes[p].(kids := nodes[p].kids[name := id])] + [kid];
      Update(id, now);
    }

    // One loaded node changed in place, then marked.
    method Edit(i: nat, row: DNode, now: int)
      requires Valid() && i < |nodes| && !nodes[i].loadFromDB && Edited(nodes[i], row) && HasBlocks(db, row.dataBlocks)
      modifies this`nodes
      ensures Valid() && nodes == Updated(old(nodes)[i := row], i, now)
      ensures old(Settled()) && (SettledAt(db, row) || SameBytes(old(nodes)[i], row)) ==> Settled()
    {
      EditAll(c, nodes, root, db, archive, i, row, now);
      nodes := nodes[i := row];
      Update(i, now);
    }

    // Attributes and a shorter size; a node not loaded yet is loaded first. Cutting bytes off leaves
    // the blocks and the dirty flag alone, so a flushed file is out of step with its blocks from then
    // on, and a flush passes it over.
    method Setattr(i: nat, req: AttrChange, now: int) returns (ghost before: Nodes)
      requires Valid() && i < |nodes|
      modifies this`nodes
      ensures Valid()
      ensures if old(nodes)[i].loadFromDB then Loaded(c, db, old(nodes), before, i) else before == old(nodes)
      ensures i < |before| && nodes == Updated(before[i := Changed(before[i], req)], i, now)
      ensures before[i].data == old(Held(i)).data && nodes[i].dirty == before[i].dirty
      ensures var a, data := old(nodes)[i].attrs, before[i].data;
        nodes[i] == before[i].(
          attrs := Attrs(a.inode, a.isDir,
                         if req.mode.Some? then req.mode.value else a.mode,
                         if req.size.Some? then req.size.value else a.size,
                         if req.atime.Some? then req.atime.value else a.atime,
                         now,
                         if req.uid.Some? then req.uid.value else a.uid,
                         if req.gid.Some? then req.gid.value else a.gid,
                         if req.flags.Some? then req.flags.value else a.flags),
          data := if req.size.Some? && req.size.value < |data| then data[..req.size.value] else data,
          metaDirty := true)
      ensures SyncedAt(db, archive, before[i]) ==>
        (SyncedAt(db, archive, nodes[i]) <==> !Truncates(before[i].data, req))
      ensures old(Settled()) && !Truncates(before[i].data, req) ==> Settled()
    {
      EnsureLoaded(i);
      before := nodes;
      InvRow(c, nodes, root, db, archive, i);
      AllKnown(c, nodes, root, db, archive);
      SetattrEffect(before, db, archive, i, req, now);
      ChangedExactly(before, i, req, now);
      Edit(i, Changed(nodes[i], req), now);
    }

    // Overwrites and extends in place. Marks the data dirty, and leaves the node's metadata clean. A
    // node that is not loaded is written all the same; loading it before it is flushed brings back
    // the bytes it had.
    method Write(i: nat, offset: nat, buf: Data) returns (status: Status)
      requires Valid() && i < |nodes| && offset <= |nodes[i].data|
      modifies this`nodes
      ensures Valid()
      ensures readOnly ==> status == NotPermitted && nodes == old(nodes)
      ensures !readOnly ==> status == Done && nodes == old(nodes)[i := Written(old(nodes)[i], offset, buf)]
      ensures !readOnly ==>
        Held(i).data == if old(nodes)[i].loadFromDB then old(Held(i)).data else Patched(old(nodes)[i].data, offset, buf)
      ensures !readOnly ==>
        var was, data := old(nodes)[i], nodes[i].data;
        && WrittenOver(was.data, offset, buf, data)
        && nodes == old(nodes)[i := was.(data := data, attrs := was.attrs.(size := |data|), dirty := true)]
      ensures old(Settled()) ==> Settled()
    {
      if readOnly {
        return NotPermitted;
      }
      WriteKeeps(c, nodes, root, db, archive, i, offset, buf);
      PatchedExactly(nodes[i].data, offset, buf);
      InvRow(c, nodes, root, db, archive, i);
      var data := Overwrite(nodes[i].data, offset, buf);
      nodes := nodes[i := nodes[i].(data := data, attrs := nodes[i].attrs.(size := |data|), dirty := true)];
      status := Done;
    }

    static method Overwrite(input: Data, offset: nat, buf: Data) returns (data: Data)
      requires offset <= |input|
      ensures data == Patched(input, offset, buf)
    {
      data := input;
      var n := |data|;
      var stop := if offset + |buf| > n then n else offset + |buf|;
      for k := offset to stop
        invariant |data| == n
        invariant forall j :: 0 <= j < n ==> data[j] == if offset <= j < k then buf[j - offset] else input[j]
      {
        data := data[k := buf[k - offset]];
      }
      if offset + |buf| > n {
        data := data + buf[n - offset..];
      }
      assert data == Patched(input, offset, buf);
    }

    // Cuts the data into chunks, stores them, and makes their keys the node's blocks. A node that was
    // written to without being loaded is loaded when it is marked; one that has no data is left alone.
    method GoFlush(i: nat, now: int) returns (ghost before: Nodes)
      requires Valid() && i < |nodes|
      modifies this`nodes, this`db
      ensures Valid() && Extends(old(db), db) && (old(Settled()) ==> Settled())
      ensures NoData(old(nodes)[i]) ==> nodes == old(nodes) && db == old(db)
      ensures !NoData(old(nodes)[i]) ==>
        && Added(old(db), db, ChunkKeys(c, old(nodes)[i].data))
        && BlockBytes(db, ChunkKeys(c, old(nodes)[i].data)) == old(nodes)[i].data
        && (if old(nodes)[i].loadFromDB then Loaded(c, db, old(nodes), before, i) else before == old(nodes))
        && nodes == Updated(before[i := Flushed(c, before[i], old(nodes)[i].data)], i, now)
        && |nodes| > i && HoldChunks(db, nodes[i].dataBlocks, old(nodes)[i].data)
        && nodes[i] == before[i].(data := old(nodes)[i].data, dataBlocks := nodes[i].dataBlocks, dirty := false,
                                  attrs := before[i].attrs.(mtime := now), metaDirty := true)
    {
      before := nodes;
      if nodes[i].loadFromDB && nodes[i].data == [] {
        return;
      }
      var keys := StoreData(i);
      if nodes[i].loadFromDB {
        before := FlushUnloaded(i, keys, now);
      } else {
        Edit(i, nodes[i].(dataBlocks := keys, dirty := false), now);
      }
    }

    method StoreData(i: nat) returns (keys: seq<Key>)
      requires Valid() && i < |nodes|
      modifies this`db
      ensures Valid() && (old(Settled()) ==> Settled()) && keys == ChunkKeys(c, nodes[i].data)
      ensures Added(old(db), db, keys) && BlockBytes(db, keys) == nodes[i].data && HoldChunks(db, keys, nodes[i].data)
    {
      keys := StoreChunks(nodes[i].data);
      ChunkKeysHold(c, db, nodes[i].data);
      StoreGrew(c, nodes, root, old(db), db, archive);
      AllKnown(c, nodes, root, old(db), archive);
      if old(Settled()) {
        ChangeSettles(old(db), db, nodes, nodes);
      }
      ChunksAreStored(c, db, nodes[i].data);
    }

    method FlushUnloaded(i: nat, keys: seq<Key>, now: int) returns (ghost before: Nodes)
      requires Valid() && i < |nodes| && nodes[i].loadFromDB
      requires keys == ChunkKeys(c, nodes[i].data) && HasBlocks(db, keys) && BlockBytes(db, keys) == nodes[i].data
      modifies this`nodes
      ensures Valid() && (old(Settled()) ==> Settled()) && Loaded(c, db, old(nodes), before, i)
      ensures nodes == Updated(before[i := Flushed(c, before[i], old(nodes)[i].data)], i, now)
    {
      ghost var a := nodes;
      AllLoadable(c, nodes, root, db, archive, i);
      nodes := nodes[i := nodes[i].(dataBlocks := keys, dirty := false)];
      LoadInto(i);
      before := nodes[i := nodes[i].(dataBlocks := a[i].dataBlocks, data := BlockBytes(db, a[i].dataBlocks),
          dirty := a[i].dirty)];
      LateLoad(c, a, before, nodes, root, db, archive, i, a[i].data, now);
      Update(i, now);
    }

    method StoreChunks(data: Data) returns (keys: seq<Key>)
      requires Sound(c) && Addressed(c, db)
      modifies this`db
      ensures keys == ChunkKeys(c, data) && Addressed(c, db) && Added(old(db), db, keys)
    {
      keys := [];
      var off := 0;
      KeyedAtEnds(c, data, []);
      while off < |data|
        invariant off <= |data| && KeyedTo(c, data, off, keys)
        invariant Addressed(c, db) && Added(old(db), db, keys)
      {
        var key, next := StoreChunk(data, off, old(db), keys);
        keys, off := keys + [key], next;
      }
      KeyedAtEnds(c, data, keys);
    }

    method StoreChunk(data: Data, off: nat, ghost db0: DB, ghost keys: seq<Key>) returns (key: Key, next: nat)
      requires Sound(c) && Addressed(c, db) && off < |data| && KeyedTo(c, data, off, keys) && Added(db0, db, keys)
      modifies this`db
      ensures off < next <= |data| && KeyedTo(c, data, next, keys + [key]) && Addressed(c, db)
      ensures Added(db0, db, keys + [key])
    {
      NextChunk(c, data, off, keys);
      var step := GetNextChunkOff(data[off..]);
      next := off + step;
      var block := data[off..next];
      OneAdded(c, db0, db, keys, block);
      PutExtends(c, db, block);
      key := c.hash(block);
      db := db[key := block];
    }

    method Flush(i: nat, now: int) returns (ghost before: Nodes)
      requires Valid() && i < |nodes|
      modifies this`nodes, this`db
      ensures Valid() && Extends(old(db), db) && (old(Settled()) ==> Settled()) && |nodes| >= |old(nodes)|
      ensures !old(nodes)[i].dirty || NoData(old(nodes)[i]) ==> nodes == old(nodes) && db == old(db)
      ensures old(nodes)[i].dirty && !NoData(old(nodes)[i]) ==>
        && (if old(nodes)[i].loadFromDB then Loaded(c, db, old(nodes), before, i) else before == old(nodes))
        && nodes == Updated(before[i := Flushed(c, before[i], old(nodes)[i].data)], i, now)
        && Added(old(db), db, ChunkKeys(c, old(nodes)[i].data))
        && SyncedAt(db, archive, nodes[i]) && !nodes[i].dirty && nodes[i].data == old(nodes)[i].data
        && HoldChunks(db, nodes[i].dataBlocks, nodes[i].data)
    {
      before := nodes;
      if nodes[i].dirty {
        before := GoFlush(i, now);
        assert !NoData(old(nodes)[i]) ==> OnPath(before, i, i);
      }
    }

    method Remove(p: nat, name: string, wantDir: bool, now: int) returns (status: Status)
      requires Valid() && p < |nodes|
      modifies this`nodes
      ensures Valid()
      ensures var n := old(nodes)[p];
        if readOnly then status == NotPermitted && nodes == old(nodes)
        else if name !in n.kids then status == NoEntry && nodes == old(nodes)
        else if n.kids[name] < |old(nodes)| && old(nodes)[n.kids[name]].attrs.isDir && !wantDir
        then status == NotPermitted && nodes == old(nodes)
        else status == Done && nodes == Updated(old(nodes)[p := n.(kids := n.kids - {name})], p, now)
      ensures old(Settled()) ==> Settled()
    {
      if readOnly {
        return NotPermitted;
      }
      if name !in nodes[p].kids {
        return NoEntry;
      }
      InvRow(c, nodes, root, db, archive, p);
      if nodes[nodes[p].kids[name]].attrs.isDir && !wantDir {
        return NotPermitted;
      }
      Edit(p, nodes[p].(kids := nodes[p].kids - {name}), now);
      status := Done;
    }

    // Moves an entry of directory p to a name in directory q. A kid that is not loaded yet is loaded
    // on the way, as marking it would. An entry renamed to itself is dropped. The kid keeps its parent
    // pointer, and it is the old directory that is marked, so a move to another directory breaks the
    // tree: the new directory is not marked now, nor when the kid changes later.
    method Rename(p: nat, oldName: string, q: nat, newName: string, now: int)
      returns (status: Status, ghost before: Nodes)
      requires Valid() && p < |nodes| && q < |nodes| && !nodes[q].loadFromDB
      modifies this`nodes
      ensures status.Done? ==> (Valid() <==> p == q)
      ensures !status.Done? ==> Valid() && nodes == old(nodes)
      ensures status == if readOnly then NotPermitted else if oldName !in old(nodes)[p].kids then NoEntry else Done
      ensures status.Done? ==>
        var kid := old(nodes)[p].kids[oldName];
        && p < kid < |old(nodes)| <= |before|
        && (if old(nodes)[kid].loadFromDB && !(p == q && oldName == newName) then Loaded(c, db, old(nodes), before, kid)
            else before == old(nodes))
        && before[p].kids == old(nodes)[p].kids
        && nodes == Updated(Moved(before, p, oldName, q, newName), if p == q && oldName == newName then p else kid, now)
        && MovedOnly(before, p, oldName, q, newName, nodes)
      ensures old(Settled()) ==> Settled()
    {
      before, status := nodes, Done;
      if readOnly {
        return NotPermitted, nodes;
      }
      if oldName !in nodes[p].kids {
        return NoEntry, nodes;
      }
      InvRow(c, nodes, root, db, archive, p);
      if p == q && oldName == newName {
        InvRow(c, nodes, root, db, archive, nodes[p].kids[oldName]);
        MovedToItself(nodes, p, oldName);
        Edit(p, nodes[p].(kids := nodes[p].kids - {oldName}), now);
      } else if p == q {
        before := RenameKid(p, oldName, newName, now);
        MovedWithin(before, p, oldName, newName);
      } else {
        before := MoveAcross(p, oldName, q, newName, now);
      }
      ghost var kid := old(nodes)[p].kids[oldName];
      MovedExactly(before, p, oldName, q, newName, if p == q && oldName == newName then p else kid, now);
    }

    method RenameKid(p: nat, oldName: string, newName: string, now: int) returns (ghost before: Nodes)
      requires Valid() && p < |nodes| && oldName in nodes[p].kids && oldName != newName
      requires p < nodes[p].kids[oldName] < |nodes|
      modifies this`nodes
      ensures Valid() && (old(Settled()) ==> Settled()) && |old(nodes)| <= |before|
      ensures before[p].kids == old(nodes)[p].kids
      ensures var kid := old(nodes)[p].kids[oldName];
        && (if old(nodes)[kid].loadFromDB then Loaded(c, db, old(nodes), before, kid) else before == old(nodes))
        && nodes == Updated(Renamed(before, p, oldName, newName), kid, now)
    {
      EnsureLoaded(nodes[p].kids[oldName]);
      before := nodes;
      MoveKid(p, oldName, newName, now);
      AllLinked(c, nodes, root, db, archive);
      Update(p, now);
    }

    method MoveAcross(p: nat, oldName: string, q: nat, newName: string, now: int) returns (ghost before: Nodes)
      requires Valid() && p < |nodes| && q < |nodes| && p != q && oldName in nodes[p].kids
      requires p < nodes[p].kids[oldName] < |nodes|
      modifies this`nodes
      ensures !Valid() && (old(Settled()) ==> Settled()) && |old(nodes)| <= |before|
      ensures before[p].kids == old(nodes)[p].kids
      ensures var kid := old(nodes)[p].kids[oldName];
        && (if old(nodes)[kid].loadFromDB then Loaded(c, db, old(nodes), before, kid) else before == old(nodes))
        && nodes == Updated(Moved(before, p, oldName, q, newName), kid, now)
    {
      EnsureLoaded(nodes[p].kids[oldName]);
      before := nodes;
      MoveLoaded(p, oldName, q, newName, now);
    }

    method MoveLoaded(p: nat, oldName: string, q: nat, newName: string, now: int)
      requires Valid() && p < |nodes| && q < |nodes| && p != q && oldName in nodes[p].kids
      requires p < nodes[p].kids[oldName] < |nodes| && !nodes[nodes[p].kids[oldName]].loadFromDB
      modifies this`nodes
      ensures !Valid() && (old(Settled()) ==> Settled())
      ensures nodes == Updated(Moved(old(nodes), p, oldName, q, newName), old(nodes)[p].kids[oldName], now)
    {
      var kid := nodes[p].kids[oldName];
      MovedReady(c, nodes, root, db, archive, p, oldName, q, newName, now);
      MovedStaysSettled(c, nodes, root, db, archive, p, oldName, q, newName, now);
      Relink(p, oldName, q, newName);
      MarkBoth(kid, p, now);
      UnlinkedIsInvalid(c, nodes, root, db, archive, q);
    }

    // Marks the kid, and the directory it came from, which is on its way up already.
    method MarkBoth(kid: nat, p: nat, now: int)
      requires kid < |nodes| && p < |nodes| && !nodes[kid].loadFromDB && !nodes[p].loadFromDB && ParentsLoaded(nodes)
      modifies this`nodes
      ensures nodes == Updated(Updated(old(nodes), kid, now), p, now)
    {
      Update(kid, now);
      Update(p, now);
    }

    method Relink(p: nat, oldName: string, q: nat, newName: string)
      requires p < |nodes| && q < |nodes| && oldName in nodes[p].kids && nodes[p].kids[oldName] < |nodes|
      modifies this`nodes
      ensures nodes == Moved(old(nodes), p, oldName, q, newName)
    {
      var kid := nodes[p].kids[oldName];
      nodes := nodes[kid := nodes[kid].(name := newName)];
      nodes := nodes[q := nodes[q].(kids := nodes[q].kids[newName := kid])];
      nodes := nodes[p := nodes[p].(kids := nodes[p].kids - {oldName})];
    }

    // Takes the kid's old name out, gives it its new one, and marks the kid.
    method MoveKid(p: nat, oldName: string, newName: string, now: int)
      requires Valid() && p < |nodes| && oldName in nodes[p].kids && oldName != newName
      requires p < nodes[p].kids[oldName] < |nodes| && !nodes[nodes[p].kids[oldName]].loadFromDB
      modifies this`nodes
      ensures Valid()
      ensures nodes == Updated(Renamed(old(nodes), p, oldName, newName), old(nodes)[p].kids[oldName], now)
      ensures p < |nodes| && !nodes[p].loadFromDB && Updated(nodes, p, now) == nodes
      ensures old(Settled()) ==> Settled()
    {
      var kid := nodes[p].kids[oldName];
      MoveReady(c, nodes, root, db, archive, p, oldName, newName, now);
      MovedWithin(nodes, p, oldName, newName);
      if Settled() {
        AllKnown(c, nodes, root, db, archive);
        MovedSettles(nodes, db, p, oldName, p, newName, now);
      }
      Relink(p, oldName, p, newName);
      Update(kid, now);
    }

    // ---- Saving -------------------------------------------------------------------------------

    // The tail of traversalSave: new child signatures, version, signature; the record is stored.
    method SaveNode(i: nat)
      requires Valid() && i < |nodes| && nodes[i].metaDirty && KidsClean(nodes, i)
      modifies this`nodes, this`db, this`archive
      ensures Valid() && nodes == old(nodes)[i := SaveNow(c, old(nodes), i)]
      ensures db == PutBlob(c, old(db), c.encode(RecordNow(old(nodes), i)))
      ensures (forall k :: k in old(nodes)[i].kids ==> old(nodes)[i].kids[k] < |old(nodes)|) &&
        var n := old(nodes)[i];
        var sigs := map k | k in n.kids :: old(nodes)[n.kids[k]].sig;
        var r := Record(n.name, n.attrs, n.version + 1, n.sig, sigs, n.dataBlocks);
        && nodes[i] == n.(childSigs := sigs, prevSig := n.sig, version := n.version + 1, sig := c.hash(c.encode(r)),
                          metaDirty := false)
        && db == old(db)[c.hash(c.encode(r)) := c.encode(r)]
      ensures Extends(old(db), db) && Grows(old(archive), archive)
    {
      SaveKeeps(c, nodes, root, db, archive, i);
      PutExtends(c, db, c.encode(RecordNow(nodes, i)));
      var sigs := map k | k in nodes[i].kids :: nodes[nodes[i].kids[k]].sig;
      var r := Record(nodes[i].name, nodes[i].attrs, nodes[i].version + 1, nodes[i].sig, sigs, nodes[i].dataBlocks);
      var blob := c.encode(r);
      archive := archive[c.hash(blob) := TreeNow(nodes, db, archive, i)];
      nodes := nodes[i := nodes[i].(childSigs := sigs, prevSig := r.prevSig, version := r.version,
                                    sig := c.hash(blob), metaDirty := false)];
      db := db[c.hash(blob) := blob];
    }

    // traversalSave. A dirty node is always loaded, so the test for unloaded ones is never taken.
    method TraversalSave(i: nat)
      requires Valid() && i < |nodes|
      modifies this`nodes, this`db, this`archive
      ensures Valid() && Saved(c, old(nodes), old(db), old(archive), nodes, db, archive)
      ensures SavedUnder(c, old(nodes), nodes, i)
      ensures forall j: nat :: j < |nodes| && nodes[j] != old(nodes)[j] ==> Attached(old(nodes), j, i)
      decreases |nodes| - i, 2
    {
      ghost var a, db0, arch0 := nodes, db, archive;
      SavedNothing(c, nodes, db, archive);
      if nodes[i].metaDirty {
        SavingNone(c, nodes, db, archive, root, i);
        SaveKids(i, nodes[i].kids.Keys, a, db0, arch0);
        SaveNodeAfterKids(i, a, db0, arch0);
      }
    }

    // Saving node i's kids is under way: those not in todo are done.
    ghost predicate Saving(a: Nodes, db0: DB, arch0: Archive, i: nat, todo: set<string>)
      reads this
    {
      && Valid() && i < |nodes| == |a| && nodes[i] == a[i] && todo <= a[i].kids.Keys
      && SavingKids(c, a, db0, arch0, nodes, db, archive, i, a[i].kids.Keys - todo)
    }

    // The loop over the kids, in any order.
    method SaveKids(i: nat, names: set<string>, ghost a: Nodes, ghost db0: DB, ghost arch0: Archive)
      requires Saving(a, db0, arch0, i, names)
      modifies this`nodes, this`db, this`archive
      ensures Saving(a, db0, arch0, i, {})
      decreases |a| - i, 1
    {
      var todo := names;
      while todo != {}
        invariant Saving(a, db0, arch0, i, todo)
        decreases |todo|
      {
        var k :| k in todo;
        SaveKid(i, k, a, db0, arch0, todo);
        todo := todo - {k};
      }
    }

    method SaveKid(i: nat, k: string, ghost a: Nodes, ghost db0: DB, ghost arch0: Archive, ghost todo: set<string>)
      requires Saving(a, db0, arch0, i, todo) && k in todo
      modifies this`nodes, this`db, this`archive
      ensures Saving(a, db0, arch0, i, todo - {k})
      decreases |a| - i, 0
    {
      ghost var done := a[i].kids.Keys - todo;
      assert done + {k} == a[i].kids.Keys - (todo - {k});
      TraversalSave(nodes[i].kids[k]);
      AfterKid(c, a, db0, arch0, old(nodes), old(db), old(archive), nodes, db, archive, i, k, done);
      SavingLeavesSelf(c, a, db0, arch0, nodes, db, archive, i, done + {k});
    }

    method SaveNodeAfterKids(i: nat, ghost a: Nodes, ghost db0: DB, ghost arch0: Archive)
      requires i < |a| && a[i].metaDirty && Saving(a, db0, arch0, i, {})
      modifies this`nodes, this`db, this`archive
      ensures Valid() && Saved(c, a, db0, arch0, nodes, db, archive)
      ensures SavedUnder(c, a, nodes, i)
      ensures forall j: nat :: j < |nodes| && nodes[j] != a[j] ==> Attached(a, j, i)
    {
      KidsAreClean(c, a, nodes, i);
      StaysWithin(a, nodes, i, SaveNow(c, nodes, i));
      AfterSelf(c, a, db0, arch0, nodes, db, archive, i, root);
      SaveNode(i);
    }

    // ---- Publishing ---------------------------------------------------------------------------

    // putHead: whatever signature the root has becomes the head.
    method PutHead()
      requires Valid()
      modifies this`head, this`published
      ensures Valid() && head == Some(Head(nodes[root].sig, nextInd)) && published == old(published) + {nodes[root].sig}
      ensures nodes[root].sig == "" || nodes[root].sig in archive
    {
      InvRow(c, nodes, root, db, archive, root);
      head := Some(Head(nodes[root].sig, nextInd));
      published := published + {nodes[root].sig};
    }

    // One round of Flusher: save what is dirty, publish the root. What the new head decodes to is
    // the tree in memory exactly when every node's bytes were flushed. A root that was never
    // touched has no signature, and an empty head is published for it.
    method SaveAndPublish()
      requires Valid()
      modifies this`nodes, this`db, this`archive, this`head, this`published
      ensures Valid() && Saved(c, old(nodes), old(db), old(archive), nodes, db, archive)
      ensures !nodes[root].metaDirty && nodes[root].sig == SavedSig(c, old(nodes), root)
      ensures head == Some(Head(SavedSig(c, old(nodes), root), nextInd))
      ensures published == old(published) + {head.value.root} && (old(Settled()) ==> Settled())
      ensures SyncedUnder(nodes, db, archive, root) <==> SyncedUnder(old(nodes), old(db), old(archive), root)
      ensures head.value.root == "" <==> !old(nodes)[root].metaDirty && old(nodes)[root].sig == ""
      ensures head.value.root != "" ==> head.value.root in archive
      ensures head.value.root in archive ==>
        (archive[head.value.root] == MemTree(nodes, archive, root) <==>
            SyncedUnder(old(nodes), old(db), old(archive), root))
    {
      SaveAll();
      PutHead();
      if nodes[root].sig != "" {
        CleanReadsBack(c, nodes, root, db, archive, root);
      }
    }

    // traversalSave from the root.
    method SaveAll()
      requires Valid()
      modifies this`nodes, this`db, this`archive
      ensures Valid() && (old(Settled()) ==> Settled())
      ensures Saved(c, old(nodes), old(db), old(archive), nodes, db, archive)
      ensures root < |old(nodes)| && nodes[root] == SavedRow(c, old(nodes), root)
      ensures SyncedUnder(nodes, db, archive, root) <==> SyncedUnder(old(nodes), old(db), old(archive), root)
    {
      AllKnown(c, nodes, root, db, archive);
      TraversalSave(root);
      if old(Settled()) {
        ChangeSettles(old(db), db, old(nodes), nodes);
      }
      SavingKeepsSynced(c, old(nodes), old(db), old(archive), nodes, db, archive, root, root);
    }

    // A later mount of the same store: the root is fetched from the head and loaded.
    method Remount() returns (fs: FileSystem)
      requires Valid() && head.Some? && head.value.root in archive
      ensures fresh(fs) && fs.Valid() && fs.c == c && fs.db == db && fs.head == head && fs.nextInd == head.value.nextInd
      ensures fs.archive == archive && fs.published == published
      ensures fs.Settled() && fs.Held(fs.root) == archive[head.value.root]
      ensures fs.JustLoaded() && fs.readOnly == readOnly
    {
      fs := new FileSystem.Open(c, readOnly, owner, db, head.value, archive, published);
      fs.LoadRoot();
    }

    // ---- Any sequence of requests -------------------------------------------------------------

    // The requests within the model's scope: on loaded nodes where the program needs them loaded,
    // and not writing past the end of a file.
    predicate Accepts(req: Request)
      reads this
    {
      match req
      case AddNode(p, _, _, _) => p < |nodes| && !nodes[p].loadFromDB
      case Setattr(i, _) => i < |nodes|
      case Write(i, offset, _) => i < |nodes| && offset <= |nodes[i].data|
      case Flush(i) => i < |nodes|
      case Remove(p, _, _) => p < |nodes|
      case Rename(p, _, _) => p < |nodes| && !nodes[p].loadFromDB
      case Load(i) => i < |nodes| && nodes[i].loadFromDB
      case Save => true
    }

    // One request, at one moment. Only a size change that cuts bytes off can unsettle.
    method Handle(req: Request, now: int)
      requires Valid() && Accepts(req)
      modifies this
      ensures Valid() && root == old(root)
      ensures Follows(c, root, old(Now()), req, Now())
      ensures old(Settled()) && !(req.Setattr? && Truncates(old(Held(req.i).data), req.change)) ==> Settled()
    {
      match req
      case Save => SaveAndPublish();
      case AddNode(_, _, _, _) => HandleEntry(req, now);
      case Remove(_, _, _) => HandleEntry(req, now);
      case Rename(_, _, _) => HandleEntry(req, now);
      case Setattr(i, change) => HandleChange(i, change, now);
      case _ => HandleNode(req, now);
    }

    // A change to a directory's entries.
    method HandleEntry(req: Request, now: int)
      requires Valid() && Accepts(req) && (req.AddNode? || req.Remove? || req.Rename?)
      modifies this
      ensures Valid() && root == old(root) && (old(Settled()) ==> Settled()) && Follows(c, root, old(Now()), req, Now())
    {
      match req
      case AddNode(p, name, isDir, mode) =>
        var status, id := AddNode(p, name, isDir, mode, now);
      case Remove(p, name, wantDir) =>
        var status := Remove(p, name, wantDir, now);
      case Rename(p, oldName, newName) =>
        ghost var status, before := Rename(p, oldName, p, newName, now);
    }

    method HandleChange(i: nat, change: AttrChange, now: int)
      requires Valid() && i < |nodes|
      modifies this
      ensures Valid() && root == old(root) && Follows(c, root, old(Now()), Request.Setattr(i, change), Now())
      ensures old(Settled()) && !Truncates(old(Held(i).data), change) ==> Settled()
    {
      ghost var before := Setattr(i, change, now);
    }

    // The bytes of one node, or loading it.
    method HandleNode(req: Request, now: int)
      requires Valid() && Accepts(req) && (req.Write? || req.Flush? || req.Load?)
      modifies this
      ensures Valid() && root == old(root) && (old(Settled()) ==> Settled()) && Follows(c, root, old(Now()), req, Now())
    {
      ghost var before := nodes;
      match req
      case Write(i, offset, buf) =>
        var status := Write(i, offset, buf);
      case Flush(i) =>
        before := Flush(i, now);
      case Load(i) =>
        LoadAllData(i);
    }

    // Requests and rounds of the Flusher in any order; a request out of scope is passed over. At every
    // moment, every signature published until then decodes, from then on, to the tree it has then,
    // and everything that tree mentions stays in the store.
    method Serve(reqs: seq<(Request, int)>) returns (ghost moments: seq<Moment>)
      requires Valid()
      modifies this
      ensures Valid() && root == old(root) && |moments| == |reqs| + 1
      ensures moments[0] == old(Now()) && moments[|reqs|] == Now()
      ensures forall k :: 0 <= k < |reqs| ==> Follows(c, root, moments[k], reqs[k].0, moments[k + 1])
      ensures forall k :: 0 <= k < |moments| ==> KeptSince(c, db, moments[k])
      ensures old(Settled()) && (forall k :: 0 <= k < |reqs| ==> KeepsSize(reqs[k].0)) ==> Settled()
    {
      moments := [Now()];
      KeptNow(c, Now());
      for k := 0 to |reqs|
        invariant Valid() && root == old(root) && |moments| == k + 1 && moments[0] == old(Now()) && moments[k] == Now()
        invariant forall q :: 0 <= q < k ==> Follows(c, root, moments[q], reqs[q].0, moments[q + 1])
        invariant forall q :: 0 <= q <= k ==> KeptSince(c, db, moments[q])
        invariant old(Settled()) && (forall q :: 0 <= q < k ==> KeepsSize(reqs[q].0)) ==> Settled()
      {
        ghost var before := Now();
        HandleIfAccepted(reqs[k].0, reqs[k].1);
        KeptLater(c, before.db, db, moments);
        moments := moments + [Now()];
        KeptNow(c, Now());
      }
    }

    method HandleIfAccepted(req: Request, now: int)
      requires Valid()
      modifies this
      ensures Valid() && root == old(root) && Follows(c, root, old(Now()), req, Now())
      ensures old(Settled()) && KeepsSize(req) ==> Settled()
    {
      if Accepts(req) {
        Handle(req, now);
      }
    }

    ghost function Now(): Moment
      reads this
    {
      Moment(nodes, db, archive, head, published)
    }

    // A round of the Flusher, a stop, and a new mount. What comes back is the tree that was in memory
    // exactly when every byte in it was in the store.
    method SaveAndRemount() returns (fs: FileSystem)
      requires Valid() && (nodes[root].metaDirty || nodes[root].sig != "")
      modifies this`nodes, this`db, this`archive, this`head, this`published
      ensures Valid() && fresh(fs) && fs.Valid() && fs.Settled() && fs.nextInd == nextInd
      ensures fs.JustLoaded() && fs.readOnly == readOnly
      ensures Saved(c, old(nodes), old(db), old(archive), nodes, db, archive) && !nodes[root].metaDirty
      ensures nodes[root].sig != "" && nodes[root].sig in archive && fs.Held(fs.root) == archive[nodes[root].sig]
      ensures fs.Held(fs.root) == Held(root) <==> SyncedUnder(old(nodes), old(db), old(archive), old(root))
      ensures old(Settled()) && FlushedUnder(old(nodes), old(root)) ==> fs.Held(fs.root) == Held(root)
    {
      if Settled() && FlushedUnder(nodes, root) {
        SettledIsSynced(c, nodes, root, db, archive, root);
      }
      SaveAndPublish();
      fs := Remount();
    }
  }
}
