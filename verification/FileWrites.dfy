/** Files written before they are loaded: what a flush, or a load, then makes of the bytes they had. */
module FileWrites {
  import opened Chunking
  import opened TreeStore
  import opened TreeNodes
  import opened TreeSave
  import opened TreeOps
  import opened TreeSteps
  import opened FileTree
  import opened FileRuns

  // The bytes that len bytes written at offset leave alone are the same in both.
  ghost predicate SameOutside(data: Data, was: Data, offset: nat, len: nat)
    requires offset <= |data| && offset <= |was|
  {
    data[..offset] == was[..offset]
    && (if offset + len <= |data| then data[offset + len..] else [])
       == (if offset + len <= |was| then was[offset + len..] else [])
  }

  // A write of len bytes, flushed at once, lands on the bytes the file has.
  ghost predicate LandsOn(n: DNode, was: Data, offset: nat, len: nat)
    requires offset <= |n.data| && offset <= |was|
  {
    || !n.loadFromDB
    || (if n.data == [] then len == 0 || len >= |was| else SameOutside(n.data, was, offset, len))
  }

  lemma PatchesAgree(data: Data, was: Data, offset: nat, buf: Data)
    requires offset <= |data| && offset <= |was|
    ensures Patched(data, offset, buf) == Patched(was, offset, buf) <==> SameOutside(data, was, offset, |buf|)
  {
    var p, q := Patched(data, offset, buf), Patched(was, offset, buf);
    assert p[..offset] == data[..offset] && q[..offset] == was[..offset];
    assert p[offset + |buf|..] == if offset + |buf| <= |data| then data[offset + |buf|..] else [];
    assert q[offset + |buf|..] == if offset + |buf| <= |was| then was[offset + |buf|..] else [];
  }

  lemma PatchOfNothing(was: Data, buf: Data)
    ensures Patched(was, 0, []) == was && Patched([], 0, buf) == buf
    ensures SameOutside([], was, 0, |buf|) <==> |buf| >= |was|
  {
    assert was[..0] == [] && was[0..] == was;
  }

  // What a flush leaves of a file that is written to: the bytes in memory, if there are any.
  ghost function Left(n: DNode, was: Data, offset: nat, buf: Data): Data
    requires offset <= |n.data|
  {
    if n.loadFromDB && n.data == [] && buf == [] then was else Patched(n.data, offset, buf)
  }

  lemma LandsOnExactly(n: DNode, was: Data, offset: nat, buf: Data)
    requires offset <= |n.data| && offset <= |was| && (!n.loadFromDB ==> n.data == was)
    ensures Left(n, was, offset, buf) == Patched(was, offset, buf) <==> LandsOn(n, was, offset, |buf|)
  {
    PatchesAgree(n.data, was, offset, buf);
    PatchOfNothing(was, buf);
  }

  // A node written to, then flushed: the file is what was written laid over the bytes in memory. That
  // is laid over the bytes the file had if and only if the node was loaded, or those bytes do not
  // show: for the first write to a node not loaded, if nothing or at least as much was written.
  method WriteThenFlush(fs: FileSystem, i: nat, offset: nat, buf: Data, now: int)
    requires fs.Valid() && i < |fs.nodes| && offset <= |fs.nodes[i].data|
    modifies fs`nodes, fs`db
    ensures fs.Valid() && i < |fs.nodes|
    ensures !fs.readOnly ==>
      var n, was := old(fs.nodes)[i], old(fs.Held(i)).data;
      && fs.Held(i).data == (if n.loadFromDB && n.data == [] && buf == [] then was else Patched(n.data, offset, buf))
      && (offset <= |was| ==>
            (fs.Held(i).data == Patched(was, offset, buf) <==> LandsOn(n, was, offset, |buf|)))
  {
    ghost var n, was := fs.nodes[i], fs.Held(i).data;
    LoadedIsHeld(fs.nodes, fs.archive, i);
    var status := fs.Write(i, offset, buf);
    if !fs.readOnly {
      FlushWritten(fs, i, n, was, offset, buf, now);
      if offset <= |was| {
        LandsOnExactly(n, was, offset, buf);
      }
    } else {
      ghost var before := fs.Flush(i, now);
    }
  }

  lemma LoadedIsHeld(nodes: Nodes, arch: Archive, i: nat)
    requires i < |nodes|
    ensures !nodes[i].loadFromDB ==> MemTree(nodes, arch, i).data == nodes[i].data
  {
  }

  method FlushWritten(fs: FileSystem, i: nat, ghost n: DNode, ghost was: Data, offset: nat, buf: Data, now: int)
    requires fs.Valid() && i < |fs.nodes| && offset <= |n.data| && fs.nodes[i] == Written(n, offset, buf)
    requires n.loadFromDB ==> fs.Held(i).data == was
    modifies fs`nodes, fs`db
    ensures fs.Valid() && i < |fs.nodes| && fs.Held(i).data == Left(n, was, offset, buf)
  {
    ghost var a := fs.nodes;
    WrittenEmpty(n, offset, buf);
    ghost var before := fs.Flush(i, now);
    if !NoData(a[i]) {
      FlushLoads(fs.c, fs.db, a, before, fs.nodes, i, now);
    }
    LoadedIsHeld(fs.nodes, fs.archive, i);
  }

  lemma WrittenEmpty(n: DNode, offset: nat, buf: Data)
    requires offset <= |n.data|
    ensures NoData(Written(n, offset, buf)) <==> n.loadFromDB && n.data == [] && buf == []
  {
  }

  lemma FlushLoads(c: Codec, db: DB, a: Nodes, before: Nodes, b: Nodes, i: nat, now: int)
    requires i < |a| <= |before|
    requires if a[i].loadFromDB then Loaded(c, db, a, before, i) else before == a
    requires b == Updated(before[i := Flushed(c, before[i], a[i].data)], i, now)
    ensures i < |b| && !b[i].loadFromDB
  {
  }

  // A node written to before it is loaded, then loaded: the file has the bytes it had, and what was
  // written is lost unless it was there before.
  method WriteThenLoad(fs: FileSystem, i: nat, offset: nat, buf: Data)
    requires fs.Valid() && i < |fs.nodes| && offset <= |fs.nodes[i].data| && fs.nodes[i].loadFromDB
    modifies fs`nodes
    ensures fs.Valid() && i < |fs.nodes| && !fs.nodes[i].loadFromDB
    ensures fs.nodes[i].data == fs.Held(i).data == old(fs.Held(i)).data
    ensures var was := old(fs.Held(i)).data;
      offset <= |was| ==>
        (fs.nodes[i].data == Patched(was, offset, buf) <==>
           offset + |buf| <= |was| && was[offset..offset + |buf|] == buf)
  {
    ghost var was := fs.Held(i).data;
    var status := fs.Write(i, offset, buf);
    assert fs.Held(i).data == was && fs.nodes[i].loadFromDB;
    LoadBack(fs, i, was);
    if offset <= |was| {
      AlreadyThere(was, offset, buf);
    }
  }

  method LoadBack(fs: FileSystem, i: nat, ghost was: Data)
    requires fs.Valid() && i < |fs.nodes| && fs.nodes[i].loadFromDB && fs.Held(i).data == was
    modifies fs`nodes
    ensures fs.Valid() && i < |fs.nodes| && !fs.nodes[i].loadFromDB && fs.nodes[i].data == fs.Held(i).data == was
  {
    fs.LoadAllData(i);
    LoadedIsHeld(fs.nodes, fs.archive, i);
  }

  lemma AlreadyThere(was: Data, offset: nat, buf: Data)
    requires offset <= |was|
    ensures was == Patched(was, offset, buf) <==> offset + |buf| <= |was| && was[offset..offset + |buf|] == buf
  {
    var p := Patched(was, offset, buf);
    assert p[offset..offset + |buf|] == buf;
    if offset + |buf| <= |was| && was[offset..offset + |buf|] == buf {
      assert was == was[..offset] + was[offset..offset + |buf|] + was[offset + |buf|..];
    }
  }

  // ---- One file, mounted again ----------------------------------------------------------------

  // Node k is a file of these bytes, not loaded yet.
  ghost predicate Unloaded(fs: FileSystem, k: nat, bytes: Data)
    reads fs
  {
    && fs.Valid() && !fs.readOnly && k < |fs.nodes|
    && fs.nodes[k].loadFromDB && fs.nodes[k].data == [] && fs.Held(k).data == bytes
  }

  // A file of any bytes, saved and mounted again.
  method UnloadedFile(c: Codec, owner: (nat, nat), bytes: Data, now: int) returns (fs: FileSystem, k: nat)
    requires Sound(c)
    ensures fresh(fs) && Unloaded(fs, k, bytes)
  {
    var first := OneFile(c, owner, bytes, now);
    fs := MountAgain(first, bytes);
    KidIsUnloaded(fs, bytes);
    k := fs.nodes[fs.root].kids["f"];
  }

  method MountAgain(first: FileSystem, ghost bytes: Data) returns (fs: FileSystem)
    requires first.Valid() && first.Settled() && !first.readOnly && first.root == 0 && OneFileOf(first.nodes, bytes)
    modifies first
    ensures fresh(fs) && fs.Valid() && !fs.readOnly && fs.JustLoaded() && HasFile(fs.Held(fs.root), bytes)
  {
    ghost var a := first.nodes;
    assert FlushedUnder(a, 1);
    assert FlushedUnder(a, 0);
    fs := first.SaveAndRemount();
    SavedFile(first.c, a, first.nodes, first.archive, bytes);
  }

  ghost predicate HasFile(t: Tree, bytes: Data) {
    "f" in t.kids && t.kids["f"].data == bytes
  }

  lemma SavedFile(c: Codec, a: Nodes, b: Nodes, arch: Archive, bytes: Data)
    requires Partial(c, a, b) && OneFileOf(a, bytes)
    ensures HasFile(MemTree(b, arch, 0), bytes)
  {
    assert b[0] == a[0] || b[0] == SavedRow(c, a, 0);
    assert b[1] == a[1] || b[1] == SavedRow(c, a, 1);
    LoadedIsHeld(b, arch, 1);
    assert MemTree(b, arch, 0).kids["f"] == MemTree(b, arch, 1);
  }

  lemma KidIsUnloaded(fs: FileSystem, bytes: Data)
    requires fs.Valid() && !fs.readOnly && fs.JustLoaded() && HasFile(fs.Held(fs.root), bytes)
    ensures "f" in fs.nodes[fs.root].kids && Unloaded(fs, fs.nodes[fs.root].kids["f"], bytes)
  {
  }

  lemma OneByteOver(d: Byte, e: Byte, rest: Data)
    ensures Patched([d] + rest, 0, [e]) == [e] + rest
  {
    assert ([d] + rest)[1..] == rest && ([d] + rest)[..0] == [];
  }

  // Written to and then loaded, the file has its old bytes and nothing of the new one.
  method WriteIsLost(c: Codec, owner: (nat, nat), d: Byte, e: Byte, rest: Data, now: int)
    returns (fs: FileSystem, k: nat)
    requires Sound(c) && d != e
    ensures fs.Valid() && k < |fs.nodes| && !fs.nodes[k].loadFromDB
    ensures fs.nodes[k].data == [d] + rest != [e] + rest == Patched([d] + rest, 0, [e])
  {
    fs, k := UnloadedFile(c, owner, [d] + rest, now);
    WriteThenLoad(fs, k, 0, [e]);
    OneByteOver(d, e, rest);
    assert ([d] + rest)[0] == d && ([e] + rest)[0] == e;
  }

  // Written to and then flushed, the file has the new byte and nothing of the old ones after it.
  method RestIsLost(c: Codec, owner: (nat, nat), d: Byte, e: Byte, rest: Data, now: int)
    returns (fs: FileSystem, k: nat)
    requires Sound(c) && rest != []
    ensures fs.Valid() && k < |fs.nodes| && fs.Held(k).data == [e] != [e] + rest == Patched([d] + rest, 0, [e])
  {
    fs, k := UnloadedFile(c, owner, [d] + rest, now);
    WriteThenFlush(fs, k, 0, [e], now);
    OneByteOver(d, e, rest);
    PatchOfNothing([d] + rest, [e]);
  }
}
