/** The append-only, content-addressed store, and the trees its keys stand for. */
module TreeStore {
  import opened Options
  import opened Chunking

  type Key = string

  datatype Attrs = Attrs(inode: nat, isDir: bool, mode: nat, size: nat, atime: int, mtime: int, uid: nat, gid: nat,
                         flags: nat)

  // What exportProtoNode writes and importProtoNode reads back.
  datatype Record = Record(
    name: string, attrs: Attrs, version: nat, prevSig: Key,
    childSigs: map<string, Key>, dataBlocks: seq<Key>)

  type DB = map<Key, Data>

  // SHA-1 in base64, and the node encoding, as far as the file system relies on them.
  datatype Codec = Codec(hash: Data -> Key, encode: Record -> Data, decode: Data -> Option<Record>)

  ghost predicate Sound(c: Codec) {
    && (forall a, b :: c.hash(a) == c.hash(b) ==> a == b)
    && (forall a :: c.hash(a) != "")
    && (forall r :: c.decode(c.encode(r)) == Some(r))
  }

  function PutBlob(c: Codec, db: DB, blob: Data): DB {
    db[c.hash(blob) := blob]
  }

  // Every entry sits under its own hash.
  ghost predicate Addressed(c: Codec, db: DB) {
    forall k :: k in db ==> k == c.hash(db[k])
  }

  ghost predicate Extends(db: DB, db': DB) {
    forall k :: k in db ==> k in db' && db'[k] == db[k]
  }

  // Storing a blob never changes what an existing key stands for.
  lemma PutExtends(c: Codec, db: DB, blob: Data)
    requires Sound(c) && Addressed(c, db)
    ensures Extends(db, PutBlob(c, db, blob)) && Addressed(c, PutBlob(c, db, blob))
  {
  }

  predicate HasNode(c: Codec, db: DB, sig: Key) {
    sig in db && c.decode(db[sig]).Some?
  }

  function NodeAt(c: Codec, db: DB, sig: Key): Record
    requires HasNode(c, db, sig)
  {
    c.decode(db[sig]).value
  }

  predicate HasBlocks(db: DB, blocks: seq<Key>) {
    forall i :: 0 <= i < |blocks| ==> blocks[i] in db
  }

  function BlockBytes(db: DB, blocks: seq<Key>): Data
    requires HasBlocks(db, blocks)
  {
    Flat(seq(|blocks|, i requires 0 <= i < |blocks| => db[blocks[i]]))
  }

  lemma BlockBytesExtend(db: DB, db': DB, blocks: seq<Key>)
    requires HasBlocks(db, blocks) && Extends(db, db')
    ensures HasBlocks(db', blocks) && BlockBytes(db', blocks) == BlockBytes(db, blocks)
  {
    assert seq(|blocks|, i requires 0 <= i < |blocks| => db[blocks[i]])
        == seq(|blocks|, i requires 0 <= i < |blocks| => db'[blocks[i]]);
  }

  // ---- Decoded trees --------------------------------------------------------------------------

  datatype Tree = Tree(name: string, attrs: Attrs, version: nat, prevSig: Key, data: Data, kids: map<string, Tree>)

  // sig decodes, blocks, children and all, to t.
  ghost predicate Stores(c: Codec, db: DB, sig: Key, t: Tree)
    decreases t
  {
    && HasNode(c, db, sig)
    && var r := NodeAt(c, db, sig);
       && r.name == t.name && r.attrs == t.attrs && r.version == t.version && r.prevSig == t.prevSig
       && HasBlocks(db, r.dataBlocks) && BlockBytes(db, r.dataBlocks) == t.data
       && r.childSigs.Keys == t.kids.Keys
       && forall k :: k in t.kids ==> Stores(c, db, r.childSigs[k], t.kids[k])
  }

  // A key decodes to one tree only.
  lemma {:induction false} StoresUnique(c: Codec, db: DB, sig: Key, t: Tree, u: Tree)
    requires Stores(c, db, sig, t) && Stores(c, db, sig, u)
    ensures t == u
    decreases t
  {
    forall k | k in t.kids ensures t.kids[k] == u.kids[k] {
      StoresUnique(c, db, NodeAt(c, db, sig).childSigs[k], t.kids[k], u.kids[k]);
    }
  }

  // What a key decodes to is the same in every later store.
  lemma {:induction false} StoresForever(c: Codec, db: DB, db': DB, sig: Key, t: Tree)
    requires Stores(c, db, sig, t) && Extends(db, db')
    ensures Stores(c, db', sig, t)
    decreases t
  {
    var r := NodeAt(c, db, sig);
    BlockBytesExtend(db, db', r.dataBlocks);
    forall k | k in t.kids ensures Stores(c, db', r.childSigs[k], t.kids[k]) {
      StoresForever(c, db, db', r.childSigs[k], t.kids[k]);
    }
  }

  // ---- The archive ----------------------------------------------------------------------------

  // The node keys ever written, each with the tree it decodes to.
  type Archive = map<Key, Tree>

  ghost predicate ArchivedAt(c: Codec, db: DB, arch: Archive, s: Key) {
    && s in arch && Stores(c, db, s, arch[s])
    && (var t, r := arch[s], NodeAt(c, db, s);
        && (forall k :: k in r.childSigs ==> r.childSigs[k] in arch && k in t.kids && arch[r.childSigs[k]] == t.kids[k]
                                                  && t.kids[k].name == k)
        && t.version >= 1
        && (if t.version == 1 then t.prevSig == ""
            else t.prevSig in arch && arch[t.prevSig].version == t.version - 1))
  }

  // Every archived key decodes to its tree, with children, blocks and the previous version in the
  // store; along the previous versions the number falls by exactly one and the chain ends at "".
  ghost predicate Archived(c: Codec, db: DB, arch: Archive) {
    forall s :: s in arch ==> ArchivedAt(c, db, arch, s)
  }

  lemma ArchiveAt(c: Codec, db: DB, arch: Archive, s: Key)
    requires Archived(c, db, arch) && s in arch
    ensures ArchivedAt(c, db, arch, s)
  {
  }

  lemma ArchivedForever(c: Codec, db: DB, db': DB, arch: Archive)
    requires Archived(c, db, arch) && Extends(db, db')
    ensures Archived(c, db', arch)
  {
    forall s | s in arch ensures ArchivedAt(c, db', arch, s) {
      ArchiveAt(c, db, arch, s);
      StoresForever(c, db, db', s, arch[s]);
    }
  }

  lemma EmptyKeyUnused(c: Codec, db: DB, arch: Archive)
    requires Sound(c) && Addressed(c, db) && Archived(c, db, arch)
    ensures "" !in db && "" !in arch
  {
    if "" in arch {
      ArchiveAt(c, db, arch, "");
    }
  }

  // ---- Version chains -------------------------------------------------------------------------

  // s' is a version of s: s itself or one of its predecessors.
  ghost predicate VersionOf(arch: Archive, s: Key, s': Key)
    requires s in arch
    decreases arch[s].version
  {
    s == s' || (arch[s].prevSig in arch && arch[arch[s].prevSig].version < arch[s].version
                && VersionOf(arch, arch[s].prevSig, s'))
  }

  // The chain behind an archived key holds every version number from its own down to 1, once each.
  lemma {:induction false} ChainCounts(c: Codec, db: DB, arch: Archive, s: Key, v: nat) returns (at: Key)
    requires Archived(c, db, arch) && s in arch && 1 <= v <= arch[s].version
    ensures VersionOf(arch, s, at) && at in arch && arch[at].version == v
    ensures forall s' :: VersionOf(arch, s, s') && s' in arch && arch[s'].version == v ==> s' == at
    decreases arch[s].version
  {
    ArchiveAt(c, db, arch, s);
    if v == arch[s].version {
      at := s;
      forall s' | VersionOf(arch, s, s') && s' != s ensures s' in arch && arch[s'].version < arch[s].version {
        VersionsFall(c, db, arch, s, s');
      }
    } else {
      at := ChainCounts(c, db, arch, arch[s].prevSig, v);
    }
  }

  lemma {:induction false} VersionsFall(c: Codec, db: DB, arch: Archive, s: Key, s': Key)
    requires Archived(c, db, arch) && s in arch && VersionOf(arch, s, s')
    ensures s' in arch && 1 <= arch[s'].version <= arch[s].version
    ensures s' != s ==> arch[s'].version < arch[s].version
    decreases arch[s].version
  {
    ArchiveAt(c, db, arch, s);
    if s != s' {
      VersionsFall(c, db, arch, arch[s].prevSig, s');
    }
  }
}
