/** Reading the store back: whole trees, earlier versions, and what publishing promises for good. */
module TreeHistory {
  import opened Options
  import opened TreeStore
  import opened TreeNodes
  import opened TreeSave
  import opened TreeOps

  // Fetching a node, its blocks, and so on for every child.
  function Reload(c: Codec, db: DB, sig: Key, ghost t: Tree): (u: Tree)
    requires Stores(c, db, sig, t)
    ensures u == t
    decreases t
  {
    var r := NodeAt(c, db, sig);
    var kids := map k | k in r.childSigs :: Reload(c, db, r.childSigs[k], t.kids[k]);
    assert kids == t.kids;
    Tree(r.name, r.attrs, r.version, r.prevSig, BlockBytes(db, r.dataBlocks), kids)
  }

  // n is an archived node as the store has it, loaded or not.
  ghost predicate Faithful(arch: Archive, n: DNode) {
    n.sig in arch && n.attrs == arch[n.sig].attrs && n.version == arch[n.sig].version
    && n.prevSig == arch[n.sig].prevSig
  }

  // getTimedVersion: the first node along the previous signatures with an older time.
  function TimedVersion(c: Codec, db: DB, ghost arch: Archive, n: DNode, tm: int): (r: Option<DNode>)
    requires StoreOk(c, db, arch) && Faithful(arch, n)
    ensures r.Some? ==>
      && Faithful(arch, r.value) && VersionOf(arch, n.sig, r.value.sig) && r.value.attrs.mtime < tm
      && forall s :: VersionOf(arch, n.sig, s) && s in arch && arch[s].attrs.mtime < tm ==>
          arch[s].version <= r.value.version
    ensures r.None? ==> forall s :: VersionOf(arch, n.sig, s) && s in arch ==> tm <= arch[s].attrs.mtime
    decreases n.version
  {
    EmptyKeyUnused(c, db, arch);
    ArchiveAt(c, db, arch, n.sig);
    if n.attrs.mtime < tm then
      NoneLater(c, db, arch, n.sig);
      Some(n)
    else if HasNode(c, db, n.prevSig) then
      ArchiveAt(c, db, arch, n.prevSig);
      TimedVersion(c, db, arch, Fetched(c, db, n.prevSig, None), tm)
    else
      None
  }

  lemma NoneLater(c: Codec, db: DB, arch: Archive, s: Key)
    requires Archived(c, db, arch) && s in arch
    ensures forall s' :: VersionOf(arch, s, s') && s' in arch ==> arch[s'].version <= arch[s].version
  {
    forall s' | VersionOf(arch, s, s') && s' in arch ensures arch[s'].version <= arch[s].version {
      VersionsFall(c, db, arch, s, s');
    }
  }

  // Every key a record mentions is in the store.
  ghost predicate Complete(c: Codec, db: DB, sig: Key) {
    HasNode(c, db, sig) &&
    var r := NodeAt(c, db, sig);
    && HasBlocks(db, r.dataBlocks)
    && (forall k :: k in r.childSigs ==> HasNode(c, db, r.childSigs[k]))
    && (r.prevSig != "" ==> HasNode(c, db, r.prevSig))
  }

  // A signature once archived decodes, in every later store, to the same tree and to no other; the
  // keys it mentions stay; and its versions are the same ones.
  lemma ArchivalImmutability(c: Codec, db: DB, arch: Archive, db': DB, arch': Archive, s: Key)
    requires StoreOk(c, db, arch) && StoreOk(c, db', arch') && Extends(db, db') && Grows(arch, arch') && s in arch
    ensures Stores(c, db', s, arch[s]) && arch'[s] == arch[s] && Complete(c, db', s)
    ensures forall t :: Stores(c, db', s, t) ==> t == arch[s]
    ensures forall s' :: VersionOf(arch', s, s') <==> VersionOf(arch, s, s')
  {
    ArchiveAt(c, db', arch', s);
    ArchiveComplete(c, db', arch', s);
    EmptyKeyUnused(c, db', arch');
    forall t | Stores(c, db', s, t) ensures t == arch[s] {
      StoresUnique(c, db', s, t, arch[s]);
    }
    forall s' ensures VersionOf(arch', s, s') <==> VersionOf(arch, s, s') {
      SameVersions(c, db, arch, arch', s, s');
    }
  }

  lemma ArchiveComplete(c: Codec, db: DB, arch: Archive, s: Key)
    requires Archived(c, db, arch) && s in arch
    ensures Complete(c, db, s)
  {
    ArchiveAt(c, db, arch, s);
    var r := NodeAt(c, db, s);
    forall k | k in r.childSigs ensures HasNode(c, db, r.childSigs[k]) {
      ArchiveAt(c, db, arch, r.childSigs[k]);
    }
    if r.prevSig != "" {
      ArchiveAt(c, db, arch, r.prevSig);
    }
  }

  lemma {:induction false} SameVersions(c: Codec, db: DB, arch: Archive, arch': Archive, s: Key, s': Key)
    requires Archived(c, db, arch) && Grows(arch, arch') && s in arch && "" !in arch'
    ensures VersionOf(arch', s, s') <==> VersionOf(arch, s, s')
    decreases arch[s].version
  {
    ArchiveAt(c, db, arch, s);
    if s != s' && arch[s].prevSig in arch {
      SameVersions(c, db, arch, arch', arch[s].prevSig, s');
    }
  }
}
