/** A file system from moment to moment, and what it has published. */
module TreeMoments {
  import opened Options
  import opened TreeStore
  import opened TreeNodes
  import opened TreeSave
  import opened TreeHistory
  import opened TreeSteps

  datatype Head = Head(root: Key, nextInd: nat)

  // What a file system holds and has published at one moment.
  datatype Moment = Moment(nodes: Nodes, db: DB, archive: Archive, head: Option<Head>, published: set<Key>)

  // From one moment to the next: the store and the archive only grow, and only a save publishes,
  // namely the signature the root gets.
  ghost predicate Follows(c: Codec, root: nat, a: Moment, req: Request, b: Moment) {
    && Extends(a.db, b.db) && Grows(a.archive, b.archive)
    && if req.Save?
       then root < |a.nodes| && b.head.Some? && b.head.value.root == SavedSig(c, a.nodes, root)
            && b.published == a.published + {b.head.value.root}
       else b.head == a.head && b.published == a.published
  }

  // The signature s, archived as arch has it, decodes to that tree and to no other.
  ghost predicate Kept(c: Codec, db: DB, arch: Archive, s: Key) {
    s in arch && Stores(c, db, s, arch[s]) && Complete(c, db, s) && forall t :: Stores(c, db, s, t) ==> t == arch[s]
  }

  lemma KeptForever(c: Codec, db: DB, db': DB, arch: Archive, s: Key)
    requires Kept(c, db, arch, s) && Extends(db, db')
    ensures Kept(c, db', arch, s)
  {
    StoresForever(c, db, db', s, arch[s]);
    forall t | Stores(c, db', s, t) ensures t == arch[s] {
      StoresUnique(c, db', s, t, arch[s]);
    }
  }

  lemma KeptIfArchived(c: Codec, db: DB, arch: Archive, s: Key)
    requires Archived(c, db, arch) && s in arch
    ensures Kept(c, db, arch, s)
  {
    ArchiveAt(c, db, arch, s);
    ArchiveComplete(c, db, arch, s);
    forall t | Stores(c, db, s, t) ensures t == arch[s] {
      StoresUnique(c, db, s, t, arch[s]);
    }
  }

  // Whatever had been published at a moment is kept as it was archived then.
  ghost predicate KeptSince(c: Codec, db: DB, m: Moment) {
    forall s :: s in m.published && s != "" ==> Kept(c, db, m.archive, s)
  }

  lemma KeptNow(c: Codec, m: Moment)
    requires Archived(c, m.db, m.archive) && forall s :: s in m.published ==> s == "" || s in m.archive
    ensures KeptSince(c, m.db, m)
  {
    forall s | s in m.published && s != "" ensures Kept(c, m.db, m.archive, s) {
      KeptIfArchived(c, m.db, m.archive, s);
    }
  }

  lemma KeptLater(c: Codec, db: DB, db': DB, moments: seq<Moment>)
    requires Extends(db, db') && forall k :: 0 <= k < |moments| ==> KeptSince(c, db, moments[k])
    ensures forall k :: 0 <= k < |moments| ==> KeptSince(c, db', moments[k])
  {
    forall k | 0 <= k < |moments| ensures KeptSince(c, db', moments[k]) {
      var m := moments[k];
      assert KeptSince(c, db, m);
      forall s | s in m.published && s != "" ensures Kept(c, db', m.archive, s) {
        KeptForever(c, db, db', m.archive, s);
      }
    }
  }
}
