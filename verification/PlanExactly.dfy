/** Which items a plan consists of, told from the known sources and the manifest alone. */
module PlanExactly {
  import opened Prelude
  import opened Ordering
  import opened PlannerSpec

  // No entry is at the path of the source any more.
  ghost predicate Lost(k: KnownSource, ks: set<KnownSource>, es: set<ManifestEntry>) {
    k in ks && forall e :: e in es ==> e.pathKey != k.pathKey
  }

  // No source was at the path of the entry before.
  ghost predicate Found(e: ManifestEntry, ks: set<KnownSource>, es: set<ManifestEntry>) {
    e in es && forall k :: k in ks ==> k.pathKey != e.pathKey
  }

  // A lost source and a found entry share a file key that no other lost source and no other found entry has.
  ghost predicate SameFile(k: KnownSource, e: ManifestEntry, ks: set<KnownSource>, es: set<ManifestEntry>) {
    && Lost(k, ks, es) && Found(e, ks, es) && k.fileKey.Some? && k.fileKey == e.fileKey
    && (forall o :: Lost(o, ks, es) && o.fileKey == k.fileKey ==> o == k)
    && (forall o :: Found(o, ks, es) && o.fileKey == e.fileKey ==> o == e)
  }

  // Lost, or found, and told by no file key.
  ghost predicate StillLost(k: KnownSource, ks: set<KnownSource>, es: set<ManifestEntry>) {
    Lost(k, ks, es) && forall e :: !SameFile(k, e, ks, es)
  }

  ghost predicate StillFound(e: ManifestEntry, ks: set<KnownSource>, es: set<ManifestEntry>) {
    Found(e, ks, es) && forall k :: !SameFile(k, e, ks, es)
  }

  // Both are left over by the file keys and share a content that nothing else left over has.
  ghost predicate SameContent(k: KnownSource, e: ManifestEntry, ks: set<KnownSource>, es: set<ManifestEntry>) {
    && StillLost(k, ks, es) && StillFound(e, ks, es) && k.latestHash.Some? && k.latestHash == e.contentHash
    && (forall o :: StillLost(o, ks, es) && o.latestHash == k.latestHash ==> o == k)
    && (forall o :: StillFound(o, ks, es) && o.contentHash == e.contentHash ==> o == e)
  }

  ghost predicate Follows(k: KnownSource, e: ManifestEntry, ks: set<KnownSource>, es: set<ManifestEntry>) {
    SameFile(k, e, ks, es) || SameContent(k, e, ks, es)
  }

  // ---- The stages compute these relations ----

  lemma LeftoversAre(ks: set<KnownSource>, es: set<ManifestEntry>)
    ensures forall k :: k in KnownLeft(ks, SamePath(ks, es)) <==> Lost(k, ks, es)
    ensures forall e :: e in EntriesLeft(es, SamePath(ks, es)) <==> Found(e, ks, es)
  {
    forall k, e ensures (k, e) in SamePath(ks, es) <==> k in ks && e in es && k.pathKey == e.pathKey {
    }
  }

  lemma ByFileIff(k: KnownSource, e: ManifestEntry, ks: set<KnownSource>, es: set<ManifestEntry>)
    ensures (k, e) in ByFile(ks, es) <==> SameFile(k, e, ks, es)
  {
    LeftoversAre(ks, es);
  }

  lemma LaterLeftoversAre(ks: set<KnownSource>, es: set<ManifestEntry>)
    ensures forall k :: k in KnownLeft(ks, SamePath(ks, es) + ByFile(ks, es)) <==> StillLost(k, ks, es)
    ensures forall e :: e in EntriesLeft(es, SamePath(ks, es) + ByFile(ks, es)) <==> StillFound(e, ks, es)
  {
    LeftoversAre(ks, es);
    forall k, e ensures (k, e) in ByFile(ks, es) <==> SameFile(k, e, ks, es) {
      ByFileIff(k, e, ks, es);
    }
    var same, matched := SamePath(ks, es), SamePath(ks, es) + ByFile(ks, es);
    forall k ensures k in KnownLeft(ks, matched) <==> StillLost(k, ks, es) {
      assert forall e :: (k, e) in matched <==> (k, e) in same || SameFile(k, e, ks, es);
    }
    forall e ensures e in EntriesLeft(es, matched) <==> StillFound(e, ks, es) {
      assert forall k :: (k, e) in matched <==> (k, e) in same || SameFile(k, e, ks, es);
    }
  }

  lemma ByHashIff(k: KnownSource, e: ManifestEntry, ks: set<KnownSource>, es: set<ManifestEntry>)
    ensures (k, e) in ByHash(ks, es) <==> SameContent(k, e, ks, es)
  {
    LaterLeftoversAre(ks, es);
  }

  lemma MovesAre(ks: set<KnownSource>, es: set<ManifestEntry>)
    ensures forall k, e :: (k, e) in Moves(ks, es) <==> Follows(k, e, ks, es)
  {
    forall k, e ensures (k, e) in Moves(ks, es) <==> Follows(k, e, ks, es) {
      ByFileIff(k, e, ks, es);
      ByHashIff(k, e, ks, es);
    }
  }

  lemma UnmatchedAre(ks: set<KnownSource>, es: set<ManifestEntry>)
    ensures forall k :: k in KnownLeft(ks, Matches(ks, es))
                        <==> Lost(k, ks, es) && forall e :: !Follows(k, e, ks, es)
    ensures forall e :: e in EntriesLeft(es, Matches(ks, es))
                        <==> Found(e, ks, es) && forall k :: !Follows(k, e, ks, es)
  {
    LeftoversAre(ks, es);
    MovesAre(ks, es);
    var same, matched := SamePath(ks, es), Matches(ks, es);
    forall k, e ensures (k, e) in matched <==> (k, e) in same || Follows(k, e, ks, es) {
    }
  }

  // ---- The plan ----

  // The four kinds of item, field for field.

  // Nothing was read that differs from the newest known content, and that content could be parsed.
  predicate SameAsKnown(k: KnownSource, e: ManifestEntry) {
    && e.error.None? && k.latestStatus != Some(ParseFailed)
    && e.contentHash == if k.latestHash.Some? then k.latestHash else k.currentHash
  }

  ghost predicate Keeps(i: Item, k: KnownSource, e: ManifestEntry) {
    && ForEntry(i, e) && i.sourceId == Some(k.sourceId) && i.baseVersion == k.currentVersion
    && i.action == (if SameAsKnown(k, e) then Unchanged else Updated)
    && i.preserveQuarantine == (SameAsKnown(k, e) && k.latestStatus == Some(Quarantined))
  }

  ghost predicate Relocates(i: Item, k: KnownSource, e: ManifestEntry) {
    && ForEntry(i, e) && i.sourceId == Some(k.sourceId) && i.baseVersion == k.currentVersion
    && i.action.Moved? && !i.preserveQuarantine
  }

  ghost predicate Creates(i: Item, e: ManifestEntry) {
    && ForEntry(i, e) && i.sourceId.None? && i.baseVersion.None? && i.action.Created? && !i.preserveQuarantine
  }

  ghost predicate Deletes(i: Item, k: KnownSource) {
    && i.action.Deleted? && i.sourceId == Some(k.sourceId)
    && i.relativePath == k.relativePath && i.pathKey == k.pathKey && i.fileKey == k.fileKey
    && i.contentHash.None? && i.error.None? && !i.preserveQuarantine
    && i.baseVersion == (if k.currentVersion.Some? then k.currentVersion else k.latestVersion)
  }

  lemma FieldsTell(i: Item, k: KnownSource, e: ManifestEntry)
    ensures Keeps(i, k, e) <==> i == SamePathItem(k, e)
    ensures Relocates(i, k, e) <==> i == MovedItem(k, e)
    ensures Creates(i, e) <==> i == CreatedItem(e)
    ensures Deletes(i, k) <==> i == DeletedItem(k)
  {
  }

  ghost predicate ForSamePath(i: Item, ks: set<KnownSource>, es: set<ManifestEntry>) {
    exists k, e :: k in ks && e in es && k.pathKey == e.pathKey && Keeps(i, k, e)
  }

  ghost predicate ForMove(i: Item, ks: set<KnownSource>, es: set<ManifestEntry>) {
    exists k, e :: Follows(k, e, ks, es) && Relocates(i, k, e)
  }

  ghost predicate ForNewEntry(i: Item, ks: set<KnownSource>, es: set<ManifestEntry>) {
    exists e :: Found(e, ks, es) && (forall k :: !Follows(k, e, ks, es)) && Creates(i, e)
  }

  ghost predicate ForLostSource(i: Item, ks: set<KnownSource>, es: set<ManifestEntry>) {
    exists k :: Lost(k, ks, es) && k.eligible && (forall e :: !Follows(k, e, ks, es)) && Deletes(i, k)
  }

  lemma SamePathItemsAre(i: Item, ks: set<KnownSource>, es: set<ManifestEntry>)
    ensures i in (set p | p in SamePath(ks, es) :: SamePathItem(p.0, p.1)) <==> ForSamePath(i, ks, es)
  {
    if p :| p in SamePath(ks, es) && i == SamePathItem(p.0, p.1) {
      FieldsTell(i, p.0, p.1);
    }
    if k, e :| k in ks && e in es && k.pathKey == e.pathKey && Keeps(i, k, e) {
      FieldsTell(i, k, e);
      assert (k, e) in SamePath(ks, es) && i == SamePathItem((k, e).0, (k, e).1);
    }
  }

  lemma MovedItemsAre(i: Item, ks: set<KnownSource>, es: set<ManifestEntry>)
    ensures i in (set p | p in Moves(ks, es) :: MovedItem(p.0, p.1)) <==> ForMove(i, ks, es)
  {
    MovesAre(ks, es);
    if p :| p in Moves(ks, es) && i == MovedItem(p.0, p.1) {
      assert p == (p.0, p.1);
      FieldsTell(i, p.0, p.1);
    }
    if k, e :| Follows(k, e, ks, es) && Relocates(i, k, e) {
      FieldsTell(i, k, e);
      assert (k, e) in Moves(ks, es) && i == MovedItem((k, e).0, (k, e).1);
    }
  }

  lemma CreatedItemsAre(i: Item, ks: set<KnownSource>, es: set<ManifestEntry>)
    ensures i in CreatedItems(EntriesLeft(es, Matches(ks, es))) <==> ForNewEntry(i, ks, es)
  {
    UnmatchedAre(ks, es);
  }

  lemma DeletedItemsAre(i: Item, ks: set<KnownSource>, es: set<ManifestEntry>)
    ensures i in DeletedItems(KnownLeft(ks, Matches(ks, es))) <==> ForLostSource(i, ks, es)
  {
    UnmatchedAre(ks, es);
    if k :| Lost(k, ks, es) && k.eligible && (forall e :: !Follows(k, e, ks, es)) && Deletes(i, k) {
      assert i == DeletedItem(k);
    }
  }

  // A plan keeps what is at its path, follows what a sole file key or else a sole content identifies, creates
  // the other entries and deletes the other sources that may be deleted, and holds nothing else.
  lemma PlanIsExactly(i: Item, ks: set<KnownSource>, es: set<ManifestEntry>)
    ensures i in PlanItems(ks, es) <==>
      ForSamePath(i, ks, es) || ForMove(i, ks, es) || ForNewEntry(i, ks, es) || ForLostSource(i, ks, es)
  {
    SamePathItemsAre(i, ks, es);
    MovedItemsAre(i, ks, es);
    CreatedItemsAre(i, ks, es);
    DeletedItemsAre(i, ks, es);
  }

  // An entry is planned as moved from a source exactly when it follows that source.
  lemma MovedFromIff(k: KnownSource, e: ManifestEntry, i: Item, ks: set<KnownSource>, es: set<ManifestEntry>)
    requires Plannable(ks, es) && k in ks && e in es && i in PlanItems(ks, es) && ForEntry(i, e)
    ensures i.action.Moved? && i.sourceId == Some(k.sourceId) <==> Follows(k, e, ks, es)
  {
    PlanIsExactly(i, ks, es);
    if Follows(k, e, ks, es) {
      var moved := MovedItem(k, e);
      FieldsTell(moved, k, e);
      PlanIsExactly(moved, ks, es);
      ItemsAreDistinct(ks, es, i, moved);
    }
  }

  // A content that identifies what no path and no file key does is followed.
  lemma ContentIsFollowed(k: KnownSource, e: ManifestEntry, ks: set<KnownSource>, es: set<ManifestEntry>)
    requires SameContent(k, e, ks, es)
    ensures MovedItem(k, e) in PlanItems(ks, es)
  {
    FieldsTell(MovedItem(k, e), k, e);
    PlanIsExactly(MovedItem(k, e), ks, es);
  }

  // A file key comes first: the content of its two holders identifies nothing else.
  lemma FileKeyComesFirst(k: KnownSource, e: ManifestEntry, o: KnownSource, f: ManifestEntry, ks: set<KnownSource>,
                          es: set<ManifestEntry>)
    requires SameFile(k, e, ks, es) && Follows(o, f, ks, es) && (o == k || f == e)
    ensures o == k && f == e
  {
  }

  // One file without a key, renamed and left as it was.
  lemma RenamedFileIsMoved(k: KnownSource, e: ManifestEntry)
    requires k.pathKey != e.pathKey && k.fileKey.None? && k.latestHash.Some? && e.contentHash == k.latestHash
    ensures PlanItems({k}, {e}) == {MovedItem(k, e)}
  {
    assert SameContent(k, e, {k}, {e});
    ContentIsFollowed(k, e, {k}, {e});
    forall i | i in PlanItems({k}, {e}) ensures i == MovedItem(k, e) {
      PlanIsExactly(i, {k}, {e});
      assert !ForSamePath(i, {k}, {e}) && !ForNewEntry(i, {k}, {e}) && !ForLostSource(i, {k}, {e}) by {
        assert Follows(k, e, {k}, {e});
      }
      FieldsTell(i, k, e);
    }
  }
}
