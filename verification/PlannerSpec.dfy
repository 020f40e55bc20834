/** What a full-scan plan is, as a set of items: known sources are matched with the entries of a manifest. */
module PlannerSpec {
  import opened Prelude
  import opened Ordering

  datatype SourceStatus = Captured | Parsed | Ready | ParseFailed | Quarantined | Deleted

  datatype Action = Created | Updated | Moved | Deleted | Unchanged

  datatype KnownSource = KnownSource(sourceId: string, relativePath: string, pathKey: string, fileKey: Option<string>,
                                     currentVersion: Option<string>, currentHash: Option<string>,
                                     latestVersion: Option<string>, latestHash: Option<string>,
                                     latestStatus: Option<SourceStatus>, eligible: bool)

  // An entry holds a content hash, or the category of the error that kept it from being read.
  datatype ManifestEntry = ManifestEntry(relativePath: string, pathKey: string, fileKey: Option<string>,
                                         contentHash: Option<string>, error: Option<string>)

  datatype Item = Item(action: Action, relativePath: string, pathKey: string, sourceId: Option<string>,
                       fileKey: Option<string>, contentHash: Option<string>, baseVersion: Option<string>,
                       error: Option<string>, preserveQuarantine: bool)

  type Pair = (KnownSource, ManifestEntry)

  // ---- The four kinds of item ----

  function Or(a: Option<string>, b: Option<string>): Option<string> {
    if a.Some? then a else b
  }

  predicate Settled(k: KnownSource, e: ManifestEntry) {
    e.error.None? && e.contentHash == Or(k.latestHash, k.currentHash) && k.latestStatus != Some(ParseFailed)
  }

  function SamePathItem(k: KnownSource, e: ManifestEntry): Item {
    Item(if Settled(k, e) then Unchanged else Updated, e.relativePath, e.pathKey, Some(k.sourceId), e.fileKey,
         e.contentHash, k.currentVersion, e.error, Settled(k, e) && k.latestStatus == Some(Quarantined))
  }

  function MovedItem(k: KnownSource, e: ManifestEntry): Item {
    Item(Moved, e.relativePath, e.pathKey, Some(k.sourceId), e.fileKey, e.contentHash, k.currentVersion, e.error, false)
  }

  function CreatedItem(e: ManifestEntry): Item {
    Item(Created, e.relativePath, e.pathKey, None, e.fileKey, e.contentHash, None, e.error, false)
  }

  function DeletedItem(k: KnownSource): Item {
    Item(Action.Deleted, k.relativePath, k.pathKey, Some(k.sourceId), k.fileKey, None,
         Or(k.currentVersion, k.latestVersion), None, false)
  }

  // ---- The three matching stages ----

  datatype Identity = FileKey | ContentHash

  function KnownIdentity(id: Identity, k: KnownSource): Option<string> {
    if id.FileKey? then k.fileKey else k.latestHash
  }

  function EntryIdentity(id: Identity, e: ManifestEntry): Option<string> {
    if id.FileKey? then e.fileKey else e.contentHash
  }

  // The pair shares an identity that nothing else on either side has.
  ghost predicate Identified(id: Identity, k: KnownSource, e: ManifestEntry, ks: set<KnownSource>,
                             es: set<ManifestEntry>)
  {
    && k in ks && e in es
    && KnownIdentity(id, k).Some? && KnownIdentity(id, k) == EntryIdentity(id, e)
    && (forall o :: o in ks && KnownIdentity(id, o) == KnownIdentity(id, k) ==> o == k)
    && (forall o :: o in es && EntryIdentity(id, o) == EntryIdentity(id, e) ==> o == e)
  }

  ghost function Pairs(id: Identity, ks: set<KnownSource>, es: set<ManifestEntry>): set<Pair> {
    set k, e | k in ks && e in es && Identified(id, k, e, ks, es) :: (k, e)
  }

  ghost function SamePath(ks: set<KnownSource>, es: set<ManifestEntry>): set<Pair> {
    set k, e | k in ks && e in es && k.pathKey == e.pathKey :: (k, e)
  }

  ghost function KnownLeft(ks: set<KnownSource>, pairs: set<Pair>): set<KnownSource> {
    set k | k in ks && forall e :: (k, e) !in pairs
  }

  ghost function EntriesLeft(es: set<ManifestEntry>, pairs: set<Pair>): set<ManifestEntry> {
    set e | e in es && forall k :: (k, e) !in pairs
  }

  ghost function ByFile(ks: set<KnownSource>, es: set<ManifestEntry>): set<Pair> {
    var same := SamePath(ks, es);
    Pairs(FileKey, KnownLeft(ks, same), EntriesLeft(es, same))
  }

  ghost function ByHash(ks: set<KnownSource>, es: set<ManifestEntry>): set<Pair> {
    var matched := SamePath(ks, es) + ByFile(ks, es);
    Pairs(ContentHash, KnownLeft(ks, matched), EntriesLeft(es, matched))
  }

  ghost function Moves(ks: set<KnownSource>, es: set<ManifestEntry>): set<Pair> {
    ByFile(ks, es) + ByHash(ks, es)
  }

  ghost function Matches(ks: set<KnownSource>, es: set<ManifestEntry>): set<Pair> {
    SamePath(ks, es) + Moves(ks, es)
  }

  // ---- The plan ----

  ghost function MatchedItems(same: set<Pair>, moved: set<Pair>): set<Item> {
    (set p | p in same :: SamePathItem(p.0, p.1)) + (set p | p in moved :: MovedItem(p.0, p.1))
  }

  ghost function CreatedItems(es: set<ManifestEntry>): set<Item> {
    set e | e in es :: CreatedItem(e)
  }

  ghost function DeletedItems(ks: set<KnownSource>): set<Item> {
    set k | k in ks && k.eligible :: DeletedItem(k)
  }

  ghost function PlanItems(ks: set<KnownSource>, es: set<ManifestEntry>): set<Item> {
    var matches := Matches(ks, es);
    MatchedItems(SamePath(ks, es), Moves(ks, es)) + CreatedItems(EntriesLeft(es,
        matches)) + DeletedItems(KnownLeft(ks, matches))
  }

  // ---- Lists of items ----

  ghost function Members<T>(s: seq<T>): set<T> {
    set x | x in s
  }

  ghost predicate DistinctPaths(items: seq<Item>) {
    forall i, j :: 0 <= i < j < |items| ==> items[i].pathKey != items[j].pathKey
  }

  ghost predicate Lists(items: seq<Item>, s: set<Item>) {
    Members(items) == s && DistinctPaths(items)
  }

  ghost predicate InPathOrder(items: seq<Item>) {
    forall i, j :: 0 <= i < j < |items| ==> Less(items[i].pathKey, items[j].pathKey)
  }

  ghost predicate IsPlan(items: seq<Item>, ks: set<KnownSource>, es: set<ManifestEntry>) {
    InPathOrder(items) && Members(items) == PlanItems(ks, es)
  }

  // ---- What the database and the manifest promise about the inputs ----

  ghost predicate DistinctSources(known: seq<KnownSource>) {
    forall i, j :: 0 <= i < j < |known| ==> known[i].sourceId != known[j].sourceId
  }

  ghost predicate DistinctEntries(entries: seq<ManifestEntry>) {
    forall i, j :: 0 <= i < j < |entries| ==> entries[i].pathKey != entries[j].pathKey
  }

  ghost predicate OneIdEach(ks: set<KnownSource>) {
    forall a, b :: a in ks && b in ks && a.sourceId == b.sourceId ==> a == b
  }

  ghost predicate OnePathEach(ks: set<KnownSource>) {
    forall a, b :: a in ks && b in ks && a.pathKey == b.pathKey ==> a == b
  }

  ghost predicate OneEntryEach(es: set<ManifestEntry>) {
    forall a, b :: a in es && b in es && a.pathKey == b.pathKey ==> a == b
  }

  ghost predicate Plannable(ks: set<KnownSource>, es: set<ManifestEntry>) {
    OneIdEach(ks) && OnePathEach(ks) && OneEntryEach(es)
  }

  // ---- Laws of the matching ----

  // No source and no entry is matched twice.
  lemma MatchesAreOneToOne(ks: set<KnownSource>, es: set<ManifestEntry>, p: Pair, q: Pair)
    requires Plannable(ks, es) && p in Matches(ks, es) && q in Matches(ks, es)
    ensures p.0 == q.0 || p.1 == q.1 ==> p == q
    ensures p.0 in ks && p.1 in es
  {
    assert p == (p.0, p.1) && q == (q.0, q.1);
  }

  lemma MovesAreNotSamePath(ks: set<KnownSource>, es: set<ManifestEntry>, p: Pair)
    requires Plannable(ks, es) && p in Moves(ks, es)
    ensures p !in SamePath(ks, es) && p.0.pathKey != p.1.pathKey
    ensures forall k :: k in ks ==> k.pathKey != p.1.pathKey
  {
    assert p == (p.0, p.1);
    forall k | k in ks ensures k.pathKey != p.1.pathKey {
      assert (k, p.1) !in SamePath(ks, es);
    }
  }

  // The entry or the source that an item is about.
  ghost predicate ForEntry(i: Item, e: ManifestEntry) {
    !i.action.Deleted? && i.pathKey == e.pathKey && i.relativePath == e.relativePath && i.fileKey == e.fileKey
    && i.contentHash == e.contentHash && i.error == e.error
  }

  lemma EntryHasItem(ks: set<KnownSource>, es: set<ManifestEntry>, e: ManifestEntry) returns (i: Item)
    requires Plannable(ks, es) && e in es
    ensures i in PlanItems(ks, es) && ForEntry(i, e)
    ensures i.action.Created? <==> e in EntriesLeft(es, Matches(ks, es))
  {
    if k :| (k, e) in SamePath(ks, es) {
      i := SamePathItem(k, e);
      assert (k, e) in Matches(ks, es);
    } else if k :| (k, e) in Moves(ks, es) {
      i := MovedItem(k, e);
      assert (k, e) in Matches(ks, es);
      assert i in (set p | p in Moves(ks, es) :: MovedItem(p.0, p.1));
    } else {
      i := CreatedItem(e);
    }
  }

  // Every item comes from a pair, from an entry of its own, or from a source of its own.
  lemma ItemComesFrom(ks: set<KnownSource>, es: set<ManifestEntry>, i: Item)
    returns (k: Option<KnownSource>, e: Option<ManifestEntry>)
    requires Plannable(ks, es) && i in PlanItems(ks, es)
    ensures k.Some? ==> k.value in ks && i.sourceId == Some(k.value.sourceId)
    ensures k.None? ==> i.sourceId.None? && i.action.Created?
    ensures e.Some? ==> e.value in es && ForEntry(i, e.value)
    ensures e.None? ==> i.action.Deleted? && k.Some? && k.value.eligible && i.pathKey == k.value.pathKey
                        && k.value in KnownLeft(ks, Matches(ks, es)) && i == DeletedItem(k.value)
    ensures k.Some? && e.Some? ==> (k.value, e.value) in Matches(ks, es)
                                   && i == if (k.value, e.value) in SamePath(ks, es) then SamePathItem(k.value, e.value)
                                           else MovedItem(k.value, e.value)
    ensures k.None? ==> e.Some? && e.value in EntriesLeft(es, Matches(ks, es)) && i == CreatedItem(e.value)
  {
    if p :| p in SamePath(ks, es) && i == SamePathItem(p.0, p.1) {
      MatchesAreOneToOne(ks, es, p, p);
      k, e := Some(p.0), Some(p.1);
    } else if p :| p in Moves(ks, es) && i == MovedItem(p.0, p.1) {
      MatchesAreOneToOne(ks, es, p, p);
      MovesAreNotSamePath(ks, es, p);
      k, e := Some(p.0), Some(p.1);
    } else if o :| o in EntriesLeft(es, Matches(ks, es)) && i == CreatedItem(o) {
      k, e := None, Some(o);
    } else {
      var o :| o in KnownLeft(ks, Matches(ks, es)) && o.eligible && i == DeletedItem(o);
      k, e := Some(o), None;
    }
  }

  // What an item says about its source: the action, the version it starts from, the quarantine it keeps.
  lemma ItemTellsItsSource(ks: set<KnownSource>, es: set<ManifestEntry>, i: Item, k: KnownSource)
    requires Plannable(ks, es) && i in PlanItems(ks, es) && k in ks && i.sourceId == Some(k.sourceId)
    ensures i.action.Moved? <==> !i.action.Deleted? && i.pathKey != k.pathKey
    ensures i.action.Unchanged? <==>
              i.pathKey == k.pathKey && !i.action.Deleted? && i.error.None?
              && i.contentHash == Or(k.latestHash, k.currentHash) && k.latestStatus != Some(ParseFailed)
    ensures i.baseVersion == if i.action.Deleted? && k.currentVersion.None? then k.latestVersion else k.currentVersion
    ensures i.preserveQuarantine <==> i.action.Unchanged? && k.latestStatus == Some(Quarantined)
  {
    var l, e := ItemComesFrom(ks, es, i);
    if e.Some? && (k, e.value) !in SamePath(ks, es) {
      MovesAreNotSamePath(ks, es, (k, e.value));
    }
  }

  // The path of an unmatched source is in no entry.
  lemma LeftPathIsGone(ks: set<KnownSource>, es: set<ManifestEntry>, k: KnownSource)
    requires k in KnownLeft(ks, Matches(ks, es))
    ensures forall e :: e in es ==> e.pathKey != k.pathKey
  {
    forall e | e in es ensures e.pathKey != k.pathKey {
      assert (k, e) !in Matches(ks, es);
      assert (k, e) !in SamePath(ks, es);
    }
  }

  // Any two items of a plan are about different paths, and about different sources.
  lemma ItemsAreDistinct(ks: set<KnownSource>, es: set<ManifestEntry>, i: Item, j: Item)
    requires Plannable(ks, es) && i in PlanItems(ks, es) && j in PlanItems(ks, es)
    ensures i.pathKey == j.pathKey ==> i == j
    ensures i.sourceId.Some? && i.sourceId == j.sourceId ==> i == j
  {
    var k, e := ItemComesFrom(ks, es, i);
    var l, f := ItemComesFrom(ks, es, j);
    if e.Some? && k.Some? && f.Some? && l.Some? {
      MatchesAreOneToOne(ks, es, (k.value, e.value), (l.value, f.value));
    }
    if e.None? {
      LeftPathIsGone(ks, es, k.value);
    }
    if f.None? {
      LeftPathIsGone(ks, es, l.value);
    }
  }
}
