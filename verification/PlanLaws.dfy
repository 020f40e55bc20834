/** What every plan promises, and what applying a plan does to the live locations. */
module PlanLaws {
  import opened Prelude
  import opened Ordering
  import opened PlannerSpec

  // ---- The plan does not depend on the order of its inputs ----

  lemma OrderedListIsUnique(a: seq<Item>, b: seq<Item>)
    requires InPathOrder(a) && InPathOrder(b) && Members(a) == Members(b)
    ensures a == b
  {
    var p := seq(|a|, i requires 0 <= i < |a| => a[i].pathKey);
    var q := seq(|b|, i requires 0 <= i < |b| => b[i].pathKey);
    SamePaths(a, b, p, q);
    SamePaths(b, a, q, p);
    SortedIsUnique(p, q);
    forall i | 0 <= i < |a| ensures a[i] == b[i] {
      assert a[i] in Members(b);
      var j :| 0 <= j < |b| && b[j] == a[i];
      assert p[i] == q[i] == q[j];
      LessIsTotal(q[i], q[j]);
    }
  }

  lemma SamePaths(a: seq<Item>, b: seq<Item>, p: seq<string>, q: seq<string>)
    requires Members(a) == Members(b)
    requires |p| == |a| && forall i :: 0 <= i < |a| ==> p[i] == a[i].pathKey
    requires |q| == |b| && forall i :: 0 <= i < |b| ==> q[i] == b[i].pathKey
    ensures Elements(p) <= Elements(q)
  {
    forall x | x in Elements(p) ensures x in Elements(q) {
      var i :| 0 <= i < |p| && p[i] == x;
      assert a[i] in Members(b);
      var j :| 0 <= j < |b| && b[j] == a[i];
      assert q[j] == x;
    }
  }

  lemma PlanningIgnoresOrder(known: seq<KnownSource>, otherKnown: seq<KnownSource>, entries: seq<ManifestEntry>,
                             otherEntries: seq<ManifestEntry>,
                             plan: seq<Item>, otherPlan: seq<Item>)
    requires multiset(known) == multiset(otherKnown) && multiset(entries) == multiset(otherEntries)
    requires IsPlan(plan, Members(known), Members(entries))
             && IsPlan(otherPlan, Members(otherKnown), Members(otherEntries))
    ensures plan == otherPlan
  {
    assert forall k :: k in known <==> k in multiset(known);
    assert forall k :: k in otherKnown <==> k in multiset(otherKnown);
    assert Members(known) == Members(otherKnown);
    assert forall e :: e in entries <==> e in multiset(entries);
    assert forall e :: e in otherEntries <==> e in multiset(otherEntries);
    assert Members(entries) == Members(otherEntries);
    OrderedListIsUnique(plan, otherPlan);
  }

  // ---- The items partition the entries and the sources ----

  ghost function ItemsForEntry(ks: set<KnownSource>, es: set<ManifestEntry>, e: ManifestEntry): set<Item> {
    set i | i in PlanItems(ks, es) && ForEntry(i, e)
  }

  ghost function ItemsForSource(ks: set<KnownSource>, es: set<ManifestEntry>, k: KnownSource): set<Item> {
    set i | i in PlanItems(ks, es) && i.sourceId == Some(k.sourceId)
  }

  ghost predicate OutOfScopeLeft(ks: set<KnownSource>, es: set<ManifestEntry>, k: KnownSource) {
    k in KnownLeft(ks, Matches(ks, es)) && !k.eligible
  }

  lemma EveryEntryHasOneItem(ks: set<KnownSource>, es: set<ManifestEntry>, e: ManifestEntry)
    requires Plannable(ks, es) && e in es
    ensures |ItemsForEntry(ks, es, e)| == 1
  {
    var i := EntryHasItem(ks, es, e);
    forall j | j in ItemsForEntry(ks, es, e) ensures j == i {
      ItemsAreDistinct(ks, es, i, j);
    }
    assert ItemsForEntry(ks, es, e) == {i};
  }

  lemma SourceHasItem(ks: set<KnownSource>, es: set<ManifestEntry>, k: KnownSource) returns (i: Item)
    requires Plannable(ks, es) && k in ks && !OutOfScopeLeft(ks, es, k)
    ensures i in PlanItems(ks, es) && i.sourceId == Some(k.sourceId)
  {
    if e :| (k, e) in SamePath(ks, es) {
      i := SamePathItem((k, e).0, (k, e).1);
    } else if e :| (k, e) in Moves(ks, es) {
      i := MovedItem((k, e).0, (k, e).1);
    } else {
      assert k in KnownLeft(ks, Matches(ks, es));
      i := DeletedItem(k);
    }
  }

  lemma EverySourceHasOneItem(ks: set<KnownSource>, es: set<ManifestEntry>, k: KnownSource)
    requires Plannable(ks, es) && k in ks
    ensures |ItemsForSource(ks, es, k)| == if OutOfScopeLeft(ks, es, k) then 0 else 1
  {
    if OutOfScopeLeft(ks, es, k) {
      forall i | i in ItemsForSource(ks, es, k) ensures false {
        NoItemForLeft(ks, es, k, i);
      }
      assert ItemsForSource(ks, es, k) == {};
    } else {
      var i := SourceHasItem(ks, es, k);
      forall j | j in ItemsForSource(ks, es, k) ensures j == i {
        ItemsAreDistinct(ks, es, i, j);
      }
      assert ItemsForSource(ks, es, k) == {i};
    }
  }

  lemma NoItemForLeft(ks: set<KnownSource>, es: set<ManifestEntry>, k: KnownSource, i: Item)
    requires Plannable(ks, es) && OutOfScopeLeft(ks, es, k) && i in PlanItems(ks, es)
    ensures i.sourceId != Some(k.sourceId)
  {
    var l, e := ItemComesFrom(ks, es, i);
    if e.Some? {
      assert (k, e.value) !in Matches(ks, es);
    }
  }

  ghost function PathsOfItems(items: set<Item>): set<string> {
    set i | i in items :: i.pathKey
  }

  ghost function PathsOfEntries(es: set<ManifestEntry>): set<string> {
    set e | e in es :: e.pathKey
  }

  ghost function PathsOfSources(ks: set<KnownSource>): set<string> {
    set k | k in ks :: k.pathKey
  }

  ghost function ToDelete(ks: set<KnownSource>, es: set<ManifestEntry>): set<KnownSource> {
    set k | k in KnownLeft(ks, Matches(ks, es)) && k.eligible
  }

  lemma PathsOfPlan(ks: set<KnownSource>, es: set<ManifestEntry>)
    requires Plannable(ks, es)
    ensures PathsOfItems(PlanItems(ks, es)) == PathsOfEntries(es) + PathsOfSources(ToDelete(ks, es))
    ensures PathsOfEntries(es) !! PathsOfSources(ToDelete(ks, es))
  {
    forall p | p in PathsOfItems(PlanItems(ks, es)) ensures p in PathsOfEntries(es) + PathsOfSources(ToDelete(ks, es)) {
      var i :| i in PlanItems(ks, es) && i.pathKey == p;
      var k, e := ItemComesFrom(ks, es, i);
    }
    forall e | e in es ensures e.pathKey in PathsOfItems(PlanItems(ks, es)) {
      var i := EntryHasItem(ks, es, e);
    }
    forall k | k in ToDelete(ks, es) ensures k.pathKey in PathsOfItems(PlanItems(ks, es))
        && k.pathKey !in PathsOfEntries(es) {
      assert DeletedItem(k) in PlanItems(ks, es);
      LeftPathIsGone(ks, es, k);
    }
  }

  lemma {:induction false} CountItems(items: set<Item>)
    requires forall i, j :: i in items && j in items && i.pathKey == j.pathKey ==> i == j
    ensures |PathsOfItems(items)| == |items|
  {
    if items != {} {
      var x :| x in items;
      CountItems(items - {x});
      assert PathsOfItems(items) == PathsOfItems(items - {x}) + {x.pathKey};
    }
  }

  lemma {:induction false} CountEntries(es: set<ManifestEntry>)
    requires OneEntryEach(es)
    ensures |PathsOfEntries(es)| == |es|
  {
    if es != {} {
      var x :| x in es;
      CountEntries(es - {x});
      assert PathsOfEntries(es) == PathsOfEntries(es - {x}) + {x.pathKey};
    }
  }

  lemma {:induction false} CountSources(ks: set<KnownSource>)
    requires OnePathEach(ks)
    ensures |PathsOfSources(ks)| == |ks|
  {
    if ks != {} {
      var x :| x in ks;
      CountSources(ks - {x});
      assert PathsOfSources(ks) == PathsOfSources(ks - {x}) + {x.pathKey};
    }
  }

  lemma PlanSize(ks: set<KnownSource>, es: set<ManifestEntry>)
    requires Plannable(ks, es)
    ensures |PlanItems(ks, es)| == |es| + |ToDelete(ks, es)|
  {
    forall i, j | i in PlanItems(ks, es) && j in PlanItems(ks, es) && i.pathKey == j.pathKey ensures i == j {
      ItemsAreDistinct(ks, es, i, j);
    }
    CountItems(PlanItems(ks, es));
    CountEntries(es);
    CountSources(ToDelete(ks, es));
    PathsOfPlan(ks, es);
  }

  // ---- Moves are never guessed ----

  // A rename that the file key tells without doubt is followed.
  lemma RenameIsFollowed(ks: set<KnownSource>, es: set<ManifestEntry>, k: KnownSource, e: ManifestEntry)
    requires Plannable(ks, es) && Identified(FileKey, k, e, ks, es)
    requires forall o :: o in es ==> o.pathKey != k.pathKey
    requires forall o :: o in ks ==> o.pathKey != e.pathKey
    ensures MovedItem(k, e) in PlanItems(ks, es)
  {
    assert k in KnownLeft(ks, SamePath(ks, es)) && e in EntriesLeft(es, SamePath(ks, es));
    assert (k, e) in ByFile(ks, es);
    assert MovedItem((k, e).0, (k, e).1) in PlanItems(ks, es);
  }

  // Two lost sources with the same identities: neither is moved.
  lemma TwinSourcesStay(ks: set<KnownSource>, es: set<ManifestEntry>, k: KnownSource, twin: KnownSource, i: Item)
    requires Plannable(ks, es) && k in ks && twin in ks && k != twin
    requires k.fileKey == twin.fileKey && k.latestHash == twin.latestHash
    requires forall e :: e in es ==> e.pathKey != k.pathKey && e.pathKey != twin.pathKey
    requires i in PlanItems(ks, es) && i.sourceId == Some(k.sourceId)
    ensures i == DeletedItem(k) && k.eligible
  {
    NeverMoved(ks, es, k, twin);
    var l, e := ItemComesFrom(ks, es, i);
    assert l == Some(k);
  }

  lemma NeverMoved(ks: set<KnownSource>, es: set<ManifestEntry>, k: KnownSource, twin: KnownSource)
    requires Plannable(ks, es) && k in ks && twin in ks && k != twin
    requires k.fileKey == twin.fileKey && k.latestHash == twin.latestHash
    requires forall e :: e in es ==> e.pathKey != k.pathKey && e.pathKey != twin.pathKey
    ensures forall e :: (k, e) !in Matches(ks, es)
  {
    var same := SamePath(ks, es);
    assert k in KnownLeft(ks, same) && twin in KnownLeft(ks, same);
    assert forall e :: (k, e) !in ByFile(ks, es) && (twin, e) !in ByFile(ks, es);
    assert twin in KnownLeft(ks, same + ByFile(ks, es));
  }

  // Two new files with the same identities: both are created.
  lemma TwinEntriesAreCreated(ks: set<KnownSource>, es: set<ManifestEntry>, e: ManifestEntry, twin: ManifestEntry)
    requires Plannable(ks, es) && e in es && twin in es && e != twin
    requires e.fileKey == twin.fileKey && e.contentHash == twin.contentHash
    requires forall k :: k in ks ==> k.pathKey != e.pathKey && k.pathKey != twin.pathKey
    ensures CreatedItem(e) in PlanItems(ks, es)
  {
    var same := SamePath(ks, es);
    assert e in EntriesLeft(es, same) && twin in EntriesLeft(es, same);
    assert forall k :: (k, e) !in ByFile(ks, es) && (k, twin) !in ByFile(ks, es);
    assert twin in EntriesLeft(es, same + ByFile(ks, es));
    assert forall k :: (k, e) !in Matches(ks, es);
  }

  // ---- Planning reaches a fixed point ----

  // Every entry is settled at its path, and every known source that may be deleted has an entry.
  ghost predicate Mirrors(ks: set<KnownSource>, es: set<ManifestEntry>) {
    && (forall e :: e in es ==> exists k :: k in ks && k.pathKey == e.pathKey && Settled(k, e))
    && (forall k :: k in ks && k.eligible ==> exists e :: e in es && e.pathKey == k.pathKey)
  }

  ghost predicate Quiet(ks: set<KnownSource>, es: set<ManifestEntry>) {
    forall i :: i in PlanItems(ks, es) ==> i.action.Unchanged?
  }

  lemma MirrorIsQuiet(ks: set<KnownSource>, es: set<ManifestEntry>)
    requires Plannable(ks, es)
    ensures Mirrors(ks, es) <==> Quiet(ks, es)
  {
    if Mirrors(ks, es) {
      forall i | i in PlanItems(ks, es) ensures i.action.Unchanged? {
        MirrorItemIsUnchanged(ks, es, i);
      }
    }
    if Quiet(ks, es) {
      forall e | e in es ensures exists k :: k in ks && k.pathKey == e.pathKey && Settled(k, e) {
        var i := EntryHasItem(ks, es, e);
        var k, o := ItemComesFrom(ks, es, i);
      }
      forall k | k in ks && k.eligible ensures exists e :: e in es && e.pathKey == k.pathKey {
        var i := SourceHasItem(ks, es, k);
        var l, o := ItemComesFrom(ks, es, i);
      }
    }
  }

  lemma MirrorItemIsUnchanged(ks: set<KnownSource>, es: set<ManifestEntry>, i: Item)
    requires Plannable(ks, es) && Mirrors(ks, es) && i in PlanItems(ks, es)
    ensures i.action.Unchanged?
  {
    var k, e := ItemComesFrom(ks, es, i);
    if e.Some? {
      var l :| l in ks && l.pathKey == e.value.pathKey && Settled(l, e.value);
      assert (l, e.value) in SamePath(ks, es);
      assert (l, e.value) in Matches(ks, es);
      if k.Some? {
        MatchesAreOneToOne(ks, es, (k.value, e.value), (l, e.value));
      }
    } else {
      LeftPathIsGone(ks, es, k.value);
    }
  }
}
