/** Applying plan items to the live source locations, in any order. */
module Ingestion {
  import opened Prelude
  import opened PlannerSpec
  import opened PlanLaws

  type Locations = map<string, string>     // source id -> path key, of the locations that are not deleted

  // The unique index on live paths.
  predicate PathTaken(live: Locations, path: string, except: string) {
    exists s :: s in live && s != except && live[s] == path
  }

  ghost predicate LivePathsUnique(live: Locations) {
    forall a, b :: a in live && b in live && live[a] == live[b] ==> a == b
  }

  // What one item does to the locations. `id` is the identifier drawn for a new source.
  function Apply(live: Locations, i: Item, id: string): Result<Locations, Error> {
    if i.error.Some? then Ok(live)
    else if i.action.Created? && i.sourceId.None? then
      if id in live || PathTaken(live, i.pathKey, id) then Err(Duplicate) else Ok(live[id := i.pathKey])
    else if i.sourceId.None? then Err(Invariant)
    else
      var s := i.sourceId.value;
      if s !in live then Err(NotFound)
      else
        match i.action
        case Moved => if PathTaken(live, i.pathKey, s) then Err(Duplicate) else Ok(live[s := i.pathKey])
        case Deleted => Ok(live - {s})
        case _ => Ok(live)
  }

  class IngestionService {
    var live: Locations

    constructor (locations: Locations)
      ensures live == locations
    {
      live := locations;
    }

    // One transaction: an error leaves the locations as they were.
    method ApplyItem(item: Item, id: string) returns (r: Result<(), Error>)
      modifies this
      ensures r.Ok? <==> Apply(old(live), item, id).Ok?
      ensures live == if r.Ok? then Apply(old(live), item, id).value else old(live)
      ensures r.Err? ==> r.error == Apply(old(live), item, id).error
    {
      if item.error.Some? {
        return Ok(());
      }
      match item.action {
        case Created =>
          if item.sourceId.Some? {
            r := ApplyExistingContent(item, item.sourceId.value);
          } else if id in live || PathTaken(live, item.pathKey, id) {
            r := Err(Duplicate);
          } else {
            live := live[id := item.pathKey];
            r := Ok(());
          }
        case Updated | Moved =>
          if item.sourceId.None? {
            return Err(Invariant);
          }
          r := ApplyExistingContent(item, item.sourceId.value);
        case Deleted =>
          if item.sourceId.None? {
            return Err(Invariant);
          }
          if item.sourceId.value !in live {
            return Err(NotFound);
          }
          live := live - {item.sourceId.value};
          r := Ok(());
        case Unchanged =>
          if item.sourceId.None? {
            return Err(Invariant);
          }
          r := if item.sourceId.value in live then Ok(()) else Err(NotFound);
      }
    }

    // A move changes the path. Any other item only touches the location.
    method ApplyExistingContent(item: Item, source: string) returns (r: Result<(), Error>)
      modifies this
      ensures source !in old(live) ==> r == Err(NotFound) && live == old(live)
      ensures source in old(live) && item.action.Moved? && PathTaken(old(live), item.pathKey, source) ==>
                r == Err(Duplicate) && live == old(live)
      ensures source in old(live) && item.action.Moved? && !PathTaken(old(live), item.pathKey, source) ==>
                r == Ok(()) && live == old(live)[source := item.pathKey]
      ensures source in old(live) && !item.action.Moved? ==> r == Ok(()) && live == old(live)
    {
      if source !in live {
        return Err(NotFound);
      }
      if item.action.Moved? {
        if PathTaken(live, item.pathKey, source) {
          return Err(Duplicate);
        }
        live := live[source := item.pathKey];
      }
      return Ok(());
    }
  }

  // ---- One item, planned or not ----

  // The source that the item names, or the new one of a creation.
  predicate Reaches(live: Locations, i: Item, id: string) {
    if i.sourceId.Some? then i.sourceId.value in live else i.action.Created? && id !in live
  }

  // A move, or a creation of a new source, brings its target to a path.
  predicate Arrives(i: Item) {
    i.action.Moved? || (i.action.Created? && i.sourceId.None?)
  }

  // An item with a read error does nothing. Any other one is refused exactly when it reaches no source, or
  // arrives where another live source is.
  lemma ItemIsAppliedIff(live: Locations, i: Item, id: string)
    ensures Apply(live, i, id).Ok? <==>
      i.error.Some?
      || (Reaches(live, i, id)
          && (Arrives(i) ==> forall s :: s in live && live[s] == i.pathKey ==>
                               s == if i.sourceId.Some? then i.sourceId.value else id))
    ensures i.error.Some? ==> Apply(live, i, id) == Ok(live)
  {
  }

  // Applied, it changes one source at most, and no two live sources come to share a path.
  lemma ItemChangesOneSource(live: Locations, i: Item, id: string)
    requires i.error.None? && Apply(live, i, id).Ok?
    ensures var next := Apply(live, i, id).value;
      var s := if i.sourceId.Some? then i.sourceId.value else id;
      && (forall t :: t != s ==> (t in next <==> t in live) && (t in live ==> next[t] == live[t]))
      && (s in next <==> !i.action.Deleted?)
      && (s in next ==> if Arrives(i) then next[s] == i.pathKey else s in live && next[s] == live[s])
    ensures LivePathsUnique(live) ==> LivePathsUnique(Apply(live, i, id).value)
  {
  }

  // ---- Any order of application is safe ----

  // A new source gets an identifier that no other source has.
  ghost predicate FreshIds(ids: map<string, string>, ks: set<KnownSource>, es: set<ManifestEntry>) {
    && (forall e :: e in es ==> e.pathKey in ids)
    && (forall p, k :: p in ids && k in ks ==> ids[p] != k.sourceId)
    && (forall p, q :: p in ids && q in ids && ids[p] == ids[q] ==> p == q)
  }

  ghost predicate Planned(ks: set<KnownSource>, es: set<ManifestEntry>, ids: map<string, string>) {
    Plannable(ks, es) && FreshIds(ids, ks, es)
  }

  function SourceOf(i: Item, ids: map<string, string>): string {
    if i.sourceId.Some? then i.sourceId.value
    else if i.pathKey in ids then ids[i.pathKey] else ""
  }

  ghost function LocationsOf(ks: set<KnownSource>): Locations
    requires OneIdEach(ks)
  {
    map k | k in ks :: k.sourceId := k.pathKey
  }

  ghost function ApplyAll(live: Locations, order: seq<Item>, ids: map<string, string>): Result<Locations, Error> {
    if order == [] then Ok(live)
    else
      var before := ApplyAll(live, order[..|order| - 1], ids);
      var last := order[|order| - 1];
      if before.Err? then before else Apply(before.value, last, SourceOf(last, ids))
  }

  ghost function At(live: Locations, s: string): Option<string> {
    if s in live then Some(live[s]) else None
  }

  ghost predicate Touches(i: Item, s: string, ids: map<string, string>) {
    i.error.None? && SourceOf(i, ids) == s
  }

  // The path of a source once these items are done: the path of its item, or else the one it had.
  ghost predicate Lands(ks: set<KnownSource>, done: set<Item>, ids: map<string, string>, s: string,
                        path: Option<string>)
  {
    if exists i :: i in done && Touches(i, s, ids) then
      exists i :: i in done && Touches(i, s, ids) && path == if i.action.Deleted? then None else Some(i.pathKey)
    else if exists k :: k in ks && k.sourceId == s then
      exists k :: k in ks && k.sourceId == s && path == Some(k.pathKey)
    else path.None?
  }

  ghost predicate Located(live: Locations, ks: set<KnownSource>, done: set<Item>, ids: map<string, string>) {
    forall s :: Lands(ks, done, ids, s, At(live, s))
  }

  // Different items touch different sources.
  lemma OneItemPerSource(ks: set<KnownSource>, es: set<ManifestEntry>, ids: map<string, string>, i: Item, j: Item)
    requires Planned(ks, es, ids) && i in PlanItems(ks, es) && j in PlanItems(ks, es)
    ensures SourceOf(i, ids) == SourceOf(j, ids) ==> i == j
  {
    ItemsAreDistinct(ks, es, i, j);
    var k, e := ItemComesFrom(ks, es, i);
    var l, f := ItemComesFrom(ks, es, j);
  }

  // The target of a move or of a creation is the path of no known source.
  lemma TargetIsNew(ks: set<KnownSource>, es: set<ManifestEntry>, i: Item, k: KnownSource)
    requires Plannable(ks, es) && i in PlanItems(ks, es) && k in ks
    ensures i.action.Moved? || i.action.Created? ==> k.pathKey != i.pathKey
    ensures i.sourceId == Some(k.sourceId) && !i.action.Moved? ==> i.pathKey == k.pathKey
    ensures i.sourceId != Some(k.sourceId) && !i.action.Deleted? ==> k.pathKey != i.pathKey
  {
    var l, e := ItemComesFrom(ks, es, i);
    if e.Some? && l.Some? {
      if (l.value, e.value) !in SamePath(ks, es) {
        MovesAreNotSamePath(ks, es, (l.value, e.value));
      }
    } else if e.Some? {
      assert (k, e.value) !in Matches(ks, es);
      assert (k, e.value) !in SamePath(ks, es);
    }
  }

  // No other source can be on the target path of an item still to be done.
  lemma TargetIsFree(live: Locations, ks: set<KnownSource>, es: set<ManifestEntry>, done: set<Item>,
                     ids: map<string, string>, i: Item)
    requires Planned(ks, es, ids) && done <= PlanItems(ks, es) && Located(live, ks, done, ids)
    requires i in PlanItems(ks, es) && i !in done && (i.action.Moved? || i.action.Created?)
    ensures !PathTaken(live, i.pathKey, SourceOf(i, ids))
  {
    forall s | s in live ensures live[s] != i.pathKey {
      assert Lands(ks, done, ids, s, At(live, s));
      if j :| j in done && Touches(j, s, ids) && At(live, s) == if j.action.Deleted? then None else Some(j.pathKey) {
        ItemsAreDistinct(ks, es, i, j);
      } else {
        var k :| k in ks && k.sourceId == s && At(live, s) == Some(k.pathKey);
        TargetIsNew(ks, es, i, k);
      }
    }
  }

  // The source of an item still to be done is where it was.
  lemma SourceIsWhereItWas(live: Locations, ks: set<KnownSource>, es: set<ManifestEntry>, done: set<Item>,
                           ids: map<string, string>, i: Item)
    requires Planned(ks, es, ids) && done <= PlanItems(ks, es) && Located(live, ks, done, ids)
    requires i in PlanItems(ks, es) && i !in done
    ensures i.sourceId.None? ==> i.action.Created? && SourceOf(i, ids) !in live
    ensures i.sourceId.Some? ==> i.sourceId.value in live
    ensures i.sourceId.Some? && !i.action.Moved? ==> live[i.sourceId.value] == i.pathKey
    ensures i.sourceId.Some? ==> !i.action.Created?
  {
    var s := SourceOf(i, ids);
    assert Lands(ks, done, ids, s, At(live, s));
    forall j | j in done ensures !Touches(j, s, ids) {
      OneItemPerSource(ks, es, ids, i, j);
    }
    var k, e := ItemComesFrom(ks, es, i);
    if k.Some? {
      TargetIsNew(ks, es, i, k.value);
    }
  }

  lemma ItemIsAccepted(live: Locations, ks: set<KnownSource>, es: set<ManifestEntry>, done: set<Item>,
                       ids: map<string, string>, i: Item)
    requires Planned(ks, es, ids) && done <= PlanItems(ks, es) && Located(live, ks, done, ids)
    requires i in PlanItems(ks, es) && i !in done
    ensures var r := Apply(live, i, SourceOf(i, ids));
            r.Ok? && forall s ::
              At(r.value, s) == if !Touches(i, s, ids) then At(live, s)
                                else if i.action.Deleted? then None else Some(i.pathKey)
  {
    SourceIsWhereItWas(live, ks, es, done, ids, i);
    if i.action.Moved? || i.action.Created? {
      TargetIsFree(live, ks, es, done, ids, i);
    }
  }

  lemma LandsAfter(ks: set<KnownSource>, es: set<ManifestEntry>, done: set<Item>, ids: map<string, string>, i: Item,
                   s: string,
                   before: Option<string>, after: Option<string>)
    requires Planned(ks, es, ids) && done <= PlanItems(ks, es) && i in PlanItems(ks, es) && i !in done
    requires Lands(ks, done, ids, s, before)
    requires after == if Touches(i, s, ids) then (if i.action.Deleted? then None else Some(i.pathKey)) else before
    ensures Lands(ks, done + {i}, ids, s, after)
  {
    if !Touches(i, s, ids) {
      assert forall j :: j in done + {i} && Touches(j, s, ids) <==> j in done && Touches(j, s, ids);
    } else {
      assert i in done + {i};
    }
  }

  lemma NextItemIsAccepted(live: Locations, ks: set<KnownSource>, es: set<ManifestEntry>, done: set<Item>,
                           ids: map<string, string>, item: Item)
    requires Planned(ks, es, ids) && done <= PlanItems(ks, es) && item in PlanItems(ks, es) && item !in done
    requires Located(live, ks, done, ids)
    ensures var next := Apply(live, item, SourceOf(item, ids));
            next.Ok? && Located(next.value, ks, done + {item}, ids)
  {
    ItemIsAccepted(live, ks, es, done, ids, item);
    var after := Apply(live, item, SourceOf(item, ids)).value;
    forall s ensures Lands(ks, done + {item}, ids, s, At(after, s)) {
      LandsAfter(ks, es, done, ids, item, s, At(live, s), At(after, s));
    }
  }

  lemma NothingHasMoved(ks: set<KnownSource>, es: set<ManifestEntry>, ids: map<string, string>)
    requires Planned(ks, es, ids)
    ensures Located(LocationsOf(ks), ks, {}, ids)
  {
    var live := LocationsOf(ks);
    forall s ensures Lands(ks, {}, ids, s, At(live, s)) {
      if k :| k in ks && k.sourceId == s {
        assert live[s] == k.pathKey;
      }
    }
  }

  lemma {:induction false} AnyOrderIsAccepted(ks: set<KnownSource>, es: set<ManifestEntry>, order: seq<Item>,
                                              ids: map<string, string>)
    requires Planned(ks, es, ids)
    requires Members(order) <= PlanItems(ks, es) && forall a, b :: 0 <= a < b < |order| ==> order[a] != order[b]
    ensures ApplyAll(LocationsOf(ks), order, ids).Ok?
    ensures Located(ApplyAll(LocationsOf(ks), order, ids).value, ks, Members(order), ids)
  {
    var live := LocationsOf(ks);
    if order == [] {
      assert Members(order) == {};
      NothingHasMoved(ks, es, ids);
    } else {
      var init, last := order[..|order| - 1], order[|order| - 1];
      assert order == init + [last];
      assert Members(order) == Members(init) + {last};
      AnyOrderIsAccepted(ks, es, init, ids);
      assert last !in init;
      NextItemIsAccepted(ApplyAll(live, init, ids).value, ks, es, Members(init), ids, last);
    }
  }

  lemma LandingIsUnique(ks: set<KnownSource>, es: set<ManifestEntry>, done: set<Item>, ids: map<string, string>,
                        s: string, t: string, path: string)
    requires Planned(ks, es, ids) && done <= PlanItems(ks, es)
    requires Lands(ks, done, ids, s, Some(path)) && Lands(ks, done, ids, t, Some(path))
    ensures s == t
  {
    if i :| i in done && Touches(i, s, ids) && Some(path) == if i.action.Deleted? then None else Some(i.pathKey) {
      if j :| j in done && Touches(j, t, ids) && Some(path) == if j.action.Deleted? then None else Some(j.pathKey) {
        ItemsAreDistinct(ks, es, i, j);
      } else {
        var k :| k in ks && k.sourceId == t && path == k.pathKey;
        TargetIsNew(ks, es, i, k);
      }
    } else if j :| j in done && Touches(j, t, ids)
                   && Some(path) == if j.action.Deleted? then None else Some(j.pathKey) {
      var k :| k in ks && k.sourceId == s && path == k.pathKey;
      TargetIsNew(ks, es, j, k);
    }
  }

  // In every state on the way, whatever the order and whatever is left undone, no step is refused
  // for its location, and no two live sources share a path.
  lemma AnyOrderIsSafe(ks: set<KnownSource>, es: set<ManifestEntry>, order: seq<Item>, ids: map<string, string>)
    requires Planned(ks, es, ids)
    requires Members(order) <= PlanItems(ks, es) && forall a, b :: 0 <= a < b < |order| ==> order[a] != order[b]
    ensures ApplyAll(LocationsOf(ks), order, ids).Ok? && LivePathsUnique(ApplyAll(LocationsOf(ks), order, ids).value)
  {
    AnyOrderIsAccepted(ks, es, order, ids);
    var live := ApplyAll(LocationsOf(ks), order, ids).value;
    forall a, b | a in live && b in live && live[a] == live[b] ensures a == b {
      assert Lands(ks, Members(order), ids, a, At(live, a)) && Lands(ks, Members(order), ids, b, At(live, b));
      LandingIsUnique(ks, es, Members(order), ids, a, b, live[a]);
    }
  }

  // ---- Where a whole plan ends ----

  ghost predicate ErrorFree(es: set<ManifestEntry>) {
    forall e :: e in es ==> e.error.None?
  }

  ghost function LivePaths(live: Locations): set<string> {
    set s | s in live :: live[s]
  }

  ghost function PathsLeftAlone(ks: set<KnownSource>, es: set<ManifestEntry>): set<string> {
    set k | k in ks && OutOfScopeLeft(ks, es, k) :: k.pathKey
  }

  lemma ItemsAreErrorFree(ks: set<KnownSource>, es: set<ManifestEntry>, i: Item)
    requires Plannable(ks, es) && ErrorFree(es) && i in PlanItems(ks, es)
    ensures i.error.None?
  {
    var k, e := ItemComesFrom(ks, es, i);
  }

  // Once all items are done, the source of an item is where the item says.
  lemma ItemIsDone(live: Locations, ks: set<KnownSource>, es: set<ManifestEntry>, ids: map<string, string>, i: Item)
    requires Planned(ks, es, ids) && ErrorFree(es) && Located(live, ks, PlanItems(ks, es), ids)
             && i in PlanItems(ks, es)
    ensures At(live, SourceOf(i, ids)) == if i.action.Deleted? then None else Some(i.pathKey)
  {
    var s := SourceOf(i, ids);
    ItemsAreErrorFree(ks, es, i);
    assert Touches(i, s, ids);
    assert Lands(ks, PlanItems(ks, es), ids, s, At(live, s));
    var j :| j in PlanItems(ks, es) && Touches(j, s, ids)
        && At(live, s) == if j.action.Deleted? then None else Some(j.pathKey);
    OneItemPerSource(ks, es, ids, i, j);
  }

  // A live source is the source of an item, or one that the plan left alone.
  lemma LiveSourceIsExplained(live: Locations, ks: set<KnownSource>, es: set<ManifestEntry>, ids: map<string, string>,
                              s: string)
    requires Planned(ks, es, ids) && ErrorFree(es) && Located(live, ks, PlanItems(ks, es), ids) && s in live
    ensures || (exists i :: i in PlanItems(ks, es) && SourceOf(i, ids) == s && !i.action.Deleted?
                            && live[s] == i.pathKey)
            || (exists k :: k in ks && k.sourceId == s && OutOfScopeLeft(ks, es, k) && live[s] == k.pathKey)
  {
    assert Lands(ks, PlanItems(ks, es), ids, s, At(live, s));
    if i :| i in PlanItems(ks, es) && Touches(i, s, ids)
            && At(live, s) == if i.action.Deleted? then None else Some(i.pathKey) {
    } else {
      var k :| k in ks && k.sourceId == s && At(live, s) == Some(k.pathKey);
      if !OutOfScopeLeft(ks, es, k) {
        var i := SourceHasItem(ks, es, k);
        ItemIsDone(live, ks, es, ids, i);
      }
    }
  }

  lemma LeftAloneStays(live: Locations, ks: set<KnownSource>, es: set<ManifestEntry>, ids: map<string, string>,
                       k: KnownSource)
    requires Planned(ks, es, ids) && Located(live, ks, PlanItems(ks, es), ids) && k in ks && OutOfScopeLeft(ks, es, k)
    ensures At(live, k.sourceId) == Some(k.pathKey)
  {
    assert Lands(ks, PlanItems(ks, es), ids, k.sourceId, At(live, k.sourceId));
    forall i | i in PlanItems(ks, es) ensures SourceOf(i, ids) != k.sourceId {
      NoItemForLeft(ks, es, k, i);
      var l, e := ItemComesFrom(ks, es, i);
    }
  }

  // After every item of an error-free plan, in any order: the paths of the manifest, and those left alone.
  lemma WholePlanReachesManifest(ks: set<KnownSource>, es: set<ManifestEntry>, order: seq<Item>,
                                 ids: map<string, string>)
    requires Planned(ks, es, ids) && ErrorFree(es)
    requires Members(order) == PlanItems(ks, es) && forall a, b :: 0 <= a < b < |order| ==> order[a] != order[b]
    ensures ApplyAll(LocationsOf(ks), order, ids).Ok?
    ensures LivePaths(ApplyAll(LocationsOf(ks), order, ids).value) == PathsOfEntries(es) + PathsLeftAlone(ks, es)
  {
    AnyOrderIsAccepted(ks, es, order, ids);
    var live := ApplyAll(LocationsOf(ks), order, ids).value;
    forall s | s in live ensures live[s] in PathsOfEntries(es) + PathsLeftAlone(ks, es) {
      LiveSourceIsExplained(live, ks, es, ids, s);
      if i :| i in PlanItems(ks, es) && SourceOf(i, ids) == s && !i.action.Deleted? && live[s] == i.pathKey {
        var k, e := ItemComesFrom(ks, es, i);
      }
    }
    forall e | e in es ensures e.pathKey in LivePaths(live) {
      var i := EntryHasItem(ks, es, e);
      ItemIsDone(live, ks, es, ids, i);
    }
    forall k | k in ks && OutOfScopeLeft(ks, es, k) ensures k.pathKey in LivePaths(live) {
      LeftAloneStays(live, ks, es, ids, k);
    }
  }

  // ---- The next plan is quiet ----

  // The contents of an item have become the newest version of its source, and were parsed.
  ghost predicate Newest(k: KnownSource, i: Item) {
    k.latestHash == i.contentHash && k.latestHash.Some? && k.latestStatus != Some(ParseFailed)
  }

  // An unchanged item leaves the versions of its source alone. Any other item adds the newest one.
  ghost predicate Carries(k: KnownSource, i: Item, ks: set<KnownSource>) {
    if i.action.Unchanged?
    then exists o :: o in ks && o.sourceId == k.sourceId && o.latestHash == k.latestHash
                     && o.currentHash == k.currentHash
                     && o.latestStatus == k.latestStatus
    else Newest(k, i)
  }

  // The known sources of the next scan: one for each live location, with its versions.
  ghost predicate Reloaded(next: set<KnownSource>, live: Locations, ks: set<KnownSource>, es: set<ManifestEntry>,
                           ids: map<string, string>)
  {
    && OneIdEach(next)
    && (forall k :: k in next ==> At(live, k.sourceId) == Some(k.pathKey))
    && (forall s :: s in live ==> exists k :: k in next && k.sourceId == s)
    && (forall k, o :: k in next && o in ks && k.pathKey == o.pathKey ==> k.eligible == o.eligible)
    && (forall k, i ::
          (k in next && i in PlanItems(ks, es) && SourceOf(i, ids) == k.sourceId && i.error.None? && !i.action.Deleted?)
          ==> Carries(k, i, ks))
  }

  lemma CarriedIsSettled(k: KnownSource, ks: set<KnownSource>, es: set<ManifestEntry>, i: Item, e: ManifestEntry)
    requires Plannable(ks, es) && ErrorFree(es) && e in es && i in PlanItems(ks, es) && ForEntry(i, e)
    requires Carries(k, i, ks) && (i.sourceId.Some? ==> i.sourceId == Some(k.sourceId))
    ensures Settled(k, e)
  {
    var o, f := ItemComesFrom(ks, es, i);
    if i.action.Unchanged? {
      var p :| p in ks && p.sourceId == k.sourceId && p.latestHash == k.latestHash && p.currentHash == k.currentHash
               && p.latestStatus == k.latestStatus;
      assert p == o.value && f == Some(e);
    }
  }

  lemma SettledAfter(next: set<KnownSource>, live: Locations, ks: set<KnownSource>, es: set<ManifestEntry>,
                     ids: map<string, string>, e: ManifestEntry)
    requires Planned(ks, es, ids) && ErrorFree(es) && Located(live, ks, PlanItems(ks, es), ids)
    requires Reloaded(next, live, ks, es, ids) && e in es
    ensures exists k :: k in next && k.pathKey == e.pathKey && Settled(k, e)
  {
    var i := EntryHasItem(ks, es, e);
    ItemIsDone(live, ks, es, ids, i);
    var k :| k in next && k.sourceId == SourceOf(i, ids);
    assert Carries(k, i, ks);
    CarriedIsSettled(k, ks, es, i, e);
  }

  lemma PlanningReachesFixedPoint(ks: set<KnownSource>, es: set<ManifestEntry>, order: seq<Item>,
                                  ids: map<string, string>, next: set<KnownSource>)
    requires Planned(ks, es, ids) && ErrorFree(es)
    requires Members(order) == PlanItems(ks, es) && forall a, b :: 0 <= a < b < |order| ==> order[a] != order[b]
    requires ApplyAll(LocationsOf(ks), order, ids).Ok?
             && Reloaded(next, ApplyAll(LocationsOf(ks), order, ids).value, ks, es, ids)
    ensures Plannable(next, es) && Mirrors(next, es) && Quiet(next, es)
  {
    AnyOrderIsAccepted(ks, es, order, ids);
    AnyOrderIsSafe(ks, es, order, ids);
    var live := ApplyAll(LocationsOf(ks), order, ids).value;
    forall e | e in es ensures exists k :: k in next && k.pathKey == e.pathKey && Settled(k, e) {
      SettledAfter(next, live, ks, es, ids, e);
    }
    forall k | k in next && k.eligible ensures exists e :: e in es && e.pathKey == k.pathKey {
      LiveSourceIsExplained(live, ks, es, ids, k.sourceId);
      if i :| i in PlanItems(ks, es) && SourceOf(i, ids) == k.sourceId && !i.action.Deleted?
              && live[k.sourceId] == i.pathKey {
        var l, e := ItemComesFrom(ks, es, i);
      }
    }
    assert OnePathEach(next) by {
      forall a, b | a in next && b in next && a.pathKey == b.pathKey ensures a == b {
        assert live[a.sourceId] == live[b.sourceId];
      }
    }
    MirrorIsQuiet(next, es);
  }
}
