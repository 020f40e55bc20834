/** The planner itself: three matching passes, then the leftovers, then one sort by path. */
module Planner {
  import opened Prelude
  import opened Ordering
  import opened PlannerSpec

  datatype Manifest = Manifest(complete: bool, entries: seq<ManifestEntry>)

  datatype PlanError = IncompleteInventory | DuplicateLivePaths

  // ---- Python's Counter and dict comprehension over one identity ----

  function KnownIdentities(id: Identity, known: seq<KnownSource>): seq<Option<string>> {
    seq(|known|, i requires 0 <= i < |known| => KnownIdentity(id, known[i]))
  }

  function EntryIdentities(id: Identity, entries: seq<ManifestEntry>): seq<Option<string>> {
    seq(|entries|, i requires 0 <= i < |entries| => EntryIdentity(id, entries[i]))
  }

  // Where the last of several equal keys stands: the one that a dict keeps.
  function LastIndex(keys: seq<Option<string>>, key: Option<string>): (i: nat)
    requires key in keys
    ensures i < |keys| && keys[i] == key
    ensures forall j :: i < j < |keys| ==> keys[j] != key
  {
    var last := |keys| - 1;
    if keys[last] == key then last
    else
      assert keys == keys[..last] + [keys[last]];
      LastIndex(keys[..last], key)
  }

  lemma {:induction false} CountsOne(keys: seq<Option<string>>, key: Option<string>)
    ensures multiset(keys)[key] == 1 <==>
            key in keys && forall j :: 0 <= j < |keys| && keys[j] == key ==> j == LastIndex(keys, key)
    ensures multiset(keys)[key] == 0 <==> key !in keys
  {
    if keys != [] {
      var last := |keys| - 1;
      assert keys == keys[..last] + [keys[last]];
      CountsOne(keys[..last], key);
      if keys[last] == key {
        assert multiset(keys)[key] == 1 + multiset(keys[..last])[key];
        if key in keys[..last] {
          var j :| 0 <= j < last && keys[..last][j] == key;
          assert keys[j] == key && LastIndex(keys, key) == last;
        }
      } else if key in keys[..last] {
        var i := LastIndex(keys[..last], key);
        assert LastIndex(keys, key) == i;
        forall j | 0 <= j < last && keys[..last][j] == key ensures keys[j] == key {}
      }
    }
  }

  function KnownOutside(known: seq<KnownSource>, gone: set<string>): (r: seq<KnownSource>)
    requires DistinctSources(known)
    ensures forall k :: k in r <==> k in known && k.sourceId !in gone
    ensures DistinctSources(r)
  {
    if known == [] then []
    else if known[0].sourceId in gone then KnownOutside(known[1..], gone)
    else
      assert forall k :: k in known[1..] ==> k.sourceId != known[0].sourceId;
      var rest := KnownOutside(known[1..], gone);
      assert forall i :: 0 <= i < |rest| ==> rest[i] in rest;
      [known[0]] + rest
  }

  function EntriesOutside(entries: seq<ManifestEntry>, gone: set<string>): (r: seq<ManifestEntry>)
    requires DistinctEntries(entries)
    ensures forall e :: e in r <==> e in entries && e.pathKey !in gone
    ensures DistinctEntries(r)
  {
    if entries == [] then []
    else if entries[0].pathKey in gone then EntriesOutside(entries[1..], gone)
    else
      assert forall e :: e in entries[1..] ==> e.pathKey != entries[0].pathKey;
      var rest := EntriesOutside(entries[1..], gone);
      assert forall i :: 0 <= i < |rest| ==> rest[i] in rest;
      [entries[0]] + rest
  }

  // The identities that occur once on each side, none of them missing.
  function UniqueValues(before: multiset<Option<string>>, after: multiset<Option<string>>): set<string> {
    set v | v in before && v.Some? && before[v] == 1 && after[v] == 1 :: v.value
  }

  // A value names one source and one entry exactly when it is the identity of an identified pair.
  lemma ValueNamesPair(id: Identity, known: seq<KnownSource>, entries: seq<ManifestEntry>, v: string)
    requires DistinctSources(known) && DistinctEntries(entries)
    requires v in UniqueValues(multiset(KnownIdentities(id, known)), multiset(EntryIdentities(id, entries)))
    ensures Some(v) in KnownIdentities(id, known) && Some(v) in EntryIdentities(id, entries)
    ensures Identified(id, known[LastIndex(KnownIdentities(id, known), Some(v))],
                       entries[LastIndex(EntryIdentities(id, entries), Some(v))], Members(known), Members(entries))
    ensures KnownIdentity(id, known[LastIndex(KnownIdentities(id, known), Some(v))]) == Some(v)
  {
    var olds, news := KnownIdentities(id, known), EntryIdentities(id, entries);
    CountsOne(olds, Some(v));
    CountsOne(news, Some(v));
    forall k | k in known && KnownIdentity(id, k) == Some(v) ensures k == known[LastIndex(olds, Some(v))] {
      var i :| 0 <= i < |known| && known[i] == k;
      assert olds[i] == Some(v);
    }
    forall e | e in entries && EntryIdentity(id, e) == Some(v) ensures e == entries[LastIndex(news, Some(v))] {
      var i :| 0 <= i < |entries| && entries[i] == e;
      assert news[i] == Some(v);
    }
  }

  lemma PairHasValue(id: Identity, known: seq<KnownSource>, entries: seq<ManifestEntry>, k: KnownSource,
                     e: ManifestEntry)
    requires DistinctSources(known) && DistinctEntries(entries)
    requires Identified(id, k, e, Members(known), Members(entries))
    ensures KnownIdentity(id, k).value in UniqueValues(multiset(KnownIdentities(id, known)),
                                                       multiset(EntryIdentities(id, entries)))
  {
    var olds, news := KnownIdentities(id, known), EntryIdentities(id, entries);
    var v := KnownIdentity(id, k);
    var i :| 0 <= i < |known| && known[i] == k;
    var j :| 0 <= j < |entries| && entries[j] == e;
    assert olds[i] == v && news[j] == v;
    forall l | 0 <= l < |olds| && olds[l] == v ensures l == i {
      assert known[l] in Members(known);
    }
    forall l | 0 <= l < |news| && news[l] == v ensures l == j {
      assert entries[l] in Members(entries);
    }
    CountsOne(olds, v);
    CountsOne(news, v);
  }

  // ---- The record that the passes share ----

  // The two sets of matched keys and the list of items tell the same matches.
  ghost predicate Recorded(same: set<Pair>, moved: set<Pair>, matchedKnown: set<string>, matchedEntries: set<string>,
                           items: seq<Item>)
  {
    && matchedKnown == (set p | p in same + moved :: p.0.sourceId)
    && matchedEntries == (set p | p in same + moved :: p.1.pathKey)
    && Lists(items, MatchedItems(same, moved))
  }

  lemma ListsOneMore(items: seq<Item>, s: set<Item>, i: Item)
    requires Lists(items, s) && forall j :: j in s ==> j.pathKey != i.pathKey
    ensures Lists(items + [i], s + {i})
  {
    var more := items + [i];
    forall j | 0 <= j < |items| ensures items[j].pathKey != i.pathKey {
      assert items[j] in Members(items);
    }
    forall x | x in Members(items) ensures x in more {}
    assert more[|items|] == i;
  }

  lemma RecordSamePath(same: set<Pair>, matchedKnown: set<string>, matchedEntries: set<string>, items: seq<Item>,
                       k: KnownSource, e: ManifestEntry)
    requires Recorded(same, {}, matchedKnown, matchedEntries, items) && e.pathKey !in matchedEntries
    ensures Recorded(same + {(k, e)}, {}, matchedKnown + {k.sourceId}, matchedEntries + {e.pathKey},
                     items + [SamePathItem(k, e)])
  {
    ListsOneMore(items, MatchedItems(same, {}), SamePathItem(k, e));
    assert MatchedItems(same + {(k, e)}, {}) == MatchedItems(same, {}) + {SamePathItem(k, e)};
  }

  lemma RecordMove(same: set<Pair>, moved: set<Pair>, matchedKnown: set<string>, matchedEntries: set<string>,
                   items: seq<Item>, k: KnownSource, e: ManifestEntry)
    requires Recorded(same, moved, matchedKnown, matchedEntries, items) && e.pathKey !in matchedEntries
    ensures Recorded(same, moved + {(k, e)}, matchedKnown + {k.sourceId}, matchedEntries + {e.pathKey},
                     items + [MovedItem(k, e)])
  {
    ListsOneMore(items, MatchedItems(same, moved), MovedItem(k, e));
    assert MatchedItems(same, moved + {(k, e)}) == MatchedItems(same, moved) + {MovedItem(k, e)};
  }

  // ---- The passes ----

  // The pairs found once these values have been looked at.
  ghost function Found(id: Identity, ks: set<KnownSource>, es: set<ManifestEntry>, values: seq<string>): set<Pair> {
    set p | p in Pairs(id, ks, es) && KnownIdentity(id, p.0).value in values
  }

  method MatchUniqueIdentity(id: Identity, known: seq<KnownSource>, entries: seq<ManifestEntry>,
                             matchedKnown: set<string>, matchedEntries: set<string>, items: seq<Item>,
                             ghost same: set<Pair>, ghost moved: set<Pair>)
    returns (nowKnown: set<string>, nowEntries: set<string>, nowItems: seq<Item>)
    requires DistinctSources(known) && DistinctEntries(entries)
    requires Recorded(same, moved, matchedKnown, matchedEntries, items)
    ensures var ks, es := Members(KnownOutside(known, matchedKnown)), Members(EntriesOutside(entries, matchedEntries));
            Recorded(same, moved + Pairs(id, ks, es), nowKnown, nowEntries, nowItems)
  {
    var available, candidates := KnownOutside(known, matchedKnown), EntriesOutside(entries, matchedEntries);
    var olds, news := KnownIdentities(id, available), EntryIdentities(id, candidates);
    var values := Sorted(UniqueValues(multiset(olds), multiset(news)));
    ghost var ks, es := Members(available), Members(candidates);
    nowKnown, nowEntries, nowItems := matchedKnown, matchedEntries, items;
    assert moved + Found(id, ks, es, values[..0]) == moved;
    for i := 0 to |values|
      invariant Recorded(same, moved + Found(id, ks, es, values[..i]), nowKnown, nowEntries, nowItems)
    {
      assert values[i] in Elements(values);
      ValueNamesPair(id, available, candidates, values[i]);
      var source, entry := available[LastIndex(olds, Some(values[i]))], candidates[LastIndex(news, Some(values[i]))];
      RecordFound(id, ks, es, values, i, same, moved, matchedEntries, nowKnown, nowEntries, nowItems, source, entry);
      nowKnown, nowEntries, nowItems := nowKnown + {source.sourceId}, nowEntries + {entry.pathKey},
          nowItems + [MovedItem(source, entry)];
    }
    AllFound(id, available, candidates, values);
    assert values[..|values|] == values;
  }

  lemma RecordFound(id: Identity, ks: set<KnownSource>, es: set<ManifestEntry>, values: seq<string>, i: nat,
                    same: set<Pair>, moved: set<Pair>, matchedEntries: set<string>,
                    nowKnown: set<string>, nowEntries: set<string>, nowItems: seq<Item>, k: KnownSource,
                        e: ManifestEntry)
    requires StrictlySorted(values) && i < |values| && OneEntryEach(es)
    requires Identified(id, k, e, ks, es) && KnownIdentity(id, k) == Some(values[i])
    requires matchedEntries == (set p | p in same + moved :: p.1.pathKey) && e.pathKey !in matchedEntries
    requires Recorded(same, moved + Found(id, ks, es, values[..i]), nowKnown, nowEntries, nowItems)
    ensures Recorded(same, moved + Found(id, ks, es, values[..i + 1]), nowKnown + {k.sourceId},
                     nowEntries + {e.pathKey},
                     nowItems + [MovedItem(k, e)])
  {
    NotYetFound(id, ks, es, values, i, k, e);
    assert e.pathKey !in nowEntries;
    RecordMove(same, moved + Found(id, ks, es, values[..i]), nowKnown, nowEntries, nowItems, k, e);
    OneMoreFound(id, ks, es, values, i, k, e);
    assert moved + Found(id, ks, es, values[..i]) + {(k, e)} == moved + Found(id, ks, es, values[..i + 1]);
  }

  lemma NotYetFound(id: Identity, ks: set<KnownSource>, es: set<ManifestEntry>, values: seq<string>, i: nat,
                    k: KnownSource, e: ManifestEntry)
    requires StrictlySorted(values) && i < |values| && OneEntryEach(es)
    requires Identified(id, k, e, ks, es) && KnownIdentity(id, k) == Some(values[i])
    ensures forall p :: p in Found(id, ks, es, values[..i]) ==> p.1.pathKey != e.pathKey
  {
    forall p | p in Found(id, ks, es, values[..i]) ensures p.1.pathKey != e.pathKey {
      var j :| 0 <= j < i && values[j] == KnownIdentity(id, p.0).value;
      LessIsTotal(values[j], values[i]);
      assert p.1 in es;
    }
  }

  lemma OneMoreFound(id: Identity, ks: set<KnownSource>, es: set<ManifestEntry>, values: seq<string>, i: nat,
                     k: KnownSource, e: ManifestEntry)
    requires i < |values| && Identified(id, k, e, ks, es) && KnownIdentity(id, k) == Some(values[i])
    ensures Found(id, ks, es, values[..i + 1]) == Found(id, ks, es, values[..i]) + {(k, e)}
  {
    assert values[..i + 1] == values[..i] + [values[i]];
    forall p | p in Pairs(id, ks, es) && KnownIdentity(id, p.0).value == values[i] ensures p == (k, e) {
      assert p == (p.0, p.1);
    }
  }

  lemma AllFound(id: Identity, known: seq<KnownSource>, entries: seq<ManifestEntry>, values: seq<string>)
    requires DistinctSources(known) && DistinctEntries(entries)
    requires Elements(values) == UniqueValues(multiset(KnownIdentities(id, known)),
                                              multiset(EntryIdentities(id, entries)))
    ensures Found(id, Members(known), Members(entries), values) == Pairs(id, Members(known), Members(entries))
  {
    forall p | p in Pairs(id, Members(known), Members(entries)) ensures KnownIdentity(id, p.0).value in values {
      PairHasValue(id, known, entries, p.0, p.1);
      assert KnownIdentity(id, p.0).value in Elements(values);
    }
  }

  // Two known sources with one live path are an error.
  function UniqueKnownSources(known: seq<KnownSource>): (byPath: Option<map<string, KnownSource>>)
    requires DistinctSources(known)
    ensures byPath.Some? <==> OnePathEach(Members(known))
    ensures byPath.Some? ==> forall k :: k in known ==> k.pathKey in byPath.value && byPath.value[k.pathKey] == k
    ensures byPath.Some? ==> forall p :: p in byPath.value ==> byPath.value[p] in known && byPath.value[p].pathKey == p
  {
    if exists i, j :: 0 <= i < j < |known| && known[i].pathKey == known[j].pathKey then
      assert !OnePathEach(Members(known)) by {
        var i, j :| 0 <= i < j < |known| && known[i].pathKey == known[j].pathKey;
        assert known[i] in Members(known) && known[j] in Members(known);
      }
      None
    else
      Some(map k | k in known :: k.pathKey := k)
  }

  ghost predicate Within(pairs: set<Pair>, ks: set<KnownSource>, es: set<ManifestEntry>) {
    forall p :: p in pairs ==> p.0 in ks && p.1 in es
  }

  // What the sets of matched keys leave is what the pairs leave.
  lemma OutsideIsLeft(ks: set<KnownSource>, es: set<ManifestEntry>, pairs: set<Pair>, gone: set<string>,
                      goneEntries: set<string>)
    requires Plannable(ks, es) && Within(pairs, ks, es)
    requires gone == (set p | p in pairs :: p.0.sourceId) && goneEntries == (set p | p in pairs :: p.1.pathKey)
    ensures (set k | k in ks && k.sourceId !in gone) == KnownLeft(ks, pairs)
    ensures (set e | e in es && e.pathKey !in goneEntries) == EntriesLeft(es, pairs)
  {
    forall k | k in ks ensures k.sourceId !in gone <==> k in KnownLeft(ks, pairs) {
      if k.sourceId in gone {
        var p :| p in pairs && p.0.sourceId == k.sourceId;
        assert p == (k, p.1);
      } else {
        assert forall p :: p in pairs ==> p.0.sourceId in gone;
        assert forall e :: (k, e) in pairs ==> (k, e).0.sourceId in gone;
      }
    }
    forall e | e in es ensures e.pathKey !in goneEntries <==> e in EntriesLeft(es, pairs) {
      if e.pathKey in goneEntries {
        var p :| p in pairs && p.1.pathKey == e.pathKey;
        assert p == (p.0, e);
      } else {
        assert forall p :: p in pairs ==> p.1.pathKey in goneEntries;
        assert forall k :: (k, e) in pairs ==> (k, e).1.pathKey in goneEntries;
      }
    }
  }

  function EntriesByPath(entries: seq<ManifestEntry>): (byPath: map<string, ManifestEntry>)
    requires DistinctEntries(entries)
    ensures forall e :: e in entries ==> e.pathKey in byPath && byPath[e.pathKey] == e
    ensures forall p :: p in byPath ==> byPath[p] in entries && byPath[p].pathKey == p
  {
    map e | e in entries :: e.pathKey := e
  }

  // The pairs with one of these paths.
  ghost function PairsAt(ks: set<KnownSource>, es: set<ManifestEntry>, paths: seq<string>): set<Pair> {
    set p | p in SamePath(ks, es) && p.0.pathKey in paths
  }

  // The sources and the entries that share a path, in path order.
  method MatchSamePath(knownByPath: map<string, KnownSource>, entriesByPath: map<string, ManifestEntry>,
                       ghost ks: set<KnownSource>, ghost es: set<ManifestEntry>)
    returns (matchedKnown: set<string>, matchedEntries: set<string>, items: seq<Item>)
    requires Plannable(ks, es)
    requires forall k :: k in ks ==> k.pathKey in knownByPath
    requires forall e :: e in es ==> e.pathKey in entriesByPath
    requires forall p :: p in knownByPath ==> knownByPath[p] in ks && knownByPath[p].pathKey == p
    requires forall p :: p in entriesByPath ==> entriesByPath[p] in es && entriesByPath[p].pathKey == p
    ensures Recorded(SamePath(ks, es), {}, matchedKnown, matchedEntries, items)
  {
    var paths := Sorted(knownByPath.Keys * entriesByPath.Keys);
    matchedKnown, matchedEntries, items := {}, {}, [];
    NothingRecorded(ks, es);
    assert paths[..0] == [];
    for i := 0 to |paths|
      invariant Recorded(PairsAt(ks, es, paths[..i]), {}, matchedKnown, matchedEntries, items)
    {
      assert paths[i] in Elements(paths);
      var known, entry := knownByPath[paths[i]], entriesByPath[paths[i]];
      RecordAtPath(ks, es, paths, i, matchedKnown, matchedEntries, items, known, entry);
      matchedKnown, matchedEntries, items := matchedKnown + {known.sourceId}, matchedEntries + {entry.pathKey},
          items + [SamePathItem(known, entry)];
    }
    assert paths[..|paths|] == paths;
    AllAtPaths(ks, es, paths, knownByPath.Keys, entriesByPath.Keys);
  }

  lemma NothingRecorded(ks: set<KnownSource>, es: set<ManifestEntry>)
    ensures Recorded(PairsAt(ks, es, []), {}, {}, {}, [])
  {
    assert PairsAt(ks, es, []) == {};
  }

  lemma AllAtPaths(ks: set<KnownSource>, es: set<ManifestEntry>, paths: seq<string>, knownPaths: set<string>,
                   entryPaths: set<string>)
    requires forall k :: k in ks ==> k.pathKey in knownPaths
    requires forall e :: e in es ==> e.pathKey in entryPaths
    requires Elements(paths) == knownPaths * entryPaths
    ensures PairsAt(ks, es, paths) == SamePath(ks, es)
  {
    forall p | p in SamePath(ks, es) ensures p.0.pathKey in paths {
      assert p.0.pathKey in Elements(paths);
    }
  }

  lemma RecordAtPath(ks: set<KnownSource>, es: set<ManifestEntry>, paths: seq<string>, i: nat,
                     matchedKnown: set<string>,
                     matchedEntries: set<string>, items: seq<Item>, k: KnownSource, e: ManifestEntry)
    requires Plannable(ks, es) && StrictlySorted(paths) && i < |paths|
    requires k in ks && e in es && k.pathKey == e.pathKey == paths[i]
    requires Recorded(PairsAt(ks, es, paths[..i]), {}, matchedKnown, matchedEntries, items)
    ensures Recorded(PairsAt(ks, es, paths[..i + 1]), {}, matchedKnown + {k.sourceId}, matchedEntries + {e.pathKey},
                     items + [SamePathItem(k, e)])
  {
    PairAtNextPath(ks, es, paths, i, k, e);
    RecordSamePath(PairsAt(ks, es, paths[..i]), matchedKnown, matchedEntries, items, k, e);
  }

  lemma PairAtNextPath(ks: set<KnownSource>, es: set<ManifestEntry>, paths: seq<string>, i: nat, k: KnownSource,
                       e: ManifestEntry)
    requires Plannable(ks, es) && StrictlySorted(paths) && i < |paths|
    requires k in ks && e in es && k.pathKey == e.pathKey == paths[i]
    ensures PairsAt(ks, es, paths[..i + 1]) == PairsAt(ks, es, paths[..i]) + {(k, e)}
    ensures e.pathKey !in set p | p in PairsAt(ks, es, paths[..i]) + {} :: p.1.pathKey
  {
    assert paths[..i + 1] == paths[..i] + [paths[i]];
    forall p | p in PairsAt(ks, es, paths[..i]) ensures p.1.pathKey != paths[i] {
      var j :| 0 <= j < i && paths[j] == p.0.pathKey;
      LessIsTotal(paths[j], paths[i]);
    }
    assert (k, e) in SamePath(ks, es);
    forall p | p in SamePath(ks, es) && p.0.pathKey == paths[i] ensures p == (k, e) {
      assert p == (p.0, p.1);
    }
  }

  method AddCreated(entries: seq<ManifestEntry>, matchedEntries: set<string>, items: seq<Item>, ghost s: set<Item>)
    returns (more: seq<Item>)
    requires DistinctEntries(entries) && Lists(items, s) && forall i :: i in s ==> i.pathKey in matchedEntries
    ensures Lists(more, s + CreatedItems(set e | e in entries && e.pathKey !in matchedEntries))
  {
    more := items;
    ghost var added: set<ManifestEntry> := {};
    for i := 0 to |entries|
      invariant added == set e | e in entries[..i] && e.pathKey !in matchedEntries
      invariant Lists(more, s + CreatedItems(added))
    {
      var e := entries[i];
      assert entries[..i + 1] == entries[..i] + [e];
      if e.pathKey !in matchedEntries {
        ListsOneMore(more, s + CreatedItems(added), CreatedItem(e));
        assert CreatedItems(added + {e}) == CreatedItems(added) + {CreatedItem(e)};
        assert s + CreatedItems(added) + {CreatedItem(e)} == s + CreatedItems(added + {e});
        more := more + [CreatedItem(e)];
        added := added + {e};
      }
    }
    assert entries[..|entries|] == entries;
  }

  method AddDeleted(known: seq<KnownSource>, matchedKnown: set<string>, items: seq<Item>, ghost s: set<Item>)
    returns (more: seq<Item>)
    requires Lists(items, s) && OnePathEach(Members(known)) && DistinctSources(known)
    requires forall k, i :: k in known && k.sourceId !in matchedKnown && i in s ==> i.pathKey != k.pathKey
    ensures Lists(more, s + DeletedItems(set k | k in known && k.sourceId !in matchedKnown))
  {
    more := items;
    ghost var passed: set<KnownSource> := {};
    for i := 0 to |known|
      invariant passed == set k | k in known[..i] && k.sourceId !in matchedKnown
      invariant Lists(more, s + DeletedItems(passed))
    {
      var k := known[i];
      assert known[..i + 1] == known[..i] + [k];
      if k.sourceId !in matchedKnown {
        if k.eligible {
          assert forall l :: l in passed ==> l in Members(known) && l.pathKey != k.pathKey by {
            assert k in Members(known);
          }
          ListsOneMore(more, s + DeletedItems(passed), DeletedItem(k));
          more := more + [DeletedItem(k)];
          assert DeletedItems(passed + {k}) == DeletedItems(passed) + {DeletedItem(k)};
          assert s + DeletedItems(passed) + {DeletedItem(k)} == s + DeletedItems(passed + {k});
        } else {
          assert DeletedItems(passed + {k}) == DeletedItems(passed);
        }
        passed := passed + {k};
      }
    }
    assert known[..|known|] == known;
  }

  // ---- Python's sort on the path key, then on the name of the action ----

  function ActionValue(a: Action): string {
    match a
    case Created => "CREATED"
    case Updated => "UPDATED"
    case Moved => "MOVED"
    case Deleted => "DELETED"
    case Unchanged => "UNCHANGED"
  }

  predicate Before(a: Item, b: Item) {
    Less(a.pathKey, b.pathKey) || (a.pathKey == b.pathKey && Less(ActionValue(a.action), ActionValue(b.action)))
  }

  function InsertItem(i: Item, sorted: seq<Item>): seq<Item> {
    if sorted == [] || !Before(sorted[0], i) then [i] + sorted else [sorted[0]] + InsertItem(i, sorted[1..])
  }

  function SortItems(items: seq<Item>): seq<Item> {
    if items == [] then [] else InsertItem(items[0], SortItems(items[1..]))
  }

  lemma {:induction false} InsertKeepsOrder(i: Item, sorted: seq<Item>)
    requires InPathOrder(sorted) && forall j :: j in sorted ==> j.pathKey != i.pathKey
    ensures InPathOrder(InsertItem(i, sorted))
    ensures forall x :: x in InsertItem(i, sorted) <==> x == i || x in sorted
  {
    if sorted == [] {
    } else if !Before(sorted[0], i) {
      LessIsTotal(i.pathKey, sorted[0].pathKey);
      forall j | 1 <= j < |sorted| ensures Less(i.pathKey, sorted[j].pathKey) {
        LessIsTransitive(i.pathKey, sorted[0].pathKey, sorted[j].pathKey);
      }
    } else {
      InsertKeepsOrder(i, sorted[1..]);
      var rest := InsertItem(i, sorted[1..]);
      forall j | 0 <= j < |rest| ensures Less(sorted[0].pathKey, rest[j].pathKey) {
        assert rest[j] in rest;
        if rest[j] != i {
          var l :| 0 <= l < |sorted[1..]| && sorted[1..][l] == rest[j];
        }
      }
    }
  }

  lemma {:induction false} SortOrders(items: seq<Item>)
    requires DistinctPaths(items)
    ensures InPathOrder(SortItems(items)) && Members(SortItems(items)) == Members(items)
  {
    if items != [] {
      SortOrders(items[1..]);
      forall j | j in SortItems(items[1..]) ensures j.pathKey != items[0].pathKey {
        assert j in Members(items[1..]);
      }
      InsertKeepsOrder(items[0], SortItems(items[1..]));
      forall x ensures x in items[1..] <==> x in SortItems(items[1..]) {
        assert x in Members(items[1..]) <==> x in Members(SortItems(items[1..]));
      }
    }
  }

  // ---- The planner ----

  method PlanIngestion(manifest: Manifest, known: seq<KnownSource>) returns (plan: Result<seq<Item>, PlanError>)
    requires DistinctSources(known) && DistinctEntries(manifest.entries)
    ensures plan == Err(IncompleteInventory) <==> !manifest.complete
    ensures plan == Err(DuplicateLivePaths) <==> manifest.complete && !OnePathEach(Members(known))
    ensures plan.Ok? ==> IsPlan(plan.value, Members(known), Members(manifest.entries))
  {
    if !manifest.complete {
      return Err(IncompleteInventory);
    }
    var knownByPath := UniqueKnownSources(known);
    if knownByPath.None? {
      return Err(DuplicateLivePaths);
    }
    var entries := manifest.entries;
    ghost var ks, es := Members(known), Members(entries);
    var matchedKnown, matchedEntries, items := MatchSamePath(knownByPath.value, EntriesByPath(entries), ks, es);
    var unmatchedKnown, unmatchedEntries := KnownOutside(known, matchedKnown), EntriesOutside(entries, matchedEntries);
    matchedKnown, matchedEntries, items := MatchMoves(known, entries, unmatchedKnown, unmatchedEntries, matchedKnown,
                                                      matchedEntries, items);
    items := AddLeftovers(known, entries, matchedKnown, matchedEntries, items, ks, es);
    SortOrders(items);
    return Ok(SortItems(items));
  }

  method AddLeftovers(known: seq<KnownSource>, entries: seq<ManifestEntry>, matchedKnown: set<string>,
                      matchedEntries: set<string>,
                      items: seq<Item>, ghost ks: set<KnownSource>, ghost es: set<ManifestEntry>)
    returns (more: seq<Item>)
    requires DistinctSources(known) && DistinctEntries(entries) && ks == Members(known) && es == Members(entries)
             && Plannable(ks, es)
    requires Recorded(SamePath(ks, es), Moves(ks, es), matchedKnown, matchedEntries, items)
    ensures Lists(more, PlanItems(ks, es))
  {
    ghost var matched := MatchedItems(SamePath(ks, es), Moves(ks, es));
    ItemsAvoidLeftovers(ks, es, matchedKnown, matchedEntries, items);
    more := AddCreated(entries, matchedEntries, items, matched);
    assert (set e | e in entries && e.pathKey !in matchedEntries) == EntriesLeft(es, Matches(ks, es));
    assert (set k | k in known && k.sourceId !in matchedKnown) == KnownLeft(ks, Matches(ks, es));
    more := AddDeleted(known, matchedKnown, more, matched + CreatedItems(EntriesLeft(es, Matches(ks, es))));
  }

  // The two passes over the leftovers: file keys first, then the hash of the newest version.
  method MatchMoves(known: seq<KnownSource>, entries: seq<ManifestEntry>, unmatchedKnown: seq<KnownSource>,
                    unmatchedEntries: seq<ManifestEntry>,
                    matchedKnown: set<string>, matchedEntries: set<string>, items: seq<Item>)
    returns (nowKnown: set<string>, nowEntries: set<string>, nowItems: seq<Item>)
    requires DistinctSources(known) && DistinctEntries(entries) && Plannable(Members(known), Members(entries))
    requires unmatchedKnown == KnownOutside(known, matchedKnown)
             && unmatchedEntries == EntriesOutside(entries, matchedEntries)
    requires Recorded(SamePath(Members(known), Members(entries)), {}, matchedKnown, matchedEntries, items)
    ensures Recorded(SamePath(Members(known), Members(entries)), Moves(Members(known), Members(entries)), nowKnown,
                     nowEntries, nowItems)
  {
    ghost var ks, es := Members(known), Members(entries);
    ghost var same, byFile := SamePath(ks, es), ByFile(ks, es);
    OutsideIsLeft(ks, es, same, matchedKnown, matchedEntries);
    assert same + {} == same;
    assert Members(KnownOutside(unmatchedKnown, matchedKnown)) == KnownLeft(ks, same);
    assert Members(EntriesOutside(unmatchedEntries, matchedEntries)) == EntriesLeft(es, same);
    nowKnown, nowEntries, nowItems :=
      MatchUniqueIdentity(FileKey, unmatchedKnown, unmatchedEntries, matchedKnown, matchedEntries, items, same, {});
    assert {} + byFile == byFile;
    OutsideIsLeft(ks, es, same + byFile, nowKnown, nowEntries);
    assert Members(KnownOutside(unmatchedKnown, nowKnown)) == KnownLeft(ks, same + byFile);
    assert Members(EntriesOutside(unmatchedEntries, nowEntries)) == EntriesLeft(es, same + byFile);
    nowKnown, nowEntries, nowItems :=
      MatchUniqueIdentity(ContentHash, unmatchedKnown, unmatchedEntries, nowKnown, nowEntries, nowItems, same, byFile);
  }

  lemma ItemsAvoidLeftovers(ks: set<KnownSource>, es: set<ManifestEntry>, matchedKnown: set<string>,
                            matchedEntries: set<string>, items: seq<Item>)
    requires Plannable(ks, es) && Recorded(SamePath(ks, es), Moves(ks, es), matchedKnown, matchedEntries, items)
    ensures (set k | k in ks && k.sourceId !in matchedKnown) == KnownLeft(ks, Matches(ks, es))
    ensures (set e | e in es && e.pathKey !in matchedEntries) == EntriesLeft(es, Matches(ks, es))
    ensures forall i :: i in MatchedItems(SamePath(ks, es), Moves(ks, es)) ==>
              i.pathKey in matchedEntries && exists e :: e in es && e.pathKey == i.pathKey
    ensures forall k, e :: k in KnownLeft(ks, Matches(ks, es)) && e in es ==> e.pathKey != k.pathKey
  {
    var matches := Matches(ks, es);
    forall p | p in matches ensures p.0 in ks && p.1 in es {
      MatchesAreOneToOne(ks, es, p, p);
    }
    OutsideIsLeft(ks, es, matches, matchedKnown, matchedEntries);
    forall k | k in KnownLeft(ks, matches) ensures forall e :: e in es ==> e.pathKey != k.pathKey {
      LeftPathIsGone(ks, es, k);
    }
  }
}
