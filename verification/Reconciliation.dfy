/** Indexing with read-back, and the repair loop that brings the index back to what is published. */
module Reconciliation {
  import opened Prelude

  // ---- The index, and what is expected of it ----

  datatype Point = Point(version: string, hash: string)

  type Slot = (int, string)     // generation number and chunk id

  type Points = map<Slot, Point>

  datatype Chunk = Chunk(id: string, version: string, hash: string, generation: int, generationId: string,
                         model: string)

  // One published version in one generation.
  datatype Publication = Publication(version: string, hash: string, generation: int, chunks: seq<Chunk>)

  function Ids(chunks: seq<Chunk>): set<string> {
    set c | c in chunks :: c.id
  }

  predicate DistinctIds(chunks: seq<Chunk>) {
    forall i, j :: 0 <= i < j < |chunks| ==> chunks[i].id != chunks[j].id
  }

  // What the type of an expected publication demands.
  ghost predicate WellFormed(p: Publication) {
    && p.chunks != []
    && (forall c :: c in p.chunks ==> c.version == p.version && c.hash == p.hash && c.generation == p.generation)
    && DistinctIds(p.chunks)
  }

  datatype Probe = Probe(id: string, version: string, hash: string)

  function Expected(chunks: seq<Chunk>): set<Probe> {
    set c | c in chunks :: Probe(c.id, c.version, c.hash)
  }

  function Fetched(points: Points, generation: int, ids: set<string>): set<Probe> {
    set id | id in ids && (generation, id) in points :: Probe(id, points[(generation, id)].version,
                                                              points[(generation, id)].hash)
  }

  function Listed(points: Points, generation: int, version: string): set<Probe> {
    set k | k in points && k.0 == generation
        && points[k].version == version :: Probe(k.1, points[k].version, points[k].hash)
  }

  predicate Healthy(points: Points, p: Publication) {
    Listed(points, p.generation, p.version) == Expected(p.chunks)
  }

  function Without(points: Points, generation: int, ids: set<string>): Points {
    map k | k in points && !(k.0 == generation && k.1 in ids) :: points[k]
  }

  // Each chunk replaces what its slot held.
  function With(points: Points, chunks: seq<Chunk>, generation: int): Points {
    if chunks == [] then points
    else
      var last := chunks[|chunks| - 1];
      With(points, chunks[..|chunks| - 1], generation)[(generation, last.id) := Point(last.version, last.hash)]
  }

  // A call to a port that fails, and how much of a write went through before it did.
  datatype Fault =
    | NoFault
    | ListFails
    | DeleteFails(done: set<string>)
    | EmbeddingFails
    | UpsertFails(written: nat)
    | ReadBackFails
    | RelistFails

  predicate OneGeneration(chunks: seq<Chunk>, model: string) {
    && (forall i, j :: 0 <= i < j < |chunks| ==> chunks[i].generation == chunks[j].generation
                                                 && chunks[i].generationId == chunks[j].generationId)
    && forall i :: 0 <= i < |chunks| ==> chunks[i].model == model
  }

  function Written(chunks: seq<Chunk>, fault: Fault): seq<Chunk> {
    if fault.UpsertFails? && fault.written <= |chunks| then chunks[..fault.written] else chunks
  }

  // ---- The gateway and the indexer ----

  class VectorIndex {
    var points: Points

    constructor (points: Points)
      ensures this.points == points
    {
      this.points := points;
    }

    method Upsert(generation: int, chunks: seq<Chunk>, fault: Fault) returns (ok: bool)
      modifies this
      ensures ok <==> !fault.UpsertFails?
      ensures points == With(old(points), Written(chunks, fault), generation)
    {
      var batch := Written(chunks, fault);
      for i := 0 to |batch|
        invariant points == With(old(points), batch[..i], generation)
      {
        assert batch[..i + 1][..i] == batch[..i];
        points := points[(generation, batch[i].id) := Point(batch[i].version, batch[i].hash)];
      }
      assert batch[..|batch|] == batch;
      ok := !fault.UpsertFails?;
    }

    method DeleteChunks(generation: int, ids: set<string>, fault: Fault) returns (ok: bool)
      modifies this
      ensures ok <==> !fault.DeleteFails?
      ensures points == Without(old(points), generation, if fault.DeleteFails? then ids * fault.done else ids)
    {
      points := Without(points, generation, if fault.DeleteFails? then ids * fault.done else ids);
      ok := !fault.DeleteFails?;
    }
  }

  class GenerationIndexer {
    const index: VectorIndex
    const model: string

    constructor (index: VectorIndex, model: string)
      ensures this.index == index && this.model == model
    {
      this.index := index;
      this.model := model;
    }

    // True when the chunks were read back exactly as written.
    method Index(chunks: seq<Chunk>, fault: Fault) returns (ok: bool)
      modifies index
      ensures chunks == [] || !OneGeneration(chunks, model) || fault.EmbeddingFails? ==>
                !ok && index.points == old(index.points)
      ensures chunks != [] && OneGeneration(chunks, model) && !fault.EmbeddingFails? ==>
                index.points == With(old(index.points), Written(chunks, fault), chunks[0].generation)
      ensures ok ==> Fetched(index.points, chunks[0].generation, Ids(chunks)) == Expected(chunks)
      ensures ok <==> chunks != [] && OneGeneration(chunks, model) && DistinctIds(chunks)
                      && !fault.EmbeddingFails? && !fault.UpsertFails? && !fault.ReadBackFails?
    {
      if chunks == [] || !OneGeneration(chunks, model) || fault.EmbeddingFails? {
        return false;
      }
      var generation := chunks[0].generation;
      ghost var before := index.points;
      var written := index.Upsert(generation, chunks, fault);
      if !written || fault.ReadBackFails? {
        return false;
      }
      var probes := Fetched(index.points, generation, Ids(chunks));
      ok := probes == Expected(chunks) && |probes| == |chunks|;
      ReadBack(before, chunks, generation);
      CountIds(chunks);
    }

    // True when no probe is left.
    method Delete(chunks: seq<Chunk>, fault: Fault) returns (ok: bool)
      modifies index
      ensures chunks == [] ==> ok && index.points == old(index.points)
      ensures ok && chunks != [] ==> index.points == Without(old(index.points), chunks[0].generation, Ids(chunks))
                                     && forall c :: c in chunks ==> (c.generation, c.id) !in index.points
      ensures fault.NoFault? && (forall c :: c in chunks ==> c.generation == chunks[0].generation) ==> ok
      ensures (exists c :: c in chunks && c.generation != chunks[0].generation) ==>
                !ok && index.points == old(index.points)
      ensures forall k :: k in index.points ==> k in old(index.points) && index.points[k] == old(index.points)[k]
      ensures forall k :: k in old(index.points) && k !in index.points ==>
                chunks != [] && k.0 == chunks[0].generation && k.1 in Ids(chunks)
    {
      if chunks == [] {
        return true;
      }
      if exists c :: c in chunks && c.generation != chunks[0].generation {
        return false;
      }
      var deleted := index.DeleteChunks(chunks[0].generation, Ids(chunks), fault);
      if !deleted || fault.ReadBackFails? {
        return false;
      }
      ok := Fetched(index.points, chunks[0].generation, Ids(chunks)) == {};
    }
  }

  // ---- Facts about writing and reading back ----

  lemma {:induction false} WithAt(points: Points, chunks: seq<Chunk>, generation: int, k: Slot)
    ensures k in With(points, chunks, generation) <==> k in points || (k.0 == generation && k.1 in Ids(chunks))
    ensures !(k.0 == generation && k.1 in Ids(chunks)) && k in points
            ==> With(points, chunks, generation)[k] == points[k]
    ensures k.0 == generation && k.1 in Ids(chunks) ==>
              exists c :: c in chunks && c.id == k.1 && With(points, chunks, generation)[k] == Point(c.version, c.hash)
  {
    if chunks != [] {
      var init, last := chunks[..|chunks| - 1], chunks[|chunks| - 1];
      assert chunks == init + [last];
      WithAt(points, init, generation, k);
      assert Ids(chunks) == Ids(init) + {last.id};
    }
  }

  lemma ReadBack(points: Points, chunks: seq<Chunk>, generation: int)
    requires forall c :: c in chunks ==> c.generation == generation
    ensures DistinctIds(chunks) ==>
              Fetched(With(points, chunks, generation), generation, Ids(chunks)) == Expected(chunks)
    ensures |Fetched(With(points, chunks, generation), generation, Ids(chunks))| == |Ids(chunks)|
  {
    var after := With(points, chunks, generation);
    var probes := Fetched(after, generation, Ids(chunks));
    forall id | id in Ids(chunks) ensures (generation, id) in after {
      WithAt(points, chunks, generation, (generation, id));
    }
    CountProbes(after, generation, Ids(chunks));
    if DistinctIds(chunks) {
      forall c | c in chunks ensures Probe(c.id, c.version, c.hash) in probes
          && Probe(c.id, after[(generation, c.id)].version, after[(generation, c.id)].hash) in Expected(chunks) {
        WithAt(points, chunks, generation, (generation, c.id));
        assert c.id in Ids(chunks);
        var d :| d in chunks && d.id == c.id && after[(generation, c.id)] == Point(d.version, d.hash);
        assert d == c;
      }
    }
  }

  lemma {:induction false} CountProbes(points: Points, generation: int, ids: set<string>)
    requires forall id :: id in ids ==> (generation, id) in points
    ensures |Fetched(points, generation, ids)| == |ids|
  {
    if ids != {} {
      var id :| id in ids;
      CountProbes(points, generation, ids - {id});
      var p := Probe(id, points[(generation, id)].version, points[(generation, id)].hash);
      assert Fetched(points, generation, ids) == Fetched(points, generation, ids - {id}) + {p};
    }
  }

  lemma DistinctOneMore(init: seq<Chunk>, last: Chunk)
    ensures DistinctIds(init + [last]) <==> DistinctIds(init) && last.id !in Ids(init)
  {
    var all := init + [last];
    if DistinctIds(all) {
      assert forall i :: 0 <= i < |init| ==> init[i] == all[i];
      assert forall i :: 0 <= i < |init| ==> all[i].id != all[|init|].id;
    }
    if last.id !in Ids(init) {
      assert forall i :: 0 <= i < |init| ==> init[i].id in Ids(init);
    }
  }

  lemma {:induction false} CountIds(chunks: seq<Chunk>)
    ensures |Ids(chunks)| <= |chunks|
    ensures |Ids(chunks)| == |chunks| <==> DistinctIds(chunks)
  {
    if chunks == [] {
      assert Ids(chunks) == {};
    } else {
      var init, last := chunks[..|chunks| - 1], chunks[|chunks| - 1];
      assert chunks == init + [last];
      CountIds(init);
      DistinctOneMore(init, last);
      assert Ids(chunks) == Ids(init) + {last.id};
      assert last.id in Ids(init) ==> Ids(init) + {last.id} == Ids(init);
    }
  }
}
