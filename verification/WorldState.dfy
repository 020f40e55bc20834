/**
 * The control plane together with what it coordinates: the Vault, the vector index and the
 * store of verified answers. A world is safe when all of them agree with the database.
 */
module WorldState {
  import opened Prelude
  import opened Transitions
  import opened Schema
  import opened RepositorySpec

  // Chunk identifiers are hashes over version, chunker, ordinal and text.
  datatype ChunkId = ChunkId(version: VersionId, chunker: string, ordinal: nat)

  type Count = n: nat | n > 0 witness 1

  datatype World = World(
    db: Db,
    snapshots: map<VersionId, map<string, Count>>,  // how many chunks each chunker cuts a version into, if it can
    files: map<string, VersionId>,            // Vault path -> the version rendered there
    trash: set<VersionId>,                    // recycled files
    index: set<(GenerationId, ChunkId)>,
    answers: set<set<ChunkId>>)               // the chunks that each stored answer cites
  {
    // The chunker that generation g was built with can cut version v.
    predicate Chunkable(v: VersionId, g: GenerationId) {
      v in snapshots && g in db.generations && db.generations[g].manifest.chunker in snapshots[v]
    }

    // The chunks of version v for generation g.
    function Chunks(v: VersionId, g: GenerationId): set<ChunkId> {
      if Chunkable(v, g) then
        var chunker := db.generations[g].manifest.chunker;
        set i: nat | i < snapshots[v][chunker] :: ChunkId(v, chunker, i)
      else {}
    }

    predicate Present(v: VersionId, g: GenerationId) {
      Chunkable(v, g) && forall c :: c in Chunks(v, g) ==> (g, c) in index
    }

    predicate Absent(v: VersionId, g: GenerationId) {
      forall c :: c in Chunks(v, g) ==> (g, c) !in index
    }

    // No stored answer cites a chunk of v for g.
    predicate Uncited(v: VersionId, g: GenerationId) {
      forall a :: a in answers ==> a !! Chunks(v, g)
    }

    predicate InPlace(n: NoteId, v: VersionId)
      requires n in db.notes
    {
      db.notes[n].path in files && files[db.notes[n].path] == v
    }

    // The note's path is empty, or holds the note's own file.
    predicate PathFree(n: NoteId, v: VersionId)
      requires n in db.notes
    {
      db.notes[n].path in files ==> files[db.notes[n].path] == v
    }
  }

  // The answers that cite none of these chunks.
  function Purged(answers: set<set<ChunkId>>, chunks: set<ChunkId>): set<set<ChunkId>> {
    set a | a in answers && a !! chunks
  }

  // j is the job of a deleted note: its chunks are on their way out, or back in.
  predicate Erasing(db: Db, j: JobId)
    requires j in db.jobs
  {
    var job := db.jobs[j];
    && job.objectType.CuratedVersion? && job.entity in db.versions
    && var n := db.versions[job.entity].note;
    n in db.notes && db.notes[n].deleted && db.PublishedOn(n, job.entity, job.generation)
  }

  // Where the file, the answers and the index stand for one published note.
  predicate Custody(w: World, n: NoteId, status: JobStatus)
    requires w.db.Published(n)
  {
    var v, g := w.db.notes[n].version.value, w.db.notes[n].generation.value;
    if w.db.Live(n) then w.InPlace(n, v) && v !in w.trash
    else if status.DeletePending? then w.InPlace(n, v) != (v in w.trash)
    else if status.Indexed? then w.InPlace(n, v) != (v in w.trash) && w.Uncited(v, g)
    else !w.InPlace(n, v) && v in w.trash && w.Uncited(v, g)
  }

  ghost predicate InCustody(w: World, n: NoteId)
    requires w.db.Published(n)
  {
    && w.Chunkable(w.db.notes[n].version.value, w.db.notes[n].generation.value)
    && (exists j :: j in w.db.jobs && OwnJob(w.db, n, j))
    && (forall j :: j in w.db.jobs && OwnJob(w.db, n, j) ==> Custody(w, n, w.db.jobs[j].status))
  }

  ghost predicate NotesInCustody(w: World) {
    forall n :: w.db.Published(n) ==> InCustody(w, n)
  }

  // What a job's status says about the index is true.
  predicate JobTruthful(w: World, j: JobId)
    requires j in w.db.jobs
  {
    var job := w.db.jobs[j];
    job.objectType.CuratedVersion? ==>
      match job.status
      case Indexed => w.Present(job.entity, job.generation)
      case ActiveIndexed => w.Present(job.entity, job.generation)
      case DeletePending => Erasing(w.db, j) || w.Present(job.entity, job.generation)
      case Deleted => Erasing(w.db, j) && w.Absent(job.entity, job.generation)
      case _ => true
  }

  ghost predicate JobsTruthful(w: World) {
    forall j :: j in w.db.jobs ==> JobTruthful(w, j)
  }

  ghost predicate Safe(w: World) {
    Inv(w.db) && NotesInCustody(w) && JobsTruthful(w)
  }

  // A live note has its file in the Vault and all its chunks in its generation's index.
  lemma LiveNotesAreServed(w: World, n: NoteId)
    requires Safe(w) && w.db.Live(n) && w.db.Published(n)
    ensures var v := w.db.notes[n].version.value;
      w.InPlace(n, v) && w.Present(v, w.db.notes[n].generation.value)
  {
    var v, g := w.db.notes[n].version.value, w.db.notes[n].generation.value;
    var j :| w.db.Indexes(j, v, g) && w.db.jobs[j].status.ActiveIndexed?;
    assert InCustody(w, n) && OwnJob(w.db, n, j);
    assert JobTruthful(w, j);
  }

  // A DELETED job leaves nothing behind but the recycled file.
  lemma DeletedJobsLeaveNothing(w: World, j: JobId)
    requires Safe(w) && j in w.db.jobs && w.db.jobs[j].objectType.CuratedVersion? && w.db.jobs[j].status.Deleted?
    ensures var v := w.db.jobs[j].entity;
      && v in w.db.versions && var n := w.db.versions[v].note;
      && n in w.db.notes && w.db.notes[n].deleted && !w.InPlace(n, v) && v in w.trash
      && w.Absent(v, w.db.jobs[j].generation) && w.Uncited(v, w.db.jobs[j].generation)
  {
    assert JobTruthful(w, j);
    var n := w.db.versions[w.db.jobs[j].entity].note;
    assert InCustody(w, n) && OwnJob(w.db, n, j);
  }

  // ---- Worlds with the same manifests have the same chunks ----

  ghost predicate SameManifests(db: Db, next: Db) {
    && next.generations.Keys == db.generations.Keys
    && forall g :: g in db.generations ==> next.generations[g].manifest == db.generations[g].manifest
  }

  lemma SameChunks(w: World, next: World, v: VersionId, g: GenerationId)
    requires next.snapshots == w.snapshots && SameManifests(w.db, next.db)
    ensures next.Chunkable(v, g) == w.Chunkable(v, g) && next.Chunks(v, g) == w.Chunks(v, g)
    ensures next.index == w.index ==> next.Present(v, g) == w.Present(v, g) && next.Absent(v, g) == w.Absent(v, g)
    ensures next.answers == w.answers ==> next.Uncited(v, g) == w.Uncited(v, g)
  {
  }

  // Another chunker cuts other chunks.
  lemma OtherChunkersCutOtherChunks(w: World, v: VersionId, g: GenerationId, h: GenerationId)
    requires g in w.db.generations && h in w.db.generations
    requires w.db.generations[g].manifest.chunker != w.db.generations[h].manifest.chunker
    ensures w.Chunks(v, g) !! w.Chunks(v, h)
  {
  }
}
