/**
 * Rows of the publication control plane and what the tables promise about them.
 *
 * Identifiers are naturals; timestamps other than "deleted or not" carry no meaning here.
 */
module Schema {
  import opened Prelude
  import opened Transitions

  type NoteId = nat
  type VersionId = nat
  type GenerationId = nat
  type JobId = nat
  type ChangeId = nat
  type RunId = nat

  datatype Note = Note(
    path: string,
    version: Option<VersionId>,
    generation: Option<GenerationId>,
    deleted: bool,
    revision: nat)

  datatype Version = Version(note: NoteId, change: ChangeId, status: VersionStatus, revision: nat)

  // What a generation is built with, for good: the chunker's version, the embedding model and its dimension.
  datatype Manifest = Manifest(chunker: string, model: string, dimension: nat)

  datatype Generation = Generation(number: nat, manifest: Manifest, status: GenerationStatus, revision: nat)

  datatype ObjectType = CuratedVersion | OtherEntity

  datatype Job = Job(
    objectType: ObjectType,
    entity: nat,
    generation: GenerationId,
    status: JobStatus,
    revision: nat)

  datatype Change = Change(status: ChangeStatus, revision: nat)

  datatype Run = Run(
    change: ChangeId,
    note: NoteId,
    version: VersionId,
    generation: GenerationId,
    status: RunStatus,
    revision: nat)

  datatype Db = Db(
    notes: map<NoteId, Note>,
    versions: map<VersionId, Version>,
    generations: map<GenerationId, Generation>,
    jobs: map<JobId, Job>,
    changes: map<ChangeId, Change>,
    runs: map<RunId, Run>)
  {
    predicate Live(n: NoteId) {
      n in notes && !notes[n].deleted
    }

    // A note with both publication pointers set.
    predicate Published(n: NoteId) {
      n in notes && notes[n].version.Some? && notes[n].generation.Some?
    }

    predicate PublishedOn(n: NoteId, v: VersionId, g: GenerationId) {
      n in notes && notes[n].version == Some(v) && notes[n].generation == Some(g)
    }

    predicate HasGeneration(g: GenerationId, status: GenerationStatus) {
      g in generations && generations[g].status == status
    }

    // Job j indexes curated version v into generation g.
    predicate Indexes(j: JobId, v: VersionId, g: GenerationId) {
      j in jobs && jobs[j].objectType.CuratedVersion? && jobs[j].entity == v && jobs[j].generation == g
    }

    ghost predicate HasJob(v: VersionId, g: GenerationId, status: JobStatus) {
      exists j :: Indexes(j, v, g) && jobs[j].status == status
    }
  }

  const EMPTY := Db(map[], map[], map[], map[], map[], map[])

  // Declared by the tables: unique indexes and foreign keys.

  ghost predicate OneActiveGeneration(db: Db) {
    forall g, h :: db.HasGeneration(g, GenerationStatus.Active) && db.HasGeneration(h, GenerationStatus.Active)
                   ==> g == h
  }

  predicate SameTarget(a: Job, b: Job) {
    a.objectType == b.objectType && a.entity == b.entity && a.generation == b.generation
  }

  ghost predicate OneJobPerTarget(db: Db) {
    forall i, j :: i in db.jobs && j in db.jobs && SameTarget(db.jobs[i], db.jobs[j]) ==> i == j
  }

  ghost predicate DistinctLivePaths(db: Db) {
    forall m, n :: db.Live(m) && db.Live(n) && db.notes[m].path == db.notes[n].path ==> m == n
  }

  ghost predicate References(db: Db) {
    && (forall n :: n in db.notes && db.notes[n].version.Some? ==> db.notes[n].version.value in db.versions)
    && (forall n :: n in db.notes && db.notes[n].generation.Some? ==> db.notes[n].generation.value in db.generations)
    && (forall j :: j in db.jobs ==> db.jobs[j].generation in db.generations)
  }

  // Kept by the operations, on top of the tables.

  // A note's two pointers are set together, and its current version is its own.
  ghost predicate OwnVersions(db: Db) {
    forall n :: n in db.notes ==>
      && db.notes[n].version.Some? == db.notes[n].generation.Some?
      && (db.notes[n].version.Some? ==>
            db.notes[n].version.value in db.versions && db.versions[db.notes[n].version.value].note == n)
  }

  // No version other than a note's current one is ACTIVE.
  ghost predicate ActiveIsCurrent(db: Db) {
    forall v :: v in db.versions && db.versions[v].status.Active? ==>
      db.versions[v].note in db.notes && db.notes[db.versions[v].note].version == Some(v)
  }

  // Notes, deleted ones too, only ever point to a generation that has served.
  ghost predicate PointersServed(db: Db) {
    forall n :: n in db.notes && db.notes[n].generation.Some? ==>
      var g := db.notes[n].generation.value;
      db.HasGeneration(g, GenerationStatus.Active) || db.HasGeneration(g, GenerationStatus.Superseded)
  }

  // A published note is live exactly when its job is ACTIVE_INDEXED.
  ghost predicate LiveIndexed(db: Db) {
    forall n :: db.Published(n) ==>
      db.HasJob(db.notes[n].version.value, db.notes[n].generation.value, JobStatus.ActiveIndexed) == db.Live(n)
  }

  predicate BuildStatus(s: JobStatus) {
    s.Pending? || s.Indexing? || s.Indexed? || s.Failed?
  }

  ghost predicate UnservedJobsBuild(db: Db) {
    forall j :: j in db.jobs ==>
      var g := db.jobs[j].generation;
      db.HasGeneration(g, GenerationStatus.Staging) || db.HasGeneration(g, GenerationStatus.Failed)
      ==> BuildStatus(db.jobs[j].status)
  }

  ghost predicate Tables(db: Db) {
    OneActiveGeneration(db) && OneJobPerTarget(db) && DistinctLivePaths(db) && References(db)
  }

  ghost predicate Pointers(db: Db) {
    OwnVersions(db) && ActiveIsCurrent(db) && PointersServed(db)
  }

  ghost predicate Serving(db: Db) {
    LiveIndexed(db) && UnservedJobsBuild(db)
  }

  ghost predicate Inv(db: Db) {
    Tables(db) && Pointers(db) && Serving(db)
  }

  // The design's promise: a live published note is served by the ACTIVE generation.
  ghost predicate SingleServing(db: Db) {
    forall n :: db.Live(n) && db.Published(n) ==>
      db.HasGeneration(db.notes[n].generation.value, GenerationStatus.Active)
  }

  // ---- What keeps each promise of the tables ----

  // The live notes of `next` are live in `db`, at the same paths.
  lemma PathsKept(db: Db, next: Db)
    requires DistinctLivePaths(db)
    requires forall n :: next.Live(n) ==> db.Live(n) && next.notes[n].path == db.notes[n].path
    ensures DistinctLivePaths(next)
  {
  }

  lemma TargetsKept(db: Db, next: Db)
    requires OneJobPerTarget(db) && next.jobs.Keys == db.jobs.Keys
    requires forall j :: j in db.jobs ==> SameTarget(next.jobs[j], db.jobs[j])
    ensures OneJobPerTarget(next)
  {
    forall i, j | i in next.jobs && j in next.jobs && SameTarget(next.jobs[i], next.jobs[j]) ensures i == j {
      assert SameTarget(db.jobs[i], db.jobs[j]);
    }
  }

  // Statuses of generations are the same.
  lemma ActiveKept(db: Db, next: Db)
    requires OneActiveGeneration(db)
    requires forall g :: g in next.generations ==>
               g in db.generations && next.generations[g].status == db.generations[g].status
    ensures OneActiveGeneration(next)
  {
    forall g, h | next.HasGeneration(g, GenerationStatus.Active) && next.HasGeneration(h, GenerationStatus.Active)
      ensures g == h
    {
      assert db.HasGeneration(g, GenerationStatus.Active) && db.HasGeneration(h, GenerationStatus.Active);
    }
  }

  lemma JobIsUnique(db: Db, i: JobId, j: JobId, v: VersionId, g: GenerationId)
    requires OneJobPerTarget(db)
    requires db.Indexes(i, v, g) && db.Indexes(j, v, g)
    ensures i == j
  {
    assert SameTarget(db.jobs[i], db.jobs[j]);
  }
}
