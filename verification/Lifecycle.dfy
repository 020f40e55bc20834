/**
 * Deleting and restoring notes, and moving the fleet between generations, as resumable sagas
 * over the database, the Vault, the vector index and the answer store.
 *
 * A command may crash before any of its steps, or half way through a write to the index or to the
 * answer store. The next command starts again from what is stored. A service is configured with one
 * chunker and one embedding model: it refuses generations that were built with others.
 */
module Lifecycle {
  import opened Prelude
  import opened Transitions
  import opened Schema
  import opened RepositorySpec
  import opened Switching
  import opened WorldState
  import opened WorldSteps
  import Runs
  import opened Repository

  // Refused stands for a LifecycleError, or an error from the repository or from the Vault.
  datatype Outcome = Done | Refused | Crashed

  // Where a command dies, and how far it got with the write it died in. `indexFails` is an
  // exception from the index instead: the command handles it.
  datatype Fault = Fault(crashAt: nat, indexFails: bool, chunks: set<ChunkId>, answers: set<set<ChunkId>>)

  const NO_FAULT := Fault(9, false, {}, {})

  datatype Context = Context(version: VersionId, generation: GenerationId, job: JobId)

  // ---- What a command on note n may change ----

  ghost predicate TouchesOnly(w: World, next: World, n: NoteId)
    requires w.db.Published(n)
  {
    var v, own := w.db.notes[n].version.value, w.db.notes[n].generation.value;
    && TouchesOnlyRows(w.db, next.db, n)
    && next.snapshots == w.snapshots
    && (forall p :: p != w.db.notes[n].path ==> (p in next.files <==> p in w.files)
                                                && (p in w.files ==> next.files[p] == w.files[p]))
    && next.trash - {v} == w.trash - {v}
    && (forall g, c :: g != own || c !in w.Chunks(v, own) ==> ((g, c) in next.index <==> (g, c) in w.index))
    && next.answers <= w.answers
    && (forall a :: a in w.answers && a !in next.answers ==> !(a !! w.Chunks(v, own)))
  }

  ghost predicate TouchesOnlyRows(db: Db, next: Db, n: NoteId)
    requires db.Published(n)
  {
    && next == db.(notes := next.notes, jobs := next.jobs)
    && next.notes.Keys == db.notes.Keys && next.jobs.Keys == db.jobs.Keys
    && (forall m :: m in db.notes && m != n ==> next.notes[m] == db.notes[m])
    && next.notes[n] == db.notes[n].(deleted := next.notes[n].deleted, revision := next.notes[n].revision)
    && (forall j :: j in db.jobs ==>
          next.jobs[j] == if OwnJob(db, n, j)
                          then db.jobs[j].(status := next.jobs[j].status, revision := next.jobs[j].revision)
                          else db.jobs[j])
  }

  lemma TouchesOnlyTwice(a: World, b: World, c: World, n: NoteId)
    requires a.db.Published(n) && TouchesOnly(a, b, n) && b.db.Published(n) && TouchesOnly(b, c, n)
    ensures TouchesOnly(a, c, n)
  {
    assert forall j :: j in a.db.jobs ==> OwnJob(b.db, n, j) == OwnJob(a.db, n, j);
    var v := a.db.notes[n].version.value;
    assert c.trash - {v} == a.trash - {v};
  }

  // A deletion takes chunks out of the index only once the file is in the trash, and purges answers only once
  // all chunks of the note are out.
  ghost predicate ErasedInOrder(w: World, next: World, n: NoteId)
    requires w.db.Published(n)
  {
    var v, own := w.db.notes[n].version.value, w.db.notes[n].generation.value;
    && (next.index != w.index || next.answers != w.answers ==>
          v in next.trash && w.db.notes[n].path !in next.files)
    && (next.answers == w.answers || next.Absent(v, own))
  }

  // A restoration takes nothing out of the index, and the file comes back only once all chunks are in.
  ghost predicate ReopenedInOrder(w: World, next: World, n: NoteId)
    requires w.db.Published(n)
  {
    var v, own := w.db.notes[n].version.value, w.db.notes[n].generation.value;
    && w.index <= next.index
    && (next.files != w.files || next.trash != w.trash ==>
          && v !in next.trash && w.db.notes[n].path in next.files && next.files[w.db.notes[n].path] == v
          && next.Present(v, own))
  }

  lemma ReopenedLater(w: World, indexed: World, next: World, n: NoteId)
    requires w.db.Published(n) && indexed == w.(db := indexed.db, index := indexed.index)
    requires indexed.db.notes == w.db.notes && w.index <= indexed.index && ReopenedInOrder(indexed, next, n)
    requires TouchesOnly(w, indexed, n) && TouchesOnly(indexed, next, n)
    ensures ReopenedInOrder(w, next, n) && TouchesOnly(w, next, n)
  {
    TouchesOnlyTwice(w, indexed, next, n);
  }

  // A deleted note whose chunks are still to be written again.
  ghost predicate AwaitsIndexing(db: Db, n: NoteId) {
    !db.Live(n) && !OwnStatus(db, n, JobStatus.DeletePending) && !OwnStatus(db, n, JobStatus.Indexed)
  }

  // The status of the note's own job.
  ghost predicate OwnStatus(db: Db, n: NoteId, status: JobStatus) {
    exists j :: j in db.jobs && db.Published(n) && OwnJob(db, n, j) && db.jobs[j].status == status
  }

  // The service can cut the chunks of generation g again.
  predicate KnowsChunker(db: Db, g: GenerationId, runtime: Manifest) {
    g in db.generations && db.generations[g].manifest.chunker == runtime.chunker
  }

  // The service embeds for generation g.
  predicate Embeds(db: Db, g: GenerationId, runtime: Manifest) {
    && g in db.generations && db.generations[g].manifest.model == runtime.model
    && db.generations[g].manifest.dimension == runtime.dimension
  }

  // The note has a publication, made with the configured chunker.
  predicate Loadable(db: Db, n: NoteId, runtime: Manifest) {
    db.Published(n) && KnowsChunker(db, db.notes[n].generation.value, runtime)
  }

  // What a deletion needs: the note can be loaded and is not in the middle of a restoration, and its
  // path in the Vault is not taken by another note's file.
  ghost predicate Deletable(w: World, n: NoteId, runtime: Manifest) {
    && Loadable(w.db, n, runtime)
    && w.PathFree(n, w.db.notes[n].version.value)
    && Departing(w.db, n)
  }

  // The note is live, or its own job says that it is being deleted, or was.
  ghost predicate Departing(db: Db, n: NoteId) {
    db.Live(n) || OwnStatus(db, n, JobStatus.DeletePending) || OwnStatus(db, n, JobStatus.Deleted)
  }

  // What a restoration needs: the deletion, if any, is finished, the path is taken neither in the
  // Vault nor by another live note, and the chunks can be embedded, if they are still to be.
  ghost predicate Restorable(w: World, n: NoteId, runtime: Manifest) {
    && Loadable(w.db, n, runtime)
    && w.PathFree(n, w.db.notes[n].version.value)
    && !OwnStatus(w.db, n, JobStatus.DeletePending)
    && (w.db.Live(n) || !PathTaken(w.db, n, w.db.notes[n].path))
    && (Embeds(w.db, w.db.notes[n].generation.value, runtime) || OwnStatus(w.db, n, JobStatus.Indexed))
  }

  // A serving generation to move away from, and a STAGING one to move to.
  ghost predicate Migratable(db: Db, t: GenerationId) {
    ActiveGeneration(db).Some? && db.HasGeneration(t, GenerationStatus.Staging)
  }

  // The target was made for this very service.
  predicate MadeFor(db: Db, t: GenerationId, runtime: Manifest) {
    t in db.generations && db.generations[t].manifest == runtime
  }

  // What a rebuild needs besides: the chunker can cut every note that is to move.
  ghost predicate Rebuildable(w: World, t: GenerationId, runtime: Manifest) {
    && Migratable(w.db, t) && MadeFor(w.db, t, runtime)
    && forall n :: n in Movers(w.db, ActiveGeneration(w.db).value) ==> w.Chunkable(w.db.notes[n].version.value, t)
  }

  // All chunks of every note that a switch would move are in the target's index.
  ghost predicate FleetPresent(w: World, t: GenerationId) {
    ActiveGeneration(w.db).Some? ==>
      forall n :: n in Movers(w.db, ActiveGeneration(w.db).value) ==> w.Present(w.db.notes[n].version.value, t)
  }

  // Jobs of other generations are the same rows as before, and so are those that were INDEXED.
  ghost predicate JobsKeptOutside(db: Db, next: Db, t: GenerationId) {
    && (forall j :: j in db.jobs ==> j in next.jobs && SameTarget(next.jobs[j], db.jobs[j]))
    && (forall j :: j in db.jobs && db.jobs[j].status.Indexed? ==> next.jobs[j] == db.jobs[j])
    && (forall j :: j in next.jobs && next.jobs[j].generation != t ==> j in db.jobs && next.jobs[j] == db.jobs[j])
  }

  // What indexing version v into generation t may change.
  ghost predicate BuildsOnly(db: Db, next: Db, v: VersionId, t: GenerationId) {
    && next == db.(jobs := next.jobs)
    && JobsKeptOutside(db, next, t)
    && (forall j :: j in db.jobs && !db.Indexes(j, v, t) ==> next.jobs[j] == db.jobs[j])
    && (forall j :: j in next.jobs && j !in db.jobs ==> next.Indexes(j, v, t))
  }

  // The jobs that were written are about current versions of these notes in generation t.
  ghost predicate BuildsFor(db: Db, next: Db, notes: set<NoteId>, t: GenerationId) {
    forall j :: j in next.jobs && !(j in db.jobs && next.jobs[j] == db.jobs[j]) ==>
      exists n :: n in notes && db.Published(n) && next.Indexes(j, db.notes[n].version.value, t)
  }

  // Nothing was taken out of the index, and only chunks of these notes for generation t came in.
  ghost predicate Fills(w: World, next: World, notes: set<NoteId>, t: GenerationId) {
    && w.index <= next.index
    && forall g, c :: (g, c) in next.index && (g, c) !in w.index ==>
         g == t && exists n :: n in notes && w.db.Published(n) && c in w.Chunks(w.db.notes[n].version.value, t)
  }

  class LifecycleService {
    var db: Db
    var files: map<string, VersionId>
    var trash: set<VersionId>
    var index: set<(GenerationId, ChunkId)>
    var answers: set<set<ChunkId>>
    const snapshots: map<VersionId, map<string, Count>>
    const runtime: Manifest

    function W(): World
      reads this
    {
      World(db, snapshots, files, trash, index, answers)
    }

    constructor (w: World, runtime: Manifest)
      ensures W() == w && this.runtime == runtime
    {
      db, files, trash, index, answers, snapshots := w.db, w.files, w.trash, w.index, w.answers, w.snapshots;
      this.runtime := runtime;
    }

    // ---- The Vault ----

    method Recycle(path: string, v: VersionId) returns (ok: bool)
      modifies this`files, this`trash
      ensures ok == if path in old(files) then old(files)[path] == v && v !in old(trash) else v in old(trash)
      ensures ok ==> files == old(files) - {path} && trash == old(trash) + {v}
      ensures !ok ==> files == old(files) && trash == old(trash)
    {
      if path !in files {
        ok := v in trash;
      } else if files[path] != v || v in trash {
        ok := false;
      } else {
        files, trash := files - {path}, trash + {v};
        ok := true;
      }
      assert ok ==> files == old(files) - {path} && trash == old(trash) + {v};
    }

    method RestoreRecycled(path: string, v: VersionId) returns (ok: bool)
      modifies this`files, this`trash
      ensures ok == if path in old(files) then old(files)[path] == v && v !in old(trash) else v in old(trash)
      ensures ok ==> files == old(files)[path := v] && trash == old(trash) - {v}
      ensures !ok ==> files == old(files) && trash == old(trash)
    {
      if path in files {
        ok := files[path] == v && v !in trash;
      } else if v !in trash {
        ok := false;
      } else {
        files, trash := files[path := v], trash - {v};
        ok := true;
      }
      assert ok ==> files == old(files)[path := v] && trash == old(trash) - {v};
    }

    // ---- The index and the answers, written in whole or, in a crash, in part ----

    method Upsert(g: GenerationId, chunks: set<ChunkId>)
      modifies this`index
      ensures index == old(index) + set c | c in chunks :: (g, c)
    {
      index := index + set c | c in chunks :: (g, c);
    }

    method DeleteChunks(g: GenerationId, chunks: set<ChunkId>)
      modifies this`index
      ensures index == old(index) - set c | c in chunks :: (g, c)
    {
      index := index - set c | c in chunks :: (g, c);
    }

    method PurgeAnswers(chunks: set<ChunkId>, within: set<set<ChunkId>>)
      modifies this`answers
      ensures answers == set a | a in old(answers) && (a !in within || a !! chunks)
    {
      answers := set a | a in answers && (a !in within || a !! chunks);
    }

    // ---- Loading ----

    method Load(n: NoteId) returns (c: Option<Context>)
      requires Safe(W())
      ensures c.Some? == Loadable(db, n, runtime)
      ensures c.Some? ==>
        && c.value.version == db.notes[n].version.value && c.value.generation == db.notes[n].generation.value
        && c.value.job in db.jobs && OwnJob(db, n, c.value.job)
        && (forall status :: OwnStatus(db, n, status) <==> db.jobs[c.value.job].status == status)
        && (db.Live(n) <==> db.jobs[c.value.job].status.ActiveIndexed?)
    {
      if n !in db.notes || db.notes[n].version.None? || db.notes[n].generation.None? {
        return None;
      }
      var v, g := db.notes[n].version.value, db.notes[n].generation.value;
      assert InCustody(W(), n);
      var session := new PublicationRepository.Open(db);
      ghost var own :| own in db.jobs && OwnJob(db, n, own);
      assert db.Indexes(own, v, g);
      var j := session.FindVersionIndexJob(v, g);
      assert session.Contents() == db;
      assert j.Some?;
      if db.generations[g].manifest.chunker != runtime.chunker {
        return None;
      }
      OwnJobTells(W(), n, j.value);
      c := Some(Context(v, g, j.value));
    }

    // One index-job step in a transaction of its own.
    method CommitJob(j: JobId, status: JobStatus)
      requires j in db.jobs && CanMoveJob(db.jobs[j].status, status)
      modifies this`db
      ensures db == SetJob(old(db), j, status)
    {
      var session := new PublicationRepository.Open(db);
      var _ := session.TransitionIndexJob(j, status, db.jobs[j].revision);
      db := session.Contents();
    }

    // ---- Steps, each of which leaves the world safe ----

    // The first step of a deletion: the note stops being served.
    method Exclude(n: NoteId, c: Context)
      requires Safe(W()) && db.Published(n) && db.Live(n) && c.job in db.jobs && OwnJob(db, n, c.job)
      modifies this`db
      ensures Safe(W()) && TouchesOnly(old(W()), W(), n)
      ensures db.notes[n].deleted && db.jobs[c.job].status.DeletePending?
      ensures W().Chunks(c.version, c.generation) == old(W()).Chunks(c.version, c.generation)
      ensures W().PathFree(n, c.version) == old(W()).PathFree(n, c.version)
    {
      OwnJobTells(W(), n, c.job);
      ghost var before := W();
      var session := new PublicationRepository.Open(db);
      var _ := session.PrepareNoteDeletion(n, c.job, db.notes[n].revision, db.jobs[c.job].revision);
      db := session.Contents();
      MarkIsSafe(before, n, c.job, true, W());
      SameChunks(before, W(), c.version, c.generation);
    }

    // The last step of a restoration: the note is served again.
    method Readmit(n: NoteId, c: Context) returns (ok: bool)
      requires Safe(W()) && db.Published(n) && !db.Live(n) && c.job in db.jobs && OwnJob(db, n, c.job)
      requires db.jobs[c.job].status.Indexed? && W().InPlace(n, db.notes[n].version.value)
      modifies this`db
      ensures Safe(W()) && TouchesOnly(old(W()), W(), n)
      ensures ok == !PathTaken(old(db), n, old(db).notes[n].path)
      ensures ok ==> !db.notes[n].deleted && db.jobs[c.job].status.ActiveIndexed?
      ensures !ok ==> db == old(db)
    {
      var session := new PublicationRepository.Open(db);
      var restored := session.RestoreNote(n, c.job, db.notes[n].revision, db.jobs[c.job].revision);
      if restored.Err? {
        return false;
      }
      ghost var before := W();
      db := session.Contents();
      MarkIsSafe(before, n, c.job, false, W());
      ok := true;
    }

    // The own job of a deleted note takes one declared step.
    method StepOwnJob(n: NoteId, c: Context, status: JobStatus)
      requires Safe(W()) && db.Published(n) && !db.Live(n) && c.job in db.jobs && OwnJob(db, n, c.job)
      requires CanMoveJob(db.jobs[c.job].status, status) && !status.ActiveIndexed? && !status.DeletePending?
      requires Custody(W(), n, status)
      requires status.Indexed? ==> W().Present(db.notes[n].version.value, db.notes[n].generation.value)
      requires status.Deleted? ==> W().Absent(db.notes[n].version.value, db.notes[n].generation.value)
      modifies this`db
      ensures Safe(W()) && TouchesOnly(old(W()), W(), n)
      ensures db.notes == old(db).notes && db.jobs[c.job].status == status
    {
      ghost var before := W();
      CommitJob(c.job, status);
      OwnJobsAre(before.db, n, c.job);
      forall m | before.db.Published(m) && OwnJob(before.db, m, c.job) ensures m == n {
        OwnerIsUnique(before.db, m, n, c.job);
      }
      assert Erasing(db, c.job);
      MoveJobSafe(before, c.job, status, W());
    }

    // Erase some of the chunks of a deleted note.
    method Unindex(n: NoteId, c: Context, chunks: set<ChunkId>)
      requires Safe(W()) && db.Published(n) && !db.Live(n) && c.job in db.jobs && OwnJob(db, n, c.job)
      requires c.generation == db.notes[n].generation.value
      requires chunks <= W().Chunks(db.notes[n].version.value, c.generation)
      requires db.jobs[c.job].status.DeletePending? || db.jobs[c.job].status.Deleted?
      modifies this`index
      ensures Safe(W()) && TouchesOnly(old(W()), W(), n)
      ensures forall k :: k in chunks ==> (c.generation, k) !in index
    {
      OwnJobTells(W(), n, c.job);
      ghost var before := W();
      DeleteChunks(c.generation, chunks);
      IndexSafe(before, c.job, W());
    }

    // Write some of the chunks of a note whose job is not DELETED.
    method Reindex(n: NoteId, c: Context, chunks: set<ChunkId>)
      requires Safe(W()) && db.Published(n) && c.job in db.jobs && OwnJob(db, n, c.job)
      requires c.generation == db.notes[n].generation.value
      requires chunks <= W().Chunks(db.notes[n].version.value, c.generation)
      requires !db.jobs[c.job].status.Deleted?
      modifies this`index
      ensures Safe(W()) && TouchesOnly(old(W()), W(), n) && old(index) <= index
      ensures forall k :: k in chunks ==> (c.generation, k) in index
    {
      OwnJobTells(W(), n, c.job);
      ghost var before := W();
      Upsert(c.generation, chunks);
      IndexSafe(before, c.job, W());
    }

    // ---- The commands ----

    method Delete(n: NoteId, fault: Fault) returns (o: Outcome)
      requires Safe(W())
      modifies this`db, this`files, this`trash, this`index, this`answers
      ensures Safe(W())
      ensures if old(db).Published(n) then TouchesOnly(old(W()), W(), n) else W() == old(W())
      ensures !Loadable(old(db), n, runtime) ==> o.Refused? && W() == old(W())
      ensures o.Done? ==> db.Published(n) && !db.Live(n) && OwnStatus(db, n, JobStatus.Deleted)
      ensures forall p :: p in files ==> p in old(files) && files[p] == old(files)[p]
      ensures o.Done? ==>
        var v, g := db.notes[n].version.value, db.notes[n].generation.value;
        answers == Purged(old(answers), old(W()).Chunks(v, g))
      ensures Deletable(old(W()), n, runtime) ==> Deletable(W(), n, runtime)
      ensures Departing(old(db), n) ==> Departing(db, n)
      ensures !old(db).Live(n) ==> !db.Live(n)
      ensures Loadable(old(db), n, runtime) && fault.crashAt > 0 ==> !db.Live(n)
      ensures Deletable(old(W()), n, runtime) && fault.crashAt > 1 ==> !W().InPlace(n, db.notes[n].version.value)
      ensures !o.Done? ==> if Loadable(old(db), n, runtime) && old(db).Live(n) && fault.crashAt > 0
                           then OwnStatus(db, n, JobStatus.DeletePending) else db == old(db)
      ensures o.Refused? ==> W() == old(W()).(db := db)
      ensures old(db).Published(n) ==> ErasedInOrder(old(W()), W(), n)
      ensures Loadable(old(db), n, runtime) && fault.crashAt == 2 && Deletable(old(W()), n, runtime) ==> o.Crashed?
      ensures fault.crashAt > 4 ==> (o.Done? <==> Deletable(old(W()), n, runtime))
    {
      hide Safe;
      var c := Load(n);
      if c.None? {
        return Refused;
      }
      DeletableTells(W(), n, c.value.job, runtime);
      o := DeleteLoaded(n, c.value, fault);
      DeletableTells(W(), n, c.value.job, runtime);
    }

    method DeleteLoaded(n: NoteId, c: Context, fault: Fault) returns (o: Outcome)
      requires Safe(W()) && db.Published(n) && c.job in db.jobs && OwnJob(db, n, c.job)
      requires c.version == db.notes[n].version.value && c.generation == db.notes[n].generation.value
      modifies this`db, this`files, this`trash, this`index, this`answers
      ensures Safe(W()) && TouchesOnly(old(W()), W(), n)
      ensures db.Published(n) && c.job in db.jobs && OwnJob(db, n, c.job)
      ensures o.Done? ==> !db.Live(n) && db.jobs[c.job].status.Deleted?
      ensures old(W()).PathFree(n, c.version) ==> W().PathFree(n, c.version)
      ensures Leaving(old(db), n, c.job) ==> Leaving(db, n, c.job)
      ensures !old(db).Live(n) || fault.crashAt > 0 ==> !db.Live(n)
      ensures old(W()).PathFree(n, c.version) && Leaving(old(db), n, c.job) && fault.crashAt > 1 ==>
                !W().InPlace(n, c.version)
      ensures !o.Done? ==> if old(db).Live(n) && fault.crashAt > 0 then db.jobs[c.job].status.DeletePending?
                           else db == old(db)
      ensures o.Refused? ==> W() == old(W()).(db := db)
      ensures ErasedInOrder(old(W()), W(), n)
      ensures old(W()).PathFree(n, c.version) && Leaving(old(db), n, c.job) && fault.crashAt == 2 ==> o.Crashed?
      ensures forall p :: p in files ==> p in old(files) && files[p] == old(files)[p]
      ensures o.Done? ==> answers == Purged(old(answers), old(W()).Chunks(c.version, c.generation))
      ensures fault.crashAt > 4 ==> (o.Done? <==> old(W()).PathFree(n, c.version) && Leaving(old(db), n, c.job))
    {
      if !db.notes[n].deleted {
        o := DeleteLive(n, c, fault);
      } else if !db.jobs[c.job].status.DeletePending? && !db.jobs[c.job].status.Deleted? {
        o := Refused;
      } else {
        o := FinishDeletion(n, c, fault);
      }
    }

    method DeleteLive(n: NoteId, c: Context, fault: Fault) returns (o: Outcome)
      requires Safe(W()) && db.Published(n) && db.Live(n) && c.job in db.jobs && OwnJob(db, n, c.job)
      requires c.version == db.notes[n].version.value && c.generation == db.notes[n].generation.value
      modifies this`db, this`files, this`trash, this`index, this`answers
      ensures Safe(W()) && TouchesOnly(old(W()), W(), n)
      ensures c.job in db.jobs && Leaving(db, n, c.job)
      ensures fault.crashAt > 0 ==> !db.Live(n)
      ensures old(W()).PathFree(n, c.version) && fault.crashAt > 1 ==> !W().InPlace(n, c.version)
      ensures !o.Done? ==> if fault.crashAt > 0 then db.jobs[c.job].status.DeletePending? else db == old(db)
      ensures o.Refused? ==> W() == old(W()).(db := db)
      ensures ErasedInOrder(old(W()), W(), n)
      ensures old(W()).PathFree(n, c.version) && fault.crashAt == 2 ==> o.Crashed?
      ensures o.Done? ==> !db.Live(n) && db.jobs[c.job].status.Deleted?
      ensures old(W()).PathFree(n, c.version) ==> W().PathFree(n, c.version)
      ensures forall p :: p in files ==> p in old(files) && files[p] == old(files)[p]
      ensures o.Done? ==> answers == Purged(old(answers), old(W()).Chunks(c.version, c.generation))
      ensures fault.crashAt > 4 ==> (o.Done? <==> old(W()).PathFree(n, c.version))
    {
      hide Safe;
      if fault.crashAt == 0 {
        return Crashed;
      }
      ghost var before := W();
      Exclude(n, c);
      ghost var excluded := W();
      o := FinishDeletion(n, c, fault);
      TouchesOnlyTwice(before, excluded, W(), n);
    }

    // Everything after the exclusion, for a note whose job is DELETE_PENDING or DELETED.
    method FinishDeletion(n: NoteId, c: Context, fault: Fault) returns (o: Outcome)
      requires Safe(W()) && db.Published(n) && !db.Live(n) && c.job in db.jobs && OwnJob(db, n, c.job)
      requires c.version == db.notes[n].version.value && c.generation == db.notes[n].generation.value
      requires db.jobs[c.job].status.DeletePending? || db.jobs[c.job].status.Deleted?
      modifies this`db, this`files, this`trash, this`index, this`answers
      ensures Safe(W()) && TouchesOnly(old(W()), W(), n) && db.notes == old(db).notes
      ensures c.job in db.jobs && (db.jobs[c.job].status.DeletePending? || db.jobs[c.job].status.Deleted?)
      ensures if o.Done? then db.jobs[c.job].status.Deleted? else db == old(db)
      ensures o.Refused? ==> W() == old(W())
      ensures ErasedInOrder(old(W()), W(), n)
      ensures old(W()).PathFree(n, c.version) && fault.crashAt > 1 ==> !W().InPlace(n, c.version)
      ensures old(W()).PathFree(n, c.version) && fault.crashAt == 2 ==> o.Crashed?
      ensures old(W()).PathFree(n, c.version) ==> W().PathFree(n, c.version)
      ensures forall p :: p in files ==> p in old(files) && files[p] == old(files)[p]
      ensures o.Done? ==> answers == Purged(old(answers), old(W()).Chunks(c.version, c.generation))
      ensures fault.crashAt > 4 ==> (o.Done? <==> old(W()).PathFree(n, c.version))
    {
      hide Safe;
      ghost var before := W();
      o := EraseCopies(n, c, fault);
      if !o.Done? {
        return;
      }
      if fault.crashAt == 4 {
        return Crashed;
      }
      ghost var erased := W();
      if db.jobs[c.job].status.DeletePending? {
        StepOwnJob(n, c, JobStatus.Deleted);
        TouchesOnlyTwice(before, erased, W(), n);
      }
    }

    // The file of a deleted note goes to the trash, unless another note's file took its path.
    method RecycleOwn(n: NoteId, c: Context) returns (ok: bool)
      requires Safe(W()) && db.Published(n) && !db.Live(n) && c.job in db.jobs && OwnJob(db, n, c.job)
      requires c.version == db.notes[n].version.value
      requires db.jobs[c.job].status.DeletePending? || db.jobs[c.job].status.Deleted?
      modifies this`files, this`trash
      ensures Safe(W()) && TouchesOnly(old(W()), W(), n)
      ensures ok <==> old(W()).PathFree(n, c.version)
      ensures ok ==> W().PathFree(n, c.version) && !W().InPlace(n, c.version) && c.version in trash
      ensures if ok then db.notes[n].path !in files else W() == old(W())
      ensures forall p :: p in files ==> p in old(files) && files[p] == old(files)[p]
    {
      ghost var before := W();
      OwnJobTells(before, n, c.job);
      ok := Recycle(db.notes[n].path, c.version);
      if ok {
        FilesSafe(before, n, W());
      }
    }

    // Vault, index and answers, in this order.
    method EraseCopies(n: NoteId, c: Context, fault: Fault) returns (o: Outcome)
      requires Safe(W()) && db.Published(n) && !db.Live(n) && c.job in db.jobs && OwnJob(db, n, c.job)
      requires c.version == db.notes[n].version.value && c.generation == db.notes[n].generation.value
      requires db.jobs[c.job].status.DeletePending? || db.jobs[c.job].status.Deleted?
      modifies this`files, this`trash, this`index, this`answers
      ensures Safe(W()) && TouchesOnly(old(W()), W(), n)
      ensures o.Done? ==> Custody(W(), n, JobStatus.Deleted) && W().Absent(c.version, c.generation)
      ensures old(W()).PathFree(n, c.version) && fault.crashAt > 1 ==> !W().InPlace(n, c.version)
      ensures old(W()).PathFree(n, c.version) && fault.crashAt == 2 ==> o.Crashed?
      ensures old(W()).PathFree(n, c.version) ==> W().PathFree(n, c.version)
      ensures forall p :: p in files ==> p in old(files) && files[p] == old(files)[p]
      ensures o.Done? ==> answers == Purged(old(answers), old(W()).Chunks(c.version, c.generation))
      ensures fault.crashAt > 3 ==> (o.Done? <==> old(W()).PathFree(n, c.version))
      ensures !o.Done? ==> fault.crashAt <= 3 || o.Refused?
      ensures o.Refused? ==> W() == old(W())
      ensures ErasedInOrder(old(W()), W(), n)
    {
      hide Safe;
      ghost var before := W();
      if fault.crashAt <= 1 {
        return Crashed;
      }
      var ok := RecycleOwn(n, c);
      if !ok {
        return Refused;
      }
      ghost var recycled := W();
      o := EraseChunks(n, c, fault);
      TouchesOnlyTwice(before, recycled, W(), n);
    }

    method EraseChunks(n: NoteId, c: Context, fault: Fault) returns (o: Outcome)
      requires Safe(W()) && db.Published(n) && !db.Live(n) && c.job in db.jobs && OwnJob(db, n, c.job)
      requires c.version == db.notes[n].version.value && c.generation == db.notes[n].generation.value
      requires db.jobs[c.job].status.DeletePending? || db.jobs[c.job].status.Deleted?
      modifies this`index, this`answers
      ensures Safe(W()) && TouchesOnly(old(W()), W(), n)
      ensures o == if fault.crashAt == 2 || fault.crashAt == 3 then Crashed else Done
      ensures o.Done? ==> W().Uncited(c.version, c.generation) && W().Absent(c.version, c.generation)
      ensures answers == old(answers) || W().Absent(c.version, c.generation)
      ensures o.Done? ==> answers == Purged(old(answers), old(W()).Chunks(c.version, c.generation))
    {
      hide Safe;
      ghost var before := W();
      var chunks := W().Chunks(c.version, c.generation);
      Unindex(n, c, if fault.crashAt == 2 then chunks * fault.chunks else chunks);
      if fault.crashAt == 2 {
        return Crashed;
      }
      ghost var unindexed := W();
      PurgeAnswers(chunks, if fault.crashAt == 3 then fault.answers else answers);
      AnswersSafe(unindexed, W());
      TouchesOnlyTwice(before, unindexed, W(), n);
      o := if fault.crashAt == 3 then Crashed else Done;
    }

    method Restore(n: NoteId, fault: Fault) returns (o: Outcome)
      requires Safe(W())
      modifies this`db, this`files, this`trash, this`index
      ensures Safe(W())
      ensures if old(db).Published(n) then TouchesOnly(old(W()), W(), n) else W() == old(W())
      ensures !Loadable(old(db), n, runtime) ==> o.Refused? && W() == old(W())
      ensures answers == old(answers)
      ensures o.Done? ==> db.Published(n) && db.Live(n)
      ensures !o.Done? && !old(db).Live(n) ==> !db.Live(n)
      ensures !o.Done? ==> db.notes == old(db).notes
      ensures old(db).Published(n) ==> ReopenedInOrder(old(W()), W(), n)
      ensures old(db).Live(n) ==> W() == old(W()).(index := index)
      ensures OwnStatus(old(db), n, JobStatus.DeletePending) ==> o.Refused? && W() == old(W())
      ensures Loadable(old(db), n, runtime) && AwaitsIndexing(old(db), n) && fault.crashAt > 1
              && (fault.indexFails || !Embeds(old(db), old(db).notes[n].generation.value, runtime)) ==>
                o.Refused? && OwnStatus(db, n, JobStatus.Failed) && files == old(files) && trash == old(trash)
      ensures Restorable(old(W()), n, runtime) && !o.Done? ==> Restorable(W(), n, runtime)
      ensures fault.crashAt > 4 && !fault.indexFails ==> (o.Done? <==> Restorable(old(W()), n, runtime))
    {
      hide Safe;
      var c := Load(n);
      if c.None? {
        return Refused;
      }
      ghost var before := W();
      RestorableTells(before, n, c.value.job, runtime);
      o := RestoreLoaded(n, c.value, fault);
      if !o.Done? {
        StaysRestorable(before, W(), n, c.value.job, runtime);
      }
    }

    method RestoreLoaded(n: NoteId, c: Context, fault: Fault) returns (o: Outcome)
      requires Safe(W()) && db.Published(n) && c.job in db.jobs && OwnJob(db, n, c.job)
      requires c.version == db.notes[n].version.value && c.generation == db.notes[n].generation.value
      modifies this`db, this`files, this`trash, this`index
      ensures Safe(W()) && TouchesOnly(old(W()), W(), n)
      ensures db.Published(n) && c.job in db.jobs && OwnJob(db, n, c.job)
      ensures o.Done? ==> db.Live(n)
      ensures !o.Done? && !old(db).Live(n) ==> !db.Live(n)
      ensures !o.Done? ==> db.notes == old(db).notes
      ensures ReopenedInOrder(old(W()), W(), n)
      ensures old(db).Live(n) ==> W() == old(W()).(index := index)
      ensures !old(db).Live(n) && old(db).jobs[c.job].status.DeletePending? ==> o.Refused? && W() == old(W())
      ensures !old(db).Live(n) && !old(db).jobs[c.job].status.DeletePending? && fault.crashAt > 1
              && FailsToIndex(old(db), c, fault) ==>
                o.Refused? && db.jobs[c.job].status.Failed? && files == old(files) && trash == old(trash)
      ensures old(W()).PathFree(n, c.version) ==> W().PathFree(n, c.version)
      ensures !old(db).jobs[c.job].status.DeletePending? ==> !db.jobs[c.job].status.DeletePending?
      ensures !o.Done? && old(db).jobs[c.job].status.Indexed? ==> db == old(db)
      ensures fault.crashAt > 4 && !fault.indexFails ==>
        (o.Done? <==> old(W()).PathFree(n, c.version) && Returning(old(db), n, c.job, runtime))
    {
      hide Safe;
      if !db.notes[n].deleted {
        OwnJobTells(W(), n, c.job);
        o := RefreshLive(n, c, fault);
      } else if db.jobs[c.job].status.DeletePending? {
        o := Refused;
      } else {
        o := RestoreDeleted(n, c, fault);
      }
    }

    method RestoreDeleted(n: NoteId, c: Context, fault: Fault) returns (o: Outcome)
      requires Safe(W()) && db.Published(n) && !db.Live(n) && c.job in db.jobs && OwnJob(db, n, c.job)
      requires c.version == db.notes[n].version.value && c.generation == db.notes[n].generation.value
      requires !db.jobs[c.job].status.DeletePending?
      modifies this`db, this`files, this`trash, this`index
      ensures Safe(W()) && TouchesOnly(old(W()), W(), n)
      ensures c.job in db.jobs && !db.jobs[c.job].status.DeletePending?
      ensures old(W()).PathFree(n, c.version) ==> W().PathFree(n, c.version)
      ensures o.Done? <==> db.Live(n)
      ensures !o.Done? ==> db.notes == old(db).notes
      ensures ReopenedInOrder(old(W()), W(), n)
      ensures fault.crashAt > 1 && FailsToIndex(old(db), c, fault) ==>
                o.Refused? && db.jobs[c.job].status.Failed? && files == old(files) && trash == old(trash)
      ensures !o.Done? && old(db).jobs[c.job].status.Indexed? ==> db == old(db)
      ensures fault.crashAt > 4 && !fault.indexFails ==>
        (o.Done? <==> old(W()).PathFree(n, c.version) && !PathTaken(old(db), n, old(db).notes[n].path)
                      && (Embeds(old(db), c.generation, runtime) || old(db).jobs[c.job].status.Indexed?))
    {
      hide Safe;
      ghost var before := W();
      o := RebuildChunks(n, c, fault);
      if !o.Done? {
        return;
      }
      ghost var rebuilt := W();
      SamePathTaken(before.db, rebuilt.db, n);
      o := Reopen(n, c, fault);
      ReopenedLater(before, rebuilt, W(), n);
    }

    // The chunks of the job are to be written, and writing them fails.
    predicate FailsToIndex(before: Db, c: Context, fault: Fault)
      requires c.job in before.jobs
    {
      !before.jobs[c.job].status.Indexed? && (fault.indexFails || !Embeds(before, c.generation, runtime))
    }

    // Restoring a live note verifies its file and writes its chunks again.
    method RefreshLive(n: NoteId, c: Context, fault: Fault) returns (o: Outcome)
      requires Safe(W()) && db.Published(n) && db.Live(n) && c.job in db.jobs && OwnJob(db, n, c.job)
      requires c.version == db.notes[n].version.value && c.generation == db.notes[n].generation.value
      modifies this`index
      ensures Safe(W()) && TouchesOnly(old(W()), W(), n) && old(index) <= index
      ensures fault.crashAt > 4 && !fault.indexFails ==> (o.Done? <==> Embeds(db, c.generation, runtime))
    {
      OwnJobTells(W(), n, c.job);
      if !Embeds(db, c.generation, runtime) {
        return Refused;
      }
      var whole := fault.crashAt > 4 && !fault.indexFails;
      var chunks := W().Chunks(c.version, c.generation);
      Reindex(n, c, if whole then chunks else chunks * fault.chunks);
      o := if whole then Done else if fault.indexFails then Refused else Crashed;
    }

    // The file of a deleted note comes back, unless another note's file took its path.
    method BringBack(n: NoteId, c: Context) returns (ok: bool)
      requires Safe(W()) && db.Published(n) && !db.Live(n) && c.job in db.jobs && OwnJob(db, n, c.job)
      requires c.version == db.notes[n].version.value && db.jobs[c.job].status.Indexed?
      modifies this`files, this`trash
      ensures Safe(W()) && TouchesOnly(old(W()), W(), n) && ReopenedInOrder(old(W()), W(), n)
      ensures ok <==> old(W()).PathFree(n, c.version)
      ensures if ok then W().PathFree(n, c.version) && W().InPlace(n, c.version) else W() == old(W())
    {
      ghost var before := W();
      OwnJobTells(before, n, c.job);
      ok := RestoreRecycled(db.notes[n].path, c.version);
      if ok {
        FilesSafe(before, n, W());
        OwnJobTells(W(), n, c.job);
      }
    }

    // The file comes back and is verified, then the note is readmitted.
    method Reopen(n: NoteId, c: Context, fault: Fault) returns (o: Outcome)
      requires Safe(W()) && db.Published(n) && !db.Live(n) && c.job in db.jobs && OwnJob(db, n, c.job)
      requires c.version == db.notes[n].version.value && c.generation == db.notes[n].generation.value
      requires db.jobs[c.job].status.Indexed?
      modifies this`db, this`files, this`trash
      ensures Safe(W()) && TouchesOnly(old(W()), W(), n)
      ensures c.job in db.jobs && !db.jobs[c.job].status.DeletePending?
      ensures old(W()).PathFree(n, c.version) ==> W().PathFree(n, c.version)
      ensures o.Done? ==> db.Live(n)
      ensures !o.Done? ==> db == old(db)
      ensures ReopenedInOrder(old(W()), W(), n)
      ensures fault.crashAt > 4 ==>
        (o.Done? <==> old(W()).PathFree(n, c.version) && !PathTaken(old(db), n, old(db).notes[n].path))
    {
      hide Safe;
      ghost var before := W();
      if fault.crashAt <= 3 {
        return Crashed;
      }
      var ok := BringBack(n, c);
      if !ok {
        return Refused;
      }
      ghost var inPlace := W();
      if fault.crashAt == 4 {
        return Crashed;
      }
      ok := Readmit(n, c);
      TouchesOnlyTwice(before, inPlace, W(), n);
      o := if ok then Done else Refused;
    }

    // From DELETED, FAILED, PENDING or INDEXING to INDEXED, each commit in its own step.
    method RebuildChunks(n: NoteId, c: Context, fault: Fault) returns (o: Outcome)
      requires Safe(W()) && db.Published(n) && !db.Live(n) && c.job in db.jobs && OwnJob(db, n, c.job)
      requires c.version == db.notes[n].version.value && c.generation == db.notes[n].generation.value
      requires !db.jobs[c.job].status.DeletePending?
      modifies this`db, this`index
      ensures Safe(W()) && TouchesOnly(old(W()), W(), n) && db.notes == old(db).notes
      ensures c.job in db.jobs && !db.jobs[c.job].status.DeletePending?
      ensures o.Done? ==> db.jobs[c.job].status.Indexed?
      ensures old(db).jobs[c.job].status.Indexed? ==> db == old(db)
      ensures old(index) <= index
      ensures fault.crashAt > 1 && FailsToIndex(old(db), c, fault) ==> o.Refused? && db.jobs[c.job].status.Failed?
      ensures fault.crashAt > 2 && !fault.indexFails ==>
        (o.Done? <==> Embeds(db, c.generation, runtime) || old(db).jobs[c.job].status.Indexed?)
    {
      hide Safe;
      ghost var before := W();
      if fault.crashAt == 0 {
        return Crashed;
      }
      StartIndexing(n, c);
      if db.jobs[c.job].status.Indexed? {
        return Done;
      }
      ghost var indexing := W();
      o := WriteChunks(n, c, fault);
      TouchesOnlyTwice(before, indexing, W(), n);
    }

    method StartIndexing(n: NoteId, c: Context)
      requires Safe(W()) && db.Published(n) && !db.Live(n) && c.job in db.jobs && OwnJob(db, n, c.job)
      requires !db.jobs[c.job].status.DeletePending?
      modifies this`db
      ensures Safe(W()) && TouchesOnly(old(W()), W(), n) && db.notes == old(db).notes
      ensures c.job in db.jobs && (db.jobs[c.job].status.Indexing? || db.jobs[c.job].status.Indexed?)
      ensures if old(db).jobs[c.job].status.Indexed? then db == old(db) else db.jobs[c.job].status.Indexing?
    {
      ghost var before := W();
      OwnJobTells(before, n, c.job);
      if db.jobs[c.job].status.Deleted? || db.jobs[c.job].status.Failed? {
        StepOwnJob(n, c, JobStatus.Pending);
      }
      ghost var pending := W();
      if db.jobs[c.job].status.Pending? {
        StepOwnJob(n, c, JobStatus.Indexing);
        TouchesOnlyTwice(before, pending, W(), n);
      }
    }

    method WriteChunks(n: NoteId, c: Context, fault: Fault) returns (o: Outcome)
      requires Safe(W()) && db.Published(n) && !db.Live(n) && c.job in db.jobs && OwnJob(db, n, c.job)
      requires c.version == db.notes[n].version.value && c.generation == db.notes[n].generation.value
      requires db.jobs[c.job].status.Indexing?
      modifies this`db, this`index
      ensures Safe(W()) && TouchesOnly(old(W()), W(), n) && db.notes == old(db).notes
      ensures c.job in db.jobs && !db.jobs[c.job].status.DeletePending?
      ensures o.Done? ==> db.jobs[c.job].status.Indexed?
      ensures old(index) <= index
      ensures fault.crashAt > 1 && (fault.indexFails || !Embeds(old(db), c.generation, runtime)) ==>
                o.Refused? && db.jobs[c.job].status.Failed?
      ensures fault.crashAt > 2 && !fault.indexFails ==> (o.Done? <==> Embeds(db, c.generation, runtime))
    {
      ghost var before := W();
      var embeds := Embeds(db, c.generation, runtime);
      var chunks := if embeds then W().Chunks(c.version, c.generation) else {};
      Reindex(n, c, if fault.crashAt == 1 || fault.indexFails then chunks * fault.chunks else chunks);
      ghost var written := W();
      OwnJobTells(written, n, c.job);
      if fault.crashAt == 1 || (fault.crashAt == 2 && embeds && !fault.indexFails) {
        return Crashed;
      }
      if !embeds || fault.indexFails {
        StepOwnJob(n, c, JobStatus.Failed);
        o := Refused;
      } else {
        StepOwnJob(n, c, JobStatus.Indexed);
        o := Done;
      }
      TouchesOnlyTwice(before, written, W(), n);
    }

    // ---- Moving the fleet between generations ----

    // Populate a STAGING generation with every note that the serving generation shows.
    method Rebuild(t: GenerationId, faults: map<NoteId, Fault>) returns (o: Outcome)
      requires Safe(W())
      modifies this`db, this`index
      ensures Safe(W()) && db == old(db).(jobs := db.jobs)
      ensures JobsKeptOutside(old(db), db, t)
      ensures Rebuildable(old(W()), t, runtime) ==>
        var movers := Movers(old(db), ActiveGeneration(old(db)).value);
        BuildsFor(old(db), db, movers, t) && Fills(old(W()), W(), movers, t)
      ensures o.Done? ==> Migratable(db, t) && MadeFor(db, t, runtime)
                          && SwitchJobsReady(db, ActiveGeneration(db).value, t, JobStatus.Indexed)
      ensures !Rebuildable(old(W()), t, runtime) ==> o.Refused? && W() == old(W())
      ensures Rebuildable(old(W()), t, runtime) && o.Refused? ==>
        exists n :: n in Movers(old(db), ActiveGeneration(old(db)).value)
                    && db.HasJob(db.notes[n].version.value, t, JobStatus.Failed)
      ensures faults == map[] ==> (o.Done? <==> Rebuildable(old(W()), t, runtime))
    {
      hide BuildsFor, Fills;
      var session := new PublicationRepository.Open(db);
      var active := session.SelectActiveGeneration();
      if active.None? || !db.HasGeneration(t, GenerationStatus.Staging) || !MadeFor(db, t, runtime) {
        return Refused;
      }
      if exists n :: n in Movers(db, active.value) && !W().Chunkable(db.notes[n].version.value, t) {
        return Refused;
      }
      ghost var before := db;
      var source := active.value;
      o := IndexAll(source, t, faults);
      assert forall g, s :: db.HasGeneration(g, s) == before.HasGeneration(g, s);
      ActiveIsThe(db, source);
    }

    method IndexAll(source: GenerationId, t: GenerationId, faults: map<NoteId, Fault>) returns (o: Outcome)
      requires Safe(W())
      requires db.HasGeneration(source, GenerationStatus.Active) && db.HasGeneration(t, GenerationStatus.Staging)
      requires forall n :: n in Movers(db, source) ==> W().Chunkable(db.notes[n].version.value, t)
      modifies this`db, this`index
      ensures Safe(W()) && db == old(db).(jobs := db.jobs)
      ensures JobsKeptOutside(old(db), db, t)
      ensures BuildsFor(old(db), db, Movers(old(db), source), t)
      ensures Fills(old(W()), W(), Movers(old(db), source), t)
      ensures o.Done? ==> SwitchJobsReady(db, source, t, JobStatus.Indexed)
      ensures o.Refused? ==> exists n :: n in Movers(old(db), source)
                                         && db.HasJob(db.notes[n].version.value, t, JobStatus.Failed)
      ensures faults == map[] ==> o.Done?
    {
      ghost var before, start := db, W();
      var movers := Movers(db, source);
      MoversAreServed(db, source);
      var rest := movers;
      ghost var done := {};
      while rest != {}
        invariant Safe(W()) && done + rest == movers && done !! rest
        invariant BuildProgress(before, db, movers, done, source, t)
        invariant BuildsFor(before, db, movers, t) && Fills(start, W(), movers, t)
        decreases rest
      {
        var n :| n in rest;
        ghost var last := W();
        o := IndexNext(n, before, movers, done, source, t, if n in faults then faults[n] else NO_FAULT);
        FillsMore(start, last, W(), movers, n, t);
        if !o.Done? {
          return;
        }
        OneFewer(movers, done, rest, n);
        done, rest := done + {n}, rest - {n};
      }
      assert Movers(db, source) == movers;
      o := Done;
    }

    method IndexNext(n: NoteId, ghost before: Db, ghost movers: set<NoteId>, ghost done: set<NoteId>,
                     ghost source: GenerationId,
                     t: GenerationId, fault: Fault) returns (o: Outcome)
      requires Safe(W()) && BuildProgress(before, db, movers, done, source, t)
      requires n in movers && n !in done && done <= movers && W().Chunkable(db.notes[n].version.value, t)
      modifies this`db, this`index
      ensures Safe(W()) && db == before.(jobs := db.jobs) && JobsKeptOutside(before, db, t)
      ensures BuildsOnly(old(db), db, old(db).notes[n].version.value, t) && Fills(old(W()), W(), {n}, t)
      ensures o.Done? ==> BuildProgress(before, db, movers, done + {n}, source, t)
      ensures o.Refused? ==> db.HasJob(db.notes[n].version.value, t, JobStatus.Failed)
      ensures fault == NO_FAULT ==> o.Done?
    {
      ghost var last := db;
      o := IndexNote(n, t, fault);
      JobsKeptTwice(before, last, db, t);
      if o.Done? {
        BuildOneMore(before, last, db, movers, done, n, source, t);
        var verified := Verified(n, t);
        o := if verified then Done else Refused;
      }
    }

    // Index the current version of one note into generation t.
    method IndexNote(n: NoteId, t: GenerationId, fault: Fault) returns (o: Outcome)
      requires Safe(W()) && db.Live(n) && db.Published(n) && db.HasGeneration(t, GenerationStatus.Staging)
      requires W().Chunkable(db.notes[n].version.value, t)
      modifies this`db, this`index
      ensures Safe(W()) && BuildsOnly(old(db), db, old(db).notes[n].version.value, t) && Fills(old(W()), W(), {n}, t)
      ensures o.Done? ==> db.HasJob(db.notes[n].version.value, t, JobStatus.Indexed)
                          && W().Present(db.notes[n].version.value, t)
      ensures o.Refused? ==> db.HasJob(db.notes[n].version.value, t, JobStatus.Failed)
      ensures fault == NO_FAULT ==> o.Done?
    {
      hide Safe;
      if fault.crashAt == 0 {
        return Crashed;
      }
      var v := db.notes[n].version.value;
      VersionIsKnown(W(), n);
      ghost var before := db;
      var j := StartBuildJob(v, t);
      if db.jobs[j].status.Indexed? {
        IndexedIsPresent(W(), j, v, t);
        return Done;
      }
      ghost var started := db;
      o := WriteBuildChunks(j, v, t, fault);
      BuildsTwice(before, started, db, v, t);
    }

    // The version's job, created if need be, and moved on to INDEXING unless it is INDEXED.
    method StartBuildJob(v: VersionId, t: GenerationId) returns (j: JobId)
      requires Safe(W()) && v in db.versions && db.HasGeneration(t, GenerationStatus.Staging)
      modifies this`db
      ensures Safe(W()) && BuildsOnly(old(db), db, v, t)
      ensures db.Indexes(j, v, t) && (db.jobs[j].status.Indexing? || db.jobs[j].status.Indexed?)
    {
      ghost var before := db;
      j := FindOrAddJob(v, t);
      if db.jobs[j].status.Failed? {
        ghost var found := db;
        StepBuildJob(j, v, t, JobStatus.Pending);
        BuildsTwice(before, found, db, v, t);
      }
      if db.jobs[j].status.Pending? {
        ghost var pending := db;
        StepBuildJob(j, v, t, JobStatus.Indexing);
        BuildsTwice(before, pending, db, v, t);
      }
    }

    method FindOrAddJob(v: VersionId, t: GenerationId) returns (j: JobId)
      requires Safe(W()) && v in db.versions && db.HasGeneration(t, GenerationStatus.Staging)
      modifies this`db
      ensures Safe(W()) && BuildsOnly(old(db), db, v, t)
      ensures db.Indexes(j, v, t) && BuildStatus(db.jobs[j].status)
    {
      var session := new PublicationRepository.Open(db);
      var found := session.FindVersionIndexJob(v, t);
      if found.Some? {
        return found.value;
      }
      assert session.Contents() == db && forall i :: !session.Contents().Indexes(i, v, t);
      j := AddBuildJob(v, t);
    }

    method AddBuildJob(v: VersionId, t: GenerationId) returns (j: JobId)
      requires Safe(W()) && v in db.versions && db.HasGeneration(t, GenerationStatus.Staging)
      requires forall i :: !db.Indexes(i, v, t)
      modifies this`db
      ensures Safe(W()) && BuildsOnly(old(db), db, v, t)
      ensures db.Indexes(j, v, t) && db.jobs[j].status.Pending?
    {
      hide Safe, BuildsOnly;
      FreshExists(db.jobs.Keys);
      j :| j !in db.jobs;
      ghost var before := W();
      var session := new PublicationRepository.Open(db);
      var _ := session.AddIndexJob(j, CuratedVersion, v, t);
      db := session.Contents();
      BuildJobIsAdded(before, j, v, t, W());
    }

    method StepBuildJob(j: JobId, v: VersionId, t: GenerationId, status: JobStatus)
      requires Safe(W()) && db.Indexes(j, v, t) && db.HasGeneration(t, GenerationStatus.Staging)
      requires CanMoveJob(db.jobs[j].status, status) && BuildStatus(status)
      requires status.Indexed? ==> W().Present(v, t)
      modifies this`db
      ensures Safe(W()) && BuildsOnly(old(db), db, v, t)
      ensures db.Indexes(j, v, t) && db.jobs[j].status == status
    {
      ghost var before := W();
      CommitJob(j, status);
      forall i | before.db.Indexes(i, v, t) ensures i == j {
        JobIsUnique(before.db, i, j, v, t);
      }
      MoveJobSafe(before, j, status, W());
    }

    method WriteBuildChunks(j: JobId, v: VersionId, t: GenerationId, fault: Fault) returns (o: Outcome)
      requires Safe(W()) && db.Indexes(j, v, t) && db.HasGeneration(t, GenerationStatus.Staging)
      requires db.jobs[j].status.Indexing? && W().Chunkable(v, t)
      modifies this`db, this`index
      ensures Safe(W()) && BuildsOnly(old(db), db, v, t)
      ensures old(index) <= index
      ensures forall g, c :: (g, c) in index && (g, c) !in old(index) ==> g == t && c in old(W()).Chunks(v, t)
      ensures o.Done? ==> db.HasJob(v, t, JobStatus.Indexed) && W().Present(v, t)
      ensures o.Refused? ==> db.HasJob(v, t, JobStatus.Failed)
      ensures fault == NO_FAULT ==> o.Done?
    {
      ghost var before := W();
      var chunks := W().Chunks(v, t);
      Upsert(t, if fault.crashAt == 1 || fault.indexFails then chunks * fault.chunks else chunks);
      IndexSafe(before, j, W());
      if fault.crashAt == 1 || (fault.crashAt == 2 && !fault.indexFails) {
        return Crashed;
      }
      if fault.indexFails {
        StepBuildJob(j, v, t, JobStatus.Failed);
        o := Refused;
      } else {
        StepBuildJob(j, v, t, JobStatus.Indexed);
        o := Done;
      }
    }

    // Strong read-back of the chunks of one note that is to move.
    method Verified(n: NoteId, t: GenerationId) returns (ok: bool)
      requires n in db.notes && db.notes[n].version.Some?
      ensures ok == W().Present(db.notes[n].version.value, t)
    {
      ok := W().Present(db.notes[n].version.value, t);
    }

    // Even while the index is not what the jobs say: no switch to a generation that lacks a chunk of a live note.
    method Promote(t: GenerationId) returns (o: Outcome)
      requires Inv(db)
      modifies this`db
      ensures Safe(old(W())) ==> Safe(W())
      ensures o.Done? <==> Migratable(old(db), t) && MadeFor(old(db), t, runtime) && FleetPresent(old(W()), t)
                           && RepositorySpec.Promote(old(db), t, old(db).generations[t].revision).Ok?
      ensures Safe(old(W())) ==>
        (o.Done? <==> Migratable(old(db), t) && MadeFor(old(db), t, runtime)
                      && RepositorySpec.Promote(old(db), t, old(db).generations[t].revision).Ok?)
      ensures o.Done? ==> RepositorySpec.Promote(old(db), t, old(db).generations[t].revision) == Ok(db)
      ensures !o.Done? ==> o.Refused? && db == old(db)
    {
      if !MadeFor(db, t, runtime) {
        return Refused;
      }
      o := VerifyAndSwitch(t, GenerationStatus.Staging, JobStatus.Indexed);
    }

    method Rollback(t: GenerationId) returns (o: Outcome)
      requires Inv(db)
      modifies this`db
      ensures Safe(old(W())) ==> Safe(W())
      ensures o.Done? <==> ActiveGeneration(old(db)).Some? && old(db).HasGeneration(t, GenerationStatus.Superseded)
                           && KnowsChunker(old(db), t, runtime) && FleetPresent(old(W()), t)
                           && RepositorySpec.Rollback(old(db), t, old(db).generations[t].revision).Ok?
      ensures Safe(old(W())) ==>
        (o.Done? <==> ActiveGeneration(old(db)).Some? && old(db).HasGeneration(t, GenerationStatus.Superseded)
                      && KnowsChunker(old(db), t, runtime)
                      && RepositorySpec.Rollback(old(db), t, old(db).generations[t].revision).Ok?)
      ensures o.Done? ==> RepositorySpec.Rollback(old(db), t, old(db).generations[t].revision) == Ok(db)
      ensures !o.Done? ==> o.Refused? && db == old(db)
    {
      if !KnowsChunker(db, t, runtime) {
        return Refused;
      }
      o := VerifyAndSwitch(t, GenerationStatus.Superseded, JobStatus.DeletePending);
    }

    // Every chunk of every live note is read back from the target before the switch.
    method VerifyAndSwitch(t: GenerationId, targetStatus: GenerationStatus, jobStatus: JobStatus) returns (o: Outcome)
      requires Inv(db) && SwitchStatus(jobStatus)
      modifies this`db
      ensures Safe(old(W())) ==> Safe(W())
      ensures o.Done? <==> ActiveGeneration(old(db)).Some? && old(db).HasGeneration(t, targetStatus)
                           && FleetPresent(old(W()), t)
                           && Switch(old(db), t, old(db).generations[t].revision, jobStatus).Ok?
      ensures Safe(old(W())) && t in old(db).generations ==>
        (Switch(old(db), t, old(db).generations[t].revision, jobStatus).Ok? ==> FleetPresent(old(W()), t))
      ensures o.Done? ==> Switch(old(db), t, old(db).generations[t].revision, jobStatus) == Ok(db)
      ensures !o.Done? ==> o.Refused? && db == old(db)
    {
      SafeFleetIsPresent(W(), t, jobStatus);
      var session := new PublicationRepository.Open(db);
      var active := session.SelectActiveGeneration();
      if active.None? || !db.HasGeneration(t, targetStatus) {
        return Refused;
      }
      var complete := ReadBackFleet(active.value, t);
      if !complete {
        return Refused;
      }
      o := CommitSwitch(t, jobStatus);
    }

    method ReadBackFleet(source: GenerationId, t: GenerationId) returns (complete: bool)
      ensures complete <==> forall n :: n in Movers(db, source) ==> W().Present(db.notes[n].version.value, t)
    {
      var rest := Movers(db, source);
      while rest != {}
        invariant rest <= Movers(db, source)
        invariant forall n :: n in Movers(db, source) && n !in rest ==> W().Present(db.notes[n].version.value, t)
        decreases rest
      {
        var n :| n in rest;
        var ok := Verified(n, t);
        if !ok {
          return false;
        }
        rest := rest - {n};
      }
      complete := true;
    }

    // The switch in a transaction of its own.
    method CommitSwitch(t: GenerationId, jobStatus: JobStatus) returns (o: Outcome)
      requires Inv(db) && SwitchStatus(jobStatus) && t in db.generations
      modifies this`db
      ensures Safe(old(W())) ==> Safe(W())
      ensures o.Done? <==> Switch(old(db), t, old(db).generations[t].revision, jobStatus).Ok?
      ensures o.Done? ==> Switch(old(db), t, old(db).generations[t].revision, jobStatus) == Ok(db)
      ensures !o.Done? ==> o.Refused? && db == old(db)
    {
      var session := new PublicationRepository.Open(db);
      var switched := session.SwitchGeneration(t, db.generations[t].revision, jobStatus);
      if switched.Err? {
        return Refused;
      }
      ghost var before := W();
      db := session.Contents();
      if Safe(before) {
        SwitchSafe(before, t, before.db.generations[t].revision, jobStatus, W());
      }
      o := Done;
    }

    method Abort(t: GenerationId) returns (o: Outcome)
      requires Safe(W())
      modifies this`db
      ensures Safe(W())
      ensures db == old(db).(generations := db.generations) && db.generations.Keys == old(db).generations.Keys
      ensures forall g :: g in db.generations && g != t ==> db.generations[g] == old(db).generations[g]
      ensures SameManifests(old(db), db)
      ensures ActiveGeneration(db) == ActiveGeneration(old(db))
      ensures o.Done? <==> ActiveGeneration(old(db)).Some?
                           && (old(db).HasGeneration(t, GenerationStatus.Staging)
                               || old(db).HasGeneration(t, GenerationStatus.Failed))
      ensures o.Done? ==> db.HasGeneration(t, GenerationStatus.Failed)
      ensures !o.Done? || old(db).HasGeneration(t, GenerationStatus.Failed) ==> db == old(db)
      ensures o.Done? && old(db).HasGeneration(t, GenerationStatus.Staging) ==>
        db.generations[t] == old(db).generations[t].(status := GenerationStatus.Failed,
                                                     revision := old(db).generations[t].revision + 1)
    {
      var session := new PublicationRepository.Open(db);
      var active := session.SelectActiveGeneration();
      if active.None? || t !in db.generations || db.generations[t].status.Active?
          || db.generations[t].status.Superseded? {
        return Refused;
      }
      if db.generations[t].status.Staging? {
        ghost var before := W();
        var _ := session.TransitionIndexGeneration(t, GenerationStatus.Failed, db.generations[t].revision);
        db := session.Contents();
        AbortSafe(before, t, W());
      }
      o := Done;
    }
  }

  // While the jobs tell the truth about the index, a switch that the repository accepts lacks no chunk.
  lemma SafeFleetIsPresent(w: World, t: GenerationId, status: JobStatus)
    requires SwitchStatus(status)
    ensures Safe(w) && t in w.db.generations && Switch(w.db, t, w.db.generations[t].revision, status).Ok?
            ==> FleetPresent(w, t)
  {
    if Safe(w) && t in w.db.generations && Switch(w.db, t, w.db.generations[t].revision, status).Ok? {
      var from := ActiveGeneration(w.db).value;
      forall n | n in Movers(w.db, from) ensures w.Present(w.db.notes[n].version.value, t) {
        ReadyIsPresent(w, n, from, t, status);
      }
    }
  }

  lemma FirstJobIsAdded(db: Db, j: JobId, v: VersionId, g: GenerationId)
    requires v in db.versions && g in db.generations && j !in db.jobs && forall i :: !db.Indexes(i, v, g)
    ensures var r := AddJob(db, j, CuratedVersion, v, g);
      && r.Ok? && BuildsOnly(db, r.value, v, g) && r.value.Indexes(j, v, g) && r.value.jobs[j].status.Pending?
  {
    var job := Job(CuratedVersion, v, g, JobStatus.Pending, 1);
    assert forall i :: i in db.jobs && SameTarget(db.jobs[i], job) ==> db.Indexes(i, v, g);
  }

  lemma BuildJobIsAdded(w: World, j: JobId, v: VersionId, t: GenerationId, next: World)
    requires Safe(w) && v in w.db.versions && w.db.HasGeneration(t, GenerationStatus.Staging)
    requires j !in w.db.jobs && forall i :: !w.db.Indexes(i, v, t)
    requires next == w.(db := next.db)
    requires match AddJob(w.db, j, CuratedVersion, v, t) case Ok(db) => next.db == db case Err(_) => next.db == w.db
    ensures Safe(next) && BuildsOnly(w.db, next.db, v, t)
    ensures next.db.Indexes(j, v, t) && next.db.jobs[j].status.Pending?
  {
    FirstJobIsAdded(w.db, j, v, t);
    AddJobSafe(w, j, v, t, next);
  }

  // The note is marked and its own job with it.
  lemma MarkIsSafe(w: World, n: NoteId, j: JobId, deleted: bool, next: World)
    requires Safe(w) && w.db.Published(n) && j in w.db.jobs && OwnJob(w.db, n, j) && w.db.Live(n) == deleted
    requires !deleted ==> !PathTaken(w.db, n, w.db.notes[n].path) && w.db.jobs[j].status.Indexed?
                          && w.InPlace(n, w.db.notes[n].version.value)
    requires next == w.(db := SetJob(SetNote(w.db, n, w.db.notes[n].(deleted := deleted)), j,
                                     if deleted then JobStatus.DeletePending else JobStatus.ActiveIndexed))
    ensures Safe(next) && TouchesOnly(w, next, n)
  {
    MarkSafe(w, n, j, deleted, SetNote(w.db, n, w.db.notes[n].(deleted := deleted)), next);
    MarkTouchesOnly(w, n, j, deleted, next);
  }

  lemma MarkTouchesOnly(w: World, n: NoteId, j: JobId, deleted: bool, next: World)
    requires OneJobPerTarget(w.db) && w.db.Published(n) && j in w.db.jobs && OwnJob(w.db, n, j)
    requires next == w.(db := SetJob(SetNote(w.db, n, w.db.notes[n].(deleted := deleted)), j,
                                     if deleted then JobStatus.DeletePending else JobStatus.ActiveIndexed))
    ensures TouchesOnly(w, next, n)
  {
    OwnJobsAre(w.db, n, j);
  }

  // The note is live, or its job says that it is being deleted, or was.
  predicate Leaving(db: Db, n: NoteId, j: JobId)
    requires j in db.jobs
  {
    db.Live(n) || db.jobs[j].status.DeletePending? || db.jobs[j].status.Deleted?
  }

  // The note is not being deleted, nobody live has its path, and its chunks are there or can be embedded.
  ghost predicate Returning(db: Db, n: NoteId, j: JobId, runtime: Manifest)
    requires db.Published(n) && j in db.jobs
  {
    && !db.jobs[j].status.DeletePending?
    && (db.Live(n) || !PathTaken(db, n, db.notes[n].path))
    && (Embeds(db, db.notes[n].generation.value, runtime) || db.jobs[j].status.Indexed?)
  }

  lemma RestorableTells(w: World, n: NoteId, j: JobId, runtime: Manifest)
    requires Safe(w) && w.db.Published(n) && j in w.db.jobs && OwnJob(w.db, n, j)
    ensures Restorable(w, n, runtime) <==>
              Loadable(w.db, n, runtime) && w.PathFree(n, w.db.notes[n].version.value)
              && Returning(w.db, n, j, runtime)
  {
    OwnJobTells(w, n, j);
  }

  // An interrupted restoration leaves the note restorable.
  lemma StaysRestorable(w: World, next: World, n: NoteId, j: JobId, runtime: Manifest)
    requires Safe(w) && w.db.Published(n) && j in w.db.jobs && OwnJob(w.db, n, j)
    requires Safe(next) && next.db.Published(n) && TouchesOnly(w, next, n) && j in next.db.jobs && OwnJob(next.db, n, j)
    requires w.PathFree(n, w.db.notes[n].version.value) ==> next.PathFree(n, w.db.notes[n].version.value)
    requires !w.db.jobs[j].status.DeletePending? ==> !next.db.jobs[j].status.DeletePending?
    requires w.db.Live(n) ==> next.db == w.db
    requires !w.db.Live(n) ==> !next.db.Live(n)
    requires w.db.jobs[j].status.Indexed? ==> next.db == w.db
    ensures Restorable(w, n, runtime) ==> Restorable(next, n, runtime)
  {
    RestorableTells(w, n, j, runtime);
    SamePathTaken(w.db, next.db, n);
    RestorableTells(next, n, j, runtime);
  }

  lemma DeletableTells(w: World, n: NoteId, j: JobId, runtime: Manifest)
    requires Safe(w) && w.db.Published(n) && j in w.db.jobs && OwnJob(w.db, n, j)
    ensures Deletable(w, n, runtime) <==>
              Loadable(w.db, n, runtime) && w.PathFree(n, w.db.notes[n].version.value) && Leaving(w.db, n, j)
    ensures Departing(w.db, n) <==> Leaving(w.db, n, j)
    ensures forall status :: OwnStatus(w.db, n, status) <==> w.db.jobs[j].status == status
  {
    OwnJobTells(w, n, j);
  }

  lemma AbortSafe(w: World, t: GenerationId, next: World)
    requires Safe(w) && w.db.HasGeneration(t, GenerationStatus.Staging)
    requires next == w.(db := SetGeneration(w.db, t, GenerationStatus.Failed))
    ensures Safe(next) && ActiveGeneration(next.db) == ActiveGeneration(w.db)
  {
    Runs.GenerationsKeepInv(w.db, next.db);
    AbortKeepsTruth(w, t, next);
    assert forall g :: next.db.HasGeneration(g, GenerationStatus.Active)
                       == w.db.HasGeneration(g, GenerationStatus.Active);
    if g :| w.db.HasGeneration(g, GenerationStatus.Active) {
      ActiveIsThe(w.db, g);
      ActiveIsThe(next.db, g);
    }
  }

  lemma AbortKeepsTruth(w: World, t: GenerationId, next: World)
    requires NotesInCustody(w) && JobsTruthful(w) && t in w.db.generations
    requires next == w.(db := SetGeneration(w.db, t, GenerationStatus.Failed))
    ensures NotesInCustody(next) && JobsTruthful(next)
  {
    forall n | next.db.Published(n) ensures InCustody(next, n) {
      assert InCustody(w, n);
      SameOwnJobs(w.db, next.db, n);
      SameChunks(w, next, w.db.notes[n].version.value, w.db.notes[n].generation.value);
    }
    forall i | i in next.db.jobs ensures JobTruthful(next, i) {
      assert JobTruthful(w, i);
      SameChunks(w, next, w.db.jobs[i].entity, w.db.jobs[i].generation);
    }
  }

  ghost function Above(s: set<nat>): (bound: nat)
    ensures forall k :: k in s ==> k < bound
  {
    if s == {} then 0
    else
      var k :| k in s;
      assert forall i :: i in s ==> i == k || i in s - {k};
      var rest := Above(s - {k});
      if k < rest then rest else k + 1
  }

  lemma FreshExists(s: set<nat>)
    ensures exists k: nat :: k !in s
  {
    assert Above(s) !in s;
  }

  lemma OneFewer(all: set<NoteId>, done: set<NoteId>, rest: set<NoteId>, n: NoteId)
    requires done + rest == all && done !! rest && n in rest
    ensures done + {n} + (rest - {n}) == all && done + {n} !! rest - {n}
  {
  }

  lemma MoversAreServed(db: Db, source: GenerationId)
    requires Inv(db)
    ensures forall n :: n in Movers(db, source)
                        ==> db.HasJob(db.notes[n].version.value, source, JobStatus.ActiveIndexed)
  {
  }

  lemma IndexedIsPresent(w: World, j: JobId, v: VersionId, g: GenerationId)
    requires Safe(w) && w.db.Indexes(j, v, g) && w.db.jobs[j].status.Indexed?
    ensures w.Present(v, g)
  {
    assert JobTruthful(w, j);
  }

  lemma VersionIsKnown(w: World, n: NoteId)
    requires Safe(w) && w.db.Published(n)
    ensures w.db.notes[n].version.value in w.db.versions
  {
    assert InCustody(w, n);
  }

  // The notes done so far have both jobs that a promotion requires; the others still serve.
  ghost predicate BuildProgress(before: Db, db: Db, movers: set<NoteId>, done: set<NoteId>, source: GenerationId,
                                t: GenerationId)
  {
    && db == before.(jobs := db.jobs) && JobsKeptOutside(before, db, t)
    && source != t && movers == Movers(db, source) && db.HasGeneration(t, GenerationStatus.Staging)
    && (forall n :: n in movers ==> db.HasJob(db.notes[n].version.value, source, JobStatus.ActiveIndexed))
    && (forall n :: n in done ==> NoteReady(db, n, source, t, JobStatus.Indexed))
  }

  lemma BuildOneMore(before: Db, db: Db, next: Db, movers: set<NoteId>, done: set<NoteId>, n: NoteId,
                     source: GenerationId, t: GenerationId)
    requires OneJobPerTarget(db) && OwnVersions(db) && BuildProgress(before, db, movers, done, source, t)
    requires n in movers && n !in done && done <= movers
    requires BuildsOnly(db, next, db.notes[n].version.value, t)
    requires next.HasJob(db.notes[n].version.value, t, JobStatus.Indexed)
    ensures BuildProgress(before, next, movers, done + {n}, source, t)
  {
    JobsKeptTwice(before, db, next, t);
    forall m | m in movers
      ensures next.HasJob(next.notes[m].version.value, source, JobStatus.ActiveIndexed)
      ensures m in done + {n} ==> NoteReady(next, m, source, t, JobStatus.Indexed)
    {
      StillReady(db, next, m, db.notes[n].version.value, source, t);
    }
  }

  lemma BuildsTwice(a: Db, b: Db, c: Db, v: VersionId, t: GenerationId)
    requires BuildsOnly(a, b, v, t) && BuildsOnly(b, c, v, t)
    ensures BuildsOnly(a, c, v, t)
  {
    assert forall j :: j in a.jobs ==> b.Indexes(j, v, t) == a.Indexes(j, v, t);
  }

  // One more note was indexed.
  lemma FillsMore(start: World, last: World, next: World, movers: set<NoteId>, n: NoteId, t: GenerationId)
    requires n in movers && last.snapshots == start.snapshots && last.db == start.db.(jobs := last.db.jobs)
    requires last.db.Published(n)
    requires BuildsFor(start.db, last.db, movers, t) && Fills(start, last, movers, t)
    requires BuildsOnly(last.db, next.db, last.db.notes[n].version.value, t) && Fills(last, next, {n}, t)
    ensures BuildsFor(start.db, next.db, movers, t) && Fills(start, next, movers, t)
  {
    MoreBuilt(start.db, last.db, next.db, movers, n, t);
    MoreFilled(start, last, next, movers, n, t);
  }

  lemma MoreBuilt(start: Db, last: Db, next: Db, movers: set<NoteId>, n: NoteId, t: GenerationId)
    requires n in movers && last == start.(jobs := last.jobs) && last.Published(n)
    requires BuildsFor(start, last, movers, t) && BuildsOnly(last, next, last.notes[n].version.value, t)
    ensures BuildsFor(start, next, movers, t)
  {
    var v := last.notes[n].version.value;
    forall j | j in next.jobs && !(j in start.jobs && next.jobs[j] == start.jobs[j])
      ensures exists m :: m in movers && start.Published(m) && next.Indexes(j, start.notes[m].version.value, t)
    {
      if j !in last.jobs || next.jobs[j] != last.jobs[j] {
        assert next.Indexes(j, v, t);
      } else {
        var m :| m in movers && start.Published(m) && last.Indexes(j, start.notes[m].version.value, t);
        assert next.Indexes(j, start.notes[m].version.value, t);
      }
    }
  }

  lemma MoreFilled(start: World, last: World, next: World, movers: set<NoteId>, n: NoteId, t: GenerationId)
    requires n in movers && last.snapshots == start.snapshots && last.db == start.db.(jobs := last.db.jobs)
    requires last.db.Published(n) && Fills(start, last, movers, t) && Fills(last, next, {n}, t)
    ensures Fills(start, next, movers, t)
  {
    SameChunks(start, last, last.db.notes[n].version.value, t);
  }

  lemma JobsKeptTwice(a: Db, b: Db, c: Db, t: GenerationId)
    requires JobsKeptOutside(a, b, t) && JobsKeptOutside(b, c, t)
    ensures JobsKeptOutside(a, c, t)
  {
  }

  lemma StillReady(db: Db, next: Db, n: NoteId, v: VersionId, source: GenerationId, t: GenerationId)
    requires OneJobPerTarget(db) && BuildsOnly(db, next, v, t) && source != t
    requires n in db.notes && db.notes[n].version.Some?
    requires db.HasJob(db.notes[n].version.value, source, JobStatus.ActiveIndexed)
    ensures next.HasJob(db.notes[n].version.value, source, JobStatus.ActiveIndexed)
    ensures NoteReady(db, n, source, t, JobStatus.Indexed) && db.notes[n].version.value != v ==>
              NoteReady(next, n, source, t, JobStatus.Indexed)
  {
    var u := db.notes[n].version.value;
    var i :| db.Indexes(i, u, source) && db.jobs[i].status.ActiveIndexed?;
    assert next.Indexes(i, u, source);
    if NoteReady(db, n, source, t, JobStatus.Indexed) && u != v {
      var k :| db.Indexes(k, u, t) && db.jobs[k].status.Indexed?;
      assert next.Indexes(k, u, t);
    }
  }

  lemma SamePathTaken(db: Db, next: Db, n: NoteId)
    requires db.Published(n) && TouchesOnlyRows(db, next, n)
    ensures PathTaken(next, n, next.notes[n].path) == PathTaken(db, n, db.notes[n].path)
  {
    assert forall m :: m != n ==> next.Live(m) == db.Live(m);
  }

  lemma OwnJobsAre(db: Db, n: NoteId, j: JobId)
    requires OneJobPerTarget(db) && db.Published(n) && j in db.jobs && OwnJob(db, n, j)
    ensures forall i :: i in db.jobs && OwnJob(db, n, i) ==> i == j
  {
    forall i | i in db.jobs && OwnJob(db, n, i) ensures i == j {
      OwnJobIsUnique(db, n, i, j);
    }
  }

  lemma OwnJobTells(w: World, n: NoteId, j: JobId)
    requires Safe(w) && w.db.Published(n) && j in w.db.jobs && OwnJob(w.db, n, j)
    ensures forall status :: OwnStatus(w.db, n, status) <==> w.db.jobs[j].status == status
    ensures Custody(w, n, w.db.jobs[j].status) && JobTruthful(w, j)
    ensures w.db.Live(n) <==> w.db.jobs[j].status.ActiveIndexed?
  {
    assert InCustody(w, n);
    forall i | i in w.db.jobs && OwnJob(w.db, n, i) ensures i == j {
      OwnJobIsUnique(w.db, n, i, j);
    }
    var v, g := w.db.notes[n].version.value, w.db.notes[n].generation.value;
    assert forall i :: w.db.Indexes(i, v, g) ==> OwnJob(w.db, n, i);
  }
}
