/** Every single step that the sagas take, wherever a crash may follow it, leaves the world safe. */
module WorldSteps {
  import opened Prelude
  import opened Transitions
  import opened Schema
  import opened RepositorySpec
  import opened Switching
  import Runs
  import opened WorldState

  lemma OwnerIsUnique(db: Db, m: NoteId, n: NoteId, j: JobId)
    requires OwnVersions(db) && m in db.notes && n in db.notes && j in db.jobs
    requires OwnJob(db, m, j) && OwnJob(db, n, j)
    ensures m == n
  {
  }

  lemma OwnJobIsUnique(db: Db, n: NoteId, i: JobId, j: JobId)
    requires OneJobPerTarget(db) && n in db.notes && i in db.jobs && j in db.jobs
    requires OwnJob(db, n, i) && OwnJob(db, n, j)
    ensures i == j
  {
    JobIsUnique(db, i, j, db.notes[n].version.value, db.notes[n].generation.value);
  }

  // ---- Steps in the database ----

  lemma MoveJobSafe(w: World, j: JobId, status: JobStatus, next: World)
    requires Safe(w) && j in w.db.jobs && CanMoveJob(w.db.jobs[j].status, status)
    requires !status.ActiveIndexed? && !status.DeletePending?
    requires next == w.(db := SetJob(w.db, j, status))
    requires forall n :: w.db.Published(n) && OwnJob(w.db, n, j) ==> Custody(w, n, status)
    requires JobTruthful(next, j)
    ensures Safe(next)
  {
    Runs.StepJobKeepsInv(w.db, j, status, next.db);
    forall n | next.db.Published(n) ensures InCustody(next, n) {
      assert InCustody(w, n);
      MoveJobKeepsCustody(w, n, j, status, next);
    }
    MoveJobKeepsJobs(w, j, status, next);
  }

  lemma MoveJobKeepsCustody(w: World, n: NoteId, j: JobId, status: JobStatus, next: World)
    requires j in w.db.jobs && w.db.Published(n) && InCustody(w, n)
    requires next == w.(db := SetJob(w.db, j, status))
    requires OwnJob(w.db, n, j) ==> Custody(w, n, status)
    ensures InCustody(next, n)
  {
    SameOwnJobs(w.db, next.db, n);
  }

  lemma MoveJobKeepsJobs(w: World, j: JobId, status: JobStatus, next: World)
    requires j in w.db.jobs && JobsTruthful(w)
    requires next == w.(db := SetJob(w.db, j, status)) && JobTruthful(next, j)
    ensures JobsTruthful(next)
  {
    forall i | i in next.db.jobs ensures JobTruthful(next, i) {
      assert JobTruthful(w, i);
    }
  }

  // Own jobs are told by what a job is about, not by its status.
  lemma SameOwnJobs(db: Db, next: Db, n: NoteId)
    requires n in db.notes && n in next.notes
    requires next.notes[n].version == db.notes[n].version && next.notes[n].generation == db.notes[n].generation
    requires db.jobs.Keys <= next.jobs.Keys
    requires forall j :: j in db.jobs ==> SameTarget(next.jobs[j], db.jobs[j])
    ensures forall j :: j in db.jobs ==> OwnJob(next, n, j) == OwnJob(db, n, j)
  {
  }

  lemma AddJobSafe(w: World, j: JobId, v: VersionId, g: GenerationId, next: World)
    requires Safe(w) && AddJob(w.db, j, CuratedVersion, v, g).Ok?
    requires next == w.(db := AddJob(w.db, j, CuratedVersion, v, g).value)
    requires forall n :: w.db.Published(n) ==> !w.db.PublishedOn(n, v, g)
    ensures Safe(next)
  {
    Runs.CreateJobKeepsInv(w.db, j, CuratedVersion, v, g);
    AddJobKeepsCustody(w, j, v, g, next);
    AddJobKeepsJobs(w, j, v, g, next);
  }

  lemma AddJobKeepsCustody(w: World, j: JobId, v: VersionId, g: GenerationId, next: World)
    requires NotesInCustody(w) && AddJob(w.db, j, CuratedVersion, v, g).Ok?
    requires next == w.(db := AddJob(w.db, j, CuratedVersion, v, g).value)
    requires forall n :: w.db.Published(n) ==> !w.db.PublishedOn(n, v, g)
    ensures NotesInCustody(next)
  {
    forall n | next.db.Published(n) ensures InCustody(next, n) {
      assert InCustody(w, n);
      SameOwnJobs(w.db, next.db, n);
    }
  }

  lemma AddJobKeepsJobs(w: World, j: JobId, v: VersionId, g: GenerationId, next: World)
    requires JobsTruthful(w) && AddJob(w.db, j, CuratedVersion, v, g).Ok?
    requires next == w.(db := AddJob(w.db, j, CuratedVersion, v, g).value)
    ensures JobsTruthful(next)
  {
    forall i | i in next.db.jobs ensures JobTruthful(next, i) {
      if i != j { assert JobTruthful(w, i); }
    }
  }

  // Deletion excludes the note first, restoration readmits it last: the file, the chunks and the
  // answers are where they must be on both sides of the step.
  lemma MarkSafe(w: World, n: NoteId, j: JobId, deleted: bool, marked: Db, next: World)
    requires Safe(w) && w.db.Published(n) && j in w.db.jobs && OwnJob(w.db, n, j)
    requires w.db.Live(n) == deleted
    requires !deleted ==> !PathTaken(w.db, n, w.db.notes[n].path) && w.db.jobs[j].status.Indexed?
                          && w.InPlace(n, w.db.notes[n].version.value)
    requires marked == SetNote(w.db, n, w.db.notes[n].(deleted := deleted))
    requires next == w.(db := SetJob(marked, j, if deleted then JobStatus.DeletePending else JobStatus.ActiveIndexed))
    ensures Safe(next)
  {
    Runs.SetOwnJobKeepsInv(w.db, n, j, deleted, marked, next.db);
    MarkKeepsCustody(w, n, j, deleted, marked, next);
    MarkKeepsJobs(w, n, j, deleted, marked, next);
  }

  lemma MarkKeepsCustody(w: World, n: NoteId, j: JobId, deleted: bool, marked: Db, next: World)
    requires Safe(w) && w.db.Published(n) && j in w.db.jobs && OwnJob(w.db, n, j)
    requires w.db.Live(n) == deleted
    requires !deleted ==> w.db.jobs[j].status.Indexed? && w.InPlace(n, w.db.notes[n].version.value)
    requires marked == SetNote(w.db, n, w.db.notes[n].(deleted := deleted))
    requires next == w.(db := SetJob(marked, j, if deleted then JobStatus.DeletePending else JobStatus.ActiveIndexed))
    ensures NotesInCustody(next)
  {
    assert InCustody(w, n) && Custody(w, n, w.db.jobs[j].status);
    forall m | next.db.Published(m) ensures InCustody(next, m) {
      assert InCustody(w, m);
      SameOwnJobs(w.db, next.db, m);
      forall k | k in next.db.jobs && OwnJob(next.db, m, k) ensures Custody(next, m, next.db.jobs[k].status) {
        assert OwnJob(w.db, m, k);
        if m == n { OwnJobIsUnique(w.db, n, k, j); } else if k == j { OwnerIsUnique(w.db, m, n, j); }
      }
    }
  }

  lemma MarkKeepsJobs(w: World, n: NoteId, j: JobId, deleted: bool, marked: Db, next: World)
    requires Safe(w) && w.db.Published(n) && j in w.db.jobs && OwnJob(w.db, n, j)
    requires w.db.Live(n) == deleted
    requires !deleted ==> w.db.jobs[j].status.Indexed?
    requires marked == SetNote(w.db, n, w.db.notes[n].(deleted := deleted))
    requires next == w.(db := SetJob(marked, j, if deleted then JobStatus.DeletePending else JobStatus.ActiveIndexed))
    ensures JobsTruthful(next)
  {
    assert JobTruthful(w, j);
    forall i | i in next.db.jobs ensures JobTruthful(next, i) {
      assert JobTruthful(w, i);
      if i != j && Erasing(w.db, i) && !Erasing(next.db, i) {
        OwnJobIsUnique(w.db, n, i, j);
      }
    }
  }

  lemma SwitchSafe(w: World, to: GenerationId, expected: nat, toStatus: JobStatus, next: World)
    requires Safe(w) && SwitchStatus(toStatus) && Switch(w.db, to, expected, toStatus) == Ok(next.db)
    requires next == w.(db := next.db)
    ensures Safe(next)
  {
    SwitchKeepsInv(w.db, to, expected, toStatus);
    SwitchKeepsCustody(w, to, expected, toStatus, next);
    SwitchKeepsJobs(w, to, expected, toStatus, next);
  }

  lemma SwitchKeepsCustody(w: World, to: GenerationId, expected: nat, toStatus: JobStatus, next: World)
    requires Safe(w) && SwitchStatus(toStatus) && Switch(w.db, to, expected, toStatus) == Ok(next.db)
    requires next == w.(db := next.db)
    ensures NotesInCustody(next)
  {
    SwitchGenerations(w.db, to, expected, toStatus);
    SwitchFrame(w.db, to, expected, toStatus);
    var from := ActiveGeneration(w.db).value;
    forall n | next.db.Published(n) ensures InCustody(next, n) {
      assert w.db.Published(n) && InCustody(w, n);
      if next.db.Live(n) {
        SwitchKeepsLiveCustody(w, to, expected, toStatus, next, n);
      } else {
        SwitchKeepsDeletedCustody(w, n, Movers(w.db, from), from, to, next);
      }
    }
  }

  lemma SwitchKeepsLiveCustody(w: World, to: GenerationId, expected: nat, toStatus: JobStatus, next: World, n: NoteId)
    requires Safe(w) && SwitchStatus(toStatus) && Switch(w.db, to, expected, toStatus) == Ok(next.db)
    requires next == w.(db := next.db) && next.db.Live(n) && next.db.Published(n)
    ensures InCustody(next, n)
  {
    SwitchFrame(w.db, to, expected, toStatus);
    MovedNoteIsServed(w.db, to, expected, toStatus, n);
    assert InCustody(w, n);
    MovedNoteIsChunkable(w, to, expected, toStatus, next, n);
    LiveInCustody(w, next, n, to);
  }

  lemma MovedNoteIsChunkable(w: World, to: GenerationId, expected: nat, toStatus: JobStatus, next: World, n: NoteId)
    requires Safe(w) && SwitchStatus(toStatus) && Switch(w.db, to, expected, toStatus) == Ok(next.db)
    requires next == w.(db := next.db) && n in Movers(w.db, ActiveGeneration(w.db).value)
    ensures next.Chunkable(w.db.notes[n].version.value, to)
  {
    SwitchGenerations(w.db, to, expected, toStatus);
    var from := ActiveGeneration(w.db).value;
    assert NoteReady(w.db, n, from, to, toStatus);
    ReadyIsPresent(w, n, from, to, toStatus);
    SameChunks(w, next, w.db.notes[n].version.value, to);
  }

  // The jobs that a switch requires are truthful: the chunks are there.
  lemma ReadyIsPresent(w: World, n: NoteId, from: GenerationId, t: GenerationId, status: JobStatus)
    requires Safe(w) && n in Movers(w.db, from) && SwitchStatus(status) && NoteReady(w.db, n, from, t, status)
    ensures w.Present(w.db.notes[n].version.value, t)
  {
    var j :| w.db.Indexes(j, w.db.notes[n].version.value, t) && w.db.jobs[j].status == status;
    assert JobTruthful(w, j);
  }

  lemma LiveInCustody(w: World, next: World, n: NoteId, to: GenerationId)
    requires w.db.Published(n) && w.db.Live(n) && InCustody(w, n)
    requires next == w.(db := next.db) && next.db.Published(n) && next.db.Live(n)
    requires next.db.notes[n].path == w.db.notes[n].path && next.db.notes[n].version == w.db.notes[n].version
    requires next.db.notes[n].generation == Some(to) && next.Chunkable(next.db.notes[n].version.value, to)
    requires next.db.HasJob(next.db.notes[n].version.value, to, JobStatus.ActiveIndexed)
    ensures InCustody(next, n)
  {
    var j :| j in w.db.jobs && OwnJob(w.db, n, j);
    assert Custody(w, n, w.db.jobs[j].status);
    var i :| next.db.Indexes(i, next.db.notes[n].version.value, to);
    assert OwnJob(next.db, n, i);
  }

  lemma SwitchKeepsDeletedCustody(w: World, n: NoteId, moved: set<NoteId>, from: GenerationId, to: GenerationId,
                                  next: World)
    requires OwnVersions(w.db) && w.db.Published(n) && !w.db.Live(n) && InCustody(w, n) && n !in moved
    requires next == w.(db := MoveNotes(w.db, moved, from, to).(generations := next.db.generations))
    requires SameManifests(w.db, next.db)
    ensures InCustody(next, n)
  {
    SameOwnJobs(w.db, next.db, n);
    SameChunks(w, next, w.db.notes[n].version.value, w.db.notes[n].generation.value);
    forall i | i in next.db.jobs && OwnJob(next.db, n, i) ensures Custody(next, n, next.db.jobs[i].status) {
      assert OwnJob(w.db, n, i) && next.db.jobs[i] == w.db.jobs[i];
    }
  }

  lemma SwitchKeepsJobs(w: World, to: GenerationId, expected: nat, toStatus: JobStatus, next: World)
    requires Safe(w) && SwitchStatus(toStatus) && Switch(w.db, to, expected, toStatus) == Ok(next.db)
    requires next == w.(db := next.db)
    ensures JobsTruthful(next)
  {
    SwitchGenerations(w.db, to, expected, toStatus);
    var from := ActiveGeneration(w.db).value;
    var moved := Movers(w.db, from);
    forall j | j in next.db.jobs ensures JobTruthful(next, j) {
      assert JobTruthful(w, j);
      SameChunks(w, next, w.db.jobs[j].entity, w.db.jobs[j].generation);
      if JobOfAny(w.db, j, moved, from) || JobOfAny(w.db, j, moved, to) {
        SourceJobsServed(w.db, to, expected, toStatus, j);
        assert !Erasing(w.db, j);
      } else {
        assert next.db.jobs[j] == w.db.jobs[j];
      }
    }
  }

  // ---- Steps outside the database ----

  lemma FilesSafe(w: World, n: NoteId, next: World)
    requires Safe(w) && w.db.Published(n) && !w.db.Live(n)
    requires var v := w.db.notes[n].version.value; var path := w.db.notes[n].path;
      && w.PathFree(n, v) && next == w.(files := next.files, trash := next.trash)
      && (forall p :: p != path ==> (p in next.files <==> p in w.files)
                                    && (p in w.files ==> next.files[p] == w.files[p]))
      && (path in next.files ==> next.files[path] == v)
      && next.trash - {v} == w.trash - {v}
      && next.InPlace(n, v) != (v in next.trash)
    requires forall j :: j in w.db.jobs && OwnJob(w.db, n, j) ==> Custody(next, n, w.db.jobs[j].status)
    ensures Safe(next)
  {
    forall m | next.db.Published(m) ensures InCustody(next, m) {
      assert InCustody(w, m);
      if m != n {
        var v := w.db.notes[m].version.value;
        assert v != w.db.notes[n].version.value;
        assert next.InPlace(m, v) == w.InPlace(m, v);
        assert v in next.trash - {w.db.notes[n].version.value} <==> v in w.trash - {w.db.notes[n].version.value};
      }
    }
    forall j | j in next.db.jobs ensures JobTruthful(next, j) {
      assert JobTruthful(w, j);
    }
  }

  lemma IndexSafe(w: World, j: JobId, next: World)
    requires Safe(w) && j in w.db.jobs && w.db.jobs[j].objectType.CuratedVersion?
    requires next == w.(index := next.index)
    requires var job := w.db.jobs[j];
      forall h, c :: h != job.generation || c !in w.Chunks(job.entity, h) ==>
        ((h, c) in next.index <==> (h, c) in w.index)
    requires JobTruthful(next, j)
    ensures Safe(next)
  {
    var job := w.db.jobs[j];
    forall i | i in next.db.jobs ensures JobTruthful(next, i) {
      assert JobTruthful(w, i);
      var other := w.db.jobs[i];
      if i != j && other.objectType.CuratedVersion? {
        assert other.entity != job.entity || other.generation != job.generation by {
          if other.entity == job.entity && other.generation == job.generation {
            JobIsUnique(w.db, i, j, job.entity, job.generation);
          }
        }
        assert forall c :: c in w.Chunks(other.entity, other.generation) ==>
          ((other.generation, c) in next.index <==> (other.generation, c) in w.index);
      }
    }
    forall m | next.db.Published(m) ensures InCustody(next, m) {
      assert InCustody(w, m);
    }
  }

  lemma AnswersSafe(w: World, next: World)
    requires Safe(w) && next == w.(answers := next.answers) && next.answers <= w.answers
    ensures Safe(next)
  {
    forall m | next.db.Published(m) ensures InCustody(next, m) {
      assert InCustody(w, m);
    }
    forall j | j in next.db.jobs ensures JobTruthful(next, j) {
      assert JobTruthful(w, j);
    }
  }
}
