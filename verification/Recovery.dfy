/** Whole schedules of lifecycle commands, with crashes anywhere, and what re-running achieves. */
module Recovery {
  import opened Prelude
  import opened Transitions
  import opened Schema
  import opened RepositorySpec
  import opened Switching
  import opened WorldState
  import opened WorldSteps
  import opened Repository
  import opened Lifecycle

  datatype Command =
    | DeleteNote(note: NoteId, fault: Fault)
    | RestoreNote(note: NoteId, fault: Fault)
    | RebuildGeneration(generation: GenerationId, faults: map<NoteId, Fault>)
    | PromoteGeneration(generation: GenerationId)
    | RollBackGeneration(generation: GenerationId)
    | AbortGeneration(generation: GenerationId)

  // Each command runs in a service of its own, which may be configured anew.
  datatype Step = Step(runtime: Manifest, command: Command)

  method Perform(service: LifecycleService, c: Command) returns (o: Outcome)
    requires Safe(service.W())
    modifies service
    ensures Safe(service.W())
  {
    match c
    case DeleteNote(n, fault) => o := service.Delete(n, fault);
    case RestoreNote(n, fault) => o := service.Restore(n, fault);
    case RebuildGeneration(t, faults) => o := service.Rebuild(t, faults);
    case PromoteGeneration(t) => o := service.Promote(t);
    case RollBackGeneration(t) => o := service.Rollback(t);
    case AbortGeneration(t) => o := service.Abort(t);
  }

  // Whatever commands run in whatever order and configuration, and wherever each of them crashes: a live
  // note has its file in the Vault and all its chunks indexed, and a DELETED job has left nothing behind.
  method RunSchedule(w: World, schedule: seq<Step>) returns (final: World)
    requires Safe(w)
    ensures Safe(final)
    ensures forall n :: final.db.Live(n) && final.db.Published(n) ==>
      var v := final.db.notes[n].version.value;
      final.InPlace(n, v) && final.Present(v, final.db.notes[n].generation.value)
    ensures forall j :: j in final.db.jobs && final.db.jobs[j].objectType.CuratedVersion?
                        && final.db.jobs[j].status.Deleted? ==>
      var v, g := final.db.jobs[j].entity, final.db.jobs[j].generation;
      v in final.trash && final.Absent(v, g) && final.Uncited(v, g)
  {
    final := w;
    for i := 0 to |schedule|
      invariant Safe(final)
    {
      var service := new LifecycleService(final, schedule[i].runtime);
      var _ := Perform(service, schedule[i].command);
      final := service.W();
    }
    forall n | final.db.Live(n) && final.db.Published(n) {
      LiveNotesAreServed(final, n);
    }
    forall j | j in final.db.jobs && final.db.jobs[j].objectType.CuratedVersion? && final.db.jobs[j].status.Deleted? {
      DeletedJobsLeaveNothing(final, j);
    }
  }

  // An interrupted deletion is finished by running it again.
  method DeletionFinishes(service: LifecycleService, n: NoteId, fault: Fault)
    requires Safe(service.W()) && Deletable(service.W(), n, service.runtime)
    modifies service
    ensures Safe(service.W())
    ensures service.db.Published(n) && !service.db.Live(n) && OwnStatus(service.db, n, JobStatus.Deleted)
  {
    var first := service.Delete(n, fault);
    var second := service.Delete(n, NO_FAULT);
    assert second.Done?;
  }

  // An interrupted restoration is finished by running it again.
  method RestorationFinishes(service: LifecycleService, n: NoteId, fault: Fault)
    requires Safe(service.W()) && Restorable(service.W(), n, service.runtime)
    modifies service
    ensures Safe(service.W())
    ensures service.db.Published(n) && service.db.Live(n)
  {
    var first := service.Restore(n, fault);
    if !first.Done? {
      var second := service.Restore(n, NO_FAULT);
      assert second.Done?;
    }
  }

  // After its deletion, a note's path is free for it to come back to.
  lemma PathStaysFree(before: World, gone: World, n: NoteId, runtime: Manifest)
    requires Safe(before) && before.db.Live(n) && before.db.Published(n)
    requires Safe(gone) && TouchesOnly(before, gone, n)
    requires Deletable(gone, n, runtime) && OwnStatus(gone.db, n, JobStatus.Deleted)
    ensures gone.Uncited(gone.db.notes[n].version.value, gone.db.notes[n].generation.value)
    ensures Restorable(gone, n, runtime) <==> Embeds(gone.db, gone.db.notes[n].generation.value, runtime)
  {
    var j :| j in gone.db.jobs && OwnJob(gone.db, n, j) && gone.db.jobs[j].status.Deleted?;
    OwnJobTells(gone, n, j);
    NobodyMovedIn(before.db, gone.db, n);
  }

  lemma NobodyMovedIn(db: Db, gone: Db, n: NoteId)
    requires DistinctLivePaths(db) && db.Live(n) && db.Published(n) && TouchesOnlyRows(db, gone, n)
    ensures !PathTaken(gone, n, gone.notes[n].path)
  {
    forall m | m != n && gone.Live(m) ensures gone.notes[m].path != gone.notes[n].path {
      assert db.Live(m);
    }
  }

  // Deleting a live note and restoring it brings everything back except the answers that cited it, when
  // the service embeds with the model of the note's generation. Otherwise the note stays deleted.
  method RestoreUndoesDelete(service: LifecycleService, n: NoteId)
    requires Safe(service.W()) && service.db.Live(n) && Loadable(service.db, n, service.runtime)
    modifies service
    ensures Safe(service.W()) && service.db.Published(n)
    ensures service.db.Live(n) <==> Embeds(old(service.db), old(service.db).notes[n].generation.value, service.runtime)
    ensures service.db.Live(n) ==>
      var v, g := service.db.notes[n].version.value, service.db.notes[n].generation.value;
      && Erase(service.db) == Erase(old(service.db))
      && service.files == old(service.files) && service.trash == old(service.trash)
      && service.index == old(service.index)
      && service.answers == Purged(old(service.answers), old(service.W()).Chunks(v, g)) && service.W().Uncited(v, g)
  {
    ghost var before := service.W();
    LiveNotesAreServed(before, n);
    var deleted := service.Delete(n, NO_FAULT);
    ghost var gone := service.W();
    PathStaysFree(before, gone, n, service.runtime);
    var restored := service.Restore(n, NO_FAULT);
    ghost var back := service.W();
    TouchesOnlyTwice(before, gone, back, n);
    if restored.Done? {
      LiveNotesAreServed(back, n);
      BackAsBefore(before, back, n);
    }
  }

  lemma BackAsBefore(before: World, back: World, n: NoteId)
    requires Safe(before) && before.db.Live(n) && before.db.Published(n)
    requires Safe(back) && back.db.Live(n) && back.db.Published(n) && TouchesOnly(before, back, n)
    ensures Erase(back.db) == Erase(before.db)
    ensures back.files == before.files && back.trash == before.trash && back.index == before.index
  {
    LiveNotesAreServed(before, n);
    LiveNotesAreServed(back, n);
    assert InCustody(before, n) && InCustody(back, n);
    if j :| j in before.db.jobs && OwnJob(before.db, n, j) {
      OwnJobTells(before, n, j);
      assert OwnJob(back.db, n, j);
      OwnJobTells(back, n, j);
      OwnJobsAre(before.db, n, j);
    }
    SameRows(before.db, back.db, n);
    SameIndex(before, back, n);
    SameFiles(before, back, n);
  }

  lemma SameRows(db: Db, back: Db, n: NoteId)
    requires db.Live(n) && back.Live(n) && db.Published(n) && TouchesOnlyRows(db, back, n)
    requires forall j :: j in db.jobs && OwnJob(db, n, j) ==> back.jobs[j].status == db.jobs[j].status
    ensures Erase(back) == Erase(db)
  {
    assert Erase(back).jobs == Erase(db).jobs;
    assert Erase(back).notes == Erase(db).notes;
  }

  lemma SameFiles(before: World, back: World, n: NoteId)
    requires before.db.Published(n) && TouchesOnly(before, back, n)
    requires var v := before.db.notes[n].version.value;
      before.InPlace(n, v) && back.InPlace(n, v) && v !in before.trash && v !in back.trash
    ensures back.files == before.files && back.trash == before.trash
  {
    var v := before.db.notes[n].version.value;
    assert forall u :: u in back.trash <==> u in back.trash - {v};
    assert forall u :: u in before.trash <==> u in before.trash - {v};
  }

  lemma SameIndex(before: World, back: World, n: NoteId)
    requires before.db.Published(n) && TouchesOnly(before, back, n)
    requires var v, g := before.db.notes[n].version.value, before.db.notes[n].generation.value;
      before.Present(v, g) && back.Present(v, g)
    ensures back.index == before.index
  {
    var v, g := before.db.notes[n].version.value, before.db.notes[n].generation.value;
    assert back.Chunks(v, g) == before.Chunks(v, g);
    forall p: (GenerationId, ChunkId) ensures p in back.index <==> p in before.index {
      var h, c := p.0, p.1;
      assert p == (h, c);
      if h != g || c !in before.Chunks(v, g) {
        assert (h, c) in back.index <==> (h, c) in before.index;
      }
    }
  }

  lemma PromotionIsEnabled(before: Db, ready: Db, t: GenerationId)
    requires Inv(before) && SingleServing(before) && Inv(ready)
    requires ready == before.(jobs := ready.jobs) && Migratable(ready, t)
    requires SwitchJobsReady(ready, ActiveGeneration(ready).value, t, JobStatus.Indexed)
    ensures Promote(ready, t, ready.generations[t].revision).Ok?
    ensures ActiveGeneration(before) == ActiveGeneration(ready)
  {
    var s := ActiveGeneration(ready).value;
    assert forall g, st :: ready.HasGeneration(g, st) == before.HasGeneration(g, st);
    ActiveIsThe(before, s);
    forall n | ready.Live(n) && ready.Published(n) ensures ready.notes[n].generation == Some(s) {
      assert before.Live(n) && before.Published(n);
    }
    assert !Stray(ready, s);
  }

  // With every live note on the serving generation: a rebuild can be promoted, and the promotion can be
  // rolled back by a service that has the chunker of the old generation, and by no other.
  method RebuildPromoteRollback(w: World, t: GenerationId, runtime: Manifest, older: Manifest)
    returns (final: World)
    requires Safe(w) && SingleServing(w.db) && Rebuildable(w, t, runtime)
    ensures Safe(final) && Erase(final.db).versions == Erase(w.db).versions
    ensures if KnowsChunker(w.db, ActiveGeneration(w.db).value, older)
            then ActiveGeneration(final.db) == ActiveGeneration(w.db) && Erase(final.db).notes == Erase(w.db).notes
                 && final.db.HasGeneration(t, GenerationStatus.Superseded)
            else ActiveGeneration(final.db) == Some(t)
  {
    var service := new LifecycleService(w, runtime);
    var rebuilt := service.Rebuild(t, map[]);
    ghost var ready := service.db;
    var session := new PublicationRepository.Open(service.db);
    var active := session.SelectActiveGeneration();
    var s := active.value;
    PromotionIsEnabled(w.db, ready, t);
    var promoted := service.Promote(t);
    RollbackInvertsPromote(ready, t, ready.generations[t].revision);
    SwitchGenerations(ready, t, ready.generations[t].revision, JobStatus.Indexed);
    SwitchKeepsInv(ready, t, ready.generations[t].revision, JobStatus.Indexed);
    ghost var served := service.db;
    var later := new LifecycleService(service.W(), older);
    var rolledBack := later.Rollback(s);
    final := later.W();
    if rolledBack.Done? {
      SwitchGenerations(served, s, served.generations[s].revision, JobStatus.DeletePending);
    }
  }
}
