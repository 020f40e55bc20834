/** A deletion that was begun, while other commands run, and while the configuration changes. */
module Interleaving {
  import opened Prelude
  import opened Transitions
  import opened Schema
  import opened RepositorySpec
  import opened Switching
  import opened WorldState
  import opened WorldSteps
  import opened Repository
  import opened Lifecycle
  import opened Recovery
  import Publishing
  import Runs
  import Stranding

  ghost predicate Begun(w: World, n: NoteId) {
    w.db.Published(n) && !w.db.Live(n)
    && (OwnStatus(w.db, n, JobStatus.DeletePending) || OwnStatus(w.db, n, JobStatus.Deleted))
  }

  ghost predicate SamePaths(db: Db, next: Db) {
    next.notes.Keys == db.notes.Keys && forall m :: m in db.notes ==> next.notes[m].path == db.notes[m].path
  }

  // The note and its own job are the same rows as before.
  ghost predicate Untouched(w: World, next: World, n: NoteId)
    requires n in w.db.notes
  {
    && SameManifests(w.db, next.db) && SamePaths(w.db, next.db)
    && next.db.notes[n] == w.db.notes[n]
    && forall j :: j in w.db.jobs && OwnJob(w.db, n, j) ==> j in next.db.jobs && next.db.jobs[j] == w.db.jobs[j]
  }

  // No foreign file has come to the note's path.
  predicate PathKept(w: World, next: World, n: NoteId)
    requires w.db.Published(n) && n in next.db.notes
  {
    var v := w.db.notes[n].version.value;
    w.PathFree(n, v) ==> next.PathFree(n, v)
  }

  // The note is where it was, and nothing stands in the way of its deletion that did not before.
  ghost predicate StaysBegun(w: World, next: World, n: NoteId)
    requires Begun(w, n)
  {
    && Begun(next, n) && SameManifests(w.db, next.db) && SamePaths(w.db, next.db)
    && next.db.notes[n].(revision := 0) == w.db.notes[n].(revision := 0)
    && PathKept(w, next, n)
  }

  lemma StaysBegunTwice(a: World, b: World, c: World, n: NoteId)
    requires Begun(a, n) && StaysBegun(a, b, n) && StaysBegun(b, c, n)
    ensures StaysBegun(a, c, n)
  {
  }

  lemma UntouchedTwice(a: World, b: World, c: World, n: NoteId)
    requires n in a.db.notes && Untouched(a, b, n) && Untouched(b, c, n)
    ensures Untouched(a, c, n)
  {
    assert forall j :: j in a.db.jobs && OwnJob(a.db, n, j) ==> OwnJob(b.db, n, j);
  }

  // Whether the deletion can be finished is not changed either, for any configuration.
  lemma StaysDeletable(w: World, next: World, n: NoteId, runtime: Manifest)
    requires Safe(w) && Begun(w, n) && StaysBegun(w, next, n)
    ensures Deletable(w, n, runtime) ==> Deletable(next, n, runtime)
    ensures Loadable(next.db, n, runtime) == Loadable(w.db, n, runtime)
  {
  }

  lemma OwnJobStays(w: World, next: World, n: NoteId, status: JobStatus)
    requires w.db.Published(n) && Untouched(w, next, n) && OwnStatus(w.db, n, status)
    ensures OwnStatus(next.db, n, status)
  {
    var j :| j in w.db.jobs && OwnJob(w.db, n, j) && w.db.jobs[j].status == status;
    assert OwnJob(next.db, n, j);
  }

  lemma UntouchedStaysBegun(w: World, next: World, n: NoteId)
    requires Begun(w, n) && Untouched(w, next, n)
    ensures Begun(next, n)
    ensures PathKept(w, next, n) ==> StaysBegun(w, next, n)
  {
    if OwnStatus(w.db, n, JobStatus.DeletePending) {
      OwnJobStays(w, next, n, JobStatus.DeletePending);
    } else {
      OwnJobStays(w, next, n, JobStatus.Deleted);
    }
  }

  // ---- Commands that leave the note alone ----

  lemma OtherNoteIsTouched(w: World, next: World, m: NoteId, n: NoteId)
    requires Safe(w) && w.db.Published(n) && m != n && w.db.Published(m) && TouchesOnly(w, next, m)
    ensures Untouched(w, next, n)
  {
    forall j | j in w.db.jobs && OwnJob(w.db, n, j) ensures next.db.jobs[j] == w.db.jobs[j] {
      if OwnJob(w.db, m, j) { OwnerIsUnique(w.db, m, n, j); }
    }
  }

  lemma OtherPathIsKept(w: World, next: World, m: NoteId, n: NoteId)
    requires w.db.Published(n) && w.db.Published(m) && TouchesOnly(w, next, m)
    ensures w.db.notes[m].path != w.db.notes[n].path ==> PathKept(w, next, n)
  {
  }

  method DeleteBeside(service: LifecycleService, m: NoteId, fault: Fault, n: NoteId)
    requires Safe(service.W()) && Begun(service.W(), n) && (m == n ==> !Loadable(service.db, n, service.runtime))
    modifies service
    ensures Safe(service.W()) && Untouched(old(service.W()), service.W(), n)
    ensures PathKept(old(service.W()), service.W(), n)
  {
    ghost var before := service.W();
    var o := service.Delete(m, fault);
    if m != n && before.db.Published(m) {
      OtherNoteIsTouched(before, service.W(), m, n);
    }
  }

  method RestoreBeside(service: LifecycleService, m: NoteId, fault: Fault, n: NoteId)
    requires Safe(service.W()) && Begun(service.W(), n) && (m == n ==> !Loadable(service.db, n, service.runtime))
    modifies service
    ensures Safe(service.W()) && Untouched(old(service.W()), service.W(), n)
    ensures Spares(RestoreNote(m, fault), old(service.db), n) ==> PathKept(old(service.W()), service.W(), n)
  {
    ghost var before := service.W();
    var o := service.Restore(m, fault);
    if m != n && before.db.Published(m) {
      OtherNoteIsTouched(before, service.W(), m, n);
      OtherPathIsKept(before, service.W(), m, n);
    }
  }

  method RebuildBeside(service: LifecycleService, t: GenerationId, faults: map<NoteId, Fault>, n: NoteId)
    requires Safe(service.W()) && Begun(service.W(), n)
    modifies service
    ensures Safe(service.W()) && Untouched(old(service.W()), service.W(), n)
    ensures PathKept(old(service.W()), service.W(), n)
  {
    ghost var before := service.W();
    var o := service.Rebuild(t, faults);
    if Rebuildable(before, t, service.runtime) {
      RebuildTouchesTheTarget(before, service.W(), t, n);
    }
  }

  lemma RebuildTouchesTheTarget(w: World, next: World, t: GenerationId, n: NoteId)
    requires Safe(w) && w.db.Published(n) && w.db.HasGeneration(t, GenerationStatus.Staging)
    requires next == w.(db := w.db.(jobs := next.db.jobs), index := next.index) && JobsKeptOutside(w.db, next.db, t)
    ensures Untouched(w, next, n) && PathKept(w, next, n)
  {
    assert w.db.notes[n].generation.value != t;
  }

  lemma SwitchTouchesLiveNotes(w: World, to: GenerationId, expected: nat, toStatus: JobStatus, next: World, n: NoteId)
    requires Safe(w) && Begun(w, n) && Switch(w.db, to, expected, toStatus) == Ok(next.db) && next == w.(db := next.db)
    ensures Untouched(w, next, n) && PathKept(w, next, n)
  {
    SwitchGenerations(w.db, to, expected, toStatus);
  }

  method PromoteBeside(service: LifecycleService, t: GenerationId, n: NoteId)
    requires Safe(service.W()) && Begun(service.W(), n)
    modifies service
    ensures Safe(service.W()) && Untouched(old(service.W()), service.W(), n)
    ensures PathKept(old(service.W()), service.W(), n)
  {
    ghost var before := service.W();
    var o := service.Promote(t);
    if o.Done? {
      SwitchTouchesLiveNotes(before, t, before.db.generations[t].revision, JobStatus.Indexed, service.W(), n);
    }
  }

  method RollbackBeside(service: LifecycleService, t: GenerationId, n: NoteId)
    requires Safe(service.W()) && Begun(service.W(), n)
    modifies service
    ensures Safe(service.W()) && Untouched(old(service.W()), service.W(), n)
    ensures PathKept(old(service.W()), service.W(), n)
  {
    ghost var before := service.W();
    var o := service.Rollback(t);
    if o.Done? {
      SwitchTouchesLiveNotes(before, t, before.db.generations[t].revision, JobStatus.DeletePending, service.W(), n);
    }
  }

  // Neither the note itself nor another one at its path is restored.
  predicate Spares(c: Command, db: Db, n: NoteId)
    requires n in db.notes
  {
    c.RestoreNote? ==> c.note != n && (c.note in db.notes ==> db.notes[c.note].path != db.notes[n].path)
  }

  // A command on the note itself.
  predicate Concerns(c: Command, n: NoteId) {
    (c.DeleteNote? || c.RestoreNote?) && c.note == n
  }

  method PerformBeside(service: LifecycleService, c: Command, n: NoteId)
    requires Safe(service.W()) && Begun(service.W(), n)
    requires Concerns(c, n) ==> !Loadable(service.db, n, service.runtime)
    modifies service
    ensures Safe(service.W()) && Untouched(old(service.W()), service.W(), n)
    ensures Spares(c, old(service.db), n) ==> PathKept(old(service.W()), service.W(), n)
  {
    match c
    case DeleteNote(m, fault) => DeleteBeside(service, m, fault, n);
    case RestoreNote(m, fault) => RestoreBeside(service, m, fault, n);
    case RebuildGeneration(t, faults) => RebuildBeside(service, t, faults, n);
    case PromoteGeneration(t) => PromoteBeside(service, t, n);
    case RollBackGeneration(t) => RollbackBeside(service, t, n);
    case AbortGeneration(t) => var _ := service.Abort(t);
  }

  // ---- A begun deletion can be finished later ----

  method DeleteItself(service: LifecycleService, n: NoteId, fault: Fault)
    requires Safe(service.W()) && Begun(service.W(), n)
    modifies service
    ensures Safe(service.W()) && StaysBegun(old(service.W()), service.W(), n)
  {
    ghost var before := service.W();
    var o := service.Delete(n, fault);
    TouchedStaysBegun(before, service.W(), n);
  }

  lemma TouchedStaysBegun(w: World, next: World, n: NoteId)
    requires Begun(w, n) && TouchesOnly(w, next, n) && !next.db.Live(n) && Departing(next.db, n)
    requires forall p :: p in next.files ==> p in w.files && next.files[p] == w.files[p]
    ensures StaysBegun(w, next, n)
  {
  }

  method PerformSparing(service: LifecycleService, c: Command, n: NoteId)
    requires Safe(service.W()) && Begun(service.W(), n) && Spares(c, service.db, n)
    modifies service
    ensures Safe(service.W()) && StaysBegun(old(service.W()), service.W(), n)
  {
    if Concerns(c, n) {
      DeleteItself(service, n, c.fault);
    } else {
      ghost var before := service.W();
      PerformBeside(service, c, n);
      UntouchedStaysBegun(before, service.W(), n);
    }
  }

  method RunSparing(w: World, n: NoteId, schedule: seq<Step>) returns (final: World)
    requires Safe(w) && Begun(w, n) && forall s :: s in schedule ==> Spares(s.command, w.db, n)
    ensures Safe(final) && StaysBegun(w, final, n)
  {
    final := w;
    for i := 0 to |schedule|
      invariant Safe(final) && StaysBegun(w, final, n)
    {
      var service := new LifecycleService(final, schedule[i].runtime);
      ghost var last := final;
      assert Spares(schedule[i].command, final.db, n);
      PerformSparing(service, schedule[i].command, n);
      final := service.W();
      StaysBegunTwice(w, last, final, n);
    }
  }

  // A deletion that was begun is finished after any schedule of other commands, crashes and changes of
  // the configuration included, as long as nothing is restored to its path.
  method DeletionOutlastsSchedules(w: World, n: NoteId, schedule: seq<Step>, runtime: Manifest) returns (final: World)
    requires Safe(w) && Begun(w, n) && Deletable(w, n, runtime)
    requires forall s :: s in schedule ==> Spares(s.command, w.db, n)
    ensures Safe(final) && final.db.Published(n) && !final.db.Live(n) && OwnStatus(final.db, n, JobStatus.Deleted)
  {
    final := RunSparing(w, n, schedule);
    StaysDeletable(w, final, n, runtime);
    var service := new LifecycleService(final, runtime);
    var o := service.Delete(n, NO_FAULT);
    assert o.Done?;
    final := service.W();
  }

  // ---- When another note takes the path ----

  // While another note is live at its path, a deleted note cannot be deleted to the end.
  lemma LiveNoteHoldsThePath(w: World, n: NoteId, m: NoteId, runtime: Manifest)
    requires Safe(w) && w.db.Published(n) && !w.db.Live(n)
    requires w.db.Live(m) && w.db.Published(m) && w.db.notes[m].path == w.db.notes[n].path
    ensures !Deletable(w, n, runtime)
  {
    LiveNotesAreServed(w, m);
  }

  // A deletion crashes once its file is recycled, and a note that was deleted from the same path before is
  // restored. Both commands are valid, and no service can finish the deletion now.
  method RestorationTakesThePath(w: World, n: NoteId, m: NoteId, runtime: Manifest) returns (final: World)
    requires Safe(w) && w.db.Live(n) && Loadable(w.db, n, runtime)
    requires !w.db.Live(m) && Loadable(w.db, m, runtime) && w.db.notes[m].path == w.db.notes[n].path
    requires OwnStatus(w.db, m, JobStatus.Deleted) && Embeds(w.db, w.db.notes[m].generation.value, runtime)
    ensures Safe(final) && Begun(final, n) && final.db.Live(m)
    ensures forall other :: !Deletable(final, n, other)
  {
    var service := new LifecycleService(w, runtime);
    LiveNotesAreServed(w, n);
    var crashed := service.Delete(n, Fault(2, false, {}, {}));
    ghost var gone := service.W();
    PathIsLeft(w, gone, n, m, runtime);
    var restored := service.Restore(m, NO_FAULT);
    final := service.W();
    OtherNoteIsTouched(gone, final, m, n);
    UntouchedStaysBegun(gone, final, n);
    forall other ensures !Deletable(final, n, other) {
      LiveNoteHoldsThePath(final, n, m, other);
    }
  }

  lemma PathIsLeft(w: World, gone: World, n: NoteId, m: NoteId, runtime: Manifest)
    requires Safe(w) && w.db.Live(n) && w.db.Published(n)
    requires !w.db.Live(m) && Loadable(w.db, m, runtime) && w.db.notes[m].path == w.db.notes[n].path
    requires OwnStatus(w.db, m, JobStatus.Deleted) && Embeds(w.db, w.db.notes[m].generation.value, runtime)
    requires Safe(gone) && TouchesOnly(w, gone, n) && !gone.db.Live(n) && !gone.InPlace(n, w.db.notes[n].version.value)
    requires forall p :: p in gone.files ==> p in w.files && gone.files[p] == w.files[p]
    ensures Restorable(gone, m, runtime)
  {
    OtherNoteIsTouched(w, gone, n, m);
    OwnJobStays(w, gone, m, JobStatus.Deleted);
    var j :| j in gone.db.jobs && OwnJob(gone.db, m, j) && gone.db.jobs[j].status.Deleted?;
    RestorableTells(gone, m, j, runtime);
    LiveNotesAreServed(w, n);
    NobodyMovedIn(w.db, gone.db, n);
    NowhereTaken(gone.db, m, n);
    assert gone.PathFree(m, gone.db.notes[m].version.value);
    assert Returning(gone.db, m, j, runtime);
  }

  lemma NowhereTaken(db: Db, m: NoteId, n: NoteId)
    requires n in db.notes && m in db.notes && db.notes[m].path == db.notes[n].path
    requires !db.Live(n) && !PathTaken(db, n, db.notes[n].path)
    ensures !PathTaken(db, m, db.notes[m].path)
  {
  }

  // The second note of `SHARED` in the Vault and in the index, the first one in the trash.
  const SHELF := World(
    Stranding.SHARED,
    map[0 := map[Stranding.FIRST.chunker := 1], 1 := map[Stranding.FIRST.chunker := 1]],
    map["note.md" := 1],
    {0},
    {(0, ChunkId(1, Stranding.FIRST.chunker, 0))},
    {})

  lemma ShelfAgrees()
    ensures NotesInCustody(SHELF) && JobsTruthful(SHELF)
  {
    SingleChunk(SHELF, 0, 0);
    SingleChunk(SHELF, 1, 0);
    forall n | SHELF.db.Published(n) ensures InCustody(SHELF, n) {
      assert OwnJob(SHELF.db, n, n);
    }
  }

  // Such a start exists: a run of the repository leads to these rows, and everything agrees with them.
  lemma TwoNotesShareAPath() returns (run: seq<Runs.Command>)
    ensures Publishing.Leads(EMPTY, run, SHELF.db) && Safe(SHELF)
    ensures SHELF.db.Live(1) && !SHELF.db.Live(0) && SHELF.db.notes[0].path == SHELF.db.notes[1].path
    ensures Loadable(SHELF.db, 0, Stranding.FIRST) && Loadable(SHELF.db, 1, Stranding.FIRST)
    ensures Embeds(SHELF.db, 0, Stranding.FIRST) && OwnStatus(SHELF.db, 0, JobStatus.Deleted)
  {
    run := Stranding.SharedIsReachable();
    Runs.ReachableInv(run);
    ShelfAgrees();
    assert OwnJob(SHELF.db, 0, 0);
  }

  lemma SingleChunk(w: World, v: VersionId, g: GenerationId)
    requires w.Chunkable(v, g) && w.snapshots[v][w.db.generations[g].manifest.chunker] == 1
    ensures w.Chunks(v, g) == {ChunkId(v, w.db.generations[g].manifest.chunker, 0)}
  {
    var chunker := w.db.generations[g].manifest.chunker;
    assert ChunkId(v, chunker, 0) in w.Chunks(v, g);
  }

  // Deleting that other note again lets the first deletion finish.
  method DeletingAgainFreesThePath(w: World, n: NoteId, m: NoteId, runtime: Manifest) returns (final: World)
    requires Safe(w) && Begun(w, n) && Loadable(w.db, n, runtime)
    requires w.db.Live(m) && Loadable(w.db, m, runtime) && w.db.notes[m].path == w.db.notes[n].path
    ensures Safe(final) && OwnStatus(final.db, n, JobStatus.Deleted) && OwnStatus(final.db, m, JobStatus.Deleted)
  {
    var service := new LifecycleService(w, runtime);
    LiveNotesAreServed(w, m);
    var first := service.Delete(m, NO_FAULT);
    ghost var freed := service.W();
    OtherNoteIsTouched(w, freed, m, n);
    UntouchedStaysBegun(w, freed, n);
    var second := service.Delete(n, NO_FAULT);
    final := service.W();
    OtherNoteIsTouched(freed, final, n, m);
    OwnJobStays(freed, final, m, JobStatus.Deleted);
  }

  // ---- When the configuration moves on ----

  // Services with another chunker never finish the deletion: whatever they run, crashes included, the note
  // and its job stay the rows that they are.
  method OtherChunkersLeaveItBegun(w: World, n: NoteId, schedule: seq<Step>) returns (final: World)
    requires Safe(w) && Begun(w, n) && forall s :: s in schedule ==> !Loadable(w.db, n, s.runtime)
    ensures Safe(final) && Untouched(w, final, n)
  {
    final := w;
    for i := 0 to |schedule|
      invariant Safe(final) && Untouched(w, final, n) && Begun(final, n)
    {
      var service := new LifecycleService(final, schedule[i].runtime);
      ghost var last := final;
      assert !Loadable(final.db, n, schedule[i].runtime);
      PerformBeside(service, schedule[i].command, n);
      final := service.W();
      UntouchedTwice(w, last, final, n);
      UntouchedStaysBegun(last, final, n);
    }
  }

  // A chunker upgrade in the middle of a deletion: the crashed deletion leaves the note behind on the old
  // generation, the fleet moves on, and only a service with the old chunker can finish the deletion.
  method UpgradeStallsDeletion(w: World, n: NoteId, t: GenerationId, older: Manifest, newer: Manifest)
    returns (final: World)
    requires Safe(w) && SingleServing(w.db) && w.db.Live(n) && Loadable(w.db, n, older)
    requires Rebuildable(w, t, newer) && newer.chunker != older.chunker
    ensures Safe(final) && ActiveGeneration(final.db) == Some(t) && Begun(final, n)
    ensures !Loadable(final.db, n, newer) && Deletable(final, n, older)
  {
    var service := new LifecycleService(w, older);
    LiveNotesAreServed(w, n);
    var crashed := service.Delete(n, Fault(1, false, {}, {}));
    var begun := service.W();
    FewerMovers(w, begun, n, t, newer);
    final := Upgrade(begun, n, t, newer);
    StaysDeletable(begun, final, n, older);
    StaysDeletable(begun, final, n, newer);
  }

  // The note of `UPGRADING` in the Vault and in the index; both chunkers can cut it.
  const OUTDATED := World(
    Stranding.UPGRADING,
    map[0 := map[Stranding.FIRST.chunker := 1, Stranding.SECOND.chunker := 1]],
    map["note.md" := 0],
    {},
    {(0, ChunkId(0, Stranding.FIRST.chunker, 0))},
    {})

  lemma OutdatedAgrees()
    ensures NotesInCustody(OUTDATED) && JobsTruthful(OUTDATED)
  {
    SingleChunk(OUTDATED, 0, 0);
    assert OwnJob(OUTDATED.db, 0, 0);
  }

  // Such a start exists as well.
  lemma UpgradeUnderWay() returns (run: seq<Runs.Command>)
    ensures Publishing.Leads(EMPTY, run, OUTDATED.db) && Safe(OUTDATED) && SingleServing(OUTDATED.db)
    ensures OUTDATED.db.Live(0) && Loadable(OUTDATED.db, 0, Stranding.FIRST)
    ensures Rebuildable(OUTDATED, 1, Stranding.SECOND) && Stranding.SECOND.chunker != Stranding.FIRST.chunker
  {
    run := Stranding.UpgradingIsReachable();
    Runs.ReachableInv(run);
    OutdatedAgrees();
    assert OUTDATED.db.HasGeneration(0, GenerationStatus.Active);
    ActiveIsThe(OUTDATED.db, 0);
    assert Stranding.SECOND.chunker[|Stranding.SECOND.chunker| - 1] == '2';
  }

  lemma FewerMovers(w: World, begun: World, n: NoteId, t: GenerationId, newer: Manifest)
    requires Safe(w) && SingleServing(w.db) && w.db.Published(n) && Rebuildable(w, t, newer)
    requires TouchesOnly(w, begun, n) && !begun.db.Live(n)
    ensures SingleServing(begun.db) && Rebuildable(begun, t, newer)
  {
    assert forall g, s :: begun.db.HasGeneration(g, s) == w.db.HasGeneration(g, s);
    assert ActiveGeneration(begun.db) == ActiveGeneration(w.db);
    forall m | m in Movers(begun.db, ActiveGeneration(begun.db).value)
      ensures begun.Chunkable(begun.db.notes[m].version.value, t)
    {
      assert m in Movers(w.db, ActiveGeneration(w.db).value);
    }
  }

  method Upgrade(w: World, n: NoteId, t: GenerationId, newer: Manifest) returns (final: World)
    requires Safe(w) && SingleServing(w.db) && Rebuildable(w, t, newer) && Begun(w, n)
    ensures Safe(final) && StaysBegun(w, final, n) && ActiveGeneration(final.db) == Some(t)
  {
    hide BuildsFor, Fills, FleetPresent;
    var service := new LifecycleService(w, newer);
    var rebuilt := service.Rebuild(t, map[]);
    ghost var ready := service.W();
    RebuiltStaysBegun(w, ready, t, n);
    var promoted := service.Promote(t);
    final := service.W();
    PromotedStaysBegun(ready, t, final, n);
    StaysBegunTwice(w, ready, final, n);
  }

  lemma RebuiltStaysBegun(w: World, ready: World, t: GenerationId, n: NoteId)
    requires Safe(w) && SingleServing(w.db) && Begun(w, n) && Safe(ready) && Migratable(ready.db, t)
    requires ready == w.(db := w.db.(jobs := ready.db.jobs), index := ready.index)
    requires JobsKeptOutside(w.db, ready.db, t)
    requires SwitchJobsReady(ready.db, ActiveGeneration(ready.db).value, t, JobStatus.Indexed)
    ensures StaysBegun(w, ready, n)
    ensures RepositorySpec.Promote(ready.db, t, ready.db.generations[t].revision).Ok?
  {
    RebuildTouchesTheTarget(w, ready, t, n);
    UntouchedStaysBegun(w, ready, n);
    PromotionIsEnabled(w.db, ready.db, t);
  }

  lemma PromotedStaysBegun(w: World, t: GenerationId, next: World, n: NoteId)
    requires Safe(w) && Begun(w, n) && t in w.db.generations && next == w.(db := next.db)
    requires RepositorySpec.Promote(w.db, t, w.db.generations[t].revision) == Ok(next.db)
    ensures StaysBegun(w, next, n) && ActiveGeneration(next.db) == Some(t)
  {
    SwitchTouchesLiveNotes(w, t, w.db.generations[t].revision, JobStatus.Indexed, next, n);
    UntouchedStaysBegun(w, next, n);
    SwitchGenerations(w.db, t, w.db.generations[t].revision, JobStatus.Indexed);
  }

  // A deletion purges the answers that cite chunks of the generation it erases. An answer that cites only
  // what another chunker cut from the same version stays.
  lemma OlderAnswersStay(w: World, v: VersionId, g: GenerationId, h: GenerationId, answer: set<ChunkId>)
    requires g in w.db.generations && h in w.db.generations
    requires w.db.generations[g].manifest.chunker != w.db.generations[h].manifest.chunker
    requires answer in w.answers && answer <= w.Chunks(v, h)
    ensures answer in Purged(w.answers, w.Chunks(v, g))
  {
    OtherChunkersCutOtherChunks(w, v, g, h);
  }
}
