/**
 * Runs from the empty database to two states that the design does not expect: a live note on a
 * generation that no longer serves, and two notes that share a path.
 */
module Stranding {
  import opened Prelude
  import opened Transitions
  import opened Schema
  import opened RepositorySpec
  import opened Switching
  import opened Runs
  import opened Publishing

  const FIRST := Manifest("markdown-v1", "model", 1024)

  const BUILT := EMPTY.(generations := map[0 := Generation(1, FIRST, GenerationStatus.Staging, 1)])

  // The first note, published and served by generation 0.
  const PUBLISHED := Db(
    map[0 := Note("note.md", Some(0), Some(0), false, 2)],
    map[0 := Version(0, 0, VersionStatus.Active, 4)],
    map[0 := Generation(1, FIRST, GenerationStatus.Active, 2)],
    map[0 := Job(CuratedVersion, 0, 0, JobStatus.ActiveIndexed, 4)],
    map[0 := Change(ChangeStatus.Active, 4)],
    map[0 := Run(0, 0, 0, 0, RunStatus.Completed, 8)])

  lemma PublishedIsReachable() returns (run: seq<Command>)
    ensures Leads(EMPTY, run, PUBLISHED)
  {
    var db;
    run, db := Then(EMPTY, [], EMPTY, CreateGeneration(0, 1, FIRST));
    assert db == BUILT;
    assert forall g :: !BUILT.HasGeneration(g, GenerationStatus.Active);
    var rows := Rows(0, 0, 0, 0, 0);
    run := PublicationGoesThrough(EMPTY, run, BUILT, rows, "note.md", 0);
    assert Published(BUILT, rows, "note.md", 0).generations == PUBLISHED.generations;
    assert Published(BUILT, rows, "note.md", 0) == PUBLISHED;
  }

  const SECOND := Manifest("markdown-v2", "model", 1024)

  // With a generation for another chunker under construction.
  const UPGRADING := PUBLISHED.(
    generations := PUBLISHED.generations[1 := Generation(2, SECOND, GenerationStatus.Staging, 1)])

  lemma UpgradingIsReachable() returns (run: seq<Command>)
    ensures Leads(EMPTY, run, UPGRADING)
  {
    run := PublishedIsReachable();
    var db;
    run, db := Then(EMPTY, run, PUBLISHED, CreateGeneration(1, 2, SECOND));
  }

  // Deleted again.
  const REMOVED := PUBLISHED.(
    notes := map[0 := Note("note.md", Some(0), Some(0), true, 3)],
    jobs := map[0 := Job(CuratedVersion, 0, 0, JobStatus.Deleted, 6)])

  lemma RemovedIsReachable() returns (run: seq<Command>)
    ensures Leads(EMPTY, run, REMOVED)
  {
    run := PublishedIsReachable();
    var db;
    run, db := Then(EMPTY, run, PUBLISHED, Delete(0, 0, 2, 4));
    run, db := Then(EMPTY, run, db, StepJob(0, JobStatus.Deleted, 5));
    assert db.jobs == REMOVED.jobs;
    assert db.notes == REMOVED.notes;
  }

  // With a second generation under construction.
  const DELETED := REMOVED.(
    generations := REMOVED.generations[1 := Generation(2, FIRST, GenerationStatus.Staging, 1)])

  lemma DeletedIsReachable() returns (run: seq<Command>)
    ensures Leads(EMPTY, run, DELETED)
  {
    run := RemovedIsReachable();
    var db;
    run, db := Then(EMPTY, run, REMOVED, CreateGeneration(1, 2, FIRST));
  }

  // With its only note deleted, the repository accepts a rollback to a generation that never served.
  lemma StagingRollbackIsReachable() returns (run: seq<Command>)
    ensures Leads(EMPTY, run, DELETED)
    ensures DELETED.HasGeneration(1, GenerationStatus.Staging) && Rollback(DELETED, 1, 1).Ok?
  {
    run := DeletedIsReachable();
    ReachableInv(run);
    assert DELETED.HasGeneration(0, GenerationStatus.Active);
    ActiveIsThe(DELETED, 0);
    RollbackToStagingIff(DELETED, 1, 1);
  }

  // ---- A stranded note ----

  // The second generation serves; nothing was live to be moved there.
  const PROMOTED := DELETED.(
    generations := map[0 := Generation(1, FIRST, GenerationStatus.Superseded, 3),
                       1 := Generation(2, FIRST, GenerationStatus.Active, 2)])

  lemma PromotionOfTheEmptyFleet()
    ensures Promote(DELETED, 1, 1) == Ok(PROMOTED)
  {
    assert DELETED.HasGeneration(0, GenerationStatus.Active);
    ActiveIsThe(DELETED, 0);
    assert Movers(DELETED, 0) == {};
    var gens := SetGeneration(SetGeneration(DELETED, 0, GenerationStatus.Superseded), 1, GenerationStatus.Active);
    var next := MoveNotes(gens, {}, 0, 1);
    assert next.notes == DELETED.notes;
    assert next.jobs == DELETED.jobs;
    assert next.generations == PROMOTED.generations;
  }

  lemma PromotedIsReachable() returns (run: seq<Command>)
    ensures Leads(EMPTY, run, PROMOTED)
  {
    run := DeletedIsReachable();
    PromotionOfTheEmptyFleet();
    var db;
    run, db := Then(EMPTY, run, DELETED, PromoteTo(1, 1));
  }

  lemma ReindexedIsReachable() returns (run: seq<Command>, db: Db)
    ensures Leads(EMPTY, run, db)
    ensures db == PROMOTED.(jobs := map[0 := Job(CuratedVersion, 0, 0, JobStatus.Indexed, 9)])
  {
    run := PromotedIsReachable();
    run, db := Then(EMPTY, run, PROMOTED, StepJob(0, JobStatus.Pending, 6));
    run, db := Then(EMPTY, run, db, StepJob(0, JobStatus.Indexing, 7));
    run, db := Then(EMPTY, run, db, StepJob(0, JobStatus.Indexed, 8));
  }

  // Delete the note, promote generation 1 while no note is live, restore the note: it is live on
  // generation 0, which no longer serves.
  lemma StrandingIsReachable() returns (run: seq<Command>)
    ensures GuardedRun(run) && Stranded(Final(EMPTY, run), 0, 0) && !SingleServing(Final(EMPTY, run))
  {
    var db;
    run, db := ReindexedIsReachable();
    assert !PathTaken(db, 0, "note.md");
    run, db := Then(EMPTY, run, db, Restore(0, 0, 3, 9));
    assert Stranded(db, 0, 0);
  }

  // ---- Two notes at one path ----

  // A second note, published at the path that the first one left.
  const SHARED := REMOVED.(
    notes := REMOVED.notes[1 := Note("note.md", Some(1), Some(0), false, 2)],
    versions := REMOVED.versions[1 := Version(1, 1, VersionStatus.Active, 4)],
    jobs := REMOVED.jobs[1 := Job(CuratedVersion, 1, 0, JobStatus.ActiveIndexed, 4)],
    changes := REMOVED.changes[1 := Change(ChangeStatus.Active, 4)],
    runs := REMOVED.runs[1 := Run(1, 1, 1, 0, RunStatus.Completed, 8)])

  lemma SharedIsReachable() returns (run: seq<Command>)
    ensures Leads(EMPTY, run, SHARED)
  {
    run := RemovedIsReachable();
    ReachableInv(run);
    assert REMOVED.HasGeneration(0, GenerationStatus.Active);
    run := PublicationGoesThrough(EMPTY, run, REMOVED, Rows(1, 1, 1, 1, 1), "note.md", 0);
  }
}
