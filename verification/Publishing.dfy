/** Every note whose path is free can be published: the calls that the publication service makes go through. */
module Publishing {
  import opened Prelude
  import opened Transitions
  import opened Schema
  import opened RepositorySpec
  import opened Switching
  import opened Runs

  // ---- Runs, one call longer ----

  lemma {:induction false} FinalThen(db: Db, run: seq<Command>, c: Command)
    ensures Final(db, run + [c]) == After(Final(db, run), c)
    decreases |run|
  {
    if run == [] {
      assert Final(After(db, c), []) == After(db, c);
    } else {
      assert (run + [c])[0] == run[0] && (run + [c])[1..] == run[1..] + [c];
      FinalThen(After(db, run[0]), run[1..], c);
    }
  }

  // The run leads from one database to the other.
  ghost predicate Leads(start: Db, run: seq<Command>, db: Db) {
    GuardedRun(run) && Final(start, run) == db
  }

  lemma Then(start: Db, run: seq<Command>, db: Db, c: Command) returns (longer: seq<Command>, next: Db)
    requires Leads(start, run, db) && Guarded(c) && Execute(db, c).Ok?
    ensures Leads(start, longer, next) && Execute(db, c) == Ok(next)
  {
    longer, next := run + [c], Execute(db, c).value;
    FinalThen(start, run, c);
  }

  // ---- One publication ----

  // The rows of one publication.
  datatype Rows = Rows(change: ChangeId, note: NoteId, version: VersionId, job: JobId, run: RunId)

  ghost predicate Unused(db: Db, rows: Rows, g: GenerationId) {
    && rows.change !in db.changes && rows.note !in db.notes && rows.version !in db.versions
    && rows.job !in db.jobs && rows.run !in db.runs
    && (forall i :: !db.Indexes(i, rows.version, g))
    && (forall q :: q in db.runs ==> db.runs[q].change != rows.change)
  }

  // The generation serves, or may be the first to.
  ghost predicate CanServe(db: Db, g: GenerationId) {
    db.HasGeneration(g, GenerationStatus.Active)
    || (db.HasGeneration(g, GenerationStatus.Staging) && ActiveGeneration(db).None?)
  }

  function Served(db: Db, g: GenerationId): Db
    requires g in db.generations
  {
    if db.generations[g].status.Active? then db else SetGeneration(db, g, GenerationStatus.Active)
  }

  // Everything is written except the last transaction.
  function Activating(db: Db, rows: Rows, path: string, g: GenerationId): Db {
    db.(
      notes := db.notes[rows.note := Note(path, None, None, false, 1)],
      versions := db.versions[rows.version := Version(rows.note, rows.change, VersionStatus.Staging, 3)],
      jobs := db.jobs[rows.job := Job(CuratedVersion, rows.version, g, JobStatus.Indexed, 3)],
      changes := db.changes[rows.change := Change(ChangeStatus.PublishIntent, 3)],
      runs := db.runs[rows.run := Run(rows.change, rows.note, rows.version, g, RunStatus.Activating, 7)])
  }

  function Published(db: Db, rows: Rows, path: string, g: GenerationId): Db
    requires g in db.generations
  {
    db.(
      notes := db.notes[rows.note := Note(path, Some(rows.version), Some(g), false, 2)],
      versions := db.versions[rows.version := Version(rows.note, rows.change, VersionStatus.Active, 4)],
      generations := Served(db, g).generations,
      jobs := db.jobs[rows.job := Job(CuratedVersion, rows.version, g, JobStatus.ActiveIndexed, 4)],
      changes := db.changes[rows.change := Change(ChangeStatus.Active, 4)],
      runs := db.runs[rows.run := Run(rows.change, rows.note, rows.version, g, RunStatus.Completed, 8)])
  }

  lemma ChangeIsReady(start: Db, run: seq<Command>, db: Db, c: ChangeId) returns (longer: seq<Command>, next: Db)
    requires Leads(start, run, db) && c !in db.changes
    ensures Leads(start, longer, next)
    ensures next == db.(changes := db.changes[c := Change(ChangeStatus.PublishIntent, 3)])
  {
    longer, next := Then(start, run, db, CreateChange(c));
    longer, next := Then(start, longer, next, StepChange(c, ChangeStatus.Validating, 1));
    longer, next := Then(start, longer, next, StepChange(c, ChangeStatus.PublishIntent, 2));
    assert next.changes == db.changes[c := Change(ChangeStatus.PublishIntent, 3)];
  }

  lemma VersionIsReady(start: Db, run: seq<Command>, db: Db, v: VersionId, n: NoteId, c: ChangeId)
    returns (longer: seq<Command>, next: Db)
    requires Leads(start, run, db) && v !in db.versions && db.Live(n) && c in db.changes
    ensures Leads(start, longer, next)
    ensures next == db.(versions := db.versions[v := Version(n, c, VersionStatus.Staging, 3)])
  {
    longer, next := Then(start, run, db, CreateVersion(v, n, c));
    longer, next := Then(start, longer, next, StepVersion(v, VersionStatus.Validating, 1));
    longer, next := Then(start, longer, next, StepVersion(v, VersionStatus.Staging, 2));
    assert next.versions == db.versions[v := Version(n, c, VersionStatus.Staging, 3)];
  }

  lemma JobIsReady(start: Db, run: seq<Command>, db: Db, j: JobId, v: VersionId, g: GenerationId)
    returns (longer: seq<Command>, next: Db)
    requires Leads(start, run, db) && j !in db.jobs && v in db.versions && g in db.generations
    requires forall i :: !db.Indexes(i, v, g)
    ensures Leads(start, longer, next)
    ensures next == db.(jobs := db.jobs[j := Job(CuratedVersion, v, g, JobStatus.Indexed, 3)])
  {
    assert forall i :: i in db.jobs && SameTarget(db.jobs[i], Job(CuratedVersion, v, g, JobStatus.Pending, 1))
                       ==> db.Indexes(i, v, g);
    longer, next := Then(start, run, db, CreateJob(j, CuratedVersion, v, g));
    longer, next := Then(start, longer, next, StepJob(j, JobStatus.Indexing, 1));
    longer, next := Then(start, longer, next, StepJob(j, JobStatus.Indexed, 2));
    assert next.jobs == db.jobs[j := Job(CuratedVersion, v, g, JobStatus.Indexed, 3)];
  }

  // One step of a run that was just added to `db`.
  lemma RunStepIsTaken(start: Db, run: seq<Command>, db: Db, r: RunId, row: Run, status: RunStatus)
    returns (longer: seq<Command>, moved: Run)
    requires Leads(start, run, db.(runs := db.runs[r := row])) && CanMoveRun(row.status, status)
    ensures moved == row.(status := status, revision := row.revision + 1)
    ensures Leads(start, longer, db.(runs := db.runs[r := moved]))
  {
    moved := row.(status := status, revision := row.revision + 1);
    var next;
    longer, next := Then(start, run, db.(runs := db.runs[r := row]), StepRun(r, status, row.revision));
    assert next.runs == db.runs[r := moved];
  }

  lemma RunIsReady(start: Db, run: seq<Command>, db: Db, r: RunId, c: ChangeId, n: NoteId, v: VersionId,
                   g: GenerationId)
    returns (longer: seq<Command>, next: Db)
    requires Leads(start, run, db) && r !in db.runs && forall q :: q in db.runs ==> db.runs[q].change != c
    requires c in db.changes && db.Live(n) && v in db.versions && g in db.generations
    requires db.versions[v].note == n && db.versions[v].change == c
    ensures Leads(start, longer, next)
    ensures next == db.(runs := db.runs[r := Run(c, n, v, g, RunStatus.Activating, 7)])
  {
    longer, next := Then(start, run, db, CreateRun(r, c, n, v, g));
    var row := Run(c, n, v, g, RunStatus.Planning, 1);
    longer, row := RunStepIsTaken(start, longer, db, r, row, RunStatus.Curating);
    longer, row := RunStepIsTaken(start, longer, db, r, row, RunStatus.VaultStaged);
    longer, row := RunStepIsTaken(start, longer, db, r, row, RunStatus.Indexing);
    longer, row := RunStepIsTaken(start, longer, db, r, row, RunStatus.IndexVerified);
    longer, row := RunStepIsTaken(start, longer, db, r, row, RunStatus.VaultPublished);
    longer, row := RunStepIsTaken(start, longer, db, r, row, RunStatus.Activating);
    next := db.(runs := db.runs[r := row]);
  }

  lemma ActivatingIsReached(start: Db, run: seq<Command>, db: Db, rows: Rows, path: string, g: GenerationId)
    returns (longer: seq<Command>, next: Db)
    requires Leads(start, run, db) && Unused(db, rows, g) && g in db.generations && !PathTaken(db, rows.note, path)
    ensures Leads(start, longer, next) && next == Activating(db, rows, path, g)
  {
    longer, next := ChangeIsReady(start, run, db, rows.change);
    assert !PathTaken(next, rows.note, path) by {
      assert forall m :: next.Live(m) == db.Live(m);
    }
    longer, next := Then(start, longer, next, CreateNote(rows.note, path));
    longer, next := VersionIsReady(start, longer, next, rows.version, rows.note, rows.change);
    assert forall i :: next.Indexes(i, rows.version, g) == db.Indexes(i, rows.version, g);
    longer, next := JobIsReady(start, longer, next, rows.job, rows.version, g);
    longer, next := RunIsReady(start, longer, next, rows.run, rows.change, rows.note, rows.version, g);
  }

  // The last transaction shows the note, on the generation that serves or now starts to.
  lemma ActivationShows(db: Db, rows: Rows, path: string, g: GenerationId)
    requires Unused(db, rows, g) && CanServe(db, g) && OneActiveGeneration(db)
    ensures Activate(Activating(db, rows, path, g), rows.run, rows.job,
                     Revisions(7, 1, 3, 3, 3, db.generations[g].revision)) == Ok(Published(db, rows, path, g))
  {
    var ready := Activating(db, rows, path, g);
    assert forall h, s :: ready.HasGeneration(h, s) == db.HasGeneration(h, s);
    assert ServeFrom(ready, g) == Ok(Served(ready, g)) by {
      assert ActiveGeneration(db).None? ==> forall h :: !db.HasGeneration(h, GenerationStatus.Active);
    }
    assert ReadyToActivate(ready, rows.run, rows.job);
    ShownRows(db, rows, path, g);
  }

  lemma ShownRows(db: Db, rows: Rows, path: string, g: GenerationId)
    requires g in db.generations
    ensures ShowVersion(Served(Activating(db, rows, path, g), g), rows.run, rows.job) == Published(db, rows, path, g)
  {
    Overwritten(db.notes, rows.note, Note(path, None, None, false, 1),
                Note(path, Some(rows.version), Some(g), false, 2));
    Overwritten(db.versions, rows.version, Version(rows.note, rows.change, VersionStatus.Staging, 3),
                Version(rows.note, rows.change, VersionStatus.Active, 4));
    Overwritten(db.jobs, rows.job, Job(CuratedVersion, rows.version, g, JobStatus.Indexed, 3),
                Job(CuratedVersion, rows.version, g, JobStatus.ActiveIndexed, 4));
    Overwritten(db.changes, rows.change, Change(ChangeStatus.PublishIntent, 3), Change(ChangeStatus.Active, 4));
    Overwritten(db.runs, rows.run, Run(rows.change, rows.note, rows.version, g, RunStatus.Activating, 7),
                Run(rows.change, rows.note, rows.version, g, RunStatus.Completed, 8));
  }

  lemma Overwritten<K, V>(m: map<K, V>, k: K, before: V, after: V)
    ensures m[k := before][k := after] == m[k := after]
  {
  }

  // A note whose path is free can always be published on the serving generation, or on a first one.
  lemma PublicationGoesThrough(start: Db, run: seq<Command>, db: Db, rows: Rows, path: string, g: GenerationId)
    returns (longer: seq<Command>)
    requires Leads(start, run, db) && OneActiveGeneration(db) && Unused(db, rows, g)
    requires CanServe(db, g) && !PathTaken(db, rows.note, path)
    ensures Leads(start, longer, Published(db, rows, path, g))
  {
    var next;
    longer, next := ActivatingIsReached(start, run, db, rows, path, g);
    ActivationShows(db, rows, path, g);
    longer, next := Then(start, longer, next, Publish(rows.run, rows.job,
                                                      Revisions(7, 1, 3, 3, 3, db.generations[g].revision)));
  }
}
