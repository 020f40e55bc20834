/**
 * What each repository call does, as a function from database to database.
 *
 * An `Err` stands for the exception, with the savepoint rolled back: there is no new database.
 * `Repository.dfy` proves that the row-by-row methods compute exactly these functions.
 */
module RepositorySpec {
  import opened Prelude
  import opened Transitions
  import opened Schema

  // ---- Row creation ----

  ghost function AddNote(db: Db, n: NoteId, path: string): Result<Db, Error> {
    if n in db.notes || PathTaken(db, n, path) then Err(Duplicate)
    else Ok(db.(notes := db.notes[n := Note(path, None, None, false, 1)]))
  }

  // Another live note already sits at this path.
  ghost predicate PathTaken(db: Db, n: NoteId, path: string) {
    exists m :: m != n && db.Live(m) && db.notes[m].path == path
  }

  function AddVersion(db: Db, v: VersionId, n: NoteId, c: ChangeId): Result<Db, Error> {
    if !db.Live(n) || c !in db.changes then Err(NotFound)
    else if v in db.versions then Err(Duplicate)
    else Ok(db.(versions := db.versions[v := Version(n, c, VersionStatus.Draft, 1)]))
  }

  function MoveVersion(db: Db, v: VersionId, target: VersionStatus, expected: nat): Result<Db, Error> {
    if v !in db.versions then Err(NotFound)
    else if db.versions[v].revision != expected then Err(Concurrent)
    else if !CanMoveVersion(db.versions[v].status, target) then Err(InvalidTransition)
    else Ok(SetVersion(db, v, target))
  }

  ghost function AddGeneration(db: Db, g: GenerationId, number: nat, manifest: Manifest): Result<Db, Error> {
    if g in db.generations || exists h :: h in db.generations && db.generations[h].number == number
    then Err(Duplicate)
    else Ok(db.(generations := db.generations[g := Generation(number, manifest, GenerationStatus.Staging, 1)]))
  }

  function MoveGeneration(db: Db, g: GenerationId, target: GenerationStatus, expected: nat): Result<Db, Error> {
    if g !in db.generations then Err(NotFound)
    else if db.generations[g].revision != expected then Err(Concurrent)
    else if !CanMoveGeneration(db.generations[g].status, target) then Err(InvalidTransition)
    else if target.Active? && exists h :: h in db.generations && db.generations[h].status.Active? then Err(Duplicate)
    else Ok(SetGeneration(db, g, target))
  }

  ghost function AddJob(db: Db, j: JobId, objectType: ObjectType, entity: nat, g: GenerationId): Result<Db, Error> {
    var job := Job(objectType, entity, g, JobStatus.Pending, 1);
    if objectType.CuratedVersion? && entity !in db.versions then Err(Invariant)
    else if g !in db.generations then Err(NotFound)
    else if j in db.jobs || exists i :: i in db.jobs && SameTarget(db.jobs[i], job) then Err(Duplicate)
    else Ok(db.(jobs := db.jobs[j := job]))
  }

  // `transition_index_job`; `mark_index_job_indexed` is the case target == INDEXED.
  function MoveJob(db: Db, j: JobId, target: JobStatus, expected: nat): Result<Db, Error> {
    if j !in db.jobs then Err(NotFound)
    else if db.jobs[j].revision != expected then Err(Concurrent)
    else if !CanMoveJob(db.jobs[j].status, target) then Err(InvalidTransition)
    else Ok(SetJob(db, j, target))
  }

  function AddChange(db: Db, c: ChangeId): Result<Db, Error> {
    if c in db.changes then Err(Duplicate)
    else Ok(db.(changes := db.changes[c := Change(ChangeStatus.Received, 1)]))
  }

  function MoveChange(db: Db, c: ChangeId, target: ChangeStatus, expected: nat): Result<Db, Error> {
    if c !in db.changes then Err(NotFound)
    else if db.changes[c].revision != expected then Err(Concurrent)
    else if !CanMoveChange(db.changes[c].status, target) then Err(InvalidTransition)
    else Ok(SetChange(db, c, target))
  }

  ghost function AddRun(db: Db, r: RunId, c: ChangeId, n: NoteId, v: VersionId, g: GenerationId): Result<Db, Error> {
    if c !in db.changes || !db.Live(n) || v !in db.versions || g !in db.generations then Err(NotFound)
    else if db.versions[v].note != n || db.versions[v].change != c then Err(Invariant)
    else if r in db.runs || exists q :: q in db.runs && db.runs[q].change == c && db.runs[q].generation == g
    then Err(Duplicate)
    else Ok(db.(runs := db.runs[r := Run(c, n, v, g, RunStatus.Planning, 1)]))
  }

  function MoveRun(db: Db, r: RunId, target: RunStatus, expected: nat): Result<Db, Error> {
    if r !in db.runs then Err(NotFound)
    else if db.runs[r].revision != expected then Err(Concurrent)
    else if !CanMoveRun(db.runs[r].status, target) then Err(InvalidTransition)
    else Ok(SetRun(db, r, target))
  }

  // ---- Single-row updates, each bumping the revision ----

  function SetNote(db: Db, n: NoteId, row: Note): Db
    requires n in db.notes
  {
    db.(notes := db.notes[n := row.(revision := db.notes[n].revision + 1)])
  }

  function SetVersion(db: Db, v: VersionId, status: VersionStatus): Db
    requires v in db.versions
  {
    var row := db.versions[v];
    db.(versions := db.versions[v := row.(status := status, revision := row.revision + 1)])
  }

  function SetGeneration(db: Db, g: GenerationId, status: GenerationStatus): Db
    requires g in db.generations
  {
    var row := db.generations[g];
    db.(generations := db.generations[g := row.(status := status, revision := row.revision + 1)])
  }

  function SetJob(db: Db, j: JobId, status: JobStatus): Db
    requires j in db.jobs
  {
    var row := db.jobs[j];
    db.(jobs := db.jobs[j := row.(status := status, revision := row.revision + 1)])
  }

  function SetChange(db: Db, c: ChangeId, status: ChangeStatus): Db
    requires c in db.changes
  {
    var row := db.changes[c];
    db.(changes := db.changes[c := row.(status := status, revision := row.revision + 1)])
  }

  function SetRun(db: Db, r: RunId, status: RunStatus): Db
    requires r in db.runs
  {
    var row := db.runs[r];
    db.(runs := db.runs[r := row.(status := status, revision := row.revision + 1)])
  }

  // ---- Deletion and restoration ----

  // The job is the one of the note's current version in the note's generation.
  predicate OwnJob(db: Db, n: NoteId, j: JobId)
    requires n in db.notes && j in db.jobs
  {
    && db.Published(n)
    && db.Indexes(j, db.notes[n].version.value, db.notes[n].generation.value)
  }

  function PrepareDeletion(db: Db, n: NoteId, j: JobId, noteRevision: nat, jobRevision: nat): Result<Db, Error> {
    if n !in db.notes || j !in db.jobs then Err(NotFound)
    else if db.notes[n].revision != noteRevision || db.jobs[j].revision != jobRevision then Err(Concurrent)
    else if db.notes[n].deleted || !OwnJob(db, n, j) then Err(Invariant)
    else if !CanMoveJob(db.jobs[j].status, JobStatus.DeletePending) then Err(InvalidTransition)
    else Ok(SetJob(SetNote(db, n, db.notes[n].(deleted := true)), j, JobStatus.DeletePending))
  }

  ghost function RestoreNote(db: Db, n: NoteId, j: JobId, noteRevision: nat, jobRevision: nat): Result<Db, Error> {
    if n !in db.notes || j !in db.jobs then Err(NotFound)
    else if db.notes[n].revision != noteRevision || db.jobs[j].revision != jobRevision then Err(Concurrent)
    else if !db.notes[n].deleted || !OwnJob(db, n, j) || db.jobs[j].status != JobStatus.Indexed
    then Err(Invariant)
    else if PathTaken(db, n, db.notes[n].path) then Err(Duplicate)
    else Ok(SetJob(SetNote(db, n, db.notes[n].(deleted := false)), j, JobStatus.ActiveIndexed))
  }

  // ---- Switching the whole fleet ----

  ghost function ActiveGeneration(db: Db): Option<GenerationId> {
    if g :| db.HasGeneration(g, GenerationStatus.Active) then Some(g) else None
  }

  // The notes that a switch away from generation g moves.
  function Movers(db: Db, g: GenerationId): set<NoteId> {
    set n | n in db.notes && db.Live(n) && db.notes[n].version.Some? && db.notes[n].generation == Some(g)
  }

  // A live published note sits on some other generation.
  ghost predicate Stray(db: Db, g: GenerationId) {
    exists n :: db.Live(n) && db.Published(n) && db.notes[n].generation != Some(g)
  }

  // Every moving note has both jobs, in the two statuses that the switch starts from.
  ghost predicate SwitchJobsReady(db: Db, from: GenerationId, to: GenerationId, toStatus: JobStatus) {
    forall n :: n in Movers(db, from) ==> NoteReady(db, n, from, to, toStatus)
  }

  ghost predicate NoteReady(db: Db, n: NoteId, from: GenerationId, to: GenerationId, toStatus: JobStatus) {
    && n in db.notes && db.notes[n].version.Some?
    && db.HasJob(db.notes[n].version.value, from, JobStatus.ActiveIndexed)
    && db.HasJob(db.notes[n].version.value, to, toStatus)
  }

  // Job j belongs to the current version of one of these notes.
  predicate JobOfAny(db: Db, j: JobId, notes: set<NoteId>, g: GenerationId)
    requires j in db.jobs
  {
    var job := db.jobs[j];
    && job.objectType.CuratedVersion?
    && job.generation == g
    && job.entity in db.versions
    && db.versions[job.entity].note in notes
    && db.versions[job.entity].note in db.notes
    && db.notes[db.versions[job.entity].note].version == Some(job.entity)
  }

  // All these notes and both jobs of each, moved at once.
  function MoveNotes(db: Db, moved: set<NoteId>, from: GenerationId, to: GenerationId): Db {
    db.(
      notes := map n | n in db.notes ::
        var row := db.notes[n];
        if n in moved then row.(generation := Some(to), revision := row.revision + 1) else row,
      jobs := map j | j in db.jobs ::
        var row := db.jobs[j];
        if JobOfAny(db, j, moved, from) then row.(status := JobStatus.DeletePending, revision := row.revision + 1)
        else if JobOfAny(db, j, moved, to) then row.(status := JobStatus.ActiveIndexed, revision := row.revision + 1)
        else row)
  }

  ghost function Switch(db: Db, to: GenerationId, expected: nat, toStatus: JobStatus): Result<Db, Error> {
    if to !in db.generations then Err(NotFound)
    else if db.generations[to].revision != expected then Err(Concurrent)
    else
      var active := ActiveGeneration(db);
      if active.None? || active.value == to then Err(Invariant)
      else
        var from := active.value;
        if !CanMoveGeneration(db.generations[to].status, GenerationStatus.Active) then Err(InvalidTransition)
        else if Stray(db, from) || !SwitchJobsReady(db, from, to, toStatus) then Err(Invariant)
        else
          var gens := SetGeneration(SetGeneration(db, from, GenerationStatus.Superseded), to, GenerationStatus.Active);
          Ok(MoveNotes(gens, Movers(db, from), from, to))
  }

  ghost function Promote(db: Db, to: GenerationId, expected: nat): Result<Db, Error> {
    Switch(db, to, expected, JobStatus.Indexed)
  }

  ghost function Rollback(db: Db, to: GenerationId, expected: nat): Result<Db, Error> {
    Switch(db, to, expected, JobStatus.DeletePending)
  }

  // ---- Publication ----

  datatype Revisions = Revisions(run: nat, note: nat, version: nat, job: nat, change: nat, generation: nat)

  predicate ReadyToActivate(db: Db, r: RunId, j: JobId)
    requires r in db.runs && j in db.jobs
    requires var run := db.runs[r]; run.version in db.versions && run.change in db.changes
  {
    var run := db.runs[r];
    && run.status.Activating?
    && db.versions[run.version].status.Staging?
    && db.jobs[j].status.Indexed?
    && db.changes[run.change].status.PublishIntent?
    && db.versions[run.version].note == run.note
    && db.versions[run.version].change == run.change
    && db.Indexes(j, run.version, run.generation)
  }

  ghost function Activate(db: Db, r: RunId, j: JobId, expected: Revisions): Result<Db, Error> {
    if r !in db.runs then Err(NotFound) else
    var run := db.runs[r];
    if !db.Live(run.note) || run.version !in db.versions || j !in db.jobs || run.change !in db.changes
       || run.generation !in db.generations then Err(NotFound)
    else if expected != Revisions(run.revision, db.notes[run.note].revision, db.versions[run.version].revision,
                                  db.jobs[j].revision, db.changes[run.change].revision,
                                  db.generations[run.generation].revision) then Err(Concurrent)
    else if !ReadyToActivate(db, r, j) then Err(Invariant)
    else match RetireVersion(db, run.note, run.version)
      case Err(e) => Err(e)
      case Ok(db1) =>
        match ServeFrom(db1, run.generation)
        case Err(e) => Err(e)
        case Ok(db2) =>
          Ok(ShowVersion(db2, r, j))
  }

  // The last five rows: the version is shown, and the job, the change and the run say so.
  function ShowVersion(db: Db, r: RunId, j: JobId): Db
    requires r in db.runs && j in db.jobs
    requires var run := db.runs[r]; run.note in db.notes && run.version in db.versions && run.change in db.changes
  {
    var run := db.runs[r];
    var note := db.notes[run.note].(version := Some(run.version), generation := Some(run.generation));
    var shown := SetNote(SetVersion(db, run.version, VersionStatus.Active), run.note, note);
    SetRun(SetChange(SetJob(shown, j, JobStatus.ActiveIndexed), run.change, ChangeStatus.Active),
           r, RunStatus.Completed)
  }

  // The version that the note shows so far, if another one, is superseded.
  function RetireVersion(db: Db, n: NoteId, next: VersionId): Result<Db, Error>
    requires n in db.notes
    ensures RetireVersion(db, n, next).Ok? ==>
      var r := RetireVersion(db, n, next).value;
      r.versions.Keys == db.versions.Keys && r == db.(versions := r.versions)
  {
    match db.notes[n].version
    case None => Ok(db)
    case Some(shown) =>
      if shown !in db.versions then Err(NotFound)
      else if shown == next then Ok(db)
      else if !CanMoveVersion(db.versions[shown].status, VersionStatus.Superseded) then Err(InvalidTransition)
      else Ok(SetVersion(db, shown, VersionStatus.Superseded))
  }

  // Generation g serves: it already does, or nothing live is left on the one that did.
  ghost function ServeFrom(db: Db, g: GenerationId): Result<Db, Error>
    requires g in db.generations
    ensures ServeFrom(db, g).Ok? ==>
      var r := ServeFrom(db, g).value;
      r.generations.Keys == db.generations.Keys && r == db.(generations := r.generations)
  {
    var status := db.generations[g].status;
    var active := ActiveGeneration(db);
    if status.Active? then Ok(db)
    else if !status.Staging? then Err(Invariant)
    else if active.None? then Ok(SetGeneration(db, g, GenerationStatus.Active))
    else if exists n :: db.Live(n) && db.notes[n].generation == active then Err(Invariant)
    else Ok(SetGeneration(SetGeneration(db, active.value, GenerationStatus.Superseded), g, GenerationStatus.Active))
  }
}
