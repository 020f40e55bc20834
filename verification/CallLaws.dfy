/** What every accepted call was told, what it counts, and which rows it leaves for good. */
module CallLaws {
  import opened Prelude
  import opened Transitions
  import opened Schema
  import opened RepositorySpec
  import opened Switching
  import opened Activation
  import opened ActivationLaws
  import opened Runs

  // ---- Stale callers are refused ----

  // Every revision that the call expects is the one stored.
  predicate UpToDate(db: Db, c: Command) {
    match c
    case StepVersion(v, _, revision) => v in db.versions && db.versions[v].revision == revision
    case AbortGeneration(g, revision) => g in db.generations && db.generations[g].revision == revision
    case StepJob(j, _, revision) => j in db.jobs && db.jobs[j].revision == revision
    case StepChange(k, _, revision) => k in db.changes && db.changes[k].revision == revision
    case StepRun(r, _, revision) => r in db.runs && db.runs[r].revision == revision
    case Delete(n, j, noteRevision, jobRevision) =>
      && n in db.notes && db.notes[n].revision == noteRevision
      && j in db.jobs && db.jobs[j].revision == jobRevision
    case Restore(n, j, noteRevision, jobRevision) =>
      && n in db.notes && db.notes[n].revision == noteRevision
      && j in db.jobs && db.jobs[j].revision == jobRevision
    case PromoteTo(g, revision) => g in db.generations && db.generations[g].revision == revision
    case RollBackTo(g, revision) => g in db.generations && db.generations[g].revision == revision
    case Publish(r, j, revisions) => Current(db, r, j, revisions)
    case _ => true
  }

  lemma StaleCallIsRefused(db: Db, c: Command)
    requires !UpToDate(db, c)
    ensures Execute(db, c).Err? && After(db, c) == db
  {
  }

  // ---- Every row of a switch ----

  // The job of a live published note's current version in this generation.
  ghost predicate ServesLive(db: Db, j: JobId, g: GenerationId) {
    exists n :: db.Live(n) && db.Published(n) && db.Indexes(j, db.notes[n].version.value, g)
  }

  lemma JobsOfMovers(db: Db, from: GenerationId, g: GenerationId, j: JobId)
    requires OwnVersions(db) && !Stray(db, from) && j in db.jobs
    ensures JobOfAny(db, j, Movers(db, from), g) <==> ServesLive(db, j, g)
  {
    MoversAreAll(db, from);
    if JobOfAny(db, j, Movers(db, from), g) {
      var n := db.versions[db.jobs[j].entity].note;
      assert db.Indexes(j, db.notes[n].version.value, g);
    }
  }

  // Every note that is live and published moves.
  lemma NotesAfterSwitch(db: Db, to: GenerationId, expected: nat, toStatus: JobStatus)
    requires Inv(db) && Switch(db, to, expected, toStatus).Ok?
    ensures
      var next := Switch(db, to, expected, toStatus).value;
      && next.notes.Keys == db.notes.Keys
      && forall n :: n in db.notes ==>
           next.notes[n] == if db.Live(n) && db.Published(n)
                            then db.notes[n].(generation := Some(to), revision := db.notes[n].revision + 1)
                            else db.notes[n]
  {
    SwitchGenerations(db, to, expected, toStatus);
    MoversAreAll(db, ActiveGeneration(db).value);
  }

  // Its jobs on the two generations change places.
  lemma JobsAfterSwitch(db: Db, to: GenerationId, expected: nat, toStatus: JobStatus)
    requires Inv(db) && Switch(db, to, expected, toStatus).Ok?
    ensures
      var next := Switch(db, to, expected, toStatus).value;
      && ActiveGeneration(db).Some? && next.jobs.Keys == db.jobs.Keys
      && forall j :: j in db.jobs ==>
           var row := db.jobs[j];
           next.jobs[j] == if ServesLive(db, j, ActiveGeneration(db).value)
                           then row.(status := JobStatus.DeletePending, revision := row.revision + 1)
                           else if ServesLive(db, j, to)
                           then row.(status := JobStatus.ActiveIndexed, revision := row.revision + 1)
                           else row
  {
    SwitchGenerations(db, to, expected, toStatus);
    var from := ActiveGeneration(db).value;
    forall j | j in db.jobs
      ensures JobOfAny(db, j, Movers(db, from), from) <==> ServesLive(db, j, from)
      ensures JobOfAny(db, j, Movers(db, from), to) <==> ServesLive(db, j, to)
    {
      JobsOfMovers(db, from, from, j);
      JobsOfMovers(db, from, to, j);
    }
  }

  // The two generations change places, and the other tables stay.
  lemma GenerationsAfterSwitch(db: Db, to: GenerationId, expected: nat, toStatus: JobStatus)
    requires Inv(db) && Switch(db, to, expected, toStatus).Ok?
    ensures
      var next := Switch(db, to, expected, toStatus).value;
      && ActiveGeneration(db).Some? && var from := ActiveGeneration(db).value;
      && from != to && from in db.generations && to in db.generations
      && next.generations == db.generations[
           from := db.generations[from].(status := GenerationStatus.Superseded,
                                         revision := db.generations[from].revision + 1)][
           to := db.generations[to].(status := GenerationStatus.Active, revision := db.generations[to].revision + 1)]
      && next.versions == db.versions && next.changes == db.changes && next.runs == db.runs
  {
    SwitchGenerations(db, to, expected, toStatus);
  }

  // ---- Revisions count the writes ----

  // The row is as it was, or was written once.
  predicate Counted(before: nat, now: nat, same: bool) {
    if same then now == before else now == before + 1
  }

  ghost predicate NotesCounted(db: Db, next: Db) {
    && (forall n :: n in db.notes ==>
          n in next.notes && Counted(db.notes[n].revision, next.notes[n].revision, next.notes[n] == db.notes[n]))
    && (forall n :: n in next.notes && n !in db.notes ==> next.notes[n].revision == 1)
  }

  ghost predicate VersionsCounted(db: Db, next: Db) {
    && (forall v :: v in db.versions ==>
          v in next.versions
          && Counted(db.versions[v].revision, next.versions[v].revision, next.versions[v] == db.versions[v]))
    && (forall v :: v in next.versions && v !in db.versions ==> next.versions[v].revision == 1)
  }

  ghost predicate GenerationsCounted(db: Db, next: Db) {
    && (forall g :: g in db.generations ==>
          g in next.generations
          && Counted(db.generations[g].revision, next.generations[g].revision,
                     next.generations[g] == db.generations[g]))
    && (forall g :: g in next.generations && g !in db.generations ==> next.generations[g].revision == 1)
  }

  ghost predicate JobsCounted(db: Db, next: Db) {
    && (forall j :: j in db.jobs ==>
          j in next.jobs && Counted(db.jobs[j].revision, next.jobs[j].revision, next.jobs[j] == db.jobs[j]))
    && (forall j :: j in next.jobs && j !in db.jobs ==> next.jobs[j].revision == 1)
  }

  ghost predicate ChangesCounted(db: Db, next: Db) {
    && (forall k :: k in db.changes ==>
          k in next.changes
          && Counted(db.changes[k].revision, next.changes[k].revision, next.changes[k] == db.changes[k]))
    && (forall k :: k in next.changes && k !in db.changes ==> next.changes[k].revision == 1)
  }

  ghost predicate RunsCounted(db: Db, next: Db) {
    && (forall r :: r in db.runs ==>
          r in next.runs && Counted(db.runs[r].revision, next.runs[r].revision, next.runs[r] == db.runs[r]))
    && (forall r :: r in next.runs && r !in db.runs ==> next.runs[r].revision == 1)
  }

  ghost predicate AllCounted(db: Db, next: Db) {
    NotesCounted(db, next) && VersionsCounted(db, next) && GenerationsCounted(db, next) && JobsCounted(db, next)
    && ChangesCounted(db, next) && RunsCounted(db, next)
  }

  lemma SwitchCounts(db: Db, to: GenerationId, expected: nat, toStatus: JobStatus)
    requires Inv(db) && Switch(db, to, expected, toStatus).Ok?
    ensures AllCounted(db, Switch(db, to, expected, toStatus).value)
  {
    SwitchCountsNotes(db, to, expected, toStatus);
    SwitchCountsJobs(db, to, expected, toStatus);
    SwitchCountsGenerations(db, to, expected, toStatus);
  }

  lemma SwitchCountsNotes(db: Db, to: GenerationId, expected: nat, toStatus: JobStatus)
    requires Inv(db) && Switch(db, to, expected, toStatus).Ok?
    ensures NotesCounted(db, Switch(db, to, expected, toStatus).value)
  {
    NotesAfterSwitch(db, to, expected, toStatus);
  }

  lemma SwitchCountsJobs(db: Db, to: GenerationId, expected: nat, toStatus: JobStatus)
    requires Inv(db) && Switch(db, to, expected, toStatus).Ok?
    ensures JobsCounted(db, Switch(db, to, expected, toStatus).value)
  {
    JobsAfterSwitch(db, to, expected, toStatus);
  }

  lemma SwitchCountsGenerations(db: Db, to: GenerationId, expected: nat, toStatus: JobStatus)
    requires Inv(db) && Switch(db, to, expected, toStatus).Ok?
    ensures var next := Switch(db, to, expected, toStatus).value;
      GenerationsCounted(db, next) && VersionsCounted(db, next) && ChangesCounted(db, next) && RunsCounted(db, next)
  {
    GenerationsAfterSwitch(db, to, expected, toStatus);
  }

  lemma PublicationCounts(db: Db, r: RunId, j: JobId, expected: Revisions)
    requires Inv(db) && Activate(db, r, j, expected).Ok?
    ensures AllCounted(db, Activate(db, r, j, expected).value)
  {
    PublicationCountsNotes(db, r, j, expected);
    PublicationCountsVersions(db, r, j, expected);
    PublicationCountsGenerations(db, r, j, expected);
    PublicationCountsBooks(db, r, j, expected);
  }

  lemma PublicationCountsNotes(db: Db, r: RunId, j: JobId, expected: Revisions)
    requires Inv(db) && Activate(db, r, j, expected).Ok?
    ensures NotesCounted(db, Activate(db, r, j, expected).value) && JobsCounted(db, Activate(db, r, j, expected).value)
  {
    NotesAfterActivation(db, r, j, expected);
    JobsAfterActivation(db, r, j, expected);
  }

  lemma PublicationCountsVersions(db: Db, r: RunId, j: JobId, expected: Revisions)
    requires Inv(db) && Activate(db, r, j, expected).Ok?
    ensures VersionsCounted(db, Activate(db, r, j, expected).value)
  {
    VersionsAfterActivation(db, r, j, expected);
  }

  lemma PublicationCountsGenerations(db: Db, r: RunId, j: JobId, expected: Revisions)
    requires Inv(db) && Activate(db, r, j, expected).Ok?
    ensures GenerationsCounted(db, Activate(db, r, j, expected).value)
  {
    GenerationsAfterActivation(db, r, j, expected);
  }

  lemma PublicationCountsBooks(db: Db, r: RunId, j: JobId, expected: Revisions)
    requires Inv(db) && Activate(db, r, j, expected).Ok?
    ensures ChangesCounted(db, Activate(db, r, j, expected).value)
    ensures RunsCounted(db, Activate(db, r, j, expected).value)
  {
    ChangesAfterActivation(db, r, j, expected);
  }

  predicate Plain(c: Command) {
    !c.PromoteTo? && !c.RollBackTo? && !c.Publish?
  }

  lemma PlainCallCountsNotes(db: Db, c: Command, next: Db)
    requires Execute(db, c) == Ok(next) && Plain(c)
    ensures NotesCounted(db, next)
  {
  }

  lemma PlainCallCountsVersions(db: Db, c: Command, next: Db)
    requires Execute(db, c) == Ok(next) && Plain(c)
    ensures VersionsCounted(db, next)
  {
  }

  lemma PlainCallCountsGenerations(db: Db, c: Command, next: Db)
    requires Execute(db, c) == Ok(next) && Plain(c)
    ensures GenerationsCounted(db, next)
  {
  }

  lemma PlainCallCountsJobs(db: Db, c: Command, next: Db)
    requires Execute(db, c) == Ok(next) && Plain(c)
    ensures JobsCounted(db, next)
  {
  }

  lemma PlainCallCountsChanges(db: Db, c: Command, next: Db)
    requires Execute(db, c) == Ok(next) && Plain(c)
    ensures ChangesCounted(db, next)
  {
  }

  lemma PlainCallCountsRuns(db: Db, c: Command, next: Db)
    requires Execute(db, c) == Ok(next) && Plain(c)
    ensures RunsCounted(db, next)
  {
  }

  lemma PlainCallCounts(db: Db, c: Command, next: Db)
    requires Execute(db, c) == Ok(next) && Plain(c)
    ensures AllCounted(db, next)
  {
    PlainCallCountsNotes(db, c, next);
    PlainCallCountsVersions(db, c, next);
    PlainCallCountsGenerations(db, c, next);
    PlainCallCountsJobs(db, c, next);
    PlainCallCountsChanges(db, c, next);
    PlainCallCountsRuns(db, c, next);
  }

  // Every call, whatever it does, leaves a row alone or raises its revision by exactly one, and removes none.
  lemma CallCounts(db: Db, c: Command)
    requires Inv(db)
    ensures AllCounted(db, After(db, c))
  {
    if Execute(db, c).Ok? {
      match c
      case PromoteTo(g, revision) => SwitchCounts(db, g, revision, JobStatus.Indexed);
      case RollBackTo(g, revision) => SwitchCounts(db, g, revision, JobStatus.DeletePending);
      case Publish(r, j, revisions) => PublicationCounts(db, r, j, revisions);
      case _ => PlainCallCounts(db, c, After(db, c));
    }
  }

  // ---- Exactly when a call is accepted ----

  // A live note and its own job, at the expected revisions.
  lemma DeletionIff(db: Db, n: NoteId, j: JobId, noteRevision: nat, jobRevision: nat)
    requires Inv(db)
    ensures PrepareDeletion(db, n, j, noteRevision, jobRevision).Ok? <==>
      && UpToDate(db, Command.Delete(n, j, noteRevision, jobRevision))
      && db.Live(n) && db.Published(n) && db.Indexes(j, db.notes[n].version.value, db.notes[n].generation.value)
  {
    if db.Live(n) && db.Published(n) && db.Indexes(j, db.notes[n].version.value, db.notes[n].generation.value) {
      var v, g := db.notes[n].version.value, db.notes[n].generation.value;
      var i :| db.Indexes(i, v, g) && db.jobs[i].status.ActiveIndexed?;
      JobIsUnique(db, i, j, v, g);
    }
  }

  lemma DeletionRows(db: Db, n: NoteId, j: JobId, noteRevision: nat, jobRevision: nat)
    requires PrepareDeletion(db, n, j, noteRevision, jobRevision).Ok?
    ensures n in db.notes && j in db.jobs
    ensures PrepareDeletion(db, n, j, noteRevision, jobRevision).value == db.(
              notes := db.notes[n := db.notes[n].(deleted := true, revision := db.notes[n].revision + 1)],
              jobs := db.jobs[j := db.jobs[j].(status := JobStatus.DeletePending,
                                               revision := db.jobs[j].revision + 1)])
  {
  }

  // A deleted note whose own job is INDEXED again, with no live note at its path.
  lemma RestorationIff(db: Db, n: NoteId, j: JobId, noteRevision: nat, jobRevision: nat)
    ensures RestoreNote(db, n, j, noteRevision, jobRevision).Ok? <==>
      && UpToDate(db, Restore(n, j, noteRevision, jobRevision))
      && db.notes[n].deleted && db.Published(n)
      && db.Indexes(j, db.notes[n].version.value, db.notes[n].generation.value)
      && db.jobs[j].status == JobStatus.Indexed
      && forall m :: db.Live(m) ==> db.notes[m].path != db.notes[n].path
  {
  }

  lemma RestorationRows(db: Db, n: NoteId, j: JobId, noteRevision: nat, jobRevision: nat)
    requires RestoreNote(db, n, j, noteRevision, jobRevision).Ok?
    ensures n in db.notes && j in db.jobs
    ensures RestoreNote(db, n, j, noteRevision, jobRevision).value == db.(
              notes := db.notes[n := db.notes[n].(deleted := false, revision := db.notes[n].revision + 1)],
              jobs := db.jobs[j := db.jobs[j].(status := JobStatus.ActiveIndexed,
                                               revision := db.jobs[j].revision + 1)])
  {
  }

  // A generation that was never served or was served before, and both jobs of every live published note, all
  // of which the serving generation has.
  ghost predicate SwitchAllowed(db: Db, from: GenerationId, to: GenerationId, toStatus: JobStatus) {
    && db.HasGeneration(from, GenerationStatus.Active)
    && (db.HasGeneration(to, GenerationStatus.Staging) || db.HasGeneration(to, GenerationStatus.Superseded))
    && forall n :: db.Live(n) && db.Published(n) ==>
         && db.notes[n].generation == Some(from)
         && (exists i :: db.Indexes(i, db.notes[n].version.value, from) && db.jobs[i].status.ActiveIndexed?)
         && (exists i :: db.Indexes(i, db.notes[n].version.value, to) && db.jobs[i].status == toStatus)
  }

  lemma SwitchIff(db: Db, to: GenerationId, expected: nat, toStatus: JobStatus)
    requires Inv(db)
    ensures Switch(db, to, expected, toStatus).Ok? <==>
      && to in db.generations && db.generations[to].revision == expected
      && exists from :: SwitchAllowed(db, from, to, toStatus)
  {
    if from :| db.HasGeneration(from, GenerationStatus.Active) {
      ActiveIsThe(db, from);
      assert (exists f :: SwitchAllowed(db, f, to, toStatus)) <==> SwitchAllowed(db, from, to, toStatus);
      if to in db.generations && db.generations[to].revision == expected {
        ReadinessIs(db, from, to, toStatus);
      }
    }
  }

  lemma ReadinessIs(db: Db, from: GenerationId, to: GenerationId, toStatus: JobStatus)
    requires OwnVersions(db) && db.HasGeneration(from, GenerationStatus.Active)
    ensures SwitchAllowed(db, from, to, toStatus) <==>
      && (db.HasGeneration(to, GenerationStatus.Staging) || db.HasGeneration(to, GenerationStatus.Superseded))
      && !Stray(db, from) && SwitchJobsReady(db, from, to, toStatus)
  {
    if !Stray(db, from) {
      MoversAreAll(db, from);
    }
  }

  // ---- Creation and single steps ----

  // The rows that a new one refers to are there, its identifier is new, and no unique index stands against it.
  ghost predicate Creatable(db: Db, c: Command) {
    match c
    case CreateNote(n, path) => n !in db.notes && forall m :: db.Live(m) ==> db.notes[m].path != path
    case CreateVersion(v, n, k) => v !in db.versions && db.Live(n) && k in db.changes
    case CreateGeneration(g, number, _) =>
      g !in db.generations && forall h :: h in db.generations ==> db.generations[h].number != number
    case CreateJob(j, objectType, entity, g) =>
      && j !in db.jobs && g in db.generations && (objectType.CuratedVersion? ==> entity in db.versions)
      && forall i :: i in db.jobs ==>
           !(db.jobs[i].objectType == objectType && db.jobs[i].entity == entity && db.jobs[i].generation == g)
    case CreateChange(k) => k !in db.changes
    case CreateRun(r, k, n, v, g) =>
      && r !in db.runs && k in db.changes && db.Live(n) && v in db.versions && g in db.generations
      && db.versions[v].note == n && db.versions[v].change == k
      && forall q :: q in db.runs ==> !(db.runs[q].change == k && db.runs[q].generation == g)
    case _ => false
  }

  predicate Creates(c: Command) {
    c.CreateNote? || c.CreateVersion? || c.CreateGeneration? || c.CreateJob? || c.CreateChange? || c.CreateRun?
  }

  lemma CreationIff(db: Db, c: Command)
    requires Creates(c)
    ensures Execute(db, c).Ok? <==> Creatable(db, c)
  {
    if c.CreateJob? {
      var job := Job(c.objectType, c.entity, c.generation, JobStatus.Pending, 1);
      assert forall i :: i in db.jobs ==>
        (SameTarget(db.jobs[i], job) <==> db.jobs[i].objectType == c.objectType && db.jobs[i].entity == c.entity
                                          && db.jobs[i].generation == c.generation);
    }
  }

  // The one row that is new, in its first status.
  lemma CreationAddsOneRow(db: Db, c: Command)
    requires Creates(c) && Execute(db, c).Ok?
    ensures After(db, c) ==
      match c
      case CreateNote(n, path) => db.(notes := db.notes[n := Note(path, None, None, false, 1)])
      case CreateVersion(v, n, k) => db.(versions := db.versions[v := Version(n, k, VersionStatus.Draft, 1)])
      case CreateGeneration(g, number, manifest) =>
        db.(generations := db.generations[g := Generation(number, manifest, GenerationStatus.Staging, 1)])
      case CreateJob(j, objectType, entity, g) =>
        db.(jobs := db.jobs[j := Job(objectType, entity, g, JobStatus.Pending, 1)])
      case CreateChange(k) => db.(changes := db.changes[k := Change(ChangeStatus.Received, 1)])
      case CreateRun(r, k, n, v, g) => db.(runs := db.runs[r := Run(k, n, v, g, RunStatus.Planning, 1)])
      case _ => db
  {
  }

  // A single step is accepted exactly for the current row along a declared transition, and changes this row's
  // status alone.
  lemma StepIff(db: Db, c: Command)
    requires c.StepVersion? || c.StepJob? || c.StepChange? || c.StepRun?
    ensures Execute(db, c).Ok? <==>
      UpToDate(db, c) &&
      match c
      case StepVersion(v, status, _) => CanMoveVersion(db.versions[v].status, status)
      case StepJob(j, status, _) => CanMoveJob(db.jobs[j].status, status)
      case StepChange(k, status, _) => CanMoveChange(db.changes[k].status, status)
      case StepRun(r, status, _) => CanMoveRun(db.runs[r].status, status)
      case _ => true
  {
  }

  lemma StepChangesOneStatus(db: Db, c: Command)
    requires (c.StepVersion? || c.StepJob? || c.StepChange? || c.StepRun?) && Execute(db, c).Ok?
    ensures UpToDate(db, c)
    ensures After(db, c) ==
      match c
      case StepVersion(v, status, revision) =>
        db.(versions := db.versions[v := db.versions[v].(status := status, revision := revision + 1)])
      case StepJob(j, status, revision) =>
        db.(jobs := db.jobs[j := db.jobs[j].(status := status, revision := revision + 1)])
      case StepChange(k, status, revision) =>
        db.(changes := db.changes[k := db.changes[k].(status := status, revision := revision + 1)])
      case StepRun(r, status, revision) =>
        db.(runs := db.runs[r := db.runs[r].(status := status, revision := revision + 1)])
      case _ => db
  {
  }

  // ---- What is final ----

  ghost predicate FinalVersionsKept(db: Db, next: Db) {
    && (forall g :: db.HasGeneration(g, GenerationStatus.Failed) ==>
          g in next.generations && next.generations[g] == db.generations[g])
    && (forall v :: v in db.versions && FinalVersion(db.versions[v].status) ==>
          v in next.versions && next.versions[v] == db.versions[v])
  }

  ghost predicate FinalBooksKept(db: Db, next: Db) {
    && (forall k :: k in db.changes && FinalChange(db.changes[k].status) ==>
          k in next.changes && next.changes[k] == db.changes[k])
    && (forall r :: r in db.runs && db.runs[r].status.Completed? ==> r in next.runs && next.runs[r] == db.runs[r])
  }

  // A FAILED generation, a version that was shown or set aside, a change that was decided and a COMPLETED run
  // are never written again.
  ghost predicate FinalRowsKept(db: Db, next: Db) {
    FinalVersionsKept(db, next) && FinalBooksKept(db, next)
  }

  predicate FinalVersion(s: VersionStatus) {
    s == VersionStatus.Superseded || s == VersionStatus.Quarantined || s == VersionStatus.Failed
  }

  predicate FinalChange(s: ChangeStatus) {
    s == ChangeStatus.Active || s == ChangeStatus.Failed || s == ChangeStatus.Quarantined
  }

  lemma CallKeepsFinalRows(db: Db, c: Command)
    requires Inv(db)
    ensures FinalRowsKept(db, After(db, c))
  {
    if Execute(db, c).Ok? {
      match c
      case PromoteTo(g, revision) => SwitchKeepsFinalRows(db, g, revision, JobStatus.Indexed);
      case RollBackTo(g, revision) => SwitchKeepsFinalRows(db, g, revision, JobStatus.DeletePending);
      case Publish(r, j, revisions) => PublicationKeepsFinalRows(db, r, j, revisions);
      case _ => PlainCallKeepsFinalRows(db, c, After(db, c));
    }
  }

  lemma SwitchKeepsFinalRows(db: Db, to: GenerationId, expected: nat, toStatus: JobStatus)
    requires Inv(db) && Switch(db, to, expected, toStatus).Ok?
    ensures FinalRowsKept(db, Switch(db, to, expected, toStatus).value)
  {
    GenerationsAfterSwitch(db, to, expected, toStatus);
    SwitchGenerations(db, to, expected, toStatus);
  }

  lemma PublicationKeepsFinalRows(db: Db, r: RunId, j: JobId, expected: Revisions)
    requires Inv(db) && Activate(db, r, j, expected).Ok?
    ensures FinalRowsKept(db, Activate(db, r, j, expected).value)
  {
    ActivationIff(db, r, j, expected);
    VersionsAfterActivation(db, r, j, expected);
    GenerationsAfterActivation(db, r, j, expected);
    PublicationKeepsFinalBooks(db, r, j, expected);
  }

  lemma PublicationKeepsFinalBooks(db: Db, r: RunId, j: JobId, expected: Revisions)
    requires Inv(db) && Activate(db, r, j, expected).Ok?
    ensures FinalBooksKept(db, Activate(db, r, j, expected).value)
  {
    ActivationIff(db, r, j, expected);
    ChangesAfterActivation(db, r, j, expected);
  }

  lemma PlainCallKeepsFinalRows(db: Db, c: Command, next: Db)
    requires Execute(db, c) == Ok(next) && Plain(c)
    ensures FinalRowsKept(db, next)
  {
    PlainCallKeepsFinalVersions(db, c, next);
    PlainCallKeepsFinalBooks(db, c, next);
  }

  lemma PlainCallKeepsFinalVersions(db: Db, c: Command, next: Db)
    requires Execute(db, c) == Ok(next) && Plain(c)
    ensures FinalVersionsKept(db, next)
  {
  }

  lemma PlainCallKeepsFinalBooks(db: Db, c: Command, next: Db)
    requires Execute(db, c) == Ok(next) && Plain(c)
    ensures FinalBooksKept(db, next)
  {
  }

  lemma {:induction false} RunsKeepFinalRows(db: Db, run: seq<Command>)
    requires Inv(db) && GuardedRun(run)
    ensures FinalRowsKept(db, Final(db, run))
    decreases |run|
  {
    if run != [] {
      assert Guarded(run[0]);
      CallKeepsInv(db, run[0]);
      CallKeepsFinalRows(db, run[0]);
      RunsKeepFinalRows(After(db, run[0]), run[1..]);
    }
  }

  // ---- What becomes ACTIVE, and how ----

  // A version becomes ACTIVE, a change is put in force and a run completed by a publication of theirs alone,
  // and only from STAGING, PUBLISH_INTENT and ACTIVATING.
  lemma OnlyPublicationShows(db: Db, c: Command, v: VersionId)
    requires Inv(db) && Guarded(c)
    requires v in After(db, c).versions && After(db, c).versions[v].status.Active?
    ensures v in db.versions
    ensures db.versions[v].status.Active?
            || (c.Publish? && c.run in db.runs && db.runs[c.run].version == v && db.versions[v].status.Staging?
                && db.runs[c.run].status.Activating? && db.runs[c.run].change in db.changes
                && db.changes[db.runs[c.run].change].status.PublishIntent?)
  {
    if Execute(db, c).Ok? {
      if c.Publish? {
        ActivationIff(db, c.run, c.job, c.revisions);
        VersionsAfterActivation(db, c.run, c.job, c.revisions);
      } else if c.PromoteTo? {
        GenerationsAfterSwitch(db, c.generation, c.revision, JobStatus.Indexed);
      } else if c.RollBackTo? {
        GenerationsAfterSwitch(db, c.generation, c.revision, JobStatus.DeletePending);
      }
    }
  }

  // ---- The other promises of the tables ----

  ghost predicate DistinctNumbers(db: Db) {
    forall g, h :: g in db.generations && h in db.generations ==>
      (db.generations[g].number == db.generations[h].number <==> g == h)
  }

  // One run for a change on a generation.
  ghost predicate OneRunEach(db: Db) {
    forall r, q :: r in db.runs && q in db.runs ==>
      (db.runs[r].change == db.runs[q].change && db.runs[r].generation == db.runs[q].generation <==> r == q)
  }

  // A run is about a version of its note that its change brought.
  ghost predicate RunsMatch(db: Db) {
    forall r :: r in db.runs ==>
      && db.runs[r].version in db.versions && db.versions[db.runs[r].version].note == db.runs[r].note
      && db.versions[db.runs[r].version].change == db.runs[r].change
  }

  ghost predicate VersionsKnown(db: Db) {
    forall v :: v in db.versions ==> db.versions[v].note in db.notes && db.versions[v].change in db.changes
  }

  ghost predicate Registered(db: Db) {
    DistinctNumbers(db) && OneRunEach(db) && RunsMatch(db) && VersionsKnown(db)
  }

  ghost predicate VersionsExtend(db: Db, next: Db) {
    forall v :: v in db.versions ==>
      v in next.versions && next.versions[v].note == db.versions[v].note
      && next.versions[v].change == db.versions[v].change
  }

  ghost predicate GenerationsExtend(db: Db, next: Db) {
    forall g :: g in db.generations ==>
      g in next.generations && next.generations[g].number == db.generations[g].number
  }

  ghost predicate RunsExtend(db: Db, next: Db) {
    forall r :: r in db.runs ==>
      && r in next.runs && next.runs[r].change == db.runs[r].change && next.runs[r].note == db.runs[r].note
      && next.runs[r].version == db.runs[r].version && next.runs[r].generation == db.runs[r].generation
  }

  // Rows are added, and existing ones keep what they are about.
  ghost predicate Extends(db: Db, next: Db) {
    && db.notes.Keys <= next.notes.Keys && db.changes.Keys <= next.changes.Keys
    && VersionsExtend(db, next) && GenerationsExtend(db, next) && RunsExtend(db, next)
  }

  lemma SwitchExtends(db: Db, to: GenerationId, expected: nat, toStatus: JobStatus)
    requires Inv(db) && Switch(db, to, expected, toStatus).Ok?
    ensures var next := Switch(db, to, expected, toStatus).value;
      Extends(db, next) && next.versions.Keys == db.versions.Keys && next.generations.Keys == db.generations.Keys
      && next.runs.Keys == db.runs.Keys
  {
    NotesAfterSwitch(db, to, expected, toStatus);
    GenerationsAfterSwitch(db, to, expected, toStatus);
  }

  lemma PublicationExtends(db: Db, r: RunId, j: JobId, expected: Revisions)
    requires Inv(db) && Activate(db, r, j, expected).Ok?
    ensures var next := Activate(db, r, j, expected).value;
      Extends(db, next) && next.versions.Keys == db.versions.Keys && next.generations.Keys == db.generations.Keys
      && next.runs.Keys == db.runs.Keys
  {
    PublicationExtendsVersions(db, r, j, expected);
    PublicationExtendsGenerations(db, r, j, expected);
    PublicationExtendsBooks(db, r, j, expected);
  }

  lemma PublicationExtendsVersions(db: Db, r: RunId, j: JobId, expected: Revisions)
    requires Inv(db) && Activate(db, r, j, expected).Ok?
    ensures var next := Activate(db, r, j, expected).value;
      VersionsExtend(db, next) && next.versions.Keys == db.versions.Keys
  {
    VersionsAfterActivation(db, r, j, expected);
  }

  lemma PublicationExtendsGenerations(db: Db, r: RunId, j: JobId, expected: Revisions)
    requires Inv(db) && Activate(db, r, j, expected).Ok?
    ensures var next := Activate(db, r, j, expected).value;
      GenerationsExtend(db, next) && next.generations.Keys == db.generations.Keys
  {
    GenerationsAfterActivation(db, r, j, expected);
  }

  lemma PublicationExtendsBooks(db: Db, r: RunId, j: JobId, expected: Revisions)
    requires Inv(db) && Activate(db, r, j, expected).Ok?
    ensures var next := Activate(db, r, j, expected).value;
      db.notes.Keys <= next.notes.Keys && db.changes.Keys <= next.changes.Keys && RunsExtend(db, next)
      && next.runs.Keys == db.runs.Keys
  {
    NotesAfterActivation(db, r, j, expected);
    ChangesAfterActivation(db, r, j, expected);
  }

  lemma SameRowsStayRegistered(db: Db, next: Db)
    requires Registered(db) && Extends(db, next)
    requires next.versions.Keys == db.versions.Keys && next.generations.Keys == db.generations.Keys
    requires next.runs.Keys == db.runs.Keys
    ensures Registered(next)
  {
  }

  lemma CallKeepsRegistered(db: Db, c: Command)
    requires Inv(db) && Registered(db)
    ensures Registered(After(db, c))
  {
    if Execute(db, c).Ok? {
      match c
      case PromoteTo(g, revision) =>
        SwitchExtends(db, g, revision, JobStatus.Indexed);
        SameRowsStayRegistered(db, After(db, c));
      case RollBackTo(g, revision) =>
        SwitchExtends(db, g, revision, JobStatus.DeletePending);
        SameRowsStayRegistered(db, After(db, c));
      case Publish(r, j, revisions) =>
        PublicationExtends(db, r, j, revisions);
        SameRowsStayRegistered(db, After(db, c));
      case _ => PlainCallKeepsRegistered(db, c, After(db, c));
    }
  }

  lemma PlainCallKeepsRegistered(db: Db, c: Command, next: Db)
    requires Registered(db) && Execute(db, c) == Ok(next) && Plain(c)
    ensures Registered(next)
  {
    PlainCallKeepsRuns(db, c, next);
    PlainCallKeepsNumbers(db, c, next);
    PlainCallKeepsVersionsKnown(db, c, next);
  }

  lemma PlainCallKeepsRuns(db: Db, c: Command, next: Db)
    requires OneRunEach(db) && RunsMatch(db) && Execute(db, c) == Ok(next) && Plain(c)
    ensures OneRunEach(next) && RunsMatch(next)
  {
  }

  lemma PlainCallKeepsNumbers(db: Db, c: Command, next: Db)
    requires DistinctNumbers(db) && Execute(db, c) == Ok(next) && Plain(c)
    ensures DistinctNumbers(next)
  {
  }

  lemma PlainCallKeepsVersionsKnown(db: Db, c: Command, next: Db)
    requires VersionsKnown(db) && Execute(db, c) == Ok(next) && Plain(c)
    ensures VersionsKnown(next)
  {
  }

  lemma {:induction false} RunsKeepRegistered(db: Db, run: seq<Command>)
    requires Inv(db) && Registered(db) && GuardedRun(run)
    ensures Registered(Final(db, run))
    decreases |run|
  {
    if run != [] {
      assert Guarded(run[0]);
      CallKeepsInv(db, run[0]);
      CallKeepsRegistered(db, run[0]);
      RunsKeepRegistered(After(db, run[0]), run[1..]);
    }
  }

  lemma ReachableRegistered(run: seq<Command>)
    requires GuardedRun(run)
    ensures Registered(Final(EMPTY, run))
  {
    RunsKeepRegistered(EMPTY, run);
  }
}
