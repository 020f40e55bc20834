/**
 * Whole runs of the control plane: any sequence of repository calls, refused ones included,
 * from an empty database.
 */
module Runs {
  import opened Prelude
  import opened Transitions
  import opened Schema
  import opened RepositorySpec
  import opened Switching
  import opened Activation

  // The calls that the services make.
  datatype Command =
    | CreateNote(note: NoteId, path: string)
    | CreateVersion(version: VersionId, note: NoteId, change: ChangeId)
    | StepVersion(version: VersionId, versionStatus: VersionStatus, revision: nat)
    | CreateGeneration(generation: GenerationId, number: nat, manifest: Manifest)
    | AbortGeneration(generation: GenerationId, revision: nat)
    | CreateJob(job: JobId, objectType: ObjectType, entity: nat, generation: GenerationId)
    | StepJob(job: JobId, jobStatus: JobStatus, revision: nat)
    | CreateChange(change: ChangeId)
    | StepChange(change: ChangeId, changeStatus: ChangeStatus, revision: nat)
    | CreateRun(run: RunId, change: ChangeId, note: NoteId, version: VersionId, generation: GenerationId)
    | StepRun(run: RunId, runStatus: RunStatus, revision: nat)
    | Delete(note: NoteId, job: JobId, noteRevision: nat, jobRevision: nat)
    | Restore(note: NoteId, job: JobId, noteRevision: nat, jobRevision: nat)
    | PromoteTo(generation: GenerationId, revision: nat)
    | RollBackTo(generation: GenerationId, revision: nat)
    | Publish(run: RunId, job: JobId, revisions: Revisions)

  // No service calls the generic steps for these targets: publication, deletion,
  // restoration and the switches own them.
  predicate Guarded(c: Command) {
    match c
    case StepVersion(_, status, _) => !status.Active?
    case StepJob(_, status, _) => !status.ActiveIndexed? && !status.DeletePending?
    case _ => true
  }

  ghost function Execute(db: Db, c: Command): Result<Db, Error> {
    match c
    case CreateNote(n, path) => AddNote(db, n, path)
    case CreateVersion(v, n, ch) => AddVersion(db, v, n, ch)
    case StepVersion(v, status, revision) => MoveVersion(db, v, status, revision)
    case CreateGeneration(g, number, manifest) => AddGeneration(db, g, number, manifest)
    case AbortGeneration(g, revision) =>
      if db.HasGeneration(g, GenerationStatus.Staging)
      then MoveGeneration(db, g, GenerationStatus.Failed, revision) else Err(Invariant)
    case CreateJob(j, objectType, entity, g) => AddJob(db, j, objectType, entity, g)
    case StepJob(j, status, revision) => MoveJob(db, j, status, revision)
    case CreateChange(ch) => AddChange(db, ch)
    case StepChange(ch, status, revision) => MoveChange(db, ch, status, revision)
    case CreateRun(r, ch, n, v, g) => AddRun(db, r, ch, n, v, g)
    case StepRun(r, status, revision) => MoveRun(db, r, status, revision)
    case Delete(n, j, nr, jr) => PrepareDeletion(db, n, j, nr, jr)
    case Restore(n, j, nr, jr) => RestoreNote(db, n, j, nr, jr)
    case PromoteTo(g, revision) => Promote(db, g, revision)
    case RollBackTo(g, revision) => Rollback(db, g, revision)
    case Publish(r, j, revisions) => Activate(db, r, j, revisions)
  }

  // A refused call leaves the database as it was.
  ghost function After(db: Db, c: Command): Db {
    var r := Execute(db, c);
    if r.Ok? then r.value else db
  }

  ghost function Final(db: Db, run: seq<Command>): Db
    decreases |run|
  {
    if run == [] then db else Final(After(db, run[0]), run[1..])
  }

  ghost predicate GuardedRun(run: seq<Command>) {
    forall i :: 0 <= i < |run| ==> Guarded(run[i])
  }

  // ---- Each call keeps the invariant ----

  // Status s of generations is held by the same ones as before.
  ghost predicate SameHolders(db: Db, next: Db, s: GenerationStatus) {
    forall g :: next.HasGeneration(g, s) == db.HasGeneration(g, s)
  }

  lemma CreateNoteKeepsInv(db: Db, n: NoteId, path: string, next: Db)
    requires Inv(db) && n !in db.notes && !PathTaken(db, n, path)
    requires next == db.(notes := db.notes[n := Note(path, None, None, false, 1)])
    ensures Inv(next)
  {
    CreateNoteKeepsTables(db, n, path, next);
    CreateNoteKeepsServing(db, n, path, next);
    assert forall h, s :: next.HasGeneration(h, s) == db.HasGeneration(h, s);
  }

  lemma CreateNoteKeepsServing(db: Db, n: NoteId, path: string, next: Db)
    requires Serving(db) && n !in db.notes
    requires next == db.(notes := db.notes[n := Note(path, None, None, false, 1)])
    ensures Serving(next)
  {
    JobsUntouched(db, next);
    assert forall h, s :: next.HasGeneration(h, s) == db.HasGeneration(h, s);
    assert forall m :: next.Published(m) ==> db.Published(m) && next.notes[m] == db.notes[m];
  }

  lemma CreateNoteKeepsTables(db: Db, n: NoteId, path: string, next: Db)
    requires Tables(db) && n !in db.notes && !PathTaken(db, n, path)
    requires next == db.(notes := db.notes[n := Note(path, None, None, false, 1)])
    ensures Tables(next)
  {
    assert forall h, s :: next.HasGeneration(h, s) == db.HasGeneration(h, s);
    assert forall m :: m != n ==> next.Live(m) == db.Live(m);
  }

  lemma GenerationsKeepInv(db: Db, next: Db)
    requires Inv(db)
    requires next == db.(generations := next.generations)
    requires db.generations.Keys <= next.generations.Keys
    requires SameHolders(db, next, GenerationStatus.Active) && SameHolders(db, next, GenerationStatus.Superseded)
    requires forall g :: g in db.generations && (next.generations[g].status.Staging?
                                                 || next.generations[g].status.Failed?)
               ==> db.generations[g].status.Staging? || db.generations[g].status.Failed?
    ensures Inv(next)
  {
    JobsUntouched(db, next);
    assert forall m :: next.Live(m) == db.Live(m);
    assert forall j :: j in db.jobs ==> db.jobs[j].generation in db.generations;
  }

  lemma CreateJobKeepsInv(db: Db, j: JobId, objectType: ObjectType, entity: nat, g: GenerationId)
    requires Inv(db) && AddJob(db, j, objectType, entity, g).Ok?
    ensures Inv(AddJob(db, j, objectType, entity, g).value)
  {
    var next := AddJob(db, j, objectType, entity, g).value;
    assert forall h, s :: next.HasGeneration(h, s) == db.HasGeneration(h, s);
    assert forall m :: next.Live(m) == db.Live(m);
    forall v, h ensures next.HasJob(v, h, JobStatus.ActiveIndexed) == db.HasJob(v, h, JobStatus.ActiveIndexed) {
      assert forall i :: i != j ==> next.Indexes(i, v, h) == db.Indexes(i, v, h);
    }
  }

  lemma StepJobKeepsInv(db: Db, j: JobId, status: JobStatus, next: Db)
    requires Inv(db) && j in db.jobs && CanMoveJob(db.jobs[j].status, status)
    requires !status.ActiveIndexed? && !status.DeletePending?
    requires next == SetJob(db, j, status)
    ensures Inv(next)
  {
    SetJobKeepsTables(db, j, status, next);
    assert forall h, s :: next.HasGeneration(h, s) == db.HasGeneration(h, s);
    forall v, h ensures next.HasJob(v, h, JobStatus.ActiveIndexed) == db.HasJob(v, h, JobStatus.ActiveIndexed) {
      assert forall i :: next.Indexes(i, v, h) == db.Indexes(i, v, h);
    }
  }

  lemma SetJobKeepsTables(db: Db, j: JobId, status: JobStatus, next: Db)
    requires Tables(db) && j in db.jobs && next == SetJob(db, j, status)
    ensures Tables(next)
  {
    assert forall h, s :: next.HasGeneration(h, s) == db.HasGeneration(h, s);
    assert forall m :: next.Live(m) == db.Live(m);
  }

  // Deletion and restoration write one note and its own job.
  lemma SetOwnJobKeepsInv(db: Db, n: NoteId, j: JobId, deleted: bool, marked: Db, next: Db)
    requires Inv(db) && n in db.notes && j in db.jobs && OwnJob(db, n, j)
    requires !deleted ==> !PathTaken(db, n, db.notes[n].path)
    requires marked == SetNote(db, n, db.notes[n].(deleted := deleted))
    requires next == SetJob(marked, j, if deleted then JobStatus.DeletePending else JobStatus.ActiveIndexed)
    ensures Inv(next)
  {
    MarkNoteKeepsTables(db, n, deleted, marked);
    SetJobKeepsTables(marked, j, if deleted then JobStatus.DeletePending else JobStatus.ActiveIndexed, next);
    SetOwnJobKeepsServing(db, n, j, deleted, marked, next);
    assert forall h, s :: next.HasGeneration(h, s) == db.HasGeneration(h, s);
  }

  lemma MarkNoteKeepsTables(db: Db, n: NoteId, deleted: bool, marked: Db)
    requires Tables(db) && n in db.notes && marked == SetNote(db, n, db.notes[n].(deleted := deleted))
    requires !deleted ==> !PathTaken(db, n, db.notes[n].path)
    ensures Tables(marked)
  {
    assert forall h, s :: marked.HasGeneration(h, s) == db.HasGeneration(h, s);
    assert forall m :: m != n ==> marked.Live(m) == db.Live(m);
  }

  lemma SetOwnJobKeepsServing(db: Db, n: NoteId, j: JobId, deleted: bool, marked: Db, next: Db)
    requires Inv(db) && n in db.notes && j in db.jobs && OwnJob(db, n, j)
    requires marked == SetNote(db, n, db.notes[n].(deleted := deleted))
    requires next == SetJob(marked, j, if deleted then JobStatus.DeletePending else JobStatus.ActiveIndexed)
    ensures Serving(next)
  {
    var nv, ng := db.notes[n].version.value, db.notes[n].generation.value;
    var status := if deleted then JobStatus.DeletePending else JobStatus.ActiveIndexed;
    assert forall h, s :: next.HasGeneration(h, s) == db.HasGeneration(h, s);
    forall m | next.Published(m)
      ensures next.HasJob(next.notes[m].version.value, next.notes[m].generation.value, JobStatus.ActiveIndexed)
              == next.Live(m)
    {
      JobsAfterOneStep(db, j, nv, ng, status, next, next.notes[m].version.value, next.notes[m].generation.value);
      assert m != n ==> db.Published(m) && next.Live(m) == db.Live(m);
    }
  }

  // Which jobs serve once the one job of (v, g) has taken a step.
  lemma JobsAfterOneStep(db: Db, j: JobId, v: VersionId, g: GenerationId, status: JobStatus, next: Db, w: VersionId,
                         h: GenerationId)
    requires OneJobPerTarget(db) && db.Indexes(j, v, g)
    requires j in next.jobs && next.jobs == db.jobs[j := next.jobs[j]]
    requires SameTarget(next.jobs[j], db.jobs[j]) && next.jobs[j].status == status
    ensures next.HasJob(w, h, JobStatus.ActiveIndexed) ==
            if w == v && h == g then status.ActiveIndexed? else db.HasJob(w, h, JobStatus.ActiveIndexed)
  {
    assert forall i :: next.Indexes(i, w, h) == db.Indexes(i, w, h);
    if w == v && h == g {
      forall i | next.Indexes(i, v, g) ensures i == j {
        JobIsUnique(db, i, j, v, g);
      }
      assert next.Indexes(j, v, g);
    }
  }

  lemma CallKeepsInv(db: Db, c: Command)
    requires Inv(db) && Guarded(c)
    ensures Inv(After(db, c))
  {
    if Execute(db, c).Ok? {
      match c
      case CreateNote(n, path) => CreateNoteKeepsInv(db, n, path, After(db, c));
      case CreateVersion(_, _, _) => VersionCallKeepsInv(db, c);
      case StepVersion(_, _, _) => VersionCallKeepsInv(db, c);
      case CreateGeneration(_, _, _) => GenerationCallKeepsInv(db, c);
      case AbortGeneration(_, _) => GenerationCallKeepsInv(db, c);
      case CreateJob(j, objectType, entity, g) => CreateJobKeepsInv(db, j, objectType, entity, g);
      case StepJob(j, status, _) => StepJobKeepsInv(db, j, status, After(db, c));
      case Delete(_, _, _, _) => MarkCallKeepsInv(db, c);
      case Restore(_, _, _, _) => MarkCallKeepsInv(db, c);
      case PromoteTo(g, revision) => SwitchKeepsInv(db, g, revision, JobStatus.Indexed);
      case RollBackTo(g, revision) => SwitchKeepsInv(db, g, revision, JobStatus.DeletePending);
      case Publish(r, j, revisions) => ActivationIsLocal(db, r, j, revisions);
      case _ => BookkeepingKeepsInv(db, After(db, c));
    }
  }

  lemma VersionCallKeepsInv(db: Db, c: Command)
    requires Inv(db) && Guarded(c) && Execute(db, c).Ok? && (c.CreateVersion? || c.StepVersion?)
    ensures Inv(After(db, c))
  {
    VersionsKeepInv(db, After(db, c));
  }

  lemma GenerationCallKeepsInv(db: Db, c: Command)
    requires Inv(db) && Execute(db, c).Ok? && (c.CreateGeneration? || c.AbortGeneration?)
    ensures Inv(After(db, c))
  {
    GenerationsKeepInv(db, After(db, c));
  }

  lemma MarkCallKeepsInv(db: Db, c: Command)
    requires Inv(db) && Execute(db, c).Ok? && (c.Delete? || c.Restore?)
    ensures Inv(After(db, c))
  {
    SetOwnJobKeepsInv(db, c.note, c.job, c.Delete?, SetNote(db, c.note, db.notes[c.note].(deleted := c.Delete?)),
                      After(db, c));
  }

  lemma BookkeepingKeepsInv(db: Db, next: Db)
    requires Inv(db) && next == db.(changes := next.changes, runs := next.runs)
    ensures Inv(next)
  {
    JobsUntouched(db, next);
    assert forall h, s :: next.HasGeneration(h, s) == db.HasGeneration(h, s);
    assert forall m :: next.Live(m) == db.Live(m);
  }

  // The invariant holds in every database that any run of calls reaches.
  lemma {:induction false} RunsKeepInv(db: Db, run: seq<Command>)
    requires Inv(db) && GuardedRun(run)
    ensures Inv(Final(db, run))
    decreases |run|
  {
    if run != [] {
      assert Guarded(run[0]);
      CallKeepsInv(db, run[0]);
      RunsKeepInv(After(db, run[0]), run[1..]);
    }
  }

  lemma ReachableInv(run: seq<Command>)
    requires GuardedRun(run)
    ensures Inv(Final(EMPTY, run))
  {
    RunsKeepInv(EMPTY, run);
  }

  // ---- One serving generation ----

  // A restoration that puts a note back on a generation that no longer serves.
  ghost predicate Strands(db: Db, c: Command) {
    && c.Restore? && Execute(db, c).Ok?
    && !db.HasGeneration(db.notes[c.note].generation.value, GenerationStatus.Active)
  }

  // Every call keeps live notes on the serving generation, except exactly the stranding restorations.
  lemma CallKeepsSingleServing(db: Db, c: Command)
    requires Inv(db) && Guarded(c) && SingleServing(db)
    ensures SingleServing(After(db, c)) <==> !Strands(db, c)
  {
    if Execute(db, c).Ok? {
      var next := After(db, c);
      match c {
        case PromoteTo(g, revision) => WholeFleetSwitch(db, g, revision, JobStatus.Indexed);
        case RollBackTo(g, revision) => WholeFleetSwitch(db, g, revision, JobStatus.DeletePending);
        case Publish(r, j, revisions) => ActivationKeepsSingleServing(db, r, j, revisions);
        case Restore(n, j, nr, jr) => RestoreKeepsSingleServing(db, n, j, nr, jr);
        case _ => PlainCallKeepsSingleServing(db, c, next);
      }
    }
  }

  lemma PlainCallKeepsSingleServing(db: Db, c: Command, next: Db)
    requires SingleServing(db) && Execute(db, c) == Ok(next)
    requires !c.PromoteTo? && !c.RollBackTo? && !c.Publish? && !c.Restore?
    ensures SingleServing(next)
  {
    assert forall m :: next.Live(m) && next.Published(m) ==>
      db.Live(m) && db.Published(m) && next.notes[m].generation == db.notes[m].generation;
    assert forall h :: db.HasGeneration(h, GenerationStatus.Active) ==> next.HasGeneration(h, GenerationStatus.Active);
  }

  // The exact condition on a restoration: the generation that the note remembers still serves.
  lemma RestoreKeepsSingleServing(db: Db, n: NoteId, j: JobId, noteRevision: nat, jobRevision: nat)
    requires Inv(db) && SingleServing(db) && RestoreNote(db, n, j, noteRevision, jobRevision).Ok?
    ensures db.Published(n)
    ensures SingleServing(RestoreNote(db, n, j, noteRevision, jobRevision).value)
            <==> db.HasGeneration(db.notes[n].generation.value, GenerationStatus.Active)
  {
    var next := RestoreNote(db, n, j, noteRevision, jobRevision).value;
    assert next.Live(n) && next.Published(n);
    assert forall h, s :: next.HasGeneration(h, s) == db.HasGeneration(h, s);
    assert forall m :: m != n && next.Live(m) ==> db.Live(m) && next.notes[m] == db.notes[m];
  }

  ghost predicate NeverStrands(db: Db, run: seq<Command>)
    decreases |run|
  {
    run == [] || (!Strands(db, run[0]) && NeverStrands(After(db, run[0]), run[1..]))
  }

  lemma {:induction false} RunsKeepSingleServing(db: Db, run: seq<Command>)
    requires Inv(db) && SingleServing(db) && GuardedRun(run) && NeverStrands(db, run)
    ensures SingleServing(Final(db, run))
    decreases |run|
  {
    if run != [] {
      assert Guarded(run[0]);
      CallKeepsInv(db, run[0]);
      CallKeepsSingleServing(db, run[0]);
      RunsKeepSingleServing(After(db, run[0]), run[1..]);
    }
  }

  // ---- A stranded note ----

  ghost predicate Stranded(db: Db, n: NoteId, g: GenerationId) {
    db.Live(n) && db.Published(n) && db.notes[n].generation == Some(g)
        && db.HasGeneration(g, GenerationStatus.Superseded)
  }

  // Calls that delete note n or publish it anew.
  ghost predicate Frees(db: Db, c: Command, n: NoteId) {
    && Execute(db, c).Ok?
    && ((c.Delete? && c.note == n) || (c.Publish? && db.runs[c.run].note == n))
  }

  lemma StrandedRefusesSwitch(db: Db, n: NoteId, g: GenerationId, to: GenerationId, expected: nat, toStatus: JobStatus)
    requires Inv(db) && Stranded(db, n, g)
    ensures Switch(db, to, expected, toStatus).Err?
  {
    var active := ActiveGeneration(db);
    if active.Some? {
      assert active.value != g;
      assert Stray(db, active.value);
    }
  }

  lemma CallKeepsStranded(db: Db, c: Command, n: NoteId, g: GenerationId)
    requires Inv(db) && Guarded(c) && Stranded(db, n, g) && !Frees(db, c, n)
    ensures Stranded(After(db, c), n, g)
  {
    if c.PromoteTo? {
      StrandedRefusesSwitch(db, n, g, c.generation, c.revision, JobStatus.Indexed);
    } else if c.RollBackTo? {
      StrandedRefusesSwitch(db, n, g, c.generation, c.revision, JobStatus.DeletePending);
    } else if Execute(db, c).Ok? {
      OtherCallKeepsStranded(db, c, n, g);
    }
  }

  lemma OtherCallKeepsStranded(db: Db, c: Command, n: NoteId, g: GenerationId)
    requires Inv(db) && Stranded(db, n, g) && !Frees(db, c, n) && Execute(db, c).Ok? && !c.PromoteTo? && !c.RollBackTo?
    ensures Stranded(After(db, c), n, g)
  {
    if c.Publish? {
      PublishKeepsStranded(db, c.run, c.job, c.revisions, n, g);
    } else {
      PlainCallKeepsStranded(db, c, After(db, c), n, g);
    }
  }

  lemma PlainCallKeepsStranded(db: Db, c: Command, next: Db, n: NoteId, g: GenerationId)
    requires Stranded(db, n, g) && !Frees(db, c, n) && Execute(db, c) == Ok(next)
    requires !c.PromoteTo? && !c.RollBackTo? && !c.Publish?
    ensures Stranded(next, n, g)
  {
  }

  lemma PublishKeepsStranded(db: Db, r: RunId, j: JobId, revisions: Revisions, n: NoteId, g: GenerationId)
    requires Inv(db) && Stranded(db, n, g) && Activate(db, r, j, revisions).Ok? && db.runs[r].note != n
    ensures Stranded(Activate(db, r, j, revisions).value, n, g)
  {
    ActivationIsLocal(db, r, j, revisions);
    ActivationSteps(db, r, j, revisions);
  }

  ghost predicate NeverFrees(db: Db, run: seq<Command>, n: NoteId)
    decreases |run|
  {
    run == [] || (!Frees(db, run[0], n) && NeverFrees(After(db, run[0]), run[1..], n))
  }

  // Until the note is deleted or published anew it stays stranded, and no promotion and no
  // rollback of any generation succeeds, whatever else happens in between.
  lemma {:induction false} StrandedBlocksSwitches(db: Db, run: seq<Command>, n: NoteId, g: GenerationId)
    requires Inv(db) && Stranded(db, n, g) && GuardedRun(run) && NeverFrees(db, run, n)
    ensures Stranded(Final(db, run), n, g)
    ensures forall to, revision :: Promote(Final(db, run), to, revision).Err?
    ensures forall to, revision :: Rollback(Final(db, run), to, revision).Err?
    decreases |run|
  {
    if run == [] {
      forall to, revision ensures Promote(db, to, revision).Err? && Rollback(db, to, revision).Err? {
        StrandedRefusesSwitch(db, n, g, to, revision, JobStatus.Indexed);
        StrandedRefusesSwitch(db, n, g, to, revision, JobStatus.DeletePending);
      }
    } else {
      assert Guarded(run[0]);
      CallKeepsInv(db, run[0]);
      CallKeepsStranded(db, run[0], n, g);
      StrandedBlocksSwitches(After(db, run[0]), run[1..], n, g);
    }
  }
}
