/** How long a promotion can be taken back: the rollback to the generation before, over whole runs. */
module Fallback {
  import opened Prelude
  import opened Transitions
  import opened Schema
  import opened RepositorySpec
  import opened Switching
  import opened Activation
  import opened Runs

  // ---- As long as no version is published ----

  // Generation t serves all, s served before it, and every note on t, deleted or not, still has its job on s.
  ghost predicate Retains(db: Db, s: GenerationId, t: GenerationId) {
    && db.HasGeneration(s, GenerationStatus.Superseded) && db.HasGeneration(t, GenerationStatus.Active) && !Stray(db, t)
    && forall n :: db.Published(n) && db.notes[n].generation == Some(t) ==>
         db.HasJob(db.notes[n].version.value, s, JobStatus.DeletePending)
  }

  lemma RetainedIsAccepted(db: Db, s: GenerationId, t: GenerationId)
    requires Inv(db) && Retains(db, s, t)
    ensures Rollback(db, s, db.generations[s].revision).Ok?
  {
    ActiveIsThe(db, t);
    forall n | n in Movers(db, t) ensures NoteReady(db, n, t, s, JobStatus.DeletePending) {
      assert db.Published(n) && db.Live(n);
    }
  }

  lemma PromotionRetains(db: Db, t: GenerationId, expected: nat)
    requires Inv(db) && db.HasGeneration(t, GenerationStatus.Staging) && Promote(db, t, expected).Ok?
    ensures Retains(Promote(db, t, expected).value, ActiveGeneration(db).value, t)
  {
    var next := Promote(db, t, expected).value;
    SwitchGenerations(db, t, expected, JobStatus.Indexed);
    SwitchFrame(db, t, expected, JobStatus.Indexed);
    forall n | next.Published(n) && next.notes[n].generation == Some(t)
      ensures next.HasJob(next.notes[n].version.value, ActiveGeneration(db).value, JobStatus.DeletePending)
    {
      assert n in Movers(db, ActiveGeneration(db).value);
      MovedNoteIsServed(db, t, expected, JobStatus.Indexed, n);
    }
  }

  // A publication, a switch, or a step that gives up a job on s.
  ghost predicate Consumes(db: Db, c: Command, s: GenerationId) {
    && Execute(db, c).Ok?
    && (c.Publish? || c.PromoteTo? || c.RollBackTo?
        || (c.StepJob? && c.jobStatus.Deleted? && db.jobs[c.job].generation == s))
  }

  lemma CallRetains(db: Db, c: Command, s: GenerationId, t: GenerationId)
    requires Inv(db) && Guarded(c) && Retains(db, s, t) && !Consumes(db, c, s) && !Strands(db, c)
    ensures Retains(After(db, c), s, t)
  {
    if Execute(db, c).Ok? {
      var next := After(db, c);
      StatusesStay(db, c, next);
      PointersStay(db, c, next, t);
      JobsStay(db, c, next, s, t);
      SameRetained(db, next, s, t);
    }
  }

  // What a call other than a switch or a publication does to a job.
  ghost predicate JobStep(db: Db, c: Command, next: Db, j: JobId)
    requires j in db.jobs && j in next.jobs
  {
    && SameTarget(next.jobs[j], db.jobs[j])
    && var before, now := db.jobs[j].status, next.jobs[j].status;
    || now == before
    || (c.StepJob? && c.job == j && now == c.jobStatus && CanMoveJob(before, now))
    || (c.Delete? && c.job == j && c.note in db.notes && OwnJob(db, c.note, j) && db.Live(c.note))
    || (c.Restore? && c.job == j && before.Indexed? && now.ActiveIndexed?)
  }

  lemma JobStepsAre(db: Db, c: Command, next: Db)
    requires Execute(db, c) == Ok(next) && !c.PromoteTo? && !c.RollBackTo? && !c.Publish?
    ensures db.jobs.Keys <= next.jobs.Keys
    ensures forall j :: j in db.jobs ==> JobStep(db, c, next, j)
    ensures forall j :: j in next.jobs && j !in db.jobs ==> next.jobs[j].status.Pending?
  {
  }

  // Generations that have served keep their statuses.
  ghost predicate StatusesKept(db: Db, next: Db) {
    forall g :: g in db.generations && !db.generations[g].status.Staging? ==>
      g in next.generations && next.generations[g].status == db.generations[g].status
  }

  // Notes keep their pointers, and none comes back but on t.
  ghost predicate PointersKept(db: Db, next: Db, t: GenerationId) {
    forall n :: next.Published(n) ==>
      && db.Published(n) && next.notes[n].version == db.notes[n].version
      && next.notes[n].generation == db.notes[n].generation
      && (next.Live(n) ==> db.Live(n) || db.notes[n].generation == Some(t))
  }

  ghost predicate JobsKept(db: Db, next: Db, s: GenerationId) {
    forall v, j :: db.Indexes(j, v, s) && db.jobs[j].status.DeletePending? ==>
      next.Indexes(j, v, s) && next.jobs[j].status.DeletePending?
  }

  lemma StatusesStay(db: Db, c: Command, next: Db)
    requires Execute(db, c) == Ok(next) && !c.Publish? && !c.PromoteTo? && !c.RollBackTo?
    ensures StatusesKept(db, next)
  {
  }

  lemma PointersStay(db: Db, c: Command, next: Db, t: GenerationId)
    requires OneActiveGeneration(db) && db.HasGeneration(t, GenerationStatus.Active)
    requires Execute(db, c) == Ok(next) && !Strands(db, c) && !c.Publish? && !c.PromoteTo? && !c.RollBackTo?
    ensures PointersKept(db, next, t)
  {
  }

  lemma JobsStay(db: Db, c: Command, next: Db, s: GenerationId, t: GenerationId)
    requires Inv(db) && Guarded(c) && Retains(db, s, t) && Execute(db, c) == Ok(next) && !Consumes(db, c, s)
    ensures JobsKept(db, next, s)
  {
    JobStepsAre(db, c, next);
    forall v, j | db.Indexes(j, v, s) && db.jobs[j].status.DeletePending?
      ensures next.Indexes(j, v, s) && next.jobs[j].status.DeletePending?
    {
      assert JobStep(db, c, next, j);
    }
  }

  lemma SameRetained(db: Db, next: Db, s: GenerationId, t: GenerationId)
    requires Retains(db, s, t) && StatusesKept(db, next) && PointersKept(db, next, t) && JobsKept(db, next, s)
    ensures Retains(next, s, t)
  {
    assert db.generations[s].status.Superseded? && db.generations[t].status.Active?;
    forall n | next.Published(n) && next.notes[n].generation == Some(t)
      ensures next.HasJob(next.notes[n].version.value, s, JobStatus.DeletePending)
    {
      var v := db.notes[n].version.value;
      var j :| db.Indexes(j, v, s) && db.jobs[j].status.DeletePending?;
      assert next.Indexes(j, v, s);
    }
  }

  ghost predicate NeverConsumes(db: Db, run: seq<Command>, s: GenerationId)
    decreases |run|
  {
    run == []
    || (!Consumes(db, run[0], s) && !Strands(db, run[0]) && NeverConsumes(After(db, run[0]), run[1..], s))
  }

  lemma {:induction false} RunsRetain(db: Db, run: seq<Command>, s: GenerationId, t: GenerationId)
    requires Inv(db) && Retains(db, s, t) && GuardedRun(run) && NeverConsumes(db, run, s)
    ensures Retains(Final(db, run), s, t)
    ensures Rollback(Final(db, run), s, Final(db, run).generations[s].revision).Ok?
    decreases |run|
  {
    if run == [] {
      RetainedIsAccepted(db, s, t);
    } else {
      assert Guarded(run[0]);
      CallKeepsInv(db, run[0]);
      CallRetains(db, run[0], s, t);
      RunsRetain(After(db, run[0]), run[1..], s, t);
    }
  }

  // After a promotion the rollback stays open over every run of notes created, deleted and restored, jobs
  // built and generations begun or aborted.
  lemma PromotionStaysReversible(db: Db, t: GenerationId, expected: nat, run: seq<Command>)
    requires Inv(db) && db.HasGeneration(t, GenerationStatus.Staging) && Promote(db, t, expected).Ok?
    requires var s := ActiveGeneration(db).value;
      GuardedRun(run) && NeverConsumes(Promote(db, t, expected).value, run, s)
    ensures var s, final := ActiveGeneration(db).value, Final(Promote(db, t, expected).value, run);
      s in final.generations && Rollback(final, s, final.generations[s].revision).Ok?
  {
    SwitchKeepsInv(db, t, expected, JobStatus.Indexed);
    PromotionRetains(db, t, expected);
    RunsRetain(Promote(db, t, expected).value, run, ActiveGeneration(db).value, t);
  }

  // ---- Once a version is published ----

  // A live note shows a version that has no retained job on s.
  ghost predicate Replaced(db: Db, n: NoteId, v: VersionId, s: GenerationId) {
    && db.HasGeneration(s, GenerationStatus.Superseded) && db.Live(n) && db.Published(n)
    && db.notes[n].version == Some(v) && db.notes[n].generation != Some(s)
    && !db.HasJob(v, s, JobStatus.DeletePending)
  }

  lemma ReplacedRefusesRollback(db: Db, n: NoteId, v: VersionId, s: GenerationId, expected: nat)
    requires Inv(db) && Replaced(db, n, v, s)
    ensures Rollback(db, s, expected).Err?
  {
    var active := ActiveGeneration(db);
    if active.Some? && !Stray(db, active.value) {
      assert n in Movers(db, active.value);
      assert !NoteReady(db, n, active.value, s, JobStatus.DeletePending);
    }
  }

  // The first publication of a version that was never on s closes the rollback to s.
  lemma PublicationReplaces(db: Db, r: RunId, j: JobId, expected: Revisions, s: GenerationId)
    requires Inv(db) && db.HasGeneration(s, GenerationStatus.Superseded) && Activate(db, r, j, expected).Ok?
    requires !db.HasJob(db.runs[r].version, s, JobStatus.DeletePending)
    ensures Replaced(Activate(db, r, j, expected).value, db.runs[r].note, db.runs[r].version, s)
  {
    var next := Activate(db, r, j, expected).value;
    ActivationIsLocal(db, r, j, expected);
    PublishKeepsSuperseded(db, r, j, expected, s);
    PublishKeepsUnretained(db, r, j, expected, db.runs[r].version, s);
  }

  lemma PublishKeepsSuperseded(db: Db, r: RunId, j: JobId, expected: Revisions, s: GenerationId)
    requires Inv(db) && db.HasGeneration(s, GenerationStatus.Superseded) && Activate(db, r, j, expected).Ok?
    ensures Activate(db, r, j, expected).value.HasGeneration(s, GenerationStatus.Superseded)
  {
    ActivationSteps(db, r, j, expected);
    var run := db.runs[r];
    var retired := RetireVersion(db, run.note, run.version).value;
    ServedRows(retired, run.generation);
  }

  lemma PublishKeepsUnretained(db: Db, r: RunId, j: JobId, expected: Revisions, v: VersionId, s: GenerationId)
    requires Inv(db) && Activate(db, r, j, expected).Ok? && !db.HasJob(v, s, JobStatus.DeletePending)
    ensures !Activate(db, r, j, expected).value.HasJob(v, s, JobStatus.DeletePending)
  {
    var next := Activate(db, r, j, expected).value;
    ActivationSteps(db, r, j, expected);
    var run := db.runs[r];
    ServedFrame(db, run.note, run.version, run.generation);
    forall i | next.Indexes(i, v, s) ensures !next.jobs[i].status.DeletePending? {
      if i != j { assert db.Indexes(i, v, s); }
    }
  }

  // The note is deleted or published anew, or s is promoted again.
  ghost predicate Reopens(db: Db, c: Command, n: NoteId, s: GenerationId) {
    Frees(db, c, n) || (Execute(db, c).Ok? && c.PromoteTo? && c.generation == s)
  }

  lemma CallKeepsReplaced(db: Db, c: Command, n: NoteId, v: VersionId, s: GenerationId)
    requires Inv(db) && Guarded(c) && Replaced(db, n, v, s) && !Reopens(db, c, n, s)
    ensures Replaced(After(db, c), n, v, s)
  {
    if Execute(db, c).Ok? {
      if c.PromoteTo? || c.RollBackTo? {
        SwitchCallKeepsReplaced(db, c, n, v, s);
      } else if c.Publish? {
        PublishKeepsReplaced(db, c.run, c.job, c.revisions, n, v, s);
      } else {
        PlainCallKeepsReplaced(db, c, After(db, c), n, v, s);
      }
    }
  }

  lemma SwitchCallKeepsReplaced(db: Db, c: Command, n: NoteId, v: VersionId, s: GenerationId)
    requires Inv(db) && Replaced(db, n, v, s) && !Reopens(db, c, n, s)
    requires Execute(db, c).Ok? && (c.PromoteTo? || c.RollBackTo?)
    ensures Replaced(After(db, c), n, v, s)
  {
    ReplacedRefusesRollback(db, n, v, s, c.revision);
    var toStatus := if c.PromoteTo? then JobStatus.Indexed else JobStatus.DeletePending;
    SwitchKeepsReplaced(db, c.generation, c.revision, toStatus, n, v, s);
  }

  lemma SwitchKeepsReplaced(db: Db, to: GenerationId, expected: nat, toStatus: JobStatus, n: NoteId, v: VersionId,
                            s: GenerationId)
    requires Inv(db) && Switch(db, to, expected, toStatus).Ok? && to != s && Replaced(db, n, v, s)
    ensures Replaced(Switch(db, to, expected, toStatus).value, n, v, s)
  {
    SwitchGenerations(db, to, expected, toStatus);
    SwitchedJob(db, to, expected, toStatus, n, s, JobStatus.DeletePending);
  }

  lemma PublishKeepsReplaced(db: Db, r: RunId, j: JobId, expected: Revisions, n: NoteId, v: VersionId,
                             s: GenerationId)
    requires Inv(db) && Activate(db, r, j, expected).Ok? && db.runs[r].note != n && Replaced(db, n, v, s)
    ensures Replaced(Activate(db, r, j, expected).value, n, v, s)
  {
    ActivationIsLocal(db, r, j, expected);
    PublishKeepsSuperseded(db, r, j, expected, s);
    PublishKeepsUnretained(db, r, j, expected, v, s);
  }

  lemma PlainCallKeepsReplaced(db: Db, c: Command, next: Db, n: NoteId, v: VersionId, s: GenerationId)
    requires Inv(db) && Guarded(c) && Replaced(db, n, v, s) && !Frees(db, c, n) && Execute(db, c) == Ok(next)
    requires !c.PromoteTo? && !c.RollBackTo? && !c.Publish?
    ensures Replaced(next, n, v, s)
  {
    RowsStay(db, c, next, n, s);
    JobStepsAre(db, c, next);
    forall j | next.Indexes(j, v, s) ensures !next.jobs[j].status.DeletePending? {
      if j in db.jobs {
        assert db.Indexes(j, v, s) && JobStep(db, c, next, j);
      }
    }
  }

  lemma RowsStay(db: Db, c: Command, next: Db, n: NoteId, s: GenerationId)
    requires db.HasGeneration(s, GenerationStatus.Superseded) && db.Live(n) && !Frees(db, c, n)
    requires Execute(db, c) == Ok(next) && !c.PromoteTo? && !c.RollBackTo? && !c.Publish?
    ensures next.HasGeneration(s, GenerationStatus.Superseded) && next.Live(n)
    ensures next.notes[n].version == db.notes[n].version && next.notes[n].generation == db.notes[n].generation
  {
  }

  ghost predicate NeverReopens(db: Db, run: seq<Command>, n: NoteId, s: GenerationId)
    decreases |run|
  {
    run == [] || (!Reopens(db, run[0], n, s) && NeverReopens(After(db, run[0]), run[1..], n, s))
  }

  // From then on every rollback to s is refused, until that note is deleted or published once more, or s is
  // promoted again.
  lemma {:induction false} ReplacedClosesRollback(db: Db, run: seq<Command>, n: NoteId, v: VersionId, s: GenerationId)
    requires Inv(db) && Replaced(db, n, v, s) && GuardedRun(run) && NeverReopens(db, run, n, s)
    ensures Replaced(Final(db, run), n, v, s)
    ensures forall revision :: Rollback(Final(db, run), s, revision).Err?
    decreases |run|
  {
    if run == [] {
      forall revision ensures Rollback(db, s, revision).Err? {
        ReplacedRefusesRollback(db, n, v, s, revision);
      }
    } else {
      assert Guarded(run[0]);
      CallKeepsInv(db, run[0]);
      CallKeepsReplaced(db, run[0], n, v, s);
      ReplacedClosesRollback(After(db, run[0]), run[1..], n, v, s);
    }
  }
}
