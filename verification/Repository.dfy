/**
 * The publication repository: rows are found, checked and written back one at a time under
 * compare-and-swap on their revision. Every method is proved to compute its function in
 * `RepositorySpec`, and to leave all tables alone when it raises.
 */
module Repository {
  import opened Prelude
  import opened Transitions
  import opened Schema
  import Spec = RepositorySpec

  class PublicationRepository {
    var notes: map<NoteId, Note>
    var versions: map<VersionId, Version>
    var generations: map<GenerationId, Generation>
    var jobs: map<JobId, Job>
    var changes: map<ChangeId, Change>
    var runs: map<RunId, Run>

    function Contents(): Db
      reads this
    {
      Db(notes, versions, generations, jobs, changes, runs)
    }

    constructor ()
      ensures Contents() == EMPTY
    {
      notes, versions, generations, jobs, changes, runs := map[], map[], map[], map[], map[], map[];
    }

    // A unit of work over the committed database.
    constructor Open(db: Db)
      ensures Contents() == db
    {
      notes, versions, generations := db.notes, db.versions, db.generations;
      jobs, changes, runs := db.jobs, db.changes, db.runs;
    }

    // `begin_nested` rolling back: every table returns to the savepoint.
    method RollBackTo(savepoint: Db)
      modifies this
      ensures Contents() == savepoint
    {
      notes, versions, generations := savepoint.notes, savepoint.versions, savepoint.generations;
      jobs, changes, runs := savepoint.jobs, savepoint.changes, savepoint.runs;
    }

    // ---- Compare-and-swap on one row; `ok` is false when the update matched no row ----

    method CasNote(n: NoteId, expected: nat, row: Note) returns (ok: bool)
      modifies this`notes
      ensures ok == (n in old(notes) && old(notes)[n].revision == expected)
      ensures notes == if ok then old(notes)[n := row.(revision := expected + 1)] else old(notes)
    {
      ok := n in notes && notes[n].revision == expected;
      if ok {
        notes := notes[n := row.(revision := expected + 1)];
      }
    }

    method CasJob(j: JobId, expected: nat, status: JobStatus) returns (ok: bool)
      modifies this`jobs
      ensures ok == (j in old(jobs) && old(jobs)[j].revision == expected)
      ensures jobs == if ok then old(jobs)[j := old(jobs)[j].(status := status, revision := expected + 1)]
                      else old(jobs)
    {
      ok := j in jobs && jobs[j].revision == expected;
      if ok {
        jobs := jobs[j := jobs[j].(status := status, revision := expected + 1)];
      }
    }

    method CasVersion(v: VersionId, expected: nat, status: VersionStatus) returns (ok: bool)
      modifies this`versions
      ensures ok == (v in old(versions) && old(versions)[v].revision == expected)
      ensures versions == if ok then old(versions)[v := old(versions)[v].(status := status, revision := expected + 1)]
                          else old(versions)
    {
      ok := v in versions && versions[v].revision == expected;
      if ok {
        versions := versions[v := versions[v].(status := status, revision := expected + 1)];
      }
    }

    method CasGeneration(g: GenerationId, expected: nat, status: GenerationStatus) returns (ok: bool)
      modifies this`generations
      ensures ok == (g in old(generations) && old(generations)[g].revision == expected)
      ensures generations ==
              if ok then old(generations)[g := old(generations)[g].(status := status, revision := expected + 1)]
              else old(generations)
    {
      ok := g in generations && generations[g].revision == expected;
      if ok {
        generations := generations[g := generations[g].(status := status, revision := expected + 1)];
      }
    }

    // ---- Queries ----

    // The single row with status ACTIVE, if there is one.
    method SelectActiveGeneration() returns (r: Option<GenerationId>)
      requires OneActiveGeneration(Contents())
      ensures r == Spec.ActiveGeneration(Contents())
    {
      if g :| g in generations && generations[g].status.Active? {
        assert Contents().HasGeneration(g, GenerationStatus.Active);
        r := Some(g);
      } else {
        r := None;
      }
    }

    method FindVersionIndexJob(v: VersionId, g: GenerationId) returns (r: Option<JobId>)
      ensures r.Some? ==> Contents().Indexes(r.value, v, g)
      ensures r.None? ==> forall j :: !Contents().Indexes(j, v, g)
    {
      if j :| j in jobs && Contents().Indexes(j, v, g) {
        r := Some(j);
      } else {
        assert forall j :: Contents().Indexes(j, v, g) ==> j in jobs;
        r := None;
      }
    }

    // ---- Index-job steps and generation status ----

    method TransitionIndexJob(j: JobId, target: JobStatus, expected: nat) returns (r: Result<JobId, Error>)
      modifies this`jobs
      ensures match Spec.MoveJob(old(Contents()), j, target, expected)
              case Ok(db) => r == Ok(j) && Contents() == db
              case Err(e) => r == Err(e) && Contents() == old(Contents())
    {
      if j !in jobs {
        return Err(NotFound);
      }
      if jobs[j].revision != expected {
        return Err(Concurrent);
      }
      if !CanMoveJob(jobs[j].status, target) {
        return Err(InvalidTransition);
      }
      var _ := CasJob(j, expected, target);
      r := Ok(j);
    }

    method TransitionIndexGeneration(g: GenerationId, target: GenerationStatus, expected: nat)
      returns (r: Result<GenerationId, Error>)
      modifies this`generations
      ensures match Spec.MoveGeneration(old(Contents()), g, target, expected)
              case Ok(db) => r == Ok(g) && Contents() == db
              case Err(e) => r == Err(e) && Contents() == old(Contents())
    {
      if g !in generations {
        return Err(NotFound);
      }
      if generations[g].revision != expected {
        return Err(Concurrent);
      }
      if !CanMoveGeneration(generations[g].status, target) {
        return Err(InvalidTransition);
      }
      if target.Active? && exists h :: h in generations && generations[h].status.Active? {
        return Err(Duplicate);
      }
      var _ := CasGeneration(g, expected, target);
      r := Ok(g);
    }

    method AddIndexJob(j: JobId, objectType: ObjectType, entity: nat, g: GenerationId) returns (r: Result<JobId, Error>)
      modifies this`jobs
      ensures match Spec.AddJob(old(Contents()), j, objectType, entity, g)
              case Ok(db) => r == Ok(j) && Contents() == db
              case Err(e) => r == Err(e) && Contents() == old(Contents())
    {
      if objectType.CuratedVersion? && entity !in versions {
        return Err(Invariant);
      }
      if g !in generations {
        return Err(NotFound);
      }
      var job := Job(objectType, entity, g, JobStatus.Pending, 1);
      if j in jobs {
        return Err(Duplicate);
      }
      if i :| i in jobs && SameTarget(jobs[i], job) {
        return Err(Duplicate);
      }
      jobs := jobs[j := job];
      r := Ok(j);
    }

    // ---- Deletion and restoration ----

    method PrepareNoteDeletion(n: NoteId, j: JobId, noteRevision: nat, jobRevision: nat)
      returns (r: Result<NoteId, Error>)
      modifies this
      ensures match Spec.PrepareDeletion(old(Contents()), n, j, noteRevision, jobRevision)
              case Ok(db) => r == Ok(n) && Contents() == db
              case Err(e) => r == Err(e) && Contents() == old(Contents())
    {
      if n !in notes || j !in jobs {
        return Err(NotFound);
      }
      if notes[n].revision != noteRevision || jobs[j].revision != jobRevision {
        return Err(Concurrent);
      }
      if notes[n].deleted || !Spec.OwnJob(Contents(), n, j) {
        return Err(Invariant);
      }
      if !CanMoveJob(jobs[j].status, JobStatus.DeletePending) {
        return Err(InvalidTransition);
      }
      var _ := CasNote(n, noteRevision, notes[n].(deleted := true));
      var _ := CasJob(j, jobRevision, JobStatus.DeletePending);
      r := Ok(n);
    }

    method RestoreNote(n: NoteId, j: JobId, noteRevision: nat, jobRevision: nat)
      returns (r: Result<NoteId, Error>)
      modifies this
      ensures match Spec.RestoreNote(old(Contents()), n, j, noteRevision, jobRevision)
              case Ok(db) => r == Ok(n) && Contents() == db
              case Err(e) => r == Err(e) && Contents() == old(Contents())
    {
      if n !in notes || j !in jobs {
        return Err(NotFound);
      }
      if notes[n].revision != noteRevision || jobs[j].revision != jobRevision {
        return Err(Concurrent);
      }
      if !notes[n].deleted || jobs[j].status != JobStatus.Indexed || !Spec.OwnJob(Contents(), n, j) {
        return Err(Invariant);
      }
      var savepoint := Contents();
      var _ := CasNote(n, noteRevision, notes[n].(deleted := false));
      // The unique index on live paths refuses the row once it is live again.
      if m :| m in notes && m != n && !notes[m].deleted && notes[m].path == notes[n].path {
        RollBackTo(savepoint);
        assert savepoint.Live(m);
        return Err(Duplicate);
      }
      assert !Spec.PathTaken(savepoint, n, savepoint.notes[n].path) by {
        forall m | m != n && savepoint.Live(m) ensures savepoint.notes[m].path != savepoint.notes[n].path {
          assert m in notes && notes[m] == savepoint.notes[m];
        }
      }
      var _ := CasJob(j, jobRevision, JobStatus.ActiveIndexed);
      r := Ok(n);
    }

    // ---- Switching the whole fleet ----

    // The two jobs of one note, when both are there in the right status.
    method SwitchJobsOf(n: NoteId, from: GenerationId, to: GenerationId, toStatus: JobStatus)
      returns (r: Option<(JobId, JobId)>)
      requires OneJobPerTarget(Contents())
      requires n in notes && notes[n].version.Some?
      ensures r.Some? == Spec.NoteReady(Contents(), n, from, to, toStatus)
      ensures r.Some? ==> && Contents().Indexes(r.value.0, notes[n].version.value, from)
                          && Contents().Indexes(r.value.1, notes[n].version.value, to)
    {
      var v := notes[n].version.value;
      var source := FindVersionIndexJob(v, from);
      var target := FindVersionIndexJob(v, to);
      if source.None? || target.None? {
        return None;
      }
      JobHasStatus(Contents(), source.value, v, from, JobStatus.ActiveIndexed);
      JobHasStatus(Contents(), target.value, v, to, toStatus);
      if !jobs[source.value].status.ActiveIndexed? || jobs[target.value].status != toStatus {
        return None;
      }
      r := Some((source.value, target.value));
    }

    // Find both jobs of every note and check their statuses before anything is written.
    method GenerationSwitchJobs(movers: set<NoteId>, from: GenerationId, to: GenerationId, toStatus: JobStatus)
      returns (r: Result<seq<(NoteId, JobId, JobId)>, Error>)
      requires OneJobPerTarget(Contents())
      requires movers == Spec.Movers(Contents(), from)
      ensures r.Ok? == Spec.SwitchJobsReady(Contents(), from, to, toStatus)
      ensures r.Err? ==> r.error == Invariant
      ensures r.Ok? ==> PlanCovers(Contents(), r.value, movers, from, to)
    {
      ghost var db := Contents();
      ghost var done := {};
      var rest := movers;
      var plan := [];
      while rest != {}
        invariant done + rest == movers && done !! rest
        invariant PlanCovers(db, plan, done, from, to)
        invariant forall n :: n in done ==> Spec.NoteReady(db, n, from, to, toStatus)
        decreases rest
      {
        var n :| n in rest;
        var both := SwitchJobsOf(n, from, to, toStatus);
        if both.None? {
          assert n in Spec.Movers(db, from);
          return Err(Invariant);
        }
        AddToPlan(db, plan, done, n, both.value.0, both.value.1, from, to);
        plan := plan + [(n, both.value.0, both.value.1)];
        done := done + {n};
        rest := rest - {n};
      }
      r := Ok(plan);
    }

    method SwitchGeneration(to: GenerationId, expected: nat, toStatus: JobStatus) returns (r: Result<nat, Error>)
      requires Inv(Contents())
      requires toStatus.Indexed? || toStatus.DeletePending?
      modifies this
      ensures match Spec.Switch(old(Contents()), to, expected, toStatus)
              case Ok(db) => Contents() == db
                             && r == Ok(|Spec.Movers(old(Contents()), Spec.ActiveGeneration(old(Contents())).value)|)
              case Err(e) => r == Err(e) && Contents() == old(Contents())
    {
      if to !in generations {
        return Err(NotFound);
      }
      var active := SelectActiveGeneration();
      if generations[to].revision != expected {
        return Err(Concurrent);
      }
      if active.None? || active.value == to {
        return Err(Invariant);
      }
      var from := active.value;
      if !CanMoveGeneration(generations[to].status, GenerationStatus.Active) {
        return Err(InvalidTransition);
      }
      var before := Contents();
      var movers := Spec.Movers(before, from);
      if n :| n in notes && before.Live(n) && before.Published(n) && notes[n].generation != Some(from) {
        return Err(Invariant);
      }
      assert !Spec.Stray(before, from);
      var planned := GenerationSwitchJobs(movers, from, to, toStatus);
      if planned.Err? {
        return Err(planned.error);
      }
      ApplySwitch(planned.value, from, to);
      r := Ok(|movers|);
    }

    // Write both generation rows, then each note with its two jobs.
    method ApplySwitch(plan: seq<(NoteId, JobId, JobId)>, from: GenerationId, to: GenerationId)
      requires OneJobPerTarget(Contents()) && OwnVersions(Contents())
      requires from != to && from in generations && to in generations
      requires PlanCovers(Contents(), plan, NotesOf(plan), from, to)
      modifies this
      ensures Contents() == Spec.MoveNotes(
                Spec.SetGeneration(Spec.SetGeneration(old(Contents()), from, GenerationStatus.Superseded),
                                   to, GenerationStatus.Active), NotesOf(plan), from, to)
    {
      var _ := CasGeneration(from, generations[from].revision, GenerationStatus.Superseded);
      var _ := CasGeneration(to, generations[to].revision, GenerationStatus.Active);
      MoveAll(plan, from, to);
    }

    // The loop over the notes; every row is written against the revision it was read with.
    method MoveAll(plan: seq<(NoteId, JobId, JobId)>, from: GenerationId, to: GenerationId)
      requires OneJobPerTarget(Contents()) && OwnVersions(Contents())
      requires from != to && PlanCovers(Contents(), plan, NotesOf(plan), from, to)
      modifies this`notes, this`jobs
      ensures Contents() == Spec.MoveNotes(old(Contents()), NotesOf(plan), from, to)
    {
      var switched := Contents();
      MoveNone(switched, from, to);
      assert plan[..0] == [];
      for k := 0 to |plan|
        invariant Contents() == Spec.MoveNotes(switched, NotesOf(plan[..k]), from, to)
      {
        var (n, source, target) := plan[k];
        MovePlanned(switched, plan, k, from, to);
        MoveNote(n, source, target, to, switched.notes[n].revision,
                 switched.jobs[source].revision, switched.jobs[target].revision);
      }
      assert plan[..|plan|] == plan;
    }

    // `_switch_note_generation`: the note row, then its old and its new job.
    method MoveNote(n: NoteId, source: JobId, target: JobId, to: GenerationId, noteRevision: nat, sourceRevision: nat,
                    targetRevision: nat)
      requires n in notes && notes[n].revision == noteRevision
      requires source in jobs && jobs[source].revision == sourceRevision
      requires target in jobs && jobs[target].revision == targetRevision && source != target
      modifies this`notes, this`jobs
      ensures Contents() ==
              Spec.SetJob(Spec.SetJob(Spec.SetNote(old(Contents()), n, old(notes)[n].(generation := Some(to))),
                                      source, JobStatus.DeletePending), target, JobStatus.ActiveIndexed)
    {
      var _ := CasNote(n, noteRevision, notes[n].(generation := Some(to)));
      var _ := CasJob(source, sourceRevision, JobStatus.DeletePending);
      var _ := CasJob(target, targetRevision, JobStatus.ActiveIndexed);
    }

    method PromoteIndexGeneration(to: GenerationId, expected: nat) returns (r: Result<nat, Error>)
      requires Inv(Contents())
      modifies this
      ensures match Spec.Promote(old(Contents()), to, expected)
              case Ok(db) => Contents() == db
                             && r == Ok(|Spec.Movers(old(Contents()), Spec.ActiveGeneration(old(Contents())).value)|)
              case Err(e) => r == Err(e) && Contents() == old(Contents())
    {
      r := SwitchGeneration(to, expected, JobStatus.Indexed);
    }

    method RollbackIndexGeneration(to: GenerationId, expected: nat) returns (r: Result<nat, Error>)
      requires Inv(Contents())
      modifies this
      ensures match Spec.Rollback(old(Contents()), to, expected)
              case Ok(db) => Contents() == db
                             && r == Ok(|Spec.Movers(old(Contents()), Spec.ActiveGeneration(old(Contents())).value)|)
              case Err(e) => r == Err(e) && Contents() == old(Contents())
    {
      r := SwitchGeneration(to, expected, JobStatus.DeletePending);
    }

    // ---- Publication ----

    method RetireCurrentVersion(n: NoteId, next: VersionId) returns (r: Result<NoteId, Error>)
      requires n in notes && References(Contents())
      modifies this`versions
      ensures match Spec.RetireVersion(old(Contents()), n, next)
              case Ok(db) => r == Ok(n) && Contents() == db
              case Err(e) => r == Err(e) && Contents() == old(Contents())
    {
      if notes[n].version.Some? && notes[n].version.value != next {
        var shown := notes[n].version.value;
        if !CanMoveVersion(versions[shown].status, VersionStatus.Superseded) {
          return Err(InvalidTransition);
        }
        var _ := CasVersion(shown, versions[shown].revision, VersionStatus.Superseded);
      }
      r := Ok(n);
    }

    method ServeGeneration(g: GenerationId) returns (r: Result<GenerationId, Error>)
      requires g in generations && OneActiveGeneration(Contents())
      modifies this`generations
      ensures match Spec.ServeFrom(old(Contents()), g)
              case Ok(db) => r == Ok(g) && Contents() == db
              case Err(e) => r == Err(e) && Contents() == old(Contents())
    {
      if generations[g].status.Staging? {
        var active := SelectActiveGeneration();
        if active.Some? {
          if n :| n in notes && !notes[n].deleted && notes[n].generation == active {
            assert Contents().Live(n);
            return Err(Invariant);
          }
          var _ := CasGeneration(active.value, generations[active.value].revision, GenerationStatus.Superseded);
        }
        var _ := CasGeneration(g, generations[g].revision, GenerationStatus.Active);
      } else if !generations[g].status.Active? {
        return Err(Invariant);
      }
      r := Ok(g);
    }

    method ActivatePublication(r: RunId, j: JobId, expected: Spec.Revisions) returns (result: Result<RunId, Error>)
      requires Inv(Contents())
      modifies this
      ensures match Spec.Activate(old(Contents()), r, j, expected)
              case Ok(db) => result == Ok(r) && Contents() == db
              case Err(e) => result == Err(e) && Contents() == old(Contents())
    {
      if r !in runs {
        return Err(NotFound);
      }
      var run := runs[r];
      if !Contents().Live(run.note) || run.version !in versions || j !in jobs || run.change !in changes
         || run.generation !in generations {
        return Err(NotFound);
      }
      var n, v, g := run.note, run.version, run.generation;
      if run.revision != expected.run || notes[n].revision != expected.note || versions[v].revision != expected.version
         || jobs[j].revision != expected.job || changes[run.change].revision != expected.change
         || generations[g].revision != expected.generation {
        return Err(Concurrent);
      }
      if !Spec.ReadyToActivate(Contents(), r, j) {
        return Err(Invariant);
      }
      var savepoint := Contents();
      var retired := RetireCurrentVersion(n, v);
      if retired.Err? {
        return Err(retired.error);
      }
      assert forall h :: Contents().HasGeneration(h, GenerationStatus.Active)
                         == savepoint.HasGeneration(h, GenerationStatus.Active);
      var served := ServeGeneration(g);
      if served.Err? {
        RollBackTo(savepoint);
        return Err(served.error);
      }
      ShowVersion(r, j, expected);
      result := Ok(r);
    }

    method ShowVersion(r: RunId, j: JobId, expected: Spec.Revisions)
      requires r in runs && j in jobs
      requires var run := runs[r]; run.note in notes && run.version in versions && run.change in changes
      requires var run := runs[r];
        && run.revision == expected.run && notes[run.note].revision == expected.note
        && versions[run.version].revision == expected.version && jobs[j].revision == expected.job
        && changes[run.change].revision == expected.change
      modifies this
      ensures Contents() == Spec.ShowVersion(old(Contents()), r, j)
    {
      var run := runs[r];
      var _ := CasVersion(run.version, expected.version, VersionStatus.Active);
      var _ := CasNote(run.note, expected.note,
                       notes[run.note].(version := Some(run.version), generation := Some(run.generation)));
      var _ := CasJob(j, expected.job, JobStatus.ActiveIndexed);
      changes := changes[run.change := changes[run.change].(status := ChangeStatus.Active,
                                                            revision := expected.change + 1)];
      runs := runs[r := run.(status := RunStatus.Completed, revision := expected.run + 1)];
    }
  }

  // ---- Why the row-by-row switch is the simultaneous one ----

  function NotesOf(plan: seq<(NoteId, JobId, JobId)>): set<NoteId> {
    set k | 0 <= k < |plan| :: plan[k].0
  }

  // The plan lists these notes once each, with the two jobs of its current version.
  ghost predicate PlanCovers(db: Db, plan: seq<(NoteId, JobId, JobId)>, notes: set<NoteId>, from: GenerationId,
                             to: GenerationId)
  {
    && NotesOf(plan) == notes
    && (forall i, k :: 0 <= i < k < |plan| ==> plan[i].0 != plan[k].0)
    && (forall k :: 0 <= k < |plan| ==>
          && plan[k].0 in db.notes
          && db.notes[plan[k].0].version.Some?
          && db.Indexes(plan[k].1, db.notes[plan[k].0].version.value, from)
          && db.Indexes(plan[k].2, db.notes[plan[k].0].version.value, to))
  }

  lemma AddToPlan(db: Db, plan: seq<(NoteId, JobId, JobId)>, notes: set<NoteId>, n: NoteId, source: JobId,
                  target: JobId,
                  from: GenerationId, to: GenerationId)
    requires PlanCovers(db, plan, notes, from, to)
    requires n in db.notes && n !in notes && db.notes[n].version.Some?
    requires db.Indexes(source, db.notes[n].version.value, from)
    requires db.Indexes(target, db.notes[n].version.value, to)
    ensures PlanCovers(db, plan + [(n, source, target)], notes + {n}, from, to)
  {
    var more := plan + [(n, source, target)];
    TakeOneMore(more, |plan|);
    assert more[..|plan|] == plan && more[..|plan| + 1] == more;
    forall i | 0 <= i < |plan| ensures more[i].0 != n {
      assert plan[i].0 in NotesOf(plan);
    }
  }

  lemma JobHasStatus(db: Db, j: JobId, v: VersionId, g: GenerationId, status: JobStatus)
    requires OneJobPerTarget(db)
    requires db.Indexes(j, v, g)
    ensures db.HasJob(v, g, status) == (db.jobs[j].status == status)
  {
    forall i | db.Indexes(i, v, g) ensures i == j {
      JobIsUnique(db, i, j, v, g);
    }
  }

  lemma TakeOneMore(plan: seq<(NoteId, JobId, JobId)>, k: nat)
    requires k < |plan|
    ensures NotesOf(plan[..k + 1]) == NotesOf(plan[..k]) + {plan[k].0}
  {
    var more := plan[..k + 1];
    forall n | n in NotesOf(more) ensures n in NotesOf(plan[..k]) + {plan[k].0} {
      var i :| 0 <= i < |more| && more[i].0 == n;
      assert i < k ==> plan[..k][i].0 == n;
    }
    forall n | n in NotesOf(plan[..k]) ensures n in NotesOf(more) {
      var i :| 0 <= i < k && plan[..k][i].0 == n;
      assert more[i].0 == n;
    }
    assert more[k].0 == plan[k].0;
  }

  lemma MoveNone(db: Db, from: GenerationId, to: GenerationId)
    ensures Spec.MoveNotes(db, NotesOf([]), from, to) == db
  {
    var same := Spec.MoveNotes(db, NotesOf([]), from, to);
    assert same.notes == db.notes && same.jobs == db.jobs;
  }

  // One more note moved is one note row and two job rows rewritten, all three still untouched before.
  lemma MoveOneMore(db: Db, done: set<NoteId>, n: NoteId, source: JobId, target: JobId, from: GenerationId,
                    to: GenerationId)
    requires OneJobPerTarget(db) && OwnVersions(db)
    requires from != to && n !in done && n in db.notes && db.notes[n].version.Some?
    requires db.Indexes(source, db.notes[n].version.value, from)
    requires db.Indexes(target, db.notes[n].version.value, to)
    ensures
      var partly := Spec.MoveNotes(db, done, from, to);
      && source != target
      && partly.notes[n] == db.notes[n] && partly.jobs[source] == db.jobs[source]
          && partly.jobs[target] == db.jobs[target]
      && Spec.MoveNotes(db, done + {n}, from, to) ==
         Spec.SetJob(Spec.SetJob(Spec.SetNote(partly, n, partly.notes[n].(generation := Some(to))),
                                 source, JobStatus.DeletePending), target, JobStatus.ActiveIndexed)
  {
    var partly := Spec.MoveNotes(db, done, from, to);
    var more := Spec.MoveNotes(db, done + {n}, from, to);
    var stepped := Spec.SetJob(Spec.SetJob(Spec.SetNote(partly, n, partly.notes[n].(generation := Some(to))),
                                           source, JobStatus.DeletePending), target, JobStatus.ActiveIndexed);
    forall j | j in db.jobs
      ensures Spec.JobOfAny(db, j, done + {n}, from) == (Spec.JobOfAny(db, j, done, from) || j == source)
      ensures Spec.JobOfAny(db, j, done + {n}, to) == (Spec.JobOfAny(db, j, done, to) || j == target)
    {
      JobOfOneMore(db, done, n, source, from, j);
      JobOfOneMore(db, done, n, target, to, j);
    }
    assert more.notes == stepped.notes;
    assert more.jobs == stepped.jobs;
  }

  lemma JobOfOneMore(db: Db, done: set<NoteId>, n: NoteId, own: JobId, g: GenerationId, j: JobId)
    requires OneJobPerTarget(db) && OwnVersions(db) && n !in done && n in db.notes && db.notes[n].version.Some?
    requires db.Indexes(own, db.notes[n].version.value, g) && j in db.jobs
    ensures Spec.JobOfAny(db, j, done + {n}, g) == (Spec.JobOfAny(db, j, done, g) || j == own)
    ensures !Spec.JobOfAny(db, own, done, g)
  {
    if Spec.JobOfAny(db, j, {n}, g) { JobIsUnique(db, j, own, db.notes[n].version.value, g); }
  }

  // Step k of the plan, in terms of the notes moved so far.
  lemma MovePlanned(db: Db, plan: seq<(NoteId, JobId, JobId)>, k: nat, from: GenerationId, to: GenerationId)
    requires OneJobPerTarget(db) && OwnVersions(db)
    requires from != to && k < |plan| && PlanCovers(db, plan, NotesOf(plan), from, to)
    ensures
      var (n, source, target) := plan[k];
      var partly := Spec.MoveNotes(db, NotesOf(plan[..k]), from, to);
      && n in db.notes && source in db.jobs && target in db.jobs && source != target
      && partly.notes[n] == db.notes[n] && partly.jobs[source] == db.jobs[source]
          && partly.jobs[target] == db.jobs[target]
      && Spec.MoveNotes(db, NotesOf(plan[..k + 1]), from, to) ==
         Spec.SetJob(Spec.SetJob(Spec.SetNote(partly, n, partly.notes[n].(generation := Some(to))),
                                 source, JobStatus.DeletePending), target, JobStatus.ActiveIndexed)
  {
    var (n, source, target) := plan[k];
    TakeOneMore(plan, k);
    if n in NotesOf(plan[..k]) {
      assert false;
    }
    MoveOneMore(db, NotesOf(plan[..k]), n, source, target, from, to);
  }
}
