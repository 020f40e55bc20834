/**
 * Promotion and rollback: what one switch of the whole fleet establishes, and how a
 * rollback undoes a switch.
 */
module Switching {
  import opened Prelude
  import opened Transitions
  import opened Schema
  import opened RepositorySpec

  // The statuses that the target's jobs start from: promotion and rollback respectively.
  predicate SwitchStatus(s: JobStatus) {
    s.Indexed? || s.DeletePending?
  }

  lemma ActiveIsThe(db: Db, g: GenerationId)
    requires OneActiveGeneration(db) && db.HasGeneration(g, GenerationStatus.Active)
    ensures ActiveGeneration(db) == Some(g)
  {
  }

  // The unique index on the ACTIVE status: a second serving generation is refused.
  lemma MoveGenerationKeepsOneActive(db: Db, g: GenerationId, target: GenerationStatus, expected: nat)
    requires OneActiveGeneration(db) && MoveGeneration(db, g, target, expected).Ok?
    ensures OneActiveGeneration(MoveGeneration(db, g, target, expected).value)
    ensures target.Active? ==> ActiveGeneration(db).None?
  {
    var next := MoveGeneration(db, g, target, expected).value;
    forall a, b | next.HasGeneration(a, GenerationStatus.Active) && next.HasGeneration(b, GenerationStatus.Active)
      ensures a == b
    {
      assert a != g ==> db.HasGeneration(a, GenerationStatus.Active);
      assert b != g ==> db.HasGeneration(b, GenerationStatus.Active);
    }
  }

  // Without strays, the notes moved are all the live published ones.
  lemma MoversAreAll(db: Db, from: GenerationId)
    requires OwnVersions(db) && !Stray(db, from)
    ensures forall n :: n in Movers(db, from) <==> db.Live(n) && db.Published(n)
  {
  }

  // Row by row, what moving a set of notes does to the jobs.
  lemma JobAfterMove(db: Db, moved: set<NoteId>, from: GenerationId, to: GenerationId, n: NoteId, g: GenerationId,
                     status: JobStatus)
    requires OneJobPerTarget(db) && OwnVersions(db) && from != to
    requires db.Published(n)
    ensures
      var v := db.notes[n].version.value;
      MoveNotes(db, moved, from, to).HasJob(v, g, status) ==
      if n in moved && g == from then status.DeletePending? && exists s :: db.HasJob(v, g, s)
      else if n in moved && g == to then status.ActiveIndexed? && exists s :: db.HasJob(v, g, s)
      else db.HasJob(v, g, status)
  {
    var v := db.notes[n].version.value;
    var next := MoveNotes(db, moved, from, to);
    forall j | db.Indexes(j, v, g)
      ensures next.Indexes(j, v, g) && db.HasJob(v, g, db.jobs[j].status) && next.HasJob(v, g, next.jobs[j].status)
      ensures next.jobs[j].status == if n in moved && g == from then JobStatus.DeletePending
                                     else if n in moved && g == to then JobStatus.ActiveIndexed
                                     else db.jobs[j].status
    {
    }
    forall i, j | db.Indexes(i, v, g) && db.Indexes(j, v, g) ensures i == j {
      JobIsUnique(db, i, j, v, g);
    }
    assert forall j :: next.Indexes(j, v, g) == db.Indexes(j, v, g);
  }

  lemma MoveKeepsTables(db: Db, moved: set<NoteId>, from: GenerationId, to: GenerationId)
    requires Tables(db) && from in db.generations && to in db.generations
    ensures Tables(MoveNotes(db, moved, from, to))
  {
    var next := MoveNotes(db, moved, from, to);
    PathsKept(db, next);
    TargetsKept(db, next);
    ActiveKept(db, next);
    MoveKeepsReferences(db, moved, from, to);
  }

  lemma MoveKeepsReferences(db: Db, moved: set<NoteId>, from: GenerationId, to: GenerationId)
    requires References(db) && from in db.generations && to in db.generations
    ensures References(MoveNotes(db, moved, from, to))
  {
  }

  lemma MoveIgnoresGenerations(db: Db, gens: Db, from: GenerationId, to: GenerationId)
    requires gens == db.(generations := gens.generations)
    ensures Movers(gens, from) == Movers(db, from)
    ensures MoveNotes(gens, Movers(db, from), from, to)
         == MoveNotes(db, Movers(db, from), from, to).(generations := gens.generations)
  {
    assert Movers(gens, from) == Movers(db, from);
    var plain, switched := MoveNotes(db, Movers(db, from), from, to), MoveNotes(gens, Movers(db, from), from, to);
    assert plain.notes == switched.notes;
    assert plain.jobs == switched.jobs;
  }

  // The generation rows of a switch, and what `ActiveGeneration` says before and after it.
  lemma SwitchGenerations(db: Db, to: GenerationId, expected: nat, toStatus: JobStatus)
    requires Inv(db) && Switch(db, to, expected, toStatus).Ok?
    ensures
      var from := ActiveGeneration(db).value;
      var next := Switch(db, to, expected, toStatus).value;
      && ActiveGeneration(db).Some? && from != to && db.HasGeneration(from, GenerationStatus.Active)
      && next == MoveNotes(db, Movers(db, from), from, to).(generations := next.generations)
      && next.generations.Keys == db.generations.Keys
      && next.HasGeneration(to, GenerationStatus.Active) && next.HasGeneration(from, GenerationStatus.Superseded)
      && (forall g :: g in db.generations && g != from && g != to ==> next.generations[g] == db.generations[g])
      && (forall g :: g in db.generations ==>
            next.generations[g].number == db.generations[g].number
            && next.generations[g].manifest == db.generations[g].manifest)
      && OneActiveGeneration(next) && ActiveGeneration(next) == Some(to)
  {
    var from := ActiveGeneration(db).value;
    var next := Switch(db, to, expected, toStatus).value;
    var gens := SetGeneration(SetGeneration(db, from, GenerationStatus.Superseded), to, GenerationStatus.Active);
    MoveIgnoresGenerations(db, gens, from, to);
    assert OneActiveGeneration(next) by {
      forall g | next.HasGeneration(g, GenerationStatus.Active) ensures g == to {
        if g != to && g != from { assert db.HasGeneration(g, GenerationStatus.Active); }
      }
    }
    ActiveIsThe(next, to);
  }

  // After a switch the target alone is ACTIVE, and every live published note is on it: its job
  // there serves, and its job on the generation left behind waits for deletion.
  lemma WholeFleetSwitch(db: Db, to: GenerationId, expected: nat, toStatus: JobStatus)
    requires Inv(db) && SwitchStatus(toStatus) && Switch(db, to, expected, toStatus).Ok?
    ensures
      var from := ActiveGeneration(db).value;
      var next := Switch(db, to, expected, toStatus).value;
      && (forall g :: next.HasGeneration(g, GenerationStatus.Active) <==> g == to)
      && (forall n :: next.Live(n) && next.Published(n) ==>
            && next.notes[n].generation == Some(to)
            && next.HasJob(next.notes[n].version.value, to, JobStatus.ActiveIndexed)
            && next.HasJob(next.notes[n].version.value, from, JobStatus.DeletePending))
      && (forall n :: n in db.notes && !(db.Live(n) && db.Published(n)) ==> next.notes[n] == db.notes[n])
      && next.notes.Keys == db.notes.Keys && next.jobs.Keys == db.jobs.Keys
      && next.versions == db.versions && next.changes == db.changes && next.runs == db.runs
      && Inv(next)
  {
    SwitchFrame(db, to, expected, toStatus);
    var next := Switch(db, to, expected, toStatus).value;
    forall n | next.Live(n) && next.Published(n)
      ensures next.HasJob(next.notes[n].version.value, to, JobStatus.ActiveIndexed)
      ensures next.HasJob(next.notes[n].version.value, ActiveGeneration(db).value, JobStatus.DeletePending)
    {
      MovedNoteIsServed(db, to, expected, toStatus, n);
    }
    SwitchKeepsInv(db, to, expected, toStatus);
  }

  // What a switch leaves alone, and where it takes the notes that it moves.
  lemma SwitchFrame(db: Db, to: GenerationId, expected: nat, toStatus: JobStatus)
    requires Inv(db) && Switch(db, to, expected, toStatus).Ok?
    ensures
      var next := Switch(db, to, expected, toStatus).value;
      && (forall g :: next.HasGeneration(g, GenerationStatus.Active) <==> g == to)
      && (forall n :: next.Live(n) && next.Published(n) ==>
            n in Movers(db, ActiveGeneration(db).value) && next.notes[n].generation == Some(to))
      && (forall n :: n in db.notes && !(db.Live(n) && db.Published(n)) ==> next.notes[n] == db.notes[n])
      && next.notes.Keys == db.notes.Keys && next.jobs.Keys == db.jobs.Keys
      && next.versions == db.versions && next.changes == db.changes && next.runs == db.runs
  {
    SwitchGenerations(db, to, expected, toStatus);
    MoversAreAll(db, ActiveGeneration(db).value);
  }

  lemma MovedNoteIsServed(db: Db, to: GenerationId, expected: nat, toStatus: JobStatus, n: NoteId)
    requires Inv(db) && SwitchStatus(toStatus) && Switch(db, to, expected, toStatus).Ok?
    requires n in Movers(db, ActiveGeneration(db).value)
    ensures
      var next := Switch(db, to, expected, toStatus).value;
      && n in next.notes && next.notes[n].version.Some?
      && next.HasJob(next.notes[n].version.value, to, JobStatus.ActiveIndexed)
      && next.HasJob(next.notes[n].version.value, ActiveGeneration(db).value, JobStatus.DeletePending)
  {
    var from := ActiveGeneration(db).value;
    SwitchGenerations(db, to, expected, toStatus);
    assert NoteReady(db, n, from, to, toStatus);
    SwitchedJob(db, to, expected, toStatus, n, to, JobStatus.ActiveIndexed);
    SwitchedJob(db, to, expected, toStatus, n, from, JobStatus.DeletePending);
  }

  lemma SwitchedJob(db: Db, to: GenerationId, expected: nat, toStatus: JobStatus, n: NoteId, g: GenerationId,
                    status: JobStatus)
    requires Inv(db) && Switch(db, to, expected, toStatus).Ok? && db.Published(n)
    ensures
      var from := ActiveGeneration(db).value;
      var v := db.notes[n].version.value;
      Switch(db, to, expected, toStatus).value.HasJob(v, g, status) ==
      if n in Movers(db, from) && g == from then status.DeletePending? && exists s :: db.HasJob(v, g, s)
      else if n in Movers(db, from) && g == to then status.ActiveIndexed? && exists s :: db.HasJob(v, g, s)
      else db.HasJob(v, g, status)
  {
    SwitchGenerations(db, to, expected, toStatus);
    var from := ActiveGeneration(db).value;
    var v := db.notes[n].version.value;
    var next := Switch(db, to, expected, toStatus).value;
    var moved := MoveNotes(db, Movers(db, from), from, to);
    JobAfterMove(db, Movers(db, from), from, to, n, g, status);
    assert forall j :: next.Indexes(j, v, g) == moved.Indexes(j, v, g);
  }

  lemma SwitchKeepsInv(db: Db, to: GenerationId, expected: nat, toStatus: JobStatus)
    requires Inv(db) && SwitchStatus(toStatus) && Switch(db, to, expected, toStatus).Ok?
    ensures Inv(Switch(db, to, expected, toStatus).value)
  {
    SwitchGenerations(db, to, expected, toStatus);
    var from := ActiveGeneration(db).value;
    var next := Switch(db, to, expected, toStatus).value;
    MoveKeepsTables(db, Movers(db, from), from, to);
    NewGenerationsKeepTables(MoveNotes(db, Movers(db, from), from, to), next);
    SwitchKeepsPointers(db, to, expected, toStatus);
    SwitchKeepsLiveIndexed(db, to, expected, toStatus);
    SwitchKeepsUnserved(db, to, expected, toStatus);
  }

  lemma SwitchKeepsPointers(db: Db, to: GenerationId, expected: nat, toStatus: JobStatus)
    requires Inv(db) && Switch(db, to, expected, toStatus).Ok?
    ensures Pointers(Switch(db, to, expected, toStatus).value)
  {
    SwitchGenerations(db, to, expected, toStatus);
    var next := Switch(db, to, expected, toStatus).value;
    forall n | n in next.notes && next.notes[n].generation.Some?
      ensures var g := next.notes[n].generation.value;
              next.HasGeneration(g, GenerationStatus.Active) || next.HasGeneration(g, GenerationStatus.Superseded)
    {
      if n !in Movers(db, ActiveGeneration(db).value) {
        assert db.notes[n].generation == next.notes[n].generation;
      }
    }
  }

  lemma SwitchKeepsLiveIndexed(db: Db, to: GenerationId, expected: nat, toStatus: JobStatus)
    requires Inv(db) && SwitchStatus(toStatus) && Switch(db, to, expected, toStatus).Ok?
    ensures LiveIndexed(Switch(db, to, expected, toStatus).value)
  {
    SwitchGenerations(db, to, expected, toStatus);
    var from := ActiveGeneration(db).value;
    var next := Switch(db, to, expected, toStatus).value;
    MoversAreAll(db, from);
    forall n | next.Published(n)
      ensures next.HasJob(next.notes[n].version.value, next.notes[n].generation.value,
                          JobStatus.ActiveIndexed) == next.Live(n)
    {
      SwitchedJob(db, to, expected, toStatus, n, next.notes[n].generation.value, JobStatus.ActiveIndexed);
      if n in Movers(db, from) { assert NoteReady(db, n, from, to, toStatus); }
    }
  }

  lemma NewGenerationsKeepTables(db: Db, next: Db)
    requires Tables(db) && OneActiveGeneration(next)
    requires next == db.(generations := next.generations) && db.generations.Keys <= next.generations.Keys
    ensures Tables(next)
  {
    assert forall n :: next.Live(n) == db.Live(n);
  }

  lemma SwitchKeepsUnserved(db: Db, to: GenerationId, expected: nat, toStatus: JobStatus)
    requires Inv(db) && SwitchStatus(toStatus) && Switch(db, to, expected, toStatus).Ok?
    ensures UnservedJobsBuild(Switch(db, to, expected, toStatus).value)
  {
    SwitchGenerations(db, to, expected, toStatus);
    var from := ActiveGeneration(db).value;
    var next := Switch(db, to, expected, toStatus).value;
    forall j | j in next.jobs
      && (next.HasGeneration(next.jobs[j].generation, GenerationStatus.Staging)
          || next.HasGeneration(next.jobs[j].generation, GenerationStatus.Failed))
      ensures BuildStatus(next.jobs[j].status)
    {
      var g := db.jobs[j].generation;
      assert next.jobs[j].generation == g && g != from && g != to;
      assert db.HasGeneration(g, next.generations[g].status);
    }
  }

  // ---- Rollback undoes a switch ----

  // The database without its revision counters.
  function Erase(db: Db): Db {
    db.(
      notes := map n | n in db.notes :: db.notes[n].(revision := 0),
      generations := map g | g in db.generations :: db.generations[g].(revision := 0),
      jobs := map j | j in db.jobs :: db.jobs[j].(revision := 0))
  }

  // What a switch to `to` leaves behind once it is undone: the target was served and is retained.
  function Retained(db: Db, to: GenerationId, moved: set<NoteId>): Db
    requires to in db.generations
  {
    SetGeneration(db, to, GenerationStatus.Superseded).(
      jobs := map j | j in db.jobs ::
        if JobOfAny(db, j, moved, to) then db.jobs[j].(status := JobStatus.DeletePending) else db.jobs[j])
  }

  lemma RollbackEnabled(db: Db, to: GenerationId, expected: nat, toStatus: JobStatus)
    requires Inv(db) && SwitchStatus(toStatus) && Switch(db, to, expected, toStatus).Ok?
    ensures
      var from := ActiveGeneration(db).value;
      var next := Switch(db, to, expected, toStatus).value;
      && from in next.generations
      && Rollback(next, from, next.generations[from].revision).Ok?
      && ActiveGeneration(next) == Some(to)
      && Movers(next, to) == Movers(db, from)
  {
    SwitchGenerations(db, to, expected, toStatus);
    WholeFleetSwitch(db, to, expected, toStatus);
    var from := ActiveGeneration(db).value;
    var next := Switch(db, to, expected, toStatus).value;
    MoversAreAll(db, from);
    assert !Stray(next, to);
    assert Movers(next, to) == Movers(db, from) by {
      assert forall n :: next.Live(n) == db.Live(n);
    }
    forall n | n in Movers(next, to) ensures NoteReady(next, n, to, from, JobStatus.DeletePending) {
    }
  }

  // The s-jobs of the moved notes were serving before the switch.
  lemma SourceJobsServed(db: Db, to: GenerationId, expected: nat, toStatus: JobStatus, j: JobId)
    requires Inv(db) && Switch(db, to, expected, toStatus).Ok?
    requires j in db.jobs
    requires var from := ActiveGeneration(db).value;
      JobOfAny(db, j, Movers(db, from), from) || JobOfAny(db, j, Movers(db, from), to)
    ensures JobOfAny(db, j, Movers(db, ActiveGeneration(db).value), to) ==> db.jobs[j].status == toStatus
    ensures !JobOfAny(db, j, Movers(db, ActiveGeneration(db).value), to) ==> db.jobs[j].status.ActiveIndexed?
  {
    var from := ActiveGeneration(db).value;
    var v := db.jobs[j].entity;
    var n := db.versions[v].note;
    assert NoteReady(db, n, from, to, toStatus);
    var g := db.jobs[j].generation;
    var i :| db.Indexes(i, v, g) && db.jobs[i].status == if g == from then JobStatus.ActiveIndexed else toStatus;
    JobIsUnique(db, i, j, v, g);
  }

  // Moving notes to a generation and back changes only their jobs there.
  lemma MoveThereAndBack(db: Db, moved: set<NoteId>, from: GenerationId, to: GenerationId, next: Db)
    requires from != to && to in db.generations
    requires next == MoveNotes(db, moved, from, to).(generations := next.generations)
    requires forall n :: n in moved ==> n in db.notes && db.notes[n].generation == Some(from)
    requires forall j :: j in db.jobs && JobOfAny(db, j, moved, from) ==> db.jobs[j].status.ActiveIndexed?
    ensures Erase(MoveNotes(next, moved, to, from)).notes == Erase(db).notes
    ensures Erase(MoveNotes(next, moved, to, from)).jobs == Erase(Retained(db, to, moved)).jobs
  {
    JobsThereAndBack(db, moved, from, to, next);
  }

  lemma JobsThereAndBack(db: Db, moved: set<NoteId>, from: GenerationId, to: GenerationId, next: Db)
    requires from != to && to in db.generations
    requires next == MoveNotes(db, moved, from, to).(generations := next.generations)
    requires forall j :: j in db.jobs && JobOfAny(db, j, moved, from) ==> db.jobs[j].status.ActiveIndexed?
    ensures Erase(MoveNotes(next, moved, to, from)).jobs == Erase(Retained(db, to, moved)).jobs
  {
    var back := MoveNotes(next, moved, to, from);
    forall j | j in db.jobs ensures back.jobs[j].(revision := 0) == Retained(db, to, moved).jobs[j].(revision := 0) {
      assert JobOfAny(next, j, moved, to) == JobOfAny(db, j, moved, to);
      assert JobOfAny(next, j, moved, from) == JobOfAny(db, j, moved, from);
    }
    assert Erase(back).jobs == Erase(Retained(db, to, moved)).jobs;
  }

  lemma RollbackUndoesSwitch(db: Db, to: GenerationId, expected: nat, toStatus: JobStatus)
    requires Inv(db) && SwitchStatus(toStatus) && Switch(db, to, expected, toStatus).Ok?
    ensures
      var from := ActiveGeneration(db).value;
      var next := Switch(db, to, expected, toStatus).value;
      && from in next.generations
      && Rollback(next, from, next.generations[from].revision).Ok?
      && Erase(Rollback(next, from, next.generations[from].revision).value) == Erase(Retained(db, to, Movers(db, from)))
  {
    RollbackEnabled(db, to, expected, toStatus);
    SwitchGenerations(db, to, expected, toStatus);
    SwitchKeepsInv(db, to, expected, toStatus);
    var from := ActiveGeneration(db).value;
    var moved := Movers(db, from);
    var next := Switch(db, to, expected, toStatus).value;
    var revision := next.generations[from].revision;
    SwitchGenerations(next, from, revision, JobStatus.DeletePending);
    forall j | j in db.jobs && JobOfAny(db, j, moved, from) ensures db.jobs[j].status.ActiveIndexed? {
      SourceJobsServed(db, to, expected, toStatus, j);
    }
    MoveThereAndBack(db, moved, from, to, next);
    SwitchBackGenerations(db, next, Rollback(next, from, revision).value, from, to);
  }

  lemma SwitchBackGenerations(db: Db, next: Db, back: Db, from: GenerationId, to: GenerationId)
    requires from != to && db.HasGeneration(from, GenerationStatus.Active) && to in db.generations
    requires next.generations.Keys == db.generations.Keys && back.generations.Keys == db.generations.Keys
    requires forall g :: g in db.generations ==>
               next.generations[g].number == db.generations[g].number == back.generations[g].number
    requires forall g :: g in db.generations ==>
               next.generations[g].manifest == db.generations[g].manifest == back.generations[g].manifest
    requires forall g :: g in db.generations && g != from && g != to ==>
               next.generations[g] == db.generations[g] && back.generations[g] == next.generations[g]
    requires back.HasGeneration(from, GenerationStatus.Active) && back.HasGeneration(to, GenerationStatus.Superseded)
    ensures Erase(back).generations == Erase(SetGeneration(db, to, GenerationStatus.Superseded)).generations
  {
  }

  // Promotion from s to t, then rollback to s: s serves again, every note and every job of any
  // generation but t is as it was before the promotion.
  lemma RollbackInvertsPromote(db: Db, t: GenerationId, expected: nat)
    requires Inv(db) && Promote(db, t, expected).Ok?
    ensures
      var s := ActiveGeneration(db).value;
      var promoted := Promote(db, t, expected).value;
      && s in promoted.generations && Rollback(promoted, s, promoted.generations[s].revision).Ok?
      && var back := Rollback(promoted, s, promoted.generations[s].revision).value;
      && ActiveGeneration(back) == Some(s)
      && Erase(back).notes == Erase(db).notes
      && back.jobs.Keys == db.jobs.Keys
      && forall j :: j in db.jobs && db.jobs[j].generation != t ==> back.jobs[j].status == db.jobs[j].status
  {
    RollbackUndoesSwitch(db, t, expected, JobStatus.Indexed);
    SwitchKeepsInv(db, t, expected, JobStatus.Indexed);
    var s := ActiveGeneration(db).value;
    var promoted := Promote(db, t, expected).value;
    SwitchGenerations(promoted, s, promoted.generations[s].revision, JobStatus.DeletePending);
    var back := Rollback(promoted, s, promoted.generations[s].revision).value;
    RetainedElsewhere(db, t, Movers(db, s), back);
  }

  lemma RetainedElsewhere(db: Db, t: GenerationId, moved: set<NoteId>, back: Db)
    requires t in db.generations && Erase(back) == Erase(Retained(db, t, moved))
    ensures Erase(back).notes == Erase(db).notes && back.jobs.Keys == db.jobs.Keys
    ensures forall j :: j in db.jobs && db.jobs[j].generation != t ==> back.jobs[j].status == db.jobs[j].status
  {
    var kept := Retained(db, t, moved);
    assert Erase(back).jobs.Keys == back.jobs.Keys;
    forall j | j in db.jobs && db.jobs[j].generation != t ensures back.jobs[j].status == db.jobs[j].status {
      assert Erase(back).jobs[j] == Erase(kept).jobs[j];
    }
  }

  lemma RetainedIsSame(db: Db, t: GenerationId, moved: set<NoteId>)
    requires t in db.generations
    requires forall j :: j in db.jobs && JobOfAny(db, j, moved, t) ==> db.jobs[j].status.DeletePending?
    ensures Erase(Retained(db, t, moved)) == Erase(db) <==> db.HasGeneration(t, GenerationStatus.Superseded)
  {
    var kept := Retained(db, t, moved);
    assert Erase(kept).jobs == Erase(db).jobs;
    if db.HasGeneration(t, GenerationStatus.Superseded) {
      assert Erase(kept).generations == Erase(db).generations;
    } else {
      assert Erase(kept).generations[t] != Erase(db).generations[t];
    }
  }

  // A rollback is itself undone by rolling back, exactly when its target had already served:
  // a STAGING generation, which an empty fleet can be rolled back to, ends up SUPERSEDED.
  lemma RollbackUndoesRollback(db: Db, to: GenerationId, expected: nat)
    requires Inv(db) && Rollback(db, to, expected).Ok?
    ensures
      var from := ActiveGeneration(db).value;
      var next := Rollback(db, to, expected).value;
      && from in next.generations && Rollback(next, from, next.generations[from].revision).Ok?
      && (Erase(Rollback(next, from, next.generations[from].revision).value) == Erase(db)
          <==> db.HasGeneration(to, GenerationStatus.Superseded))
  {
    RollbackUndoesSwitch(db, to, expected, JobStatus.DeletePending);
    var moved := Movers(db, ActiveGeneration(db).value);
    forall j | j in db.jobs && JobOfAny(db, j, moved, to) ensures db.jobs[j].status.DeletePending? {
      SourceJobsServed(db, to, expected, JobStatus.DeletePending, j);
    }
    RetainedIsSame(db, to, moved);
  }

  // A generation that never served is accepted by a rollback exactly while no published note is live: its
  // jobs are still being built, so none of them waits for deletion.
  lemma RollbackToStagingIff(db: Db, to: GenerationId, expected: nat)
    requires Inv(db) && db.HasGeneration(to, GenerationStatus.Staging)
    ensures Rollback(db, to, expected).Ok? <==>
            && expected == db.generations[to].revision && ActiveGeneration(db).Some?
            && forall n :: !(db.Live(n) && db.Published(n))
  {
    if ActiveGeneration(db).Some? {
      var from := ActiveGeneration(db).value;
      if n :| n in Movers(db, from) {
        NeverServedIsNotReady(db, n, from, to);
      }
      if !Stray(db, from) {
        MoversAreAll(db, from);
      }
    }
  }

  // The jobs of a STAGING generation do not wait for deletion.
  lemma NeverServedIsNotReady(db: Db, n: NoteId, from: GenerationId, to: GenerationId)
    requires UnservedJobsBuild(db) && db.HasGeneration(to, GenerationStatus.Staging)
    ensures !NoteReady(db, n, from, to, JobStatus.DeletePending)
  {
    forall v, j | db.Indexes(j, v, to) ensures !db.jobs[j].status.DeletePending? {
      assert BuildStatus(db.jobs[j].status);
    }
  }

  // Once t has been promoted, s and t can be swapped for ever: rolling back to s, to t and to s
  // again brings back the same pointers and statuses.
  lemma SwapForEver(db: Db, t: GenerationId, expected: nat)
    requires Inv(db) && Promote(db, t, expected).Ok?
    ensures
      var s := ActiveGeneration(db).value;
      var onT := Promote(db, t, expected).value;
      && s in onT.generations && Rollback(onT, s, onT.generations[s].revision).Ok?
      && var onS := Rollback(onT, s, onT.generations[s].revision).value;
      && t in onS.generations && Rollback(onS, t, onS.generations[t].revision).Ok?
      && var onT2 := Rollback(onS, t, onS.generations[t].revision).value;
      && s in onT2.generations && Rollback(onT2, s, onT2.generations[s].revision).Ok?
      && Erase(onT2) == Erase(onT)
      && Erase(Rollback(onT2, s, onT2.generations[s].revision).value) == Erase(onS)
  {
    var s := ActiveGeneration(db).value;
    var onT := Promote(db, t, expected).value;
    SwitchGenerations(db, t, expected, JobStatus.Indexed);
    SwitchKeepsInv(db, t, expected, JobStatus.Indexed);
    RollbackEnabled(db, t, expected, JobStatus.Indexed);
    RollbackUndoesRollback(onT, s, onT.generations[s].revision);
    var onS := Rollback(onT, s, onT.generations[s].revision).value;
    SwitchGenerations(onT, s, onT.generations[s].revision, JobStatus.DeletePending);
    SwitchKeepsInv(onT, s, onT.generations[s].revision, JobStatus.DeletePending);
    RollbackUndoesRollback(onS, t, onS.generations[t].revision);
  }
}
