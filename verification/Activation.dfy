/** Publication of one note: what the activation changes, and what it leaves alone. */
module Activation {
  import opened Prelude
  import opened Transitions
  import opened Schema
  import opened RepositorySpec
  import opened Switching

  lemma JobsUntouched(db: Db, next: Db)
    requires next.jobs == db.jobs
    ensures forall v, g, s :: next.HasJob(v, g, s) == db.HasJob(v, g, s)
  {
    forall v, g, s ensures next.HasJob(v, g, s) == db.HasJob(v, g, s) {
      assert forall j :: next.Indexes(j, v, g) == db.Indexes(j, v, g);
    }
  }

  // Versions may come and change status, as long as none becomes ACTIVE.
  lemma VersionsKeepInv(db: Db, next: Db)
    requires Inv(db)
    requires next == db.(versions := next.versions)
    requires forall v :: v in db.versions ==> v in next.versions && next.versions[v].note == db.versions[v].note
    requires forall v :: v in next.versions && next.versions[v].status.Active? ==>
               v in db.versions && db.versions[v].status.Active?
    ensures Inv(next)
  {
    JobsUntouched(db, next);
    assert forall h, s :: next.HasGeneration(h, s) == db.HasGeneration(h, s);
    assert forall m :: next.Live(m) == db.Live(m);
  }

  lemma ServeKeepsInv(db: Db, g: GenerationId)
    requires Inv(db) && g in db.generations && ServeFrom(db, g).Ok?
    ensures
      var next := ServeFrom(db, g).value;
      Inv(next) && next.HasGeneration(g, GenerationStatus.Active)
  {
    var next := ServeFrom(db, g).value;
    if next != db {
      JobsUntouched(db, next);
      ServeGenerations(db, g);
      NewGenerationsKeepTables(db, next);
      assert forall m :: next.Live(m) == db.Live(m);
      assert UnservedJobsBuild(next) by {
        forall j | j in next.jobs
          && (next.HasGeneration(next.jobs[j].generation, GenerationStatus.Staging)
              || next.HasGeneration(next.jobs[j].generation, GenerationStatus.Failed))
          ensures BuildStatus(next.jobs[j].status)
        {
          var h := db.jobs[j].generation;
          assert db.HasGeneration(h, next.generations[h].status);
        }
      }
    }
  }

  lemma ServeGenerations(db: Db, g: GenerationId)
    requires OneActiveGeneration(db) && g in db.generations && ServeFrom(db, g).Ok?
    ensures
      var next := ServeFrom(db, g).value;
      && (forall h :: next.HasGeneration(h, GenerationStatus.Active) <==> h == g)
      && (forall h :: h in db.generations && h != g ==>
            next.generations[h].status ==
            if db.generations[h].status.Active? then GenerationStatus.Superseded else db.generations[h].status)
  {
    forall h: GenerationId | h in db.generations && db.generations[h].status.Active?
      ensures ActiveGeneration(db) == Some(h)
    {
      assert db.HasGeneration(h, GenerationStatus.Active);
      ActiveIsThe(db, h);
    }
    ServedRows(db, g);
  }

  // The two rows that change, if any.
  lemma ServedRows(db: Db, g: GenerationId)
    requires g in db.generations && ServeFrom(db, g).Ok?
    ensures
      var next := ServeFrom(db, g).value;
      && next.HasGeneration(g, GenerationStatus.Active)
      && (forall h :: h in db.generations && h != g ==>
            next.generations[h].status ==
            if ActiveGeneration(db) == Some(h) && !db.generations[g].status.Active?
            then GenerationStatus.Superseded else db.generations[h].status)
  {
  }

  // Everything `ShowVersion` is called with.
  ghost predicate Showable(db: Db, r: RunId, j: JobId) {
    && r in db.runs && j in db.jobs
    && var run := db.runs[r];
    && db.Live(run.note) && run.version in db.versions && run.change in db.changes
    && db.versions[run.version].note == run.note
    && db.HasGeneration(run.generation, GenerationStatus.Active)
    && db.Indexes(j, run.version, run.generation)
    && (forall w :: w in db.versions && db.versions[w].note == run.note && db.versions[w].status.Active?
                    ==> w == run.version)
  }

  lemma ShowKeepsInv(db: Db, r: RunId, j: JobId)
    requires Inv(db) && Showable(db, r, j)
    ensures Inv(ShowVersion(db, r, j))
  {
    var next := ShowVersion(db, r, j);
    ShowKeepsTables(db, r, j);
    ShowKeepsServing(db, r, j);
    assert forall h, s :: next.HasGeneration(h, s) == db.HasGeneration(h, s);
  }

  lemma ShowKeepsTables(db: Db, r: RunId, j: JobId)
    requires Tables(db) && Showable(db, r, j)
    ensures Tables(ShowVersion(db, r, j))
  {
    var next := ShowVersion(db, r, j);
    assert forall h, s :: next.HasGeneration(h, s) == db.HasGeneration(h, s);
    assert forall m :: next.Live(m) == db.Live(m);
  }

  lemma ShowKeepsServing(db: Db, r: RunId, j: JobId)
    requires Inv(db) && Showable(db, r, j)
    ensures Serving(ShowVersion(db, r, j))
  {
    var next := ShowVersion(db, r, j);
    var v, g := db.runs[r].version, db.runs[r].generation;
    assert forall h, s :: next.HasGeneration(h, s) == db.HasGeneration(h, s);
    assert forall m :: next.Live(m) == db.Live(m);
    forall w, h | w != v
      ensures next.HasJob(w, h, JobStatus.ActiveIndexed) == db.HasJob(w, h, JobStatus.ActiveIndexed)
    {
      assert forall i :: next.Indexes(i, w, h) ==> i != j;
      assert forall i :: next.Indexes(i, w, h) == db.Indexes(i, w, h);
    }
    assert next.Indexes(j, v, g);
  }

  // The steps of a successful activation, one after the other.
  lemma ActivationSteps(db: Db, r: RunId, j: JobId, expected: Revisions)
    requires Inv(db) && Activate(db, r, j, expected).Ok?
    ensures r in db.runs && j in db.jobs
    ensures
      var run := db.runs[r];
      && run.note in db.notes && RetireVersion(db, run.note, run.version).Ok?
      && var retired := RetireVersion(db, run.note, run.version).value;
      && Inv(retired) && run.generation in db.generations && ServeFrom(retired, run.generation).Ok?
      && var served := ServeFrom(retired, run.generation).value;
      && Inv(served) && Showable(served, r, j)
      && Activate(db, r, j, expected).value == ShowVersion(served, r, j)
  {
    var run := db.runs[r];
    var retired := RetireVersion(db, run.note, run.version).value;
    VersionsKeepInv(db, retired);
    ServeKeepsInv(retired, run.generation);
    var served := ServeFrom(retired, run.generation).value;
    assert served.Live(run.note);
    assert served.Indexes(j, run.version, run.generation);
    forall w | w in served.versions && served.versions[w].note == run.note && served.versions[w].status.Active?
      ensures w == run.version
    {
      assert db.versions[w].status.Active?;
    }
  }

  // Activation makes the new version the only ACTIVE one of its note, the one the note shows, on a
  // generation that serves. Every other note keeps its row, its versions and its jobs.
  lemma ActivationIsLocal(db: Db, r: RunId, j: JobId, expected: Revisions)
    requires Inv(db) && Activate(db, r, j, expected).Ok?
    ensures
      var next := Activate(db, r, j, expected).value;
      && r in db.runs && var run := db.runs[r];
      && next.Live(run.note) && next.PublishedOn(run.note, run.version, run.generation)
      && next.HasGeneration(run.generation, GenerationStatus.Active)
      && next.HasJob(run.version, run.generation, JobStatus.ActiveIndexed)
      && (forall w :: w in next.versions && next.versions[w].note == run.note ==>
            (next.versions[w].status.Active? <==> w == run.version))
      && (forall m :: m in db.notes && m != run.note ==> m in next.notes && next.notes[m] == db.notes[m])
      && (forall w :: w in db.versions && db.versions[w].note != run.note ==> next.versions[w] == db.versions[w])
      && (forall i :: i in db.jobs && i != j ==> i in next.jobs && next.jobs[i] == db.jobs[i])
      && db.versions.Keys == next.versions.Keys
      && Inv(next)
  {
    ActivationSteps(db, r, j, expected);
    var run := db.runs[r];
    var retired := RetireVersion(db, run.note, run.version).value;
    var served := ServeFrom(retired, run.generation).value;
    ShowKeepsInv(served, r, j);
    ShowIsLocal(served, r, j);
    ServedFrame(db, run.note, run.version, run.generation);
  }

  lemma ServedFrame(db: Db, n: NoteId, v: VersionId, g: GenerationId)
    requires OwnVersions(db) && n in db.notes && g in db.generations
    requires RetireVersion(db, n, v).Ok? && ServeFrom(RetireVersion(db, n, v).value, g).Ok?
    ensures
      var served := ServeFrom(RetireVersion(db, n, v).value, g).value;
      && served.notes == db.notes && served.jobs == db.jobs && served.versions.Keys == db.versions.Keys
      && (forall w :: w in db.versions && db.versions[w].note != n ==> served.versions[w] == db.versions[w])
  {
  }

  lemma ShowIsLocal(db: Db, r: RunId, j: JobId)
    requires Showable(db, r, j)
    ensures
      var next := ShowVersion(db, r, j);
      var run := db.runs[r];
      && next.Live(run.note) && next.PublishedOn(run.note, run.version, run.generation)
      && next.HasGeneration(run.generation, GenerationStatus.Active)
      && next.HasJob(run.version, run.generation, JobStatus.ActiveIndexed)
      && (forall w :: w in next.versions && next.versions[w].note == run.note ==>
            (next.versions[w].status.Active? <==> w == run.version))
      && next.notes == db.notes[run.note := next.notes[run.note]]
      && next.versions == db.versions[run.version := next.versions[run.version]]
      && next.jobs == db.jobs[j := next.jobs[j]]
  {
    assert ShowVersion(db, r, j).Indexes(j, db.runs[r].version, db.runs[r].generation);
  }

  // While a live note is on the serving generation, an activation cannot change which one serves.
  lemma ActivationKeepsTheServingGeneration(db: Db, r: RunId, j: JobId, expected: Revisions, n: NoteId)
    requires Inv(db) && Activate(db, r, j, expected).Ok?
    requires db.Live(n) && ActiveGeneration(db).Some? && db.notes[n].generation == ActiveGeneration(db)
    ensures Activate(db, r, j, expected).value.generations == db.generations
  {
    ActivationSteps(db, r, j, expected);
    var run := db.runs[r];
    var retired := RetireVersion(db, run.note, run.version).value;
    ActiveIsThe(retired, ActiveGeneration(db).value);
    assert retired.Live(n);
  }

  lemma ActivationKeepsSingleServing(db: Db, r: RunId, j: JobId, expected: Revisions)
    requires Inv(db) && SingleServing(db) && Activate(db, r, j, expected).Ok?
    ensures SingleServing(Activate(db, r, j, expected).value)
  {
    ActivationSteps(db, r, j, expected);
    var next := Activate(db, r, j, expected).value;
    var run := db.runs[r];
    forall n | next.Live(n) && next.Published(n)
      ensures next.HasGeneration(next.notes[n].generation.value, GenerationStatus.Active)
    {
      if n != run.note {
        ActiveIsThe(db, db.notes[n].generation.value);
        ActivationKeepsTheServingGeneration(db, r, j, expected, n);
      }
    }
  }
}
