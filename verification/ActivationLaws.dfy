/** Every row that a publication writes, and exactly when it is accepted. */
module ActivationLaws {
  import opened Prelude
  import opened Transitions
  import opened Schema
  import opened RepositorySpec
  import opened Switching
  import opened Activation

  // ---- Row by row ----

  // The version shown so far is superseded, the new one is ACTIVE, and no other version changes.
  lemma VersionsAfterActivation(db: Db, r: RunId, j: JobId, expected: Revisions)
    requires Inv(db) && Activate(db, r, j, expected).Ok?
    ensures
      var next := Activate(db, r, j, expected).value;
      && r in db.runs && var run := db.runs[r];
      && run.note in db.notes && run.version in db.versions && next.versions.Keys == db.versions.Keys
      && next.versions[run.version] == db.versions[run.version].(
           status := VersionStatus.Active, revision := db.versions[run.version].revision + 1)
      && forall w :: w in db.versions && w != run.version ==>
           next.versions[w] == if db.notes[run.note].version == Some(w)
                               then db.versions[w].(status := VersionStatus.Superseded,
                                                    revision := db.versions[w].revision + 1)
                               else db.versions[w]
  {
  }

  lemma NotesAfterActivation(db: Db, r: RunId, j: JobId, expected: Revisions)
    requires Inv(db) && Activate(db, r, j, expected).Ok?
    ensures
      var next := Activate(db, r, j, expected).value;
      && r in db.runs && var run := db.runs[r];
      && run.note in db.notes && var row := db.notes[run.note];
      && next.notes == db.notes[run.note := row.(version := Some(run.version), generation := Some(run.generation),
                                                 revision := row.revision + 1)]
  {
  }

  lemma JobsAfterActivation(db: Db, r: RunId, j: JobId, expected: Revisions)
    requires Inv(db) && Activate(db, r, j, expected).Ok?
    ensures
      var next := Activate(db, r, j, expected).value;
      && j in db.jobs
      && next.jobs == db.jobs[j := db.jobs[j].(status := JobStatus.ActiveIndexed, revision := db.jobs[j].revision + 1)]
  {
  }

  lemma ChangesAfterActivation(db: Db, r: RunId, j: JobId, expected: Revisions)
    requires Inv(db) && Activate(db, r, j, expected).Ok?
    ensures
      var next := Activate(db, r, j, expected).value;
      && r in db.runs && db.runs[r].change in db.changes && var c := db.runs[r].change;
      && next.changes == db.changes[c := db.changes[c].(status := ChangeStatus.Active,
                                                        revision := db.changes[c].revision + 1)]
      && next.runs == db.runs[r := db.runs[r].(status := RunStatus.Completed, revision := db.runs[r].revision + 1)]
  {
  }

  // Of two rows at most: t starts to serve, and the one that served so far is superseded.
  function ServedRow(db: Db, t: GenerationId, g: GenerationId): Generation
    requires g in db.generations
  {
    var row := db.generations[g];
    if g == t && row.status.Staging? then row.(status := GenerationStatus.Active, revision := row.revision + 1)
    else if g != t && row.status.Active? then row.(status := GenerationStatus.Superseded, revision := row.revision + 1)
    else row
  }

  lemma ServedExactly(db: Db, t: GenerationId)
    requires OneActiveGeneration(db) && t in db.generations && ServeFrom(db, t).Ok?
    ensures
      var next := ServeFrom(db, t).value;
      && next.generations.Keys == db.generations.Keys
      && forall g :: g in db.generations ==> next.generations[g] == ServedRow(db, t, g)
  {
    forall g: GenerationId | g in db.generations && db.generations[g].status.Active?
      ensures ActiveGeneration(db) == Some(g)
    {
      assert db.HasGeneration(g, GenerationStatus.Active);
      ActiveIsThe(db, g);
    }
  }

  // A STAGING generation of the run starts to serve, and the one that served so far is superseded.
  lemma GenerationsAfterActivation(db: Db, r: RunId, j: JobId, expected: Revisions)
    requires Inv(db) && Activate(db, r, j, expected).Ok?
    ensures
      var next := Activate(db, r, j, expected).value;
      && r in db.runs && var t := db.runs[r].generation;
      && next.generations.Keys == db.generations.Keys
      && forall g :: g in db.generations ==>
           next.generations[g] == ServedRow(db, t, g)
  {
    ActivationSteps(db, r, j, expected);
    var run := db.runs[r];
    var retired := RetireVersion(db, run.note, run.version).value;
    ServedExactly(retired, run.generation);
  }

  // A republication supersedes the version that it replaces, and no other version of the note changes.
  lemma RepublicationSupersedes(db: Db, r: RunId, j: JobId, expected: Revisions, shown: VersionId)
    requires Inv(db) && Activate(db, r, j, expected).Ok? && r in db.runs
    requires db.Published(db.runs[r].note) && db.notes[db.runs[r].note].version == Some(shown)
    requires shown != db.runs[r].version
    ensures
      var next := Activate(db, r, j, expected).value;
      && shown in db.versions && db.versions[shown].note == db.runs[r].note
      && shown in next.versions && next.versions[shown].status.Superseded?
      && next.versions[shown].revision == db.versions[shown].revision + 1
      && next.notes[db.runs[r].note].version == Some(db.runs[r].version)
  {
    VersionsAfterActivation(db, r, j, expected);
    NotesAfterActivation(db, r, j, expected);
  }

  // ---- Acceptance ----

  // All rows are there, at the revisions that the caller has seen.
  predicate Current(db: Db, r: RunId, j: JobId, expected: Revisions) {
    && r in db.runs && j in db.jobs && var run := db.runs[r];
    && db.Live(run.note) && run.version in db.versions && run.change in db.changes && run.generation in db.generations
    && expected.run == run.revision && expected.note == db.notes[run.note].revision
    && expected.version == db.versions[run.version].revision && expected.job == db.jobs[j].revision
    && expected.change == db.changes[run.change].revision
    && expected.generation == db.generations[run.generation].revision
  }

  // The version is staged for this note and change, indexed for this generation, and intended to be published.
  predicate Staged(db: Db, r: RunId, j: JobId, expected: Revisions)
    requires Current(db, r, j, expected)
  {
    var run := db.runs[r];
    && run.status == RunStatus.Activating
    && db.versions[run.version].status == VersionStatus.Staging
    && db.changes[run.change].status == ChangeStatus.PublishIntent
    && db.versions[run.version].note == run.note && db.versions[run.version].change == run.change
    && db.jobs[j].status == JobStatus.Indexed && db.jobs[j].objectType == CuratedVersion
    && db.jobs[j].entity == run.version && db.jobs[j].generation == run.generation
  }

  // What the note shows, if anything else, can be superseded.
  predicate Replaceable(db: Db, n: NoteId, v: VersionId)
    requires n in db.notes
  {
    var shown := db.notes[n].version;
    shown.Some? && shown.value != v ==>
      && shown.value in db.versions
      && (db.versions[shown.value].status == VersionStatus.Active
          || db.versions[shown.value].status == VersionStatus.StalePendingReview)
  }

  // The generation serves, or it is STAGING and no live note is left on one that does.
  ghost predicate MayServe(db: Db, g: GenerationId) {
    || db.HasGeneration(g, GenerationStatus.Active)
    || (db.HasGeneration(g, GenerationStatus.Staging)
        && forall n :: db.Live(n) && db.notes[n].generation.Some? ==>
             !db.HasGeneration(db.notes[n].generation.value, GenerationStatus.Active))
  }

  lemma ActivationIff(db: Db, r: RunId, j: JobId, expected: Revisions)
    requires OneActiveGeneration(db)
    ensures Activate(db, r, j, expected).Ok? <==>
      && Current(db, r, j, expected) && Staged(db, r, j, expected)
      && Replaceable(db, db.runs[r].note, db.runs[r].version) && MayServe(db, db.runs[r].generation)
  {
    if Current(db, r, j, expected) {
      var run := db.runs[r];
      var retired := RetireVersion(db, run.note, run.version);
      assert retired.Ok? <==> Replaceable(db, run.note, run.version);
      if retired.Ok? {
        ServingIff(db, retired.value, run.generation);
      }
    }
  }

  lemma ServingIff(db: Db, retired: Db, g: GenerationId)
    requires OneActiveGeneration(db) && retired == db.(versions := retired.versions) && g in db.generations
    ensures ServeFrom(retired, g).Ok? <==> MayServe(db, g)
  {
    assert forall h, s :: retired.HasGeneration(h, s) == db.HasGeneration(h, s);
    assert forall n :: retired.Live(n) == db.Live(n);
    var active := ActiveGeneration(retired);
    if active.Some? {
      assert db.HasGeneration(active.value, GenerationStatus.Active);
    }
  }
}
