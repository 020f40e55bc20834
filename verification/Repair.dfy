/** The reconciler: verify each publication in the Vault and in the index, and repair what drifted. */
module Repair {
  import opened Prelude
  import opened Reconciliation

  datatype Code = VaultFailed | ListFailed | InOrder | Drifted | RepairFailed | Repaired

  // One publication of a pass, what the Vault says about it, and the port that fails on it.
  datatype Check = Check(publication: Publication, inVault: bool, fault: Fault)

  // Chunks that the index lists under the version and that the version does not have.
  function Unexpected(points: Points, p: Publication): set<string> {
    set b | b in Listed(points, p.generation, p.version) && b.id !in Ids(p.chunks) :: b.id
  }

  function Cleaned(points: Points, p: Publication, fault: Fault): Points {
    var gone := Unexpected(points, p);
    if gone == {} then points
    else Without(points, p.generation, if fault.DeleteFails? then gone * fault.done else gone)
  }

  function VerifyIndex(points: Points, p: Publication, model: string, repair: bool, fault: Fault): (Code, Points) {
    if fault.ListFails? then (ListFailed, points)
    else if Healthy(points, p) then (InOrder, points)
    else if !repair then (Drifted, points)
    else
      var cleaned := Cleaned(points, p, fault);
      if Unexpected(points, p) != {} && fault.DeleteFails? then (RepairFailed, cleaned)
      else if !OneGeneration(p.chunks, model) || fault.EmbeddingFails? then (RepairFailed, cleaned)
      else
        var after := With(cleaned, Written(p.chunks, fault), p.generation);
        if fault.UpsertFails? || fault.ReadBackFails? || fault.RelistFails?
            || !Healthy(after, p) then (RepairFailed, after)
        else (Repaired, after)
  }

  function VerifyOne(points: Points, c: Check, model: string, repair: bool): (Code, Points) {
    if c.inVault then VerifyIndex(points, c.publication, model, repair, c.fault) else (VaultFailed, points)
  }

  // The findings of a pass, and the index after it.
  function Pass(points: Points, checks: seq<Check>, model: string, repair: bool): (seq<Code>, Points) {
    if checks == [] then ([], points)
    else
      var before := Pass(points, checks[..|checks| - 1], model, repair);
      var last := VerifyOne(before.1, checks[|checks| - 1], model, repair);
      (before.0 + [last.0], last.1)
  }

  class PublicationReconciler {
    const index: VectorIndex
    const indexer: GenerationIndexer
    const repairIndex: bool

    constructor (indexer: GenerationIndexer, repairIndex: bool)
      ensures this.indexer == indexer && this.index == indexer.index && this.repairIndex == repairIndex
    {
      this.indexer := indexer;
      this.index := indexer.index;
      this.repairIndex := repairIndex;
    }

    method Reconcile(checks: seq<Check>) returns (findings: seq<Code>)
      requires indexer.index == index && forall c :: c in checks ==> WellFormed(c.publication)
      modifies index
      ensures (findings, index.points) == Pass(old(index.points), checks, indexer.model, repairIndex)
    {
      findings := [];
      for i := 0 to |checks|
        invariant (findings, index.points) == Pass(old(index.points), checks[..i], indexer.model, repairIndex)
      {
        assert checks[..i + 1][..i] == checks[..i];
        if checks[i].inVault {
          var code := VerifyPublication(checks[i].publication, checks[i].fault);
          findings := findings + [code];
        } else {
          findings := findings + [VaultFailed];
        }
      }
      assert checks[..|checks|] == checks;
    }

    method VerifyPublication(p: Publication, fault: Fault) returns (code: Code)
      requires indexer.index == index && WellFormed(p)
      modifies index
      ensures (code, index.points) == VerifyIndex(old(index.points), p, indexer.model, repairIndex, fault)
    {
      if fault.ListFails? {
        return ListFailed;
      }
      var probes := Listed(index.points, p.generation, p.version);
      if probes == Expected(p.chunks) {
        return InOrder;
      }
      if !repairIndex {
        return Drifted;
      }
      var unexpected := set b | b in probes && b.id !in Ids(p.chunks) :: b.id;
      if unexpected != {} {
        var deleted := index.DeleteChunks(p.generation, unexpected, fault);
        if !deleted {
          return RepairFailed;
        }
      }
      assert p.chunks[0] in p.chunks;
      ghost var cleaned := index.points;
      var indexed := indexer.Index(p.chunks, fault);
      if !indexed || fault.RelistFails? {
        return RepairFailed;
      }
      var repaired := Listed(index.points, p.generation, p.version);
      code := if repaired == Expected(p.chunks) then Repaired else RepairFailed;
    }
  }

  // ---- A repair touches no more than its own publication ----

  ghost predicate Own(points: Points, p: Publication, k: Slot) {
    k.0 == p.generation && (k.1 in Ids(p.chunks) || (k in points && points[k].version == p.version))
  }

  // Slots that are not its own stay. Its own slots stay, or hold its chunk; only a slot of no chunk may go.
  ghost predicate Keeps(before: Points, after: Points, p: Publication) {
    forall k: Slot ::
      && (k.0 == p.generation && k.1 in Ids(p.chunks) && k in before ==> k in after)
      && (!Own(before, p, k) ==> (k in before <==> k in after) && (k in before ==> after[k] == before[k]))
      && (Own(before, p, k) && k in after ==> (k in before && after[k] == before[k])
                                              || after[k] == Point(p.version, p.hash))
  }

  lemma WrittenBelongs(p: Publication, fault: Fault)
    requires WellFormed(p)
    ensures forall c :: c in Written(p.chunks, fault) ==> c in p.chunks
    ensures Ids(Written(p.chunks, fault)) <= Ids(p.chunks)
  {}

  lemma CleaningKeeps(points: Points, p: Publication, fault: Fault)
    ensures Keeps(points, Cleaned(points, p, fault), p)
    ensures forall k :: k in Cleaned(points, p, fault) ==> k in points && Cleaned(points, p, fault)[k] == points[k]
  {
    var gone := Unexpected(points, p);
    forall id | id in gone ensures Own(points, p, (p.generation, id)) {
      var b :| b in Listed(points, p.generation, p.version) && b.id == id;
    }
  }

  lemma WritingKeeps(points: Points, cleaned: Points, p: Publication, fault: Fault)
    requires WellFormed(p) && Keeps(points, cleaned, p)
    requires forall k :: k in cleaned ==> k in points && cleaned[k] == points[k]
    ensures Keeps(points, With(cleaned, Written(p.chunks, fault), p.generation), p)
  {
    var chunks := Written(p.chunks, fault);
    WrittenBelongs(p, fault);
    var after := With(cleaned, chunks, p.generation);
    forall k: Slot
      ensures k.0 == p.generation && k.1 in Ids(p.chunks) && k in points ==> k in after
      ensures !Own(points, p, k) ==> (k in points <==> k in after) && (k in points ==> after[k] == points[k])
      ensures Own(points, p, k) && k in after ==>
                (k in points && after[k] == points[k]) || after[k] == Point(p.version, p.hash)
    {
      WithAt(cleaned, chunks, p.generation, k);
    }
  }

  lemma VerifyKeeps(points: Points, p: Publication, model: string, repair: bool, fault: Fault)
    requires WellFormed(p)
    ensures Keeps(points, VerifyIndex(points, p, model, repair, fault).1, p)
  {
    CleaningKeeps(points, p, fault);
    WritingKeeps(points, Cleaned(points, p, fault), p, fault);
  }

  // Two publications that share neither a version nor a chunk within one generation.
  ghost predicate Apart(p: Publication, q: Publication) {
    p.generation != q.generation || (p.version != q.version && Ids(p.chunks) !! Ids(q.chunks))
  }

  // Whatever fails while p is being repaired, q stays healthy.
  lemma OthersStayHealthy(before: Points, after: Points, p: Publication, q: Publication)
    requires WellFormed(p) && WellFormed(q) && Apart(p, q) && Keeps(before, after, p) && Healthy(before, q)
    ensures Healthy(after, q)
  {
    var listed := Listed(before, q.generation, q.version);
    forall k: Slot | k.0 == q.generation
      ensures (k in before && before[k].version == q.version) <==> (k in after && after[k].version == q.version)
      ensures k in before && before[k].version == q.version ==> after[k] == before[k]
    {
      if k in before && before[k].version == q.version {
        assert Probe(k.1, before[k].version, before[k].hash) in listed;
        var c :| c in q.chunks && c.id == k.1;
        assert !Own(before, p, k);
      }
    }
    SameListing(before, after, q.generation, q.version);
  }

  lemma SameListing(before: Points, after: Points, generation: int, version: string)
    requires forall k: Slot :: k.0 == generation ==>
               ((k in before && before[k].version == version) <==> (k in after && after[k].version == version))
    requires forall k: Slot :: k.0 == generation && k in before && before[k].version == version && k in after
                               ==> after[k] == before[k]
    ensures Listed(before, generation, version) == Listed(after, generation, version)
  {
    forall b | b in Listed(before, generation, version) ensures b in Listed(after, generation, version) {
      var k :| k in before && k.0 == generation && before[k].version == version
          && b == Probe(k.1, before[k].version, before[k].hash);
      assert k in after && after[k] == before[k];
    }
    forall b | b in Listed(after, generation, version) ensures b in Listed(before, generation, version) {
      var k :| k in after && k.0 == generation && after[k].version == version
          && b == Probe(k.1, after[k].version, after[k].hash);
      assert k in before && after[k] == before[k];
    }
  }

  // ---- A repair that meets no failure heals ----

  lemma RepairHeals(points: Points, p: Publication)
    requires WellFormed(p)
    ensures Healthy(With(Cleaned(points, p, NoFault), p.chunks, p.generation), p)
  {
    var cleaned := Cleaned(points, p, NoFault);
    var after := With(cleaned, p.chunks, p.generation);
    forall b | b in Listed(after, p.generation, p.version) ensures b in Expected(p.chunks) {
      var k :| k in after && k.0 == p.generation && after[k].version == p.version
          && b == Probe(k.1, after[k].version, after[k].hash);
      WithAt(cleaned, p.chunks, p.generation, k);
      if k.1 in Ids(p.chunks) {
        var c :| c in p.chunks && c.id == k.1 && after[k] == Point(c.version, c.hash);
        assert b == Probe(c.id, c.version, c.hash);
      } else {
        CleanedIsExpected(points, p, k);
      }
    }
    forall c | c in p.chunks ensures Probe(c.id, c.version, c.hash) in Listed(after, p.generation, p.version) {
      var k := (p.generation, c.id);
      assert c.id in Ids(p.chunks);
      WithAt(cleaned, p.chunks, p.generation, k);
      var d :| d in p.chunks && d.id == k.1 && after[k] == Point(d.version, d.hash);
    }
  }

  lemma CleanedIsExpected(points: Points, p: Publication, k: Slot)
    requires k in Cleaned(points, p, NoFault) && k.0 == p.generation && points[k].version == p.version
    ensures k.1 in Ids(p.chunks)
  {
    assert Probe(k.1, points[k].version, points[k].hash) in Listed(points, p.generation, p.version);
    assert k.1 !in Ids(p.chunks) ==> k.1 in Unexpected(points, p);
  }

  lemma VerifyHeals(points: Points, p: Publication, model: string)
    requires WellFormed(p) && OneGeneration(p.chunks, model)
    ensures var r := VerifyIndex(points, p, model, true, NoFault);
            Healthy(r.1, p) && r.0 == (if Healthy(points, p) then InOrder else Repaired)
                && (Healthy(points, p) ==> r.1 == points)
  {
    RepairHeals(points, p);
  }

  // ---- Passes ----

  ghost predicate Sound(checks: seq<Check>) {
    && (forall c :: c in checks ==> WellFormed(c.publication))
    && forall i, j :: 0 <= i < j < |checks| ==> Apart(checks[i].publication, checks[j].publication)
  }

  lemma SoundPrefix(checks: seq<Check>, n: nat)
    requires Sound(checks) && n <= |checks|
    ensures Sound(checks[..n])
  {}

  lemma CheckKeepsOthers(points: Points, checks: seq<Check>, i: nat, j: nat, model: string, repair: bool)
    requires Sound(checks) && i < |checks| && j < |checks| && i != j && Healthy(points, checks[i].publication)
    ensures Healthy(VerifyOne(points, checks[j], model, repair).1, checks[i].publication)
  {
    var p, q := checks[j].publication, checks[i].publication;
    VerifyKeeps(points, p, model, repair, checks[j].fault);
    assert Apart(p, q) by { assert if i < j then Apart(q, p) else Apart(p, q); }
    OthersStayHealthy(points, VerifyIndex(points, p, model, repair, checks[j].fault).1, p, q);
  }

  // Whatever fails: a publication that was healthy, or was found or made healthy, is healthy after the pass.
  lemma {:induction false} PassKeepsHealth(points: Points, checks: seq<Check>, model: string, repair: bool, i: nat)
    requires Sound(checks) && i < |checks|
    ensures |Pass(points, checks, model, repair).0| == |checks|
    ensures var r := Pass(points, checks, model, repair);
            (Healthy(points, checks[i].publication) || r.0[i].InOrder? || r.0[i].Repaired?)
            ==> Healthy(r.1, checks[i].publication)
    decreases |checks|
  {
    var n := |checks| - 1;
    var init := checks[..n];
    SoundPrefix(checks, n);
    var before := Pass(points, init, model, repair);
    PassLength(points, init, model, repair);
    if i < n {
      PassKeepsHealth(points, init, model, repair, i);
      if Healthy(before.1, checks[i].publication) {
        CheckKeepsOthers(before.1, checks, i, n, model, repair);
      }
    } else if Healthy(points, checks[n].publication) {
      StaysHealthyBefore(points, checks, n, model, repair);
    }
  }

  lemma {:induction false} PassLength(points: Points, checks: seq<Check>, model: string, repair: bool)
    ensures |Pass(points, checks, model, repair).0| == |checks|
  {
    if checks != [] { PassLength(points, checks[..|checks| - 1], model, repair); }
  }

  // The checks before the last one leave its publication healthy.
  lemma {:induction false} StaysHealthyBefore(points: Points, checks: seq<Check>, n: nat, model: string, repair: bool)
    requires Sound(checks) && checks != [] && n < |checks| && Healthy(points, checks[|checks| - 1].publication)
    ensures Healthy(Pass(points, checks[..n], model, repair).1, checks[|checks| - 1].publication)
  {
    if n > 0 {
      StaysHealthyBefore(points, checks, n - 1, model, repair);
      assert checks[..n][..n - 1] == checks[..n - 1] && checks[..n][n - 1] == checks[n - 1];
      CheckKeepsOthers(Pass(points, checks[..n - 1], model, repair).1, checks, |checks| - 1, n - 1, model, repair);
    }
  }

  // Every file is in the Vault, every port answers, and the chunks are of the configured model.
  ghost predicate Smooth(checks: seq<Check>, model: string) {
    forall c :: c in checks ==> c.inVault && c.fault.NoFault? && OneGeneration(c.publication.chunks, model)
  }

  lemma {:induction false} SmoothFindings(points: Points, checks: seq<Check>, model: string, i: nat)
    requires Sound(checks) && Smooth(checks, model) && i < |checks|
    ensures var r := Pass(points, checks, model, true);
            |r.0| == |checks| && (r.0[i].InOrder? || r.0[i].Repaired?)
    decreases |checks|
  {
    var n := |checks| - 1;
    var init := checks[..n];
    SoundPrefix(checks, n);
    PassLength(points, init, model, true);
    assert forall c :: c in init ==> c in checks;
    if i < n {
      SmoothFindings(points, init, model, i);
    } else {
      assert checks[n] in checks;
      VerifyHeals(Pass(points, init, model, true).1, checks[n].publication, model);
    }
  }

  lemma {:induction false} AllHealthyIsQuiet(points: Points, checks: seq<Check>, model: string)
    requires Sound(checks) && Smooth(checks, model) && forall c :: c in checks ==> Healthy(points, c.publication)
    ensures var r := Pass(points, checks, model, true);
            r.1 == points && |r.0| == |checks| && forall i :: 0 <= i < |checks| ==> r.0[i] == InOrder
  {
    if checks != [] {
      var n := |checks| - 1;
      SoundPrefix(checks, n);
      assert forall c :: c in checks[..n] ==> c in checks;
      AllHealthyIsQuiet(points, checks[..n], model);
      assert checks[n] in checks;
    }
  }

  // One pass makes everything healthy. The next one finds nothing to do.
  lemma OnePassConverges(points: Points, checks: seq<Check>, model: string)
    requires Sound(checks) && Smooth(checks, model)
    ensures var first := Pass(points, checks, model, true);
            && (forall c :: c in checks ==> Healthy(first.1, c.publication))
            && var second := Pass(first.1, checks, model, true);
               second.1 == first.1 && |second.0| == |checks| && forall i :: 0 <= i < |checks| ==> second.0[i] == InOrder
  {
    var first := Pass(points, checks, model, true);
    forall c | c in checks ensures Healthy(first.1, c.publication) {
      var i :| 0 <= i < |checks| && checks[i] == c;
      SmoothFindings(points, checks, model, i);
      PassKeepsHealth(points, checks, model, true, i);
    }
    AllHealthyIsQuiet(first.1, checks, model);
  }

  // With repair switched off, a pass only looks.
  lemma {:induction false} LookingChangesNothing(points: Points, checks: seq<Check>, model: string)
    ensures Pass(points, checks, model, false).1 == points
  {
    if checks != [] { LookingChangesNothing(points, checks[..|checks| - 1], model); }
  }

  // ---- What each finding says ----

  // The ports that a repair needs, for a publication that can be indexed at all.
  ghost predicate Repairable(points: Points, p: Publication, model: string, fault: Fault) {
    && OneGeneration(p.chunks, model)
    && (fault.NoFault?
        || (fault.DeleteFails? && forall b :: b in Listed(points, p.generation, p.version) ==> b.id in Ids(p.chunks)))
  }

  // A missing or changed file blocks the publication, and so does an index that cannot be listed. What is in
  // order stays. What is not is reported, or repaired, if every port that the repair needs answers.
  lemma FindingTells(points: Points, c: Check, model: string, repair: bool)
    requires WellFormed(c.publication)
    ensures var r := VerifyOne(points, c, model, repair); var p := c.publication;
      && (r.0 == VaultFailed <==> !c.inVault)
      && (r.0 == ListFailed <==> c.inVault && c.fault.ListFails?)
      && (r.0 == InOrder <==> c.inVault && !c.fault.ListFails? && Healthy(points, p))
      && (r.0 == Drifted <==> c.inVault && !c.fault.ListFails? && !Healthy(points, p) && !repair)
      && (r.0 == Repaired <==> c.inVault && !c.fault.ListFails? && !Healthy(points, p) && repair
                               && Repairable(points, p, model, c.fault))
      && (r.0 != Repaired && r.0 != RepairFailed ==> r.1 == points)
      && (r.0 == Repaired ==> Healthy(r.1, p))
  {
    var p := c.publication;
    RepairHeals(points, p);
    if c.fault.DeleteFails? {
      assert Unexpected(points, p) == {} <==>
             forall b :: b in Listed(points, p.generation, p.version) ==> b.id in Ids(p.chunks) by {
        forall b | b in Listed(points, p.generation, p.version) && b.id !in Ids(p.chunks)
          ensures b.id in Unexpected(points, p)
        {
        }
      }
    }
  }

  // A publication whose file fails verification is reported as such, and the pass goes on as if it were not there.
  lemma {:induction false} MissingFileIsSkipped(points: Points, checks: seq<Check>, i: nat, model: string, repair: bool)
    requires i < |checks| && !checks[i].inVault
    ensures var all, others := Pass(points, checks, model, repair),
                               Pass(points, checks[..i] + checks[i + 1..], model, repair);
      && |all.0| == |checks| && |others.0| == |checks| - 1 && all.0[i] == VaultFailed
      && all.0 == others.0[..i] + [VaultFailed] + others.0[i..] && all.1 == others.1
    decreases |checks|
  {
    var n := |checks| - 1;
    var rest := checks[..i] + checks[i + 1..];
    PassLength(points, checks, model, repair);
    PassLength(points, rest, model, repair);
    if i == n {
      assert rest == checks[..n];
    } else {
      MissingFileIsSkipped(points, checks[..n], i, model, repair);
      assert rest[..|rest| - 1] == checks[..n][..i] + checks[..n][i + 1..];
      assert rest[|rest| - 1] == checks[n];
      PassLength(points, rest[..|rest| - 1], model, repair);
    }
  }
}
