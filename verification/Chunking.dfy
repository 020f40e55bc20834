/** Chunking a curated body: every chunk is one batch of one section, with the claims that it cites. */
module Chunking {
  import opened Prelude
  import opened Text
  import opened Curation
  import opened Sections
  import opened Batches
  import opened RoundTrip

  datatype Chunk = Chunk(claimIds: seq<string>, text: string, title: string, heading: string, ordinal: nat,
                         quality: nat,
                         sensitivity: nat, validFrom: Option<int>, validTo: Option<int>, freshAt: Option<int>)

  // ---- One chunk ----

  function Selected(ids: seq<string>, byId: map<string, Claim>): seq<Claim>
    requires forall id :: id in ids ==> id in byId
  {
    seq(|ids|, i requires 0 <= i < |ids| => byId[ids[i]])
  }

  function WorstQuality(claims: seq<Claim>): nat {
    if claims == [] then 0
    else
      var rest := WorstQuality(claims[1..]);
      if claims[0].quality >= rest then claims[0].quality else rest
  }

  function Strictest(claims: seq<Claim>): nat {
    if claims == [] then 0
    else
      var rest := Strictest(claims[1..]);
      if claims[0].sensitivity >= rest then claims[0].sensitivity else rest
  }

  function Later(a: Option<int>, b: Option<int>): Option<int> {
    if a.None? then b else if b.None? then a else if a.value >= b.value then a else b
  }

  function Earlier(a: Option<int>, b: Option<int>): Option<int> {
    if a.None? then b else if b.None? then a else if a.value <= b.value then a else b
  }

  function LastStart(claims: seq<Claim>): Option<int> {
    if claims == [] then None else Later(claims[0].validFrom, LastStart(claims[1..]))
  }

  function FirstEnd(claims: seq<Claim>): Option<int> {
    if claims == [] then None else Earlier(claims[0].validTo, FirstEnd(claims[1..]))
  }

  function Stalest(claims: seq<Claim>): Option<int> {
    if claims == [] then None else Earlier(claims[0].freshAt, Stalest(claims[1..]))
  }

  // The bounds that a chunk takes over from its claims.
  ghost predicate Bounds(c: Claim, quality: nat, sensitivity: nat, from: Option<int>, to: Option<int>,
                         freshAt: Option<int>)
  {
    && c.quality <= quality && c.sensitivity <= sensitivity
    && (c.validFrom.Some? ==> from.Some? && c.validFrom.value <= from.value)
    && (c.validTo.Some? ==> to.Some? && to.value <= c.validTo.value)
    && (c.freshAt.Some? ==> freshAt.Some? && freshAt.value <= c.freshAt.value)
  }

  lemma {:induction false} AggregatesBound(claims: seq<Claim>, c: Claim)
    requires c in claims
    ensures Bounds(c, WorstQuality(claims), Strictest(claims), LastStart(claims), FirstEnd(claims), Stalest(claims))
  {
    if c != claims[0] {
      assert c in claims[1..];
      AggregatesBound(claims[1..], c);
    }
  }

  predicate Overlapping(from: Option<int>, to: Option<int>) {
    from.None? || to.None? || from.value <= to.value
  }

  function ChunkOf(s: Section, batch: seq<string>, ordinal: nat, byId: map<string, Claim>): Result<Chunk, ChunkError> {
    var ids := IdsIn(batch);
    if ids == [] || !(SetOf(ids) <= byId.Keys) then Err(UnknownMarker)
    else
      var claims := Selected(ids, byId);
      var from, to := LastStart(claims), FirstEnd(claims);
      if !Overlapping(from, to) then Err(TimesDisjoint)
      else Ok(Chunk(ids, ChunkText(s.title, s.heading, batch), s.title, s.heading, ordinal, WorstQuality(claims),
                    Strictest(claims), from, to, Stalest(claims)))
  }

  // ---- All chunks ----

  function Extend(first: seq<Chunk>, rest: Result<seq<Chunk>, ChunkError>): Result<seq<Chunk>, ChunkError> {
    if rest.Err? then rest else Ok(first + rest.value)
  }

  function ChunkBatches(s: Section, batches: seq<seq<string>>, ordinal: nat,
                        byId: map<string, Claim>): Result<seq<Chunk>, ChunkError>
  {
    if batches == [] then Ok([])
    else
      var first := ChunkOf(s, batches[0], ordinal, byId);
      if first.Err? then Err(first.error) else Extend([first.value], ChunkBatches(s, batches[1..], ordinal + 1, byId))
  }

  function SectionChunks(c: Limits, s: Section, ordinal: nat,
                         byId: map<string, Claim>): Result<seq<Chunk>, ChunkError>
  {
    var batches := BatchesFrom(c, PrefixLength(s.title, s.heading), [], s.lines);
    if batches.Err? then Err(batches.error) else ChunkBatches(s, batches.value, ordinal, byId)
  }

  function ChunkSections(c: Limits, sections: seq<Section>, ordinal: nat,
                         byId: map<string, Claim>): Result<seq<Chunk>, ChunkError>
  {
    if sections == [] then Ok([])
    else
      var first := SectionChunks(c, sections[0], ordinal, byId);
      if first.Err? then first else Extend(first.value, ChunkSections(c, sections[1..], ordinal + |first.value|, byId))
  }

  ghost function Observed(chunks: seq<Chunk>): set<string> {
    set k, id | k in chunks && id in k.claimIds :: id
  }

  // The generation number and the embedding model are metadata, checked first.
  ghost function Chunked(c: Limits, body: string, artifactIds: seq<string>, claims: seq<Claim>, generation: int,
                         model: string): Result<seq<Chunk>, ChunkError>
  {
    if generation < 1 || Strip(model) == [] then Err(BadGeneration)
    else if SetOf(Ids(claims)) != SetOf(artifactIds) then Err(ClaimsDiffer)
    else
      var sections := SectionsOf(body);
      if sections.Err? then Err(sections.error)
      else
        var chunks := ChunkSections(c, sections.value, 0, ById(claims));
        if chunks.Ok? && Observed(chunks.value) != SetOf(artifactIds) then Err(ClaimUncovered) else chunks
  }

  lemma ExtendTwice(a: seq<Chunk>, b: seq<Chunk>, rest: Result<seq<Chunk>, ChunkError>)
    ensures Extend(a, Extend(b, rest)) == Extend(a + b, rest) && Extend([], rest) == rest
  {
    if rest.Ok? {
      assert a + (b + rest.value) == a + b + rest.value;
      assert [] + rest.value == rest.value;
    }
  }

  method AddBatches(s: Section, batches: seq<seq<string>>, earlier: seq<Chunk>, byId: map<string, Claim>)
    returns (r: Result<seq<Chunk>, ChunkError>)
    ensures r == Extend(earlier, ChunkBatches(s, batches, |earlier|, byId))
  {
    var chunks := earlier;
    assert batches[0..] == batches;
    for i := 0 to |batches|
      invariant Extend(chunks, ChunkBatches(s, batches[i..], |chunks|, byId)) == Extend(earlier,
                ChunkBatches(s, batches, |earlier|, byId))
    {
      assert batches[i..][0] == batches[i] && batches[i..][1..] == batches[i + 1..];
      var chunk := ChunkOf(s, batches[i], |chunks|, byId);
      if chunk.Err? {
        return Err(chunk.error);
      }
      ExtendTwice(chunks, [chunk.value], ChunkBatches(s, batches[i + 1..], |chunks| + 1, byId));
      chunks := chunks + [chunk.value];
    }
    assert chunks + [] == chunks;
    return Ok(chunks);
  }

  method AddSection(c: Limits, s: Section, earlier: seq<Chunk>, byId: map<string, Claim>)
    returns (r: Result<seq<Chunk>, ChunkError>)
    ensures r == Extend(earlier, SectionChunks(c, s, |earlier|, byId))
  {
    var batches := BatchLines(c, PrefixLength(s.title, s.heading), s.lines);
    if batches.Err? {
      return Err(batches.error);
    }
    r := AddBatches(s, batches.value, earlier, byId);
  }

  lemma SectionTurn(c: Limits, chunks: seq<Chunk>, sections: seq<Section>, byId: map<string, Claim>)
    requires sections != []
    ensures var first := SectionChunks(c, sections[0], |chunks|, byId);
      Extend(chunks, ChunkSections(c, sections, |chunks|, byId))
      == if first.Err? then first
         else Extend(chunks + first.value, ChunkSections(c, sections[1..], |chunks| + |first.value|, byId))
  {
    var first := SectionChunks(c, sections[0], |chunks|, byId);
    if first.Ok? {
      ExtendTwice(chunks, first.value, ChunkSections(c, sections[1..], |chunks| + |first.value|, byId));
    }
  }

  method ChunkAll(c: Limits, sections: seq<Section>, byId: map<string, Claim>)
    returns (r: Result<seq<Chunk>, ChunkError>)
    ensures r == ChunkSections(c, sections, 0, byId)
  {
    var chunks: seq<Chunk> := [];
    ghost var whole := ChunkSections(c, sections, 0, byId);
    ExtendTwice([], [], whole);
    assert sections[0..] == sections;
    for i := 0 to |sections|
      invariant Extend(chunks, ChunkSections(c, sections[i..], |chunks|, byId)) == whole
    {
      assert sections[i..][1..] == sections[i + 1..];
      SectionTurn(c, chunks, sections[i..], byId);
      var more := AddSection(c, sections[i], chunks, byId);
      if more.Err? {
        return more;
      }
      chunks := more.value;
    }
    assert chunks + [] == chunks;
    return Ok(chunks);
  }

  method ChunkArtifact(c: Limits, body: string, artifactIds: seq<string>, claims: seq<Claim>, generation: int,
                       model: string)
    returns (r: Result<seq<Chunk>, ChunkError>)
    ensures r == Chunked(c, body, artifactIds, claims, generation, model)
  {
    if generation < 1 || Strip(model) == [] {
      return Err(BadGeneration);
    }
    if SetOf(Ids(claims)) != SetOf(artifactIds) {
      return Err(ClaimsDiffer);
    }
    var byId := ById(claims);
    var sections := ClaimSections(body);
    if sections.Err? {
      return Err(sections.error);
    }
    var found := ChunkAll(c, sections.value, byId);
    if found.Err? {
      return found;
    }
    var chunks := found.value;
    var observed := Observe(chunks);
    if observed != SetOf(artifactIds) {
      return Err(ClaimUncovered);
    }
    return Ok(chunks);
  }

  method Observe(chunks: seq<Chunk>) returns (ids: set<string>)
    ensures ids == Observed(chunks)
  {
    ids := {};
    for i := 0 to |chunks|
      invariant ids == Observed(chunks[..i])
    {
      assert chunks[..i + 1] == chunks[..i] + [chunks[i]];
      ids := ids + SetOf(chunks[i].claimIds);
    }
    assert chunks[..|chunks|] == chunks;
  }

  // ---- What a chunk promises ----

  ghost predicate Sound(k: Chunk, byId: map<string, Claim>, hardMax: nat) {
    && k.claimIds != [] && NoRepeats(k.claimIds) && |k.text| <= hardMax && Overlapping(k.validFrom, k.validTo)
    && forall id :: id in k.claimIds ==>
         id in byId && Bounds(byId[id], k.quality, k.sensitivity, k.validFrom, k.validTo, k.freshAt)
  }

  lemma ChunkIsSound(c: Limits, s: Section, batch: seq<string>, ordinal: nat, byId: map<string, Claim>)
    requires ChunkOf(s, batch, ordinal, byId).Ok? && |ChunkText(s.title, s.heading, batch)| <= c.hardMax
    ensures Sound(ChunkOf(s, batch, ordinal, byId).value, byId, c.hardMax)
  {
    var ids := IdsIn(batch);
    DistinctKeepsMembers(AllMarkers(batch));
    var claims := Selected(ids, byId);
    forall id | id in ids ensures Bounds(byId[id], WorstQuality(claims), Strictest(claims), LastStart(claims),
                                         FirstEnd(claims), Stalest(claims)) {
      var i :| 0 <= i < |ids| && ids[i] == id;
      assert claims[i] == byId[id];
      AggregatesBound(claims, byId[id]);
    }
  }

  ghost predicate AllSound(chunks: seq<Chunk>, byId: map<string, Claim>, hardMax: nat, ordinal: nat) {
    forall i :: 0 <= i < |chunks| ==> Sound(chunks[i], byId, hardMax) && chunks[i].ordinal == ordinal + i
  }

  lemma {:induction false} BatchChunksAreSound(c: Limits, s: Section, batches: seq<seq<string>>, ordinal: nat,
                                               byId: map<string, Claim>)
    requires ChunkBatches(s, batches, ordinal, byId).Ok?
    requires forall b :: b in batches ==> |ChunkText(s.title, s.heading, b)| <= c.hardMax
    ensures AllSound(ChunkBatches(s, batches, ordinal, byId).value, byId, c.hardMax, ordinal)
  {
    if batches != [] {
      ChunkIsSound(c, s, batches[0], ordinal, byId);
      BatchChunksAreSound(c, s, batches[1..], ordinal + 1, byId);
    }
  }

  lemma {:induction false} SectionChunksAreSound(c: Limits, sections: seq<Section>, ordinal: nat,
                                                 byId: map<string, Claim>)
    requires ValidLimits(c) && ChunkSections(c, sections, ordinal, byId).Ok?
    ensures AllSound(ChunkSections(c, sections, ordinal, byId).value, byId, c.hardMax, ordinal)
    decreases |sections|
  {
    if sections != [] {
      OneSectionIsSound(c, sections[0], ordinal, byId);
      SectionChunksAreSound(c, sections[1..], ordinal + |SectionChunks(c, sections[0], ordinal, byId).value|, byId);
    }
  }

  lemma OneSectionIsSound(c: Limits, s: Section, ordinal: nat, byId: map<string, Claim>)
    requires ValidLimits(c) && SectionChunks(c, s, ordinal, byId).Ok?
    ensures AllSound(SectionChunks(c, s, ordinal, byId).value, byId, c.hardMax, ordinal)
  {
    var batches := BatchesFrom(c, PrefixLength(s.title, s.heading), [], s.lines).value;
    forall b | b in batches ensures |ChunkText(s.title, s.heading, b)| <= c.hardMax {
      ChunkTextsAreBounded(c, s.title, s.heading, s.lines, b);
    }
    BatchChunksAreSound(c, s, batches, ordinal, byId);
  }

  // Whatever the body and the claims: no chunk is too long, too permissive or too fresh.
  lemma ChunksAreSound(c: Limits, body: string, artifactIds: seq<string>, claims: seq<Claim>, generation: int,
                       model: string)
    requires ValidLimits(c) && Chunked(c, body, artifactIds, claims, generation, model).Ok?
    ensures AllSound(Chunked(c, body, artifactIds, claims, generation, model).value, ById(claims), c.hardMax, 0)
    ensures Observed(Chunked(c, body, artifactIds, claims, generation, model).value) == SetOf(artifactIds)
  {
    SectionChunksAreSound(c, SectionsOf(body).value, 0, ById(claims));
  }

  // ---- The chunks of a rendered artifact ----

  ghost function MarkersOf(lines: set<string>): set<string> {
    set l, id | l in lines && id in Markers(l) :: id
  }

  ghost function SectionLines(sections: seq<Section>): set<string> {
    set s, l | s in sections && l in s.lines :: l
  }

  lemma {:induction false} AllMarkersMembers(lines: seq<string>)
    ensures SetOf(AllMarkers(lines)) == MarkersOf(Members(lines))
  {
    if lines != [] {
      var init, last := lines[..|lines| - 1], lines[|lines| - 1];
      AllMarkersMembers(init);
      assert Members(lines) == Members(init) + {last};
      forall id | id in AllMarkers(lines) ensures id in MarkersOf(Members(lines)) {
        if id in AllMarkers(init) { assert id in SetOf(AllMarkers(init)); }
      }
      forall id | id in MarkersOf(Members(lines)) ensures id in AllMarkers(lines) {
        if id !in Markers(last) { assert id in MarkersOf(Members(init)); assert id in SetOf(AllMarkers(init)); }
      }
    }
  }

  // These chunks cite exactly these claims, or a size or a validity window stood in the way.
  ghost predicate Citing(r: Result<seq<Chunk>, ChunkError>, ids: set<string>) {
    if r.Ok? then Observed(r.value) == ids else r.error == TimesDisjoint || r.error == LineTooLong
  }

  lemma CitingMore(first: Result<seq<Chunk>, ChunkError>, rest: Result<seq<Chunk>, ChunkError>, a: set<string>,
                   b: set<string>)
    requires first.Ok? && Citing(first, a) && Citing(rest, b)
    ensures Citing(Extend(first.value, rest), a + b)
  {
    if rest.Ok? { ObservedConcat(first.value, rest.value); }
  }

  // The only errors left to a chunk whose lines all have known markers.
  lemma KnownMarkersChunk(s: Section, batch: seq<string>, ordinal: nat, byId: map<string, Claim>)
    requires batch != [] && (forall l :: l in batch ==> Markers(l) != []) && MarkersOf(Members(batch)) <= byId.Keys
    ensures var r := ChunkOf(s, batch, ordinal, byId);
            if r.Ok? then SetOf(r.value.claimIds) == MarkersOf(Members(batch)) else r.error == TimesDisjoint
  {
    AllMarkersMembers(batch);
    DistinctKeepsMembers(AllMarkers(batch));
    assert SetOf(IdsIn(batch)) == MarkersOf(Members(batch));
    assert batch[0] in Members(batch) && Markers(batch[0])[0] in Markers(batch[0]);
    assert Markers(batch[0])[0] in SetOf(IdsIn(batch));
  }

  lemma {:induction false} KnownMarkersBatches(s: Section, batches: seq<seq<string>>, ordinal: nat,
                                               byId: map<string, Claim>)
    requires forall b :: b in batches ==> b != []
    requires (forall l :: l in LinesOf(batches) ==> Markers(l) != []) && MarkersOf(LinesOf(batches)) <= byId.Keys
    ensures Citing(ChunkBatches(s, batches, ordinal, byId), MarkersOf(LinesOf(batches)))
  {
    if batches == [] {
      assert Observed([]) == MarkersOf(LinesOf(batches));
    } else {
      var b, rest := batches[0], batches[1..];
      assert b in batches && forall o :: o in rest ==> o in batches;
      LinesOfSplit(batches);
      MarkersOfUnion(Members(b), LinesOf(rest));
      KnownMarkersChunk(s, b, ordinal, byId);
      KnownMarkersBatches(s, rest, ordinal + 1, byId);
      var first := ChunkOf(s, b, ordinal, byId);
      if first.Ok? {
        assert Observed([first.value]) == SetOf(first.value.claimIds);
        CitingMore(Ok([first.value]), ChunkBatches(s, rest, ordinal + 1, byId), MarkersOf(Members(b)),
                   MarkersOf(LinesOf(rest)));
      }
    }
  }

  lemma LinesOfSplit(batches: seq<seq<string>>)
    requires batches != []
    ensures LinesOf(batches) == Members(batches[0]) + LinesOf(batches[1..])
  {
    LinesOfConcat([batches[0]], batches[1..]);
    assert [batches[0]] + batches[1..] == batches && LinesOf([batches[0]]) == Members(batches[0]);
  }

  lemma MarkersOfUnion(a: set<string>, b: set<string>)
    ensures MarkersOf(a + b) == MarkersOf(a) + MarkersOf(b)
  {}

  lemma ObservedConcat(a: seq<Chunk>, b: seq<Chunk>)
    ensures Observed(a + b) == Observed(a) + Observed(b)
  {}

  lemma KnownMarkersSection(c: Limits, s: Section, ordinal: nat, byId: map<string, Claim>)
    requires ValidLimits(c) && (forall l :: l in s.lines ==> Markers(l) != [])
             && MarkersOf(Members(s.lines)) <= byId.Keys
    ensures Citing(SectionChunks(c, s, ordinal, byId), MarkersOf(Members(s.lines)))
  {
    var prefix := PrefixLength(s.title, s.heading);
    var batches := BatchesFrom(c, prefix, [], s.lines);
    if batches.Ok? {
      BatchesFit(c, prefix, [], s.lines);
      BatchesKeepLines(c, prefix, [], s.lines);
      assert LinesOf(batches.value) == Members(s.lines);
      KnownMarkersBatches(s, batches.value, ordinal, byId);
    } else {
      OnlyTooLong(c, prefix, [], s.lines);
    }
  }

  lemma {:induction false} OnlyTooLong(c: Limits, prefix: nat, current: seq<string>, lines: seq<string>)
    requires BatchesFrom(c, prefix, current, lines).Err?
    ensures BatchesFrom(c, prefix, current, lines) == Err(LineTooLong)
    decreases |lines|
  {
    if TakeLine(c, prefix, current, lines[0]).Step? {
      OnlyTooLong(c, prefix, TakeLine(c, prefix, current, lines[0]).current, lines[1..]);
    }
  }

  lemma {:induction false} KnownMarkersSections(c: Limits, sections: seq<Section>, ordinal: nat,
                                                byId: map<string, Claim>)
    requires ValidLimits(c) && (forall l :: l in SectionLines(sections) ==> Markers(l) != [])
             && MarkersOf(SectionLines(sections)) <= byId.Keys
    ensures Citing(ChunkSections(c, sections, ordinal, byId), MarkersOf(SectionLines(sections)))
    decreases |sections|
  {
    if sections == [] {
      assert Observed([]) == MarkersOf(SectionLines(sections));
    } else {
      var s, rest := sections[0], sections[1..];
      SectionLinesSplit(sections);
      MarkersOfUnion(Members(s.lines), SectionLines(rest));
      KnownMarkersSection(c, s, ordinal, byId);
      var first := SectionChunks(c, s, ordinal, byId);
      if first.Ok? {
        KnownMarkersSections(c, rest, ordinal + |first.value|, byId);
        CitingMore(first, ChunkSections(c, rest, ordinal + |first.value|, byId), MarkersOf(Members(s.lines)),
                   MarkersOf(SectionLines(rest)));
      }
    }
  }

  lemma {:induction false} ExpectedLines(title: string, groups: seq<Group>, byId: map<string, Claim>)
    requires Knows(byId, groups) && ProperIds(byId)
    ensures forall l :: l in SectionLines(Expected(title, groups, byId)) ==> Markers(l) != []
    ensures MarkersOf(SectionLines(Expected(title, groups, byId))) == SetOf(PlannedIds(groups))
  {
    if groups == [] {
      assert SectionLines(Expected(title, groups, byId)) == {};
    } else {
      var g, rest := groups[0], groups[1..];
      assert g in groups;
      var lines := ClaimLines(g.claimIds, byId);
      ClaimLinesAreShaped(g.claimIds, byId);
      AllMarkersOfClaims(g.claimIds, byId);
      AllMarkersMembers(lines);
      ExpectedLines(title, rest, byId);
      var section := Section(title, g.heading, lines);
      var sections := Expected(title, groups, byId);
      assert sections[0] == section && sections[1..] == Expected(title, rest, byId);
      SectionLinesSplit(sections);
      MarkersOfUnion(Members(lines), SectionLines(sections[1..]));
      assert SetOf(PlannedIds(groups)) == SetOf(g.claimIds) + SetOf(PlannedIds(rest));
    }
  }

  lemma SectionLinesSplit(sections: seq<Section>)
    requires sections != []
    ensures SectionLines(sections) == Members(sections[0].lines) + SectionLines(sections[1..])
  {}

  // What the parser hands to the chunker: lines with known markers, of all claims of the plan.
  lemma RenderedSections(plan: Plan, claims: seq<Claim>)
    requires WellTyped(plan, claims) && Validate(plan, claims).None?
    ensures Knows(ById(claims), plan.groups) && Knows(ById(claims), Shown(plan).groups)
            && SetOf(Ids(claims)) == SetOf(PlannedIds(plan.groups)) == ById(claims).Keys
    ensures var sections := Expected(Shown(plan).title, Shown(plan).groups, ById(claims));
            SectionsOf(Body(plan, ById(claims))) == Ok(sections)
            && (forall l :: l in SectionLines(sections) ==> Markers(l) != [])
            && MarkersOf(SectionLines(sections)) == ById(claims).Keys
  {
    BodyParses(plan, claims);
    PlanIsProper(plan, claims);
    ExpectedLines(Shown(plan).title, Shown(plan).groups, ById(claims));
  }

  lemma ChunkedIsChunks(c: Limits, plan: Plan, claims: seq<Claim>, generation: int, model: string)
    requires WellTyped(plan, claims) && Validate(plan, claims).None?
    requires generation >= 1 && Strip(model) != []
    ensures Knows(ById(claims), plan.groups) && Knows(ById(claims), Shown(plan).groups)
    ensures var sections := Expected(Shown(plan).title, Shown(plan).groups, ById(claims));
            var chunks := ChunkSections(c, sections, 0, ById(claims));
            Citing(chunks, ById(claims).Keys) ==>
              Chunked(c, Body(plan, ById(claims)), PlannedIds(plan.groups), claims, generation, model) == chunks
  {
    RenderedSections(plan, claims);
  }

  // Chunking what was rendered can fail only on the size of a line or on disjoint validity windows.
  // Otherwise the chunks cite exactly the claims of the plan, whatever its title and its headings show.
  lemma RenderedBodiesChunk(c: Limits, plan: Plan, claims: seq<Claim>, generation: int, model: string)
    requires ValidLimits(c) && WellTyped(plan, claims) && Validate(plan, claims).None?
    requires generation >= 1 && Strip(model) != []
    ensures Knows(ById(claims), plan.groups)
    ensures Citing(Chunked(c, Body(plan, ById(claims)), PlannedIds(plan.groups), claims, generation, model),
                   SetOf(PlannedIds(plan.groups)))
  {
    RenderedSections(plan, claims);
    KnownMarkersSections(c, Expected(Shown(plan).title, Shown(plan).groups, ById(claims)), 0, ById(claims));
    ChunkedIsChunks(c, plan, claims, generation, model);
  }

  // ---- When chunking succeeds ----

  // All claims are valid at one common time.
  ghost predicate AliveAt(byId: map<string, Claim>, t: int) {
    forall id :: id in byId ==> (byId[id].validFrom.Some? ==> byId[id].validFrom.value <= t)
                                && (byId[id].validTo.Some? ==> t <= byId[id].validTo.value)
  }

  lemma {:induction false} AliveTogether(claims: seq<Claim>, t: int)
    requires forall c :: c in claims ==> (c.validFrom.Some? ==> c.validFrom.value <= t)
                                         && (c.validTo.Some? ==> t <= c.validTo.value)
    ensures LastStart(claims).Some? ==> LastStart(claims).value <= t
    ensures FirstEnd(claims).Some? ==> t <= FirstEnd(claims).value
  {
    if claims != [] {
      AliveTogether(claims[1..], t);
    }
  }

  lemma AliveChunk(s: Section, batch: seq<string>, ordinal: nat, byId: map<string, Claim>, t: int)
    requires AliveAt(byId, t)
    ensures ChunkOf(s, batch, ordinal, byId) != Err(TimesDisjoint)
  {
    var ids := IdsIn(batch);
    if SetOf(ids) <= byId.Keys {
      AliveTogether(Selected(ids, byId), t);
    }
  }

  lemma {:induction false} AliveBatches(s: Section, batches: seq<seq<string>>, ordinal: nat, byId: map<string, Claim>,
                                        t: int)
    requires AliveAt(byId, t)
    ensures ChunkBatches(s, batches, ordinal, byId) != Err(TimesDisjoint)
  {
    if batches != [] {
      AliveChunk(s, batches[0], ordinal, byId, t);
      AliveBatches(s, batches[1..], ordinal + 1, byId, t);
    }
  }

  ghost predicate SectionsFit(c: Limits, sections: seq<Section>) {
    forall s :: s in sections ==> AllFit(c, PrefixLength(s.title, s.heading), None, s.lines)
  }

  lemma {:induction false} FittingSections(c: Limits, sections: seq<Section>, ordinal: nat, byId: map<string, Claim>,
                                           t: int)
    requires ValidLimits(c) && AliveAt(byId, t) && SectionsFit(c, sections)
    requires (forall l :: l in SectionLines(sections) ==> Markers(l) != [])
             && MarkersOf(SectionLines(sections)) <= byId.Keys
    ensures ChunkSections(c, sections, ordinal, byId).Ok?
    decreases |sections|
  {
    if sections != [] {
      var s, rest := sections[0], sections[1..];
      assert s in sections && forall o :: o in rest ==> o in sections;
      SectionLinesSplit(sections);
      MarkersOfUnion(Members(s.lines), SectionLines(rest));
      KnownMarkersSection(c, s, ordinal, byId);
      FittingSection(c, s, ordinal, byId, t);
      FittingSections(c, rest, ordinal + |SectionChunks(c, s, ordinal, byId).value|, byId, t);
    }
  }

  lemma FittingSection(c: Limits, s: Section, ordinal: nat, byId: map<string, Claim>, t: int)
    requires ValidLimits(c) && AliveAt(byId, t) && AllFit(c, PrefixLength(s.title, s.heading), None, s.lines)
    requires Citing(SectionChunks(c, s, ordinal, byId), MarkersOf(Members(s.lines)))
    ensures SectionChunks(c, s, ordinal, byId).Ok?
  {
    var prefix := PrefixLength(s.title, s.heading);
    BatchingSucceedsIff(c, prefix, [], s.lines);
    var batches := BatchesFrom(c, prefix, [], s.lines).value;
    AliveBatches(s, batches, ordinal, byId, t);
    NeverTooLong(s, batches, ordinal, byId);
  }

  lemma {:induction false} NeverTooLong(s: Section, batches: seq<seq<string>>, ordinal: nat, byId: map<string, Claim>)
    ensures ChunkBatches(s, batches, ordinal, byId) != Err(LineTooLong)
  {
    if batches != [] {
      NeverTooLong(s, batches[1..], ordinal + 1, byId);
    }
  }

  // Rendered lines that fit, of claims that are valid together, always chunk, and nothing is left out.
  lemma FittingBodiesChunk(c: Limits, plan: Plan, claims: seq<Claim>, generation: int, model: string, t: int)
    requires ValidLimits(c) && WellTyped(plan, claims) && Validate(plan, claims).None?
    requires generation >= 1 && Strip(model) != [] && AliveAt(ById(claims), t)
    requires Knows(ById(claims), Shown(plan).groups)
    requires SectionsFit(c, Expected(Shown(plan).title, Shown(plan).groups, ById(claims)))
    ensures Knows(ById(claims), plan.groups)
    ensures var r := Chunked(c, Body(plan, ById(claims)), PlannedIds(plan.groups), claims, generation, model);
            r.Ok? && Observed(r.value) == SetOf(PlannedIds(plan.groups))
  {
    RenderedSections(plan, claims);
    var sections := Expected(Shown(plan).title, Shown(plan).groups, ById(claims));
    FittingSections(c, sections, 0, ById(claims), t);
    KnownMarkersSections(c, sections, 0, ById(claims));
    ChunkedIsChunks(c, plan, claims, generation, model);
  }
}
