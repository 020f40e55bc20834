/** What the chunks of an accepted artifact show, read back from their texts. */
module ChunkLaws {
  import opened Prelude
  import opened Text
  import opened Curation
  import opened Sections
  import opened Batches
  import opened BatchLaws
  import opened RoundTrip
  import opened CurationLaws
  import opened Chunking

  // ---- Parsed sections are made of lines ----

  lemma {:induction false} SplitGivesLines(s: string)
    ensures AllOneLine(SplitLines(s))
    decreases |s|
  {
    if s != [] {
      var n := FirstBreak(s);
      assert OneLine(s[..n]);
      if n < |s| {
        if s[n] == '\r' && n + 1 < |s| && s[n + 1] == '\n' {
          SplitGivesLines(s[n + 2..]);
        } else {
          SplitGivesLines(s[n + 1..]);
        }
      }
    }
  }

  // The title, the heading and every line of a section are one line each, and no line is empty.
  ghost predicate Lined(s: Section) {
    OneLine(s.title) && OneLine(s.heading) && s.lines != [] && forall l :: l in s.lines ==> OneLine(l) && l != []
  }

  ghost predicate AllLined(sections: seq<Section>) {
    forall s :: s in sections ==> Lined(s)
  }

  lemma PartOfLine(s: string, n: nat)
    requires OneLine(s) && n <= |Strip(s)|
    ensures OneLine(Strip(s)) && OneLine(Strip(Strip(s)[n..]))
  {
    StripTrims(s);
    StripTrims(Strip(s)[n..]);
  }

  lemma {:induction false} ParsedIsLined(raw: seq<string>, title: string, heading: string, lines: seq<string>)
    requires AllOneLine(raw) && OneLine(title) && OneLine(heading)
    requires forall l :: l in lines ==> OneLine(l) && l != []
    ensures Parse(raw, title, heading, lines).Ok? ==> AllLined(Parse(raw, title, heading, lines).value)
  {
    if raw != [] {
      var line := Strip(raw[0]);
      assert raw[0] in raw;
      PartOfLine(raw[0], 0);
      if StartsWith(line, "# ") {
        PartOfLine(raw[0], 2);
        ParsedIsLined(raw[1..], Strip(line[2..]), heading, lines);
      } else if StartsWith(line, "## ") {
        PartOfLine(raw[0], 3);
        ParsedIsLined(raw[1..], title, Strip(line[3..]), []);
      } else if StartsWith(line, "- ") {
        if Markers(line) != [] {
          ParsedIsLined(raw[1..], title, heading, lines + [line]);
        }
      } else {
        ParsedIsLined(raw[1..], title, heading, lines);
      }
    }
  }

  lemma SectionsAreLined(body: string)
    requires SectionsOf(body).Ok?
    ensures AllLined(SectionsOf(body).value)
  {
    SplitGivesLines(body);
    ParsedIsLined(SplitLines(body), DEFAULT_TITLE, DEFAULT_HEADING, []);
  }

  // ---- The text of a chunk ----

  // Joined lines come apart again, when the last one is not empty.
  lemma {:induction false} JoinedSplits(parts: seq<string>)
    requires parts != [] && AllOneLine(parts) && parts[|parts| - 1] != []
    ensures SplitLines(Join(parts)) == parts
  {
    if |parts| == 1 {
      assert parts[0] in parts;
    } else {
      JoinedSplits(parts[1..]);
      SplitFirstLine(parts[0], Join(parts[1..]));
    }
  }

  // Two heading lines, an empty line, and then these lines; the ids are those that the lines mark.
  ghost predicate Shows(k: Chunk, s: Section, lines: seq<string>) {
    && lines != [] && k.title == s.title && k.heading == s.heading
    && SplitLines(k.text) == ["# " + s.title, "## " + s.heading, ""] + lines
    && |k.text| == PrefixLength(s.title, s.heading) + Cost(lines) - 1
    && k.claimIds == IdsIn(lines)
  }

  lemma JoinMore(first: string, rest: seq<string>)
    requires rest != []
    ensures Join([first] + rest) == first + "\n" + Join(rest)
  {
    assert ([first] + rest)[1..] == rest;
  }

  // The parts that the text joins.
  lemma TextJoins(title: string, heading: string, batch: seq<string>)
    requires batch != []
    ensures ChunkText(title, heading, batch) == Join(["# " + title, "## " + heading, ""] + batch)
  {
    var top, below := "# " + title, "## " + heading;
    JoinMore("", batch);
    JoinMore(below, [""] + batch);
    JoinMore(top, [below] + ([""] + batch));
    assert [top, below, ""] + batch == [top] + ([below] + ([""] + batch));
    var text := Join(batch);
    assert top + "\n" + (below + "\n" + ("" + "\n" + text)) == top + "\n## " + heading + "\n\n" + text;
  }

  lemma TextShows(title: string, heading: string, batch: seq<string>)
    requires OneLine(title) && OneLine(heading) && batch != [] && forall l :: l in batch ==> OneLine(l) && l != []
    ensures SplitLines(ChunkText(title, heading, batch)) == ["# " + title, "## " + heading, ""] + batch
    ensures |ChunkText(title, heading, batch)| == PrefixLength(title, heading) + Cost(batch) - 1
  {
    var parts := ["# " + title, "## " + heading, ""] + batch;
    TextJoins(title, heading, batch);
    JoinLength(batch);
    assert parts[|parts| - 1] == batch[|batch| - 1] && batch[|batch| - 1] in batch;
    assert OneLine("# " + title) && OneLine("## " + heading);
    JoinedSplits(parts);
  }

  // The lines below the headings.
  function LinesBelow(k: Chunk): seq<string> {
    var lines := SplitLines(k.text);
    if |lines| < 3 then [] else lines[3..]
  }

  function AllLinesBelow(chunks: seq<Chunk>): seq<seq<string>> {
    seq(|chunks|, i requires 0 <= i < |chunks| => LinesBelow(chunks[i]))
  }

  lemma ChunkShows(s: Section, batch: seq<string>, ordinal: nat, byId: map<string, Claim>)
    requires Lined(s) && batch != [] && (forall l :: l in batch ==> l in s.lines)
    requires ChunkOf(s, batch, ordinal, byId).Ok?
    ensures Shows(ChunkOf(s, batch, ordinal, byId).value, s, batch)
    ensures LinesBelow(ChunkOf(s, batch, ordinal, byId).value) == batch
  {
    TextShows(s.title, s.heading, batch);
  }

  ghost predicate AllShow(chunks: seq<Chunk>, s: Section) {
    forall k :: k in chunks ==> Shows(k, s, LinesBelow(k))
  }

  lemma OneMoreShows(first: Chunk, rest: seq<Chunk>, s: Section)
    ensures AllLinesBelow([first] + rest) == [LinesBelow(first)] + AllLinesBelow(rest)
    ensures Shows(first, s, LinesBelow(first)) && AllShow(rest, s) ==> AllShow([first] + rest, s)
  {
  }

  lemma {:induction false} BatchChunksShow(s: Section, batches: seq<seq<string>>, ordinal: nat,
                                           byId: map<string, Claim>)
    requires Lined(s) && forall b :: b in batches ==> b != [] && forall l :: l in b ==> l in s.lines
    requires ChunkBatches(s, batches, ordinal, byId).Ok?
    ensures var chunks := ChunkBatches(s, batches, ordinal, byId).value;
      AllShow(chunks, s) && AllLinesBelow(chunks) == batches
  {
    hide Shows, LinesBelow;
    if batches != [] {
      assert batches[0] in batches && forall b :: b in batches[1..] ==> b in batches;
      ChunkShows(s, batches[0], ordinal, byId);
      BatchChunksShow(s, batches[1..], ordinal + 1, byId);
      var first, rest := ChunkOf(s, batches[0], ordinal, byId), ChunkBatches(s, batches[1..], ordinal + 1, byId);
      OneMoreShows(first.value, rest.value, s);
      assert [batches[0]] + batches[1..] == batches;
    }
  }

  // The lines below the headings of a section's chunks are the greedy batches of the lines of the section.
  ghost predicate Batched(c: Limits, s: Section, chunks: seq<Chunk>) {
    && AllShow(chunks, s)
    && exists counts :: Greedy(c, PrefixLength(s.title, s.heading), [], s.lines, AllLinesBelow(chunks), counts)
  }

  // The batches that the chunks of a section show.
  lemma SectionChunksShow(c: Limits, s: Section, ordinal: nat, byId: map<string, Claim>)
    requires ValidLimits(c) && Lined(s) && SectionChunks(c, s, ordinal, byId).Ok?
    ensures BatchesFrom(c, PrefixLength(s.title, s.heading), [], s.lines).Ok?
    ensures var chunks := SectionChunks(c, s, ordinal, byId).value;
      var batches := BatchesFrom(c, PrefixLength(s.title, s.heading), [], s.lines).value;
      AllShow(chunks, s) && AllLinesBelow(chunks) == batches && LinesOf(batches) == Members(s.lines)
  {
    var prefix := PrefixLength(s.title, s.heading);
    var batches := BatchesFrom(c, prefix, [], s.lines).value;
    BatchesFit(c, prefix, [], s.lines);
    BatchesKeepLines(c, prefix, [], s.lines);
    assert LinesOf(batches) == Members(s.lines);
    forall b, l | b in batches && l in b ensures l in s.lines {
      assert l in LinesOf(batches);
    }
    BatchChunksShow(s, batches, ordinal, byId);
  }

  lemma SectionChunksAreBatched(c: Limits, s: Section, ordinal: nat, byId: map<string, Claim>)
    requires ValidLimits(c) && Lined(s) && SectionChunks(c, s, ordinal, byId).Ok?
    ensures Batched(c, s, SectionChunks(c, s, ordinal, byId).value)
  {
    SectionChunksShow(c, s, ordinal, byId);
    var counts := BatchingIsGreedy(c, PrefixLength(s.title, s.heading), s.lines);
  }

  // ---- Section by section ----

  function Flat(parts: seq<seq<Chunk>>): seq<Chunk> {
    if parts == [] then [] else parts[0] + Flat(parts[1..])
  }

  lemma {:induction false} InFlat(parts: seq<seq<Chunk>>, i: nat, k: Chunk)
    requires i < |parts| && k in parts[i]
    ensures k in Flat(parts)
  {
    if i > 0 { InFlat(parts[1..], i - 1, k); }
  }

  // The chunks come section by section.
  lemma {:induction false} SectionParts(c: Limits, sections: seq<Section>, ordinal: nat, byId: map<string, Claim>)
    returns (parts: seq<seq<Chunk>>, ordinals: seq<nat>)
    requires ChunkSections(c, sections, ordinal, byId).Ok?
    ensures |parts| == |ordinals| == |sections| && Flat(parts) == ChunkSections(c, sections, ordinal, byId).value
    ensures forall i :: 0 <= i < |sections| ==> SectionChunks(c, sections[i], ordinals[i], byId) == Ok(parts[i])
    decreases |sections|
  {
    parts, ordinals := [], [];
    if sections != [] {
      var first := SectionChunks(c, sections[0], ordinal, byId).value;
      parts, ordinals := SectionParts(c, sections[1..], ordinal + |first|, byId);
      parts, ordinals := [first] + parts, [ordinal] + ordinals;
      assert Flat(parts) == first + Flat(parts[1..]);
    }
  }

  // Whatever the body: the texts of the chunks, read as lines, tell the parsed sections in order, under their
  // titles and headings, and every chunk cites exactly the claims that its lines mark.
  lemma ChunksTellTheBody(c: Limits, body: string, artifactIds: seq<string>, claims: seq<Claim>, generation: int,
                          model: string)
    returns (parts: seq<seq<Chunk>>)
    requires ValidLimits(c) && Chunked(c, body, artifactIds, claims, generation, model).Ok?
    ensures SectionsOf(body).Ok? && |parts| == |SectionsOf(body).value|
    ensures Flat(parts) == Chunked(c, body, artifactIds, claims, generation, model).value
    ensures forall i :: 0 <= i < |parts| ==> Batched(c, SectionsOf(body).value[i], parts[i])
  {
    var sections, ordinals := SectionsOf(body).value, [];
    SectionsAreLined(body);
    parts, ordinals := SectionParts(c, sections, 0, ById(claims));
    forall i | 0 <= i < |parts| ensures Batched(c, sections[i], parts[i]) {
      SectionChunksAreBatched(c, sections[i], ordinals[i], ById(claims));
    }
  }

  lemma SectionLineIsShown(c: Limits, s: Section, ordinal: nat, byId: map<string, Claim>, l: string)
    returns (k: Chunk)
    requires ValidLimits(c) && Lined(s) && SectionChunks(c, s, ordinal, byId).Ok? && l in s.lines
    ensures k in SectionChunks(c, s, ordinal, byId).value && l in LinesBelow(k)
    ensures k.title == s.title && k.heading == s.heading
  {
    SectionChunksShow(c, s, ordinal, byId);
    var chunks := SectionChunks(c, s, ordinal, byId).value;
    var batches := AllLinesBelow(chunks);
    assert l in LinesOf(batches);
    var b :| b in batches && l in b;
    var i :| 0 <= i < |chunks| && batches[i] == b;
    k := chunks[i];
  }

  // No claim line is left out: each one is below the title and the heading of its section in some chunk.
  lemma EveryLineIsShown(c: Limits, body: string, artifactIds: seq<string>, claims: seq<Claim>, generation: int,
                         model: string, i: nat, l: string)
    returns (k: Chunk)
    requires ValidLimits(c) && Chunked(c, body, artifactIds, claims, generation, model).Ok?
    requires i < |SectionsOf(body).value| && l in SectionsOf(body).value[i].lines
    ensures k in Chunked(c, body, artifactIds, claims, generation, model).value && l in LinesBelow(k)
    ensures k.title == SectionsOf(body).value[i].title && k.heading == SectionsOf(body).value[i].heading
  {
    var sections := SectionsOf(body).value;
    SectionsAreLined(body);
    var parts, ordinals := SectionParts(c, sections, 0, ById(claims));
    k := SectionLineIsShown(c, sections[i], ordinals[i], ById(claims), l);
    InFlat(parts, i, k);
  }

  // ---- The metadata is no stricter than the claims ask for ----

  // Every bound is that of one of the claims, or there is none.
  ghost predicate Attained(k: Chunk, byId: map<string, Claim>)
    requires forall id :: id in k.claimIds ==> id in byId
  {
    && (exists id :: id in k.claimIds && byId[id].quality == k.quality)
    && (exists id :: id in k.claimIds && byId[id].sensitivity == k.sensitivity)
    && (k.validFrom.Some? ==> exists id :: id in k.claimIds && byId[id].validFrom == k.validFrom)
    && (k.validTo.Some? ==> exists id :: id in k.claimIds && byId[id].validTo == k.validTo)
    && (k.freshAt.Some? ==> exists id :: id in k.claimIds && byId[id].freshAt == k.freshAt)
  }

  lemma {:induction false} WorstIsAttained(claims: seq<Claim>) returns (c: Claim)
    requires claims != []
    ensures c in claims && c.quality == WorstQuality(claims)
  {
    c := claims[0];
    if |claims| > 1 && claims[0].quality < WorstQuality(claims[1..]) {
      c := WorstIsAttained(claims[1..]);
    }
  }

  lemma {:induction false} StrictestIsAttained(claims: seq<Claim>) returns (c: Claim)
    requires claims != []
    ensures c in claims && c.sensitivity == Strictest(claims)
  {
    c := claims[0];
    if |claims| > 1 && claims[0].sensitivity < Strictest(claims[1..]) {
      c := StrictestIsAttained(claims[1..]);
    }
  }

  lemma {:induction false} TimesAttained(claims: seq<Claim>)
    ensures LastStart(claims).Some? ==> exists c :: c in claims && c.validFrom == LastStart(claims)
    ensures FirstEnd(claims).Some? ==> exists c :: c in claims && c.validTo == FirstEnd(claims)
    ensures Stalest(claims).Some? ==> exists c :: c in claims && c.freshAt == Stalest(claims)
  {
    if claims != [] {
      assert claims[0] in claims;
      TimesAttained(claims[1..]);
    }
  }

  lemma ChunkIsAttained(s: Section, batch: seq<string>, ordinal: nat, byId: map<string, Claim>)
    requires ChunkOf(s, batch, ordinal, byId).Ok?
    ensures var k := ChunkOf(s, batch, ordinal, byId).value;
      (forall id :: id in k.claimIds ==> id in byId) && Attained(k, byId)
  {
    var ids := IdsIn(batch);
    assert forall id :: id in ids ==> id in SetOf(ids);
    var claims := Selected(ids, byId);
    var worst := WorstIsAttained(claims);
    var strictest := StrictestIsAttained(claims);
    TimesAttained(claims);
    forall c | c in claims ensures exists id :: id in ids && byId[id] == c {
      var i :| 0 <= i < |claims| && claims[i] == c;
      assert ids[i] in ids;
    }
  }

  ghost predicate AllAttained(chunks: seq<Chunk>, byId: map<string, Claim>) {
    forall k :: k in chunks ==> (forall id :: id in k.claimIds ==> id in byId) && Attained(k, byId)
  }

  lemma {:induction false} BatchChunksAttained(s: Section, batches: seq<seq<string>>, ordinal: nat,
                                               byId: map<string, Claim>)
    requires ChunkBatches(s, batches, ordinal, byId).Ok?
    ensures AllAttained(ChunkBatches(s, batches, ordinal, byId).value, byId)
  {
    if batches != [] {
      ChunkIsAttained(s, batches[0], ordinal, byId);
      BatchChunksAttained(s, batches[1..], ordinal + 1, byId);
    }
  }

  lemma OneSectionAttained(c: Limits, s: Section, ordinal: nat, byId: map<string, Claim>)
    requires SectionChunks(c, s, ordinal, byId).Ok?
    ensures AllAttained(SectionChunks(c, s, ordinal, byId).value, byId)
  {
    var batches := BatchesFrom(c, PrefixLength(s.title, s.heading), [], s.lines).value;
    BatchChunksAttained(s, batches, ordinal, byId);
  }

  lemma MoreAttained(a: seq<Chunk>, b: seq<Chunk>, byId: map<string, Claim>)
    requires AllAttained(a, byId) && AllAttained(b, byId)
    ensures AllAttained(a + b, byId)
  {
  }

  lemma {:induction false} SectionChunksAttained(c: Limits, sections: seq<Section>, ordinal: nat,
                                                 byId: map<string, Claim>)
    requires ChunkSections(c, sections, ordinal, byId).Ok?
    ensures AllAttained(ChunkSections(c, sections, ordinal, byId).value, byId)
    decreases |sections|
  {
    hide Attained;
    if sections != [] {
      OneSectionAttained(c, sections[0], ordinal, byId);
      var first := SectionChunks(c, sections[0], ordinal, byId).value;
      SectionChunksAttained(c, sections[1..], ordinal + |first|, byId);
      MoreAttained(first, ChunkSections(c, sections[1..], ordinal + |first|, byId).value, byId);
    }
  }

  lemma MetadataIsAttained(c: Limits, body: string, artifactIds: seq<string>, claims: seq<Claim>, generation: int,
                           model: string)
    requires Chunked(c, body, artifactIds, claims, generation, model).Ok?
    ensures AllAttained(Chunked(c, body, artifactIds, claims, generation, model).value, ById(claims))
  {
    SectionChunksAttained(c, SectionsOf(body).value, 0, ById(claims));
  }

  // ---- Which ids a line marks ----

  // The id stands between a bracket with a caret and a closing bracket, somewhere in the line.
  ghost predicate MarkedAt(line: string, id: string, i: nat) {
    && i + MARKER_LENGTH <= |line| && IsClaimId(id)
    && line[i] == '[' && line[i + 1] == '^' && line[i + 2..i + 2 + ID_LENGTH] == id
    && line[i + MARKER_LENGTH - 1] == ']'
  }

  lemma {:induction false} MarkersAre(line: string, id: string)
    ensures id in Markers(line) <==> exists i: nat :: MarkedAt(line, id, i)
    decreases |line|
  {
    if |line| < MARKER_LENGTH {
    } else if StartsWithMarker(line) {
      MarkersAre(line[MARKER_LENGTH..], id);
      MarkedBehind(line, id);
    } else {
      MarkersAre(line[1..], id);
      MarkedLater(line, id, 1);
      if i: nat :| MarkedAt(line, id, i) {
        assert i > 0 && MarkedAt(line[1..], id, i - 1);
      }
      if i: nat :| MarkedAt(line[1..], id, i) {
        assert MarkedAt(line[1..], id, i + 1 - 1);
        assert MarkedAt(line, id, i + 1);
      }
    }
  }

  lemma MarkedLater(line: string, id: string, n: nat)
    requires n <= |line|
    ensures forall i: nat :: i >= n ==> (MarkedAt(line, id, i) <==> MarkedAt(line[n..], id, i - n))
  {
    forall i: nat | i >= n ensures MarkedAt(line, id, i) <==> MarkedAt(line[n..], id, i - n) {
      if i + MARKER_LENGTH <= |line| {
        assert line[n..][i - n + 2..i - n + 2 + ID_LENGTH] == line[i + 2..i + 2 + ID_LENGTH];
      }
    }
  }

  lemma NoBracketInside(line: string, i: nat)
    requires |line| >= MARKER_LENGTH && StartsWithMarker(line) && 0 < i < MARKER_LENGTH
    ensures line[i] != '['
  {
    var own := line[2..2 + ID_LENGTH];
    if 2 <= i < 2 + ID_LENGTH {
      assert line[i] == own[i - 2];
      if i < 8 { assert own[i - 2] == own[..6][i - 2]; }
    }
  }

  // No marker begins inside another one.
  lemma MarkedBehind(line: string, id: string)
    requires |line| >= MARKER_LENGTH && StartsWithMarker(line)
    ensures (exists i: nat :: MarkedAt(line, id, i)) <==>
              id == line[2..2 + ID_LENGTH] || exists i: nat :: MarkedAt(line[MARKER_LENGTH..], id, i)
  {
    var own := line[2..2 + ID_LENGTH];
    assert MarkedAt(line, own, 0);
    MarkedLater(line, id, MARKER_LENGTH);
    forall i: nat | 0 < i < MARKER_LENGTH ensures !MarkedAt(line, id, i) {
      NoBracketInside(line, i);
    }
    if j: nat :| MarkedAt(line[MARKER_LENGTH..], id, j) {
      assert MarkedAt(line[MARKER_LENGTH..], id, j + MARKER_LENGTH - MARKER_LENGTH);
      assert MarkedAt(line, id, j + MARKER_LENGTH);
    }
    if i: nat :| MarkedAt(line, id, i) && i >= MARKER_LENGTH {
      assert MarkedAt(line[MARKER_LENGTH..], id, i - MARKER_LENGTH);
    }
  }

  // The ids of a chunk are in the order in which its lines mark them first.
  lemma {:induction false} FirstOccurrences(ids: seq<string>, a: nat, b: nat) returns (p: nat)
    requires a < b < |Distinct(ids)|
    ensures p < |ids| && ids[p] == Distinct(ids)[a] && forall q :: 0 <= q <= p ==> ids[q] != Distinct(ids)[b]
  {
    var init, last := ids[..|ids| - 1], ids[|ids| - 1];
    if b < |Distinct(init)| {
      p := FirstOccurrences(init, a, b);
    } else {
      DistinctKeepsMembers(init);
      assert Distinct(ids)[a] in Distinct(init);
      p :| 0 <= p < |init| && init[p] == Distinct(ids)[a];
      assert forall q :: 0 <= q <= p ==> ids[q] in init;
    }
  }

  // ---- What is refused before any chunk is cut ----

  // The metadata comes first, then the claims of the artifact, then the markers of its items, then the items.
  lemma ChunkingRefuses(c: Limits, body: string, artifactIds: seq<string>, claims: seq<Claim>, generation: int,
                        model: string)
    ensures var r := Chunked(c, body, artifactIds, claims, generation, model);
      var raw := SplitLines(body);
      var known := forall id :: id in Ids(claims) <==> id in artifactIds;
      var marked := forall l :: l in raw && IsItem(l) ==> Markers(Strip(l)) != [];
      && (generation < 1 || Strip(model) == [] ==> r == Err(BadGeneration))
      && (generation >= 1 && Strip(model) != [] && !known ==> r == Err(ClaimsDiffer))
      && (generation >= 1 && Strip(model) != [] && known && !marked ==> r == Err(MarkerMissing))
      && (generation >= 1 && Strip(model) != [] && known && (forall l :: l in raw ==> !IsItem(l))
          ==> r == Err(NoClaimLines))
      && (r.Ok? ==> generation >= 1 && Strip(model) != [] && known && marked && exists l :: l in raw && IsItem(l))
  {
    var raw := SplitLines(body);
    assert SetOf(Ids(claims)) == SetOf(artifactIds) <==> forall id :: id in Ids(claims) <==> id in artifactIds by {
      assert forall id :: id in SetOf(Ids(claims)) <==> id in Ids(claims);
      assert forall id :: id in SetOf(artifactIds) <==> id in artifactIds;
    }
    ParsingFailsIff(raw, DEFAULT_TITLE, DEFAULT_HEADING, []);
    NothingIsFoundIff(raw, DEFAULT_TITLE, DEFAULT_HEADING, []);
  }
}
