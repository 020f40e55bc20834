/** The line parser that finds the sections and the claim markers of a curated body again. */
module Sections {
  import opened Prelude
  import opened Text
  import opened Curation

  datatype Section = Section(title: string, heading: string, lines: seq<string>)

  datatype ChunkError =
    | BadGeneration
    | ClaimsDiffer
    | MarkerMissing
    | NoClaimLines
    | LineTooLong
    | UnknownMarker
    | TimesDisjoint
    | ClaimUncovered

  // ---- Claim markers ----

  const MARKER_LENGTH := ID_LENGTH + 3

  predicate StartsWithMarker(s: string) {
    |s| >= MARKER_LENGTH && s[0] == '[' && s[1] == '^' && IsClaimId(s[2..2 + ID_LENGTH]) && s[MARKER_LENGTH - 1] == ']'
  }

  // findall: from left to right, without overlap.
  function Markers(s: string): seq<string> {
    if |s| < MARKER_LENGTH then []
    else if StartsWithMarker(s) then [s[2..2 + ID_LENGTH]] + Markers(s[MARKER_LENGTH..])
    else Markers(s[1..])
  }

  function AllMarkers(lines: seq<string>): seq<string> {
    if lines == [] then [] else AllMarkers(lines[..|lines| - 1]) + Markers(lines[|lines| - 1])
  }

  // dict.fromkeys: the first of equal ids stays.
  function Distinct(ids: seq<string>): seq<string> {
    if ids == [] then []
    else
      var rest, last := Distinct(ids[..|ids| - 1]), ids[|ids| - 1];
      if last in rest then rest else rest + [last]
  }

  function IdsIn(lines: seq<string>): seq<string> {
    Distinct(AllMarkers(lines))
  }

  method ClaimIds(lines: seq<string>) returns (ids: seq<string>)
    ensures ids == IdsIn(lines)
  {
    var ordered := [];
    for i := 0 to |lines|
      invariant ordered == AllMarkers(lines[..i])
    {
      assert lines[..i + 1][..i] == lines[..i];
      ordered := ordered + Markers(lines[i]);
    }
    assert lines[..|lines|] == lines;
    ids := Distinct(ordered);
  }

  lemma {:induction false} DistinctKeepsMembers(ids: seq<string>)
    ensures NoRepeats(Distinct(ids)) && forall id :: id in Distinct(ids) <==> id in ids
    ensures NoRepeats(ids) ==> Distinct(ids) == ids
  {
    if ids != [] {
      var init, last := ids[..|ids| - 1], ids[|ids| - 1];
      assert ids == init + [last];
      DistinctKeepsMembers(init);
      if NoRepeats(ids) {
        assert last !in init;
      }
    }
  }

  // ---- Sections ----

  function StartsWith(s: string, prefix: string): bool {
    prefix <= s
  }

  function Flush(title: string, heading: string, lines: seq<string>): seq<Section> {
    if lines == [] then [] else [Section(title, heading, lines)]
  }

  function Prepend(first: seq<Section>, rest: Result<seq<Section>, ChunkError>): Result<seq<Section>, ChunkError> {
    if rest.Err? then rest else Ok(first + rest.value)
  }

  // The sections of the remaining lines, given the headings and the claim lines so far.
  function Parse(raw: seq<string>, title: string, heading: string,
                 lines: seq<string>): Result<seq<Section>, ChunkError>
  {
    if raw == [] then Ok(Flush(title, heading, lines))
    else
      var line, rest := Strip(raw[0]), raw[1..];
      if StartsWith(line, "# ") then Parse(rest, Strip(line[2..]), heading, lines)
      else if StartsWith(line, "## ") then Prepend(Flush(title, heading, lines),
                                                   Parse(rest, title, Strip(line[3..]), []))
      else if StartsWith(line, "- ") then
        if Markers(line) == [] then Err(MarkerMissing) else Parse(rest, title, heading, lines + [line])
      else Parse(rest, title, heading, lines)
  }

  const DEFAULT_TITLE := "Curated knowledge"
  const DEFAULT_HEADING := "Knowledge"

  function SectionsOf(markdown: string): Result<seq<Section>, ChunkError> {
    var sections := Parse(SplitLines(markdown), DEFAULT_TITLE, DEFAULT_HEADING, []);
    if sections == Ok([]) then Err(NoClaimLines) else sections
  }

  method ClaimSections(markdown: string) returns (r: Result<seq<Section>, ChunkError>)
    ensures r == SectionsOf(markdown)
  {
    var raw := SplitLines(markdown);
    var title, heading := DEFAULT_TITLE, DEFAULT_HEADING;
    var sections: seq<Section> := [];
    var lines: seq<string> := [];
    assert raw[0..] == raw;
    assert forall found: seq<Section> :: [] + found == found;
    for i := 0 to |raw|
      invariant Prepend(sections, Parse(raw[i..], title, heading, lines)) == Parse(raw, DEFAULT_TITLE,
                DEFAULT_HEADING, [])
    {
      assert raw[i..][1..] == raw[i + 1..] && raw[i..][0] == raw[i];
      var line := Strip(raw[i]);
      if StartsWith(line, "# ") {
        title := Strip(line[2..]);
      } else if StartsWith(line, "## ") {
        PrependTwice(sections, Flush(title, heading, lines), Parse(raw[i + 1..], title, Strip(line[3..]), []));
        sections := sections + Flush(title, heading, lines);
        lines := [];
        heading := Strip(line[3..]);
      } else if StartsWith(line, "- ") {
        if Markers(line) == [] {
          return Err(MarkerMissing);
        }
        lines := lines + [line];
      }
    }
    sections := sections + Flush(title, heading, lines);
    if sections == [] {
      return Err(NoClaimLines);
    }
    return Ok(sections);
  }

  lemma PrependTwice(a: seq<Section>, b: seq<Section>, rest: Result<seq<Section>, ChunkError>)
    ensures Prepend(a, Prepend(b, rest)) == Prepend(a + b, rest)
  {
    if rest.Ok? {
      assert a + (b + rest.value) == a + b + rest.value;
    }
  }

  // A parsed heading is never empty, and every parsed line has a marker.
  ghost predicate Proper(sections: seq<Section>) {
    forall s :: s in sections ==>
      && s.title != [] && s.heading != [] && s.lines != []
      && forall l :: l in s.lines ==> Markers(l) != []
  }

  lemma {:induction false} ParsedIsProper(raw: seq<string>, title: string, heading: string, lines: seq<string>)
    requires title != [] && heading != [] && forall l :: l in lines ==> Markers(l) != []
    ensures Parse(raw, title, heading, lines).Ok? ==> Proper(Parse(raw, title, heading, lines).value)
  {
    if raw != [] {
      var line := Strip(raw[0]);
      StripTrims(raw[0]);
      if StartsWith(line, "# ") {
        RestIsNotEmpty(line, 2);
        ParsedIsProper(raw[1..], Strip(line[2..]), heading, lines);
      } else if StartsWith(line, "## ") {
        RestIsNotEmpty(line, 3);
        ParsedIsProper(raw[1..], title, Strip(line[3..]), []);
      } else if StartsWith(line, "- ") {
        if Markers(line) != [] {
          ParsedIsProper(raw[1..], title, heading, lines + [line]);
        }
      } else {
        ParsedIsProper(raw[1..], title, heading, lines);
      }
    }
  }

  lemma RestIsNotEmpty(line: string, n: nat)
    requires Trimmed(line) && 0 < n <= |line| && line[n - 1] == ' '
    ensures Strip(line[n..]) != []
  {
    assert n < |line|;
    KeepsLast(line[n..]);
  }

  lemma {:induction false} KeepsLast(s: string)
    requires s != [] && !IsSpace(s[|s| - 1])
    ensures Strip(s) != []
  {
    if IsSpace(s[0]) {
      KeepsLast(s[1..]);
    }
  }
}
