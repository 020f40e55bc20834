/** Printing a plan and parsing the body again gives the sections and the claims of the plan. */
module RoundTrip {
  import opened Prelude
  import opened Text
  import opened Curation
  import opened Sections

  // ---- A claim line carries exactly its own marker ----

  function Marker(id: string): string {
    "[^" + id + "]"
  }

  lemma MarkerAlone(id: string)
    requires IsClaimId(id)
    ensures Markers(Marker(id)) == [id]
  {
    var m := Marker(id);
    assert m[2..2 + ID_LENGTH] == id;
    assert m[MARKER_LENGTH..] == [];
  }

  lemma {:induction false} OnlyTheLastMarker(text: string, id: string)
    requires NoMarkerStart(text) && IsClaimId(id)
    ensures Markers(text + Marker(id)) == [id]
  {
    var s := text + Marker(id);
    if text == [] {
      assert s == Marker(id);
      MarkerAlone(id);
    } else {
      NoMarkerBefore(text, id);
      assert s[1..] == text[1..] + Marker(id);
      OnlyTheLastMarker(text[1..], id);
    }
  }

  lemma MarkerHasUnderscore(s: string)
    ensures StartsWithMarker(s) ==> s[6] == 'm' && s[7] == '_'
  {
    if StartsWithMarker(s) {
      var id := s[2..2 + ID_LENGTH];
      assert id[..6][4] == 'm' && id[..6][5] == '_';
    }
  }

  // A marker has an underscore after an m, and no earlier place offers one.
  lemma NoMarkerBefore(text: string, id: string)
    requires text != [] && NoMarkerStart(text) && IsClaimId(id)
    ensures !StartsWithMarker(text + Marker(id))
  {
    var s, m := text + Marker(id), Marker(id);
    assert forall i :: 2 <= i < 7 ==> m[i] == id[..6][i - 2];
    assert forall i :: 0 <= i < 7 ==> m[i] != '_';
    if |text| <= 7 {
      assert s[7] == m[7 - |text|];
    } else {
      assert s[7] == text[7] && s[6] == text[6];
    }
    MarkerHasUnderscore(s);
  }

  ghost function BeforeMarker(c: Claim): string {
    "- " + Safe(c.subject) + " \U{2014} " + Safe(c.relation) + ": " + Safe(c.value) + " "
  }

  lemma ClaimLineParts(c: Claim)
    ensures ClaimLine(c) == BeforeMarker(c) + Marker(c.id)
  {
    assert " [^" == " " + "[^";
  }

  // Text that can stand inside a claim line.
  ghost predicate Inline(s: string) {
    Plain(s) && NoMarkerStart(s) && (s != [] ==> s[0] != '_')
  }

  lemma InlineConcat(a: string, b: string)
    requires Inline(a) && Inline(b)
    ensures Inline(a + b)
  {}

  lemma InlineSentence(subject: string, relation: string, value: string)
    requires Inline(subject) && Inline(relation) && Inline(value)
    ensures Inline("- " + subject + " \U{2014} " + relation + ": " + value + " ")
  {
    InlineConcat("- ", subject);
    InlineConcat("- " + subject, " \U{2014} ");
    InlineConcat("- " + subject + " \U{2014} ", relation);
    InlineConcat("- " + subject + " \U{2014} " + relation, ": ");
    InlineConcat("- " + subject + " \U{2014} " + relation + ": ", value);
    InlineConcat("- " + subject + " \U{2014} " + relation + ": " + value, " ");
  }

  lemma BeforeMarkerIsSafe(c: Claim)
    ensures NoMarkerStart(BeforeMarker(c)) && Plain(BeforeMarker(c))
  {
    SafeText(c.subject);
    SafeText(c.relation);
    SafeText(c.value);
    InlineSentence(Safe(c.subject), Safe(c.relation), Safe(c.value));
  }

  ghost predicate IsClaimLine(line: string, id: string) {
    OneLine(line) && Trimmed(line) && "- " <= line && line[|line| - 1] == ']' && Markers(line) == [id]
  }

  lemma MarkerIsSolid(id: string)
    requires IsClaimId(id)
    ensures forall x :: x in Marker(id) ==> !IsSpace(x)
  {
    forall x | x in Marker(id) ensures !IsSpace(x) {
      var i :| 0 <= i < |Marker(id)| && Marker(id)[i] == x;
      if 2 <= i < 8 { assert x == id[..6][i - 2]; }
    }
  }

  lemma ClaimLineShape(c: Claim)
    requires IsClaimId(c.id)
    ensures IsClaimLine(ClaimLine(c), c.id)
  {
    var line := ClaimLine(c);
    ClaimLineParts(c);
    BeforeMarkerIsSafe(c);
    OnlyTheLastMarker(BeforeMarker(c), c.id);
    MarkerIsSolid(c.id);
    assert line[0] == '-' && line[1] == ' ' && line[|line| - 1] == ']';
  }

  // ---- What shows in print ----

  // A text shows something when not all of it is white space or control characters.
  predicate Visible(s: string) {
    exists c :: c in s && !IsSpace(c) && !IsControl(c)
  }

  lemma SafeIffVisible(value: string)
    ensures Safe(value) != [] <==> Visible(value)
  {
    SafeText(value);
    var once := Collapse(value, Control);
    var twice := Collapse(once, White);
    CollapseKeeps(value, Control);
    CollapseKeeps(once, White);
    if Visible(value) {
      var c :| c in value && !IsSpace(c) && !IsControl(c);
      assert c in twice;
      StripKeeps(twice, c);
    } else {
      assert forall c :: c in once ==> IsSpace(c);
      assert forall c :: c in twice ==> IsSpace(c);
      StripAllSpace(twice);
    }
  }

  lemma {:induction false} StripAllSpace(s: string)
    requires forall c :: c in s ==> IsSpace(c)
    ensures Strip(s) == []
  {
    if s != [] { StripAllSpace(s[1..]); }
  }

  // Nothing outside the class is lost, and nothing but the space is new.
  lemma {:induction false} CollapseKeeps(s: string, kind: CharClass)
    ensures forall c :: c in s && !In(c, kind) ==> c in Collapse(s, kind)
    ensures forall c :: c in Collapse(s, kind) ==> c == ' ' || (c in s && !In(c, kind))
    decreases |s|
  {
    if s == [] {
    } else if In(s[0], kind) {
      SkipKeeps(s[1..], kind);
      CollapseKeeps(Skip(s[1..], kind), kind);
    } else {
      CollapseKeeps(s[1..], kind);
    }
  }

  lemma {:induction false} SkipKeeps(s: string, kind: CharClass)
    ensures forall c :: c in s && !In(c, kind) ==> c in Skip(s, kind)
    ensures forall c :: c in Skip(s, kind) ==> c in s
  {
    if s != [] && In(s[0], kind) { SkipKeeps(s[1..], kind); }
  }

  lemma StripKeeps(s: string, c: char)
    requires c in s && !IsSpace(c)
    ensures c in Strip(s)
  {
    LeftStripKeeps(s, c);
    RightStripKeeps(LeftStrip(s), c);
  }

  lemma {:induction false} LeftStripKeeps(s: string, c: char)
    requires c in s && !IsSpace(c)
    ensures c in LeftStrip(s)
  {
    if IsSpace(s[0]) { LeftStripKeeps(s[1..], c); }
  }

  lemma {:induction false} RightStripKeeps(s: string, c: char)
    requires c in s && !IsSpace(c)
    ensures c in RightStrip(s)
  {
    if IsSpace(s[|s| - 1]) {
      assert s == s[..|s| - 1] + [s[|s| - 1]];
      RightStripKeeps(s[..|s| - 1], c);
    }
  }

  // ---- Parsing what was printed ----

  lemma {:induction false} ParseClaimLines(ids: seq<string>, lines: seq<string>, rest: seq<string>, title: string,
                                           heading: string, earlier: seq<string>)
    requires |ids| == |lines| && forall i :: 0 <= i < |ids| ==> IsClaimLine(lines[i], ids[i])
    ensures Parse(lines + rest, title, heading, earlier) == Parse(rest, title, heading, earlier + lines)
  {
    if lines == [] {
      assert lines + rest == rest && earlier + lines == earlier;
    } else {
      assert (lines + rest)[1..] == lines[1..] + rest;
      ParseClaimLines(ids[1..], lines[1..], rest, title, heading, earlier + [lines[0]]);
      assert earlier + [lines[0]] + lines[1..] == earlier + lines;
      assert !("# " <= lines[0]) && !("## " <= lines[0]);
    }
  }

  // A heading with text starts a section; one without leaves no more than hash signs.
  lemma HeadingLine(h: string)
    requires Trimmed(h)
    ensures h != [] ==> Strip("## " + h) == "## " + h && Strip(("## " + h)[3..]) == h
    ensures h != [] ==> Strip("# " + h) == "# " + h && Strip(("# " + h)[2..]) == h
    ensures h == [] ==> Strip("## " + h) == "##" && Strip("# " + h) == "#"
  {
    if h == [] {
      assert "## " + h == "## " && "# " + h == "# ";
      assert RightStrip("## ") == "##" && RightStrip("# ") == "#";
    } else {
      assert ("## " + h)[3..] == h && ("# " + h)[2..] == h;
    }
  }

  lemma ParseTitle(t: string, rest: seq<string>, title: string, heading: string, earlier: seq<string>)
    requires Trimmed(t)
    ensures Parse(["# " + t] + rest, title, heading, earlier)
         == Parse(rest, if t == [] then title else t, heading, earlier)
  {
    HeadingLine(t);
    assert (["# " + t] + rest)[1..] == rest;
  }

  lemma ParseHeading(h: string, rest: seq<string>, title: string, heading: string, earlier: seq<string>)
    requires Trimmed(h)
    ensures Parse(["## " + h] + rest, title, heading, earlier)
         == if h == [] then Parse(rest, title, heading, earlier)
            else Prepend(Flush(title, heading, earlier), Parse(rest, title, h, []))
  {
    HeadingLine(h);
    assert (["## " + h] + rest)[1..] == rest;
    assert ("## " + h)[1] == '#' && "# "[1] == ' ';
    assert !("# " <= "## " + h);
  }

  lemma ParseBlank(rest: seq<string>, title: string, heading: string, earlier: seq<string>)
    ensures Parse([""] + rest, title, heading, earlier) == Parse(rest, title, heading, earlier)
  {
    assert ([""] + rest)[1..] == rest;
  }

  lemma ClaimLinesAreShaped(ids: seq<string>, byId: map<string, Claim>)
    requires ProperIds(byId) && forall id :: id in ids ==> id in byId
    ensures forall i :: 0 <= i < |ids| ==> IsClaimLine(ClaimLines(ids, byId)[i], ids[i])
  {
    forall i | 0 <= i < |ids| ensures IsClaimLine(ClaimLines(ids, byId)[i], ids[i]) {
      ClaimLineShape(byId[ids[i]]);
    }
  }

  lemma ParseGroupLines(h: string, ids: seq<string>, lines: seq<string>, rest: seq<string>, title: string,
                        heading: string, earlier: seq<string>)
    requires Trimmed(h) && |ids| == |lines| && forall i :: 0 <= i < |ids| ==> IsClaimLine(lines[i], ids[i])
    ensures Parse(["", "## " + h, ""] + lines + rest, title, heading, earlier)
         == if h == [] then Parse(rest, title, heading, earlier + lines)
            else Prepend(Flush(title, heading, earlier), Parse(rest, title, h, lines))
  {
    assert ["", "## " + h, ""] + lines + rest == [""] + (["## " + h] + ([""] + (lines + rest)));
    ParseBlank(["## " + h] + ([""] + (lines + rest)), title, heading, earlier);
    ParseHeading(h, [""] + (lines + rest), title, heading, earlier);
    var under, before := if h == [] then heading else h, if h == [] then earlier else [];
    ParseBlank(lines + rest, title, under, before);
    ParseClaimLines(ids, lines, rest, title, under, before);
    assert [] + lines == lines;
  }

  // A heading with text starts a new section. Below one without, the claims join the section under way.
  lemma ParseGroup(g: Group, byId: map<string, Claim>, rest: seq<string>, title: string, heading: string,
                   earlier: seq<string>)
    requires ProperIds(byId) && forall id :: id in g.claimIds ==> id in byId
    ensures var lines := ClaimLines(g.claimIds, byId);
      Parse(GroupLines(g, byId) + rest, title, heading, earlier)
      == if Safe(g.heading) == [] then Parse(rest, title, heading, earlier + lines)
         else Prepend(Flush(title, heading, earlier), Parse(rest, title, Safe(g.heading), lines))
  {
    ClaimLinesAreShaped(g.claimIds, byId);
    SafeText(g.heading);
    ParseGroupLines(Safe(g.heading), g.claimIds, ClaimLines(g.claimIds, byId), rest, title, heading, earlier);
  }

  // One section for each group.
  ghost function Expected(title: string, groups: seq<Group>, byId: map<string, Claim>): seq<Section>
    requires Knows(byId, groups)
  {
    if groups == [] then []
    else
      var g := groups[0];
      [Section(title, g.heading, ClaimLines(g.claimIds, byId))] + Expected(title, groups[1..], byId)
  }

  ghost predicate ProperHeadings(groups: seq<Group>) {
    forall g :: g in groups ==> Safe(g.heading) != []
  }

  ghost predicate ProperIds(byId: map<string, Claim>) {
    forall id :: id in byId ==> IsClaimId(id) && byId[id].id == id
  }

  // ---- The plan that the parser finds ----

  // The groups with their headings as they are printed.
  function Printed(groups: seq<Group>): seq<Group> {
    seq(|groups|, i requires 0 <= i < |groups| => groups[i].(heading := Safe(groups[i].heading)))
  }

  // A group without claims leaves no section.
  function Kept(g: Group): seq<Group> {
    if g.claimIds == [] then [] else [g]
  }

  // Every group without a heading joins the one before it.
  function Merge(under: Group, groups: seq<Group>): seq<Group>
    decreases |groups|
  {
    if groups == [] then Kept(under)
    else if groups[0].heading == [] then Merge(Group(under.heading, under.claimIds + groups[0].claimIds), groups[1..])
    else Kept(under) + Merge(groups[0], groups[1..])
  }

  // A title or a heading that prints as nothing is not seen: the title stays the default one, and the group
  // joins the one before it. The first group comes under the default heading.
  function Shown(plan: Plan): Plan {
    Plan(if Safe(plan.title) == [] then DEFAULT_TITLE else Safe(plan.title),
         Merge(Group(DEFAULT_HEADING, []), Printed(plan.groups)))
  }

  lemma PrintedSplit(groups: seq<Group>)
    requires groups != []
    ensures Printed(groups)[0] == groups[0].(heading := Safe(groups[0].heading))
    ensures Printed(groups)[1..] == Printed(groups[1..])
  {
  }

  // Merging moves no claim.
  lemma {:induction false} MergeKeepsClaims(under: Group, groups: seq<Group>)
    ensures PlannedIds(Merge(under, Printed(groups))) == under.claimIds + PlannedIds(groups)
    decreases |groups|
  {
    if groups != [] {
      PrintedSplit(groups);
      var g := Printed(groups)[0];
      if g.heading == [] {
        MergeKeepsClaims(Group(under.heading, under.claimIds + g.claimIds), groups[1..]);
      } else {
        MergeKeepsClaims(g, groups[1..]);
        PlannedKept(under, Merge(g, Printed(groups[1..])));
      }
    }
  }

  lemma PlannedKept(under: Group, rest: seq<Group>)
    ensures PlannedIds(Kept(under) + rest) == under.claimIds + PlannedIds(rest)
  {
    if under.claimIds == [] {
      assert Kept(under) + rest == rest;
    } else {
      assert (Kept(under) + rest)[1..] == rest;
    }
  }

  lemma {:induction false} MergeIsProper(under: Group, groups: seq<Group>)
    requires under.heading != []
    ensures forall g :: g in Merge(under, groups) ==> g.heading != [] && g.claimIds != []
    decreases |groups|
  {
    if groups != [] {
      if groups[0].heading == [] {
        MergeIsProper(Group(under.heading, under.claimIds + groups[0].claimIds), groups[1..]);
      } else {
        MergeIsProper(groups[0], groups[1..]);
      }
    }
  }

  lemma {:induction false} MergeNothing(under: Group, groups: seq<Group>)
    requires forall g :: g in groups ==> g.heading != [] && g.claimIds != []
    ensures Merge(under, groups) == Kept(under) + groups
    decreases |groups|
  {
    if groups != [] {
      MergeNothing(groups[0], groups[1..]);
      assert [groups[0]] + groups[1..] == groups;
    }
  }

  lemma {:induction false} MergeKnows(under: Group, groups: seq<Group>, byId: map<string, Claim>)
    requires Knows(byId, groups) && forall id :: id in under.claimIds ==> id in byId
    ensures Knows(byId, Merge(under, groups))
    decreases |groups|
  {
    if groups != [] {
      assert groups[0] in groups && Knows(byId, groups[1..]);
      if groups[0].heading == [] {
        MergeKnows(Group(under.heading, under.claimIds + groups[0].claimIds), groups[1..], byId);
      } else {
        MergeKnows(groups[0], groups[1..], byId);
      }
    }
  }

  lemma {:induction false} MergeStarts(under: Group, groups: seq<Group>)
    requires under.claimIds != []
    ensures var merged := Merge(under, groups);
      merged != [] && merged[0].heading == under.heading && under.claimIds <= merged[0].claimIds
    decreases |groups|
  {
    if groups != [] && groups[0].heading == [] {
      MergeStarts(Group(under.heading, under.claimIds + groups[0].claimIds), groups[1..]);
    }
  }

  // With nothing before it, a first group without a visible heading comes under the default one.
  lemma InvisibleFirstGroup(plan: Plan)
    requires plan.groups != [] && plan.groups[0].claimIds != [] && !Visible(plan.groups[0].heading)
    ensures Shown(plan).groups != [] && Shown(plan).groups[0].heading == DEFAULT_HEADING
    ensures plan.groups[0].claimIds <= Shown(plan).groups[0].claimIds
  {
    SafeIffVisible(plan.groups[0].heading);
    PrintedSplit(plan.groups);
    assert [] + plan.groups[0].claimIds == plan.groups[0].claimIds;
    MergeStarts(Group(DEFAULT_HEADING, plan.groups[0].claimIds), Printed(plan.groups)[1..]);
  }

  lemma PrintedKnows(groups: seq<Group>, byId: map<string, Claim>)
    requires Knows(byId, groups)
    ensures Knows(byId, Printed(groups))
  {
    forall g, id | g in Printed(groups) && id in g.claimIds ensures id in byId {
      var i :| 0 <= i < |groups| && Printed(groups)[i] == g;
      assert groups[i] in groups;
    }
  }

  lemma {:induction false} ParseGroups(under: Group, groups: seq<Group>, byId: map<string, Claim>, title: string)
    requires Knows(byId, groups) && ProperIds(byId) && forall id :: id in under.claimIds ==> id in byId
    ensures Knows(byId, Merge(under, Printed(groups)))
    ensures Parse(GroupParts(groups, byId), title, under.heading, ClaimLines(under.claimIds, byId))
         == Ok(Expected(title, Merge(under, Printed(groups)), byId))
    decreases |groups|
  {
    PrintedKnows(groups, byId);
    MergeKnows(under, Printed(groups), byId);
    if groups == [] {
      assert Printed(groups) == [];
      ExpectedKept(title, under, [], byId);
      assert Kept(under) + [] == Kept(under);
      var flushed := Flush(title, under.heading, ClaimLines(under.claimIds, byId));
      assert flushed + [] == flushed;
    } else {
      ParseFirstGroup(under, groups, byId, title);
      PrintedSplit(groups);
      var g, rest := Printed(groups)[0], groups[1..];
      if g.heading == [] {
        ParseGroups(Group(under.heading, under.claimIds + g.claimIds), rest, byId, title);
      } else {
        ParseGroups(g, rest, byId, title);
        ExpectedKept(title, under, Merge(g, Printed(rest)), byId);
      }
    }
  }

  lemma ParseFirstGroup(under: Group, groups: seq<Group>, byId: map<string, Claim>, title: string)
    requires groups != [] && Knows(byId, groups) && ProperIds(byId) && forall id :: id in under.claimIds ==> id in byId
    ensures forall id :: id in groups[0].claimIds ==> id in byId
    ensures Knows(byId, groups[1..])
    ensures var heading, lines := Safe(groups[0].heading), ClaimLines(under.claimIds, byId);
      Parse(GroupParts(groups, byId), title, under.heading, lines)
      == if heading == []
         then Parse(GroupParts(groups[1..], byId), title, under.heading,
                    ClaimLines(under.claimIds + groups[0].claimIds, byId))
         else Prepend(Flush(title, under.heading, lines),
                      Parse(GroupParts(groups[1..], byId), title, heading, ClaimLines(groups[0].claimIds, byId)))
  {
    var g := groups[0];
    assert g in groups && Knows(byId, groups[1..]);
    ParseGroup(g, byId, GroupParts(groups[1..], byId), title, under.heading, ClaimLines(under.claimIds, byId));
    ClaimLinesConcat(under.claimIds, g.claimIds, byId);
  }

  lemma ClaimLinesConcat(a: seq<string>, b: seq<string>, byId: map<string, Claim>)
    requires forall id :: id in a + b ==> id in byId
    ensures forall id :: id in a || id in b ==> id in byId
    ensures ClaimLines(a + b, byId) == ClaimLines(a, byId) + ClaimLines(b, byId)
  {
    assert forall id :: id in a || id in b ==> id in a + b;
    var lines := ClaimLines(a + b, byId);
    forall i | 0 <= i < |lines| ensures lines[i] == (ClaimLines(a, byId) + ClaimLines(b, byId))[i] {
    }
  }

  lemma ExpectedKept(title: string, under: Group, rest: seq<Group>, byId: map<string, Claim>)
    requires Knows(byId, rest) && forall id :: id in under.claimIds ==> id in byId
    ensures Knows(byId, Kept(under) + rest)
    ensures Expected(title, Kept(under) + rest, byId)
         == Flush(title, under.heading, ClaimLines(under.claimIds, byId)) + Expected(title, rest, byId)
  {
    if under.claimIds == [] {
      assert Kept(under) + rest == rest;
    } else {
      assert (Kept(under) + rest)[1..] == rest;
    }
  }

  // ---- The body splits into its parts ----

  ghost predicate EndsInMarker(parts: seq<string>) {
    parts != [] && var last := parts[|parts| - 1]; last != [] && last[|last| - 1] == ']'
  }

  ghost predicate AllOneLine(parts: seq<string>) {
    forall p :: p in parts ==> OneLine(p)
  }

  lemma PartsConcat(a: seq<string>, b: seq<string>)
    requires AllOneLine(a) && AllOneLine(b) && EndsInMarker(a) && (b == [] || EndsInMarker(b))
    ensures AllOneLine(a + b) && EndsInMarker(a + b)
  {
    if b == [] {
      assert a + b == a;
    } else {
      assert (a + b)[|a + b| - 1] == b[|b| - 1];
    }
  }

  lemma {:induction false} GroupPartsAreLines(groups: seq<Group>, byId: map<string, Claim>)
    requires Knows(byId, groups) && ProperIds(byId) && forall g :: g in groups ==> g.claimIds != []
    ensures AllOneLine(GroupParts(groups, byId)) && (groups == [] || EndsInMarker(GroupParts(groups, byId)))
  {
    if groups != [] {
      assert groups[0] in groups && Knows(byId, groups[1..]);
      GroupPartsAreLines(groups[1..], byId);
      GroupLinesAreLines(groups[0], byId);
      PartsConcat(GroupLines(groups[0], byId), GroupParts(groups[1..], byId));
    }
  }

  lemma GroupLinesAreLines(g: Group, byId: map<string, Claim>)
    requires ProperIds(byId) && g.claimIds != [] && forall id :: id in g.claimIds ==> id in byId
    ensures AllOneLine(GroupLines(g, byId))
    ensures EndsInMarker(GroupLines(g, byId))
  {
    var lines := ClaimLines(g.claimIds, byId);
    ClaimLinesAreShaped(g.claimIds, byId);
    forall i | 0 <= i < |lines| ensures OneLine(lines[i]) {
      assert IsClaimLine(lines[i], g.claimIds[i]);
    }
    SafeText(g.heading);
    HeadedLines(Safe(g.heading), lines);
    assert IsClaimLine(lines[|lines| - 1], g.claimIds[|lines| - 1]);
  }

  lemma HeadedLines(heading: string, lines: seq<string>)
    requires Plain(heading) && AllOneLine(lines) && lines != []
    ensures var all := ["", "## " + heading, ""] + lines;
      AllOneLine(all) && all[|all| - 1] == lines[|lines| - 1]
  {
    assert OneLine("## " + heading);
  }

  lemma BodyPartsAreLines(plan: Plan, byId: map<string, Claim>)
    requires Knows(byId, plan.groups) && ProperIds(byId) && plan.groups != []
    requires forall g :: g in plan.groups ==> g.claimIds != []
    ensures AllOneLine(BodyParts(plan, byId)) && EndsInMarker(BodyParts(plan, byId))
  {
    GroupPartsAreLines(plan.groups, byId);
    SafeText(plan.title);
    var parts, rest := BodyParts(plan, byId), GroupParts(plan.groups, byId);
    assert parts[|parts| - 1] == rest[|rest| - 1];
  }

  lemma BodySplits(plan: Plan, byId: map<string, Claim>)
    requires Knows(byId, plan.groups) && ProperIds(byId) && plan.groups != []
    requires forall g :: g in plan.groups ==> g.claimIds != []
    ensures SplitLines(Body(plan, byId)) == BodyParts(plan, byId)
  {
    BodyPartsAreLines(plan, byId);
    LinesSplit(BodyParts(plan, byId));
  }

  // Nothing is stripped from the end of lines that end in a marker.
  lemma LinesSplit(parts: seq<string>)
    requires AllOneLine(parts) && EndsInMarker(parts)
    ensures SplitLines(RightStrip(Join(parts)) + "\n") == parts
  {
    JoinEnds(parts);
    assert RightStrip(Join(parts)) == Join(parts);
    SplitJoined(parts);
  }

  // ---- The round trip ----

  lemma PlanIsProper(plan: Plan, claims: seq<Claim>)
    requires WellTyped(plan, claims) && Validate(plan, claims).None?
    ensures Knows(ById(claims), plan.groups) && ProperIds(ById(claims))
  {
    ValidPlanIsKnown(plan, claims);
  }

  lemma PartsParse(plan: Plan, byId: map<string, Claim>)
    requires Knows(byId, plan.groups) && ProperIds(byId)
    ensures Knows(byId, Shown(plan).groups)
    ensures Parse(BodyParts(plan, byId), DEFAULT_TITLE, DEFAULT_HEADING, [])
         == Ok(Expected(Shown(plan).title, Shown(plan).groups, byId))
  {
    SafeText(plan.title);
    ParseTitle(Safe(plan.title), GroupParts(plan.groups, byId), DEFAULT_TITLE, DEFAULT_HEADING, []);
    ParseGroups(Group(DEFAULT_HEADING, []), plan.groups, byId, Shown(plan).title);
    assert ClaimLines([], byId) == [];
  }

  // Whatever prints as nothing in a valid plan, the parser finds the shown plan: the same claims in the same
  // order, under headings that all have text.
  lemma BodyParses(plan: Plan, claims: seq<Claim>)
    requires WellTyped(plan, claims) && Validate(plan, claims).None?
    ensures Knows(ById(claims), plan.groups) && Knows(ById(claims), Shown(plan).groups)
    ensures SectionsOf(Body(plan, ById(claims))) == Ok(Expected(Shown(plan).title, Shown(plan).groups, ById(claims)))
    ensures PlannedIds(Shown(plan).groups) == PlannedIds(plan.groups)
    ensures Shown(plan).title != [] && forall g :: g in Shown(plan).groups ==> g.heading != [] && g.claimIds != []
  {
    PlanIsProper(plan, claims);
    BodySplits(plan, ById(claims));
    PartsParse(plan, ById(claims));
    MergeKeepsClaims(Group(DEFAULT_HEADING, []), plan.groups);
    MergeIsProper(Group(DEFAULT_HEADING, []), Printed(plan.groups));
    assert PlannedIds(plan.groups) != [];
  }

  lemma NothingToMerge(plan: Plan)
    requires Safe(plan.title) != [] && ProperHeadings(plan.groups) && forall g :: g in plan.groups ==> g.claimIds != []
    ensures Shown(plan) == Plan(Safe(plan.title), Printed(plan.groups))
  {
    forall g | g in Printed(plan.groups) ensures g.heading != [] && g.claimIds != [] {
      var i :| 0 <= i < |plan.groups| && Printed(plan.groups)[i] == g;
      assert plan.groups[i] in plan.groups;
    }
    MergeNothing(Group(DEFAULT_HEADING, []), Printed(plan.groups));
  }

  lemma BodyParsesBack(plan: Plan, claims: seq<Claim>)
    requires WellTyped(plan, claims) && Validate(plan, claims).None?
    requires Safe(plan.title) != [] && ProperHeadings(plan.groups)
    ensures Knows(ById(claims), Printed(plan.groups)) && Knows(ById(claims), plan.groups)
    ensures SectionsOf(Body(plan, ById(claims))) == Ok(Expected(Safe(plan.title), Printed(plan.groups), ById(claims)))
  {
    PlanIsProper(plan, claims);
    PrintedKnows(plan.groups, ById(claims));
    BodyParses(plan, claims);
    NothingToMerge(plan);
  }

  // The parser gives back one section for each group exactly when the title and all headings show something.
  lemma RoundTripIff(plan: Plan, claims: seq<Claim>)
    requires WellTyped(plan, claims) && Validate(plan, claims).None?
    ensures Knows(ById(claims), Printed(plan.groups)) && Knows(ById(claims), plan.groups)
    ensures SectionsOf(Body(plan, ById(claims))) == Ok(Expected(Safe(plan.title), Printed(plan.groups), ById(claims)))
            <==> Visible(plan.title) && forall g :: g in plan.groups ==> Visible(g.heading)
  {
    PlanIsProper(plan, claims);
    PrintedKnows(plan.groups, ById(claims));
    SafeIffVisible(plan.title);
    forall g | g in plan.groups ensures Safe(g.heading) != [] <==> Visible(g.heading) {
      SafeIffVisible(g.heading);
    }
    var found := SectionsOf(Body(plan, ById(claims)));
    if found == Ok(Expected(Safe(plan.title), Printed(plan.groups), ById(claims))) {
      ParsedIsProper(SplitLines(Body(plan, ById(claims))), DEFAULT_TITLE, DEFAULT_HEADING, []);
      ProperMeansShown(Safe(plan.title), plan.groups, ById(claims));
    }
    if Safe(plan.title) != [] && ProperHeadings(plan.groups) {
      BodyParsesBack(plan, claims);
    }
  }

  lemma {:induction false} ProperMeansShown(title: string, groups: seq<Group>, byId: map<string, Claim>)
    requires Knows(byId, Printed(groups)) && Proper(Expected(title, Printed(groups), byId))
    ensures (groups != [] ==> title != []) && ProperHeadings(groups)
  {
    if groups != [] {
      PrintedSplit(groups);
      var sections := Expected(title, Printed(groups), byId);
      assert sections[0] in sections;
      assert forall s :: s in Expected(title, Printed(groups[1..]), byId) ==> s in sections;
      ProperMeansShown(title, groups[1..], byId);
    }
  }

  // The markers of a group's lines are the group's claims, in order.
  lemma GroupIdsComeBack(g: Group, byId: map<string, Claim>)
    requires ProperIds(byId) && NoRepeats(g.claimIds) && forall id :: id in g.claimIds ==> id in byId
    ensures IdsIn(ClaimLines(g.claimIds, byId)) == g.claimIds
  {
    AllMarkersOfClaims(g.claimIds, byId);
    DistinctKeepsMembers(g.claimIds);
  }

  lemma {:induction false} AllMarkersOfClaims(ids: seq<string>, byId: map<string, Claim>)
    requires ProperIds(byId) && forall id :: id in ids ==> id in byId
    ensures AllMarkers(ClaimLines(ids, byId)) == ids
  {
    if ids != [] {
      var init, last := ids[..|ids| - 1], ids[|ids| - 1];
      AllMarkersOfClaims(init, byId);
      assert ClaimLines(ids, byId)[..|ids| - 1] == ClaimLines(init, byId);
      ClaimLineShape(byId[last]);
      assert ids == init + [last];
    }
  }

  // A heading of one control character passes validation and is lost in print.
  lemma InvisibleHeading()
    ensures SingleLine("\U{0001}") && Strip("\U{0001}") != [] && Safe("\U{0001}") == []
  {
    SafeIffVisible("\U{0001}");
    assert !IsSpace('\U{0001}');
    StripTrimmed("\U{0001}");
  }
}
