/** The deterministic Markdown body of a curated note. */
module Curation {
  import opened Prelude
  import opened Text

  // ---- Inline text ----

  datatype CharClass = Control | White

  predicate In(c: char, kind: CharClass) {
    match kind
    case Control => IsControl(c)
    case White => IsSpace(c)
  }

  function Skip(s: string, kind: CharClass): (rest: string)
    ensures |rest| <= |s|
  {
    if s != [] && In(s[0], kind) then Skip(s[1..], kind) else s
  }

  // re.sub: every run of the class becomes one space.
  function Collapse(s: string, kind: CharClass): string
    decreases |s|
  {
    if s == [] then []
    else if In(s[0], kind) then [' '] + Collapse(Skip(s[1..], kind), kind)
    else [s[0]] + Collapse(s[1..], kind)
  }

  function Normalized(value: string): string {
    Strip(Collapse(Collapse(value, Control), White))
  }

  const SPECIALS := "\\`*_{}[]<>#|"

  // Each of these characters gets a backslash, all at once.
  function Escape(s: string, specials: string): string {
    if s == [] then []
    else (if s[0] in specials then ['\\', s[0]] else [s[0]]) + Escape(s[1..], specials)
  }

  function Replace(s: string, c: char): string {
    if s == [] then []
    else (if s[0] == c then ['\\', c] else [s[0]]) + Replace(s[1..], c)
  }

  function Safe(value: string): string {
    Escape(Normalized(value), SPECIALS)
  }

  lemma {:induction false} ReplaceConcat(a: string, b: string, c: char)
    ensures Replace(a + b, c) == Replace(a, c) + Replace(b, c)
  {
    if a == [] {
      assert a + b == b;
    } else {
      assert (a + b)[1..] == a[1..] + b;
      ReplaceConcat(a[1..], b, c);
    }
  }

  // One more replacement pass. The backslash has to come first.
  lemma {:induction false} EscapeOneMore(s: string, done: string, c: char)
    requires c !in done && (c == '\\' ==> done == [])
    ensures Replace(Escape(s, done), c) == Escape(s, done + [c])
  {
    if s != [] {
      var head := if s[0] in done then ['\\', s[0]] else [s[0]];
      ReplaceConcat(head, Escape(s[1..], done), c);
      EscapeOneMore(s[1..], done, c);
      assert s[0] in done + [c] <==> s[0] in done || s[0] == c;
      if s[0] in done {
        ReplaceConcat(['\\'], [s[0]], c);
        assert head == ['\\'] + [s[0]];
      }
    }
  }

  method SafeInline(value: string) returns (text: string)
    ensures text == Safe(value)
  {
    var normalized := Normalized(value);
    text := normalized;
    EscapeNothing(normalized);
    for i := 0 to |SPECIALS|
      invariant text == Escape(normalized, SPECIALS[..i])
    {
      assert SPECIALS[..i + 1] == SPECIALS[..i] + [SPECIALS[i]];
      EscapeOneMore(normalized, SPECIALS[..i], SPECIALS[i]);
      text := Replace(text, SPECIALS[i]);
    }
    assert SPECIALS[..|SPECIALS|] == SPECIALS;
  }

  lemma {:induction false} EscapeNothing(s: string)
    ensures Escape(s, []) == s
  {
    if s != [] { EscapeNothing(s[1..]); }
  }

  function Unescape(s: string): string {
    if s == [] then []
    else if s[0] == '\\' && |s| > 1 then [s[1]] + Unescape(s[2..])
    else [s[0]] + Unescape(s[1..])
  }

  // Escaping loses nothing: different normalized texts stay different.
  lemma {:induction false} UnescapeEscaped(s: string)
    ensures Unescape(Escape(s, SPECIALS)) == s
  {
    if s != [] {
      UnescapeEscaped(s[1..]);
      var rest := Escape(s[1..], SPECIALS);
      if s[0] in SPECIALS {
        assert Escape(s, SPECIALS) == ['\\', s[0]] + rest;
        assert (['\\', s[0]] + rest)[2..] == rest;
      } else {
        assert s[0] != '\\' by { assert SPECIALS[0] == '\\'; }
        assert Escape(s, SPECIALS) == [s[0]] + rest;
      }
    }
  }

  // ---- What safe text looks like ----

  ghost predicate Plain(s: string) {
    forall c :: c in s ==> c == ' ' || !IsSpace(c)
  }

  // No underscore right after the letter m, so no text can look like the start of a claim marker.
  ghost predicate NoMarkerStart(s: string) {
    forall i :: 0 < i < |s| && s[i] == '_' ==> s[i - 1] != 'm'
  }

  lemma {:induction false} CollapsePlain(s: string)
    ensures Plain(Collapse(s, White))
    decreases |s|
  {
    if s == [] {
    } else if In(s[0], White) {
      CollapsePlain(Skip(s[1..], White));
    } else {
      CollapsePlain(s[1..]);
    }
  }

  lemma NormalizedIsPlain(value: string)
    ensures Plain(Normalized(value)) && Trimmed(Normalized(value))
  {
    CollapsePlain(Collapse(value, Control));
    StripTrims(Collapse(Collapse(value, Control), White));
  }

  lemma {:induction false} EscapeIsPlain(s: string)
    requires Plain(s)
    ensures Plain(Escape(s, SPECIALS)) && (Escape(s, SPECIALS) == [] <==> s == [])
  {
    if s != [] {
      assert Plain(s[1..]);
      EscapeIsPlain(s[1..]);
    }
  }

  lemma {:induction false} EscapeTrims(s: string)
    requires s != [] && !IsSpace(s[|s| - 1])
    ensures var e := Escape(s, SPECIALS); e != [] && !IsSpace(e[|e| - 1])
  {
    if |s| > 1 {
      EscapeTrims(s[1..]);
    }
  }

  lemma {:induction false} EscapeHidesMarkers(s: string)
    ensures NoMarkerStart(Escape(s, SPECIALS)) && (Escape(s, SPECIALS) != [] ==> Escape(s, SPECIALS)[0] != '_')
  {
    if s != [] {
      EscapeHidesMarkers(s[1..]);
      assert SPECIALS[3] == '_';
    }
  }

  lemma SafeText(value: string)
    ensures Plain(Safe(value)) && Trimmed(Safe(value)) && NoMarkerStart(Safe(value))
    ensures Safe(value) != [] ==> Safe(value)[0] != '_'
    ensures Safe(value) == [] <==> Normalized(value) == []
  {
    var s := Normalized(value);
    NormalizedIsPlain(value);
    EscapeIsPlain(s);
    EscapeHidesMarkers(s);
    if s != [] {
      EscapeTrims(s);
      assert s[0] !in SPECIALS ==> Safe(value)[0] == s[0];
    }
  }

  // ---- Claims and plans ----

  const ID_PREFIX := "claim_"
  const ID_LENGTH := 32

  predicate IsIdChar(c: char) {
    '0' <= c <= '9' || 'A' <= c <= 'H' || c == 'J' || c == 'K' || c == 'M' || c == 'N' || 'P' <= c <= 'T'
        || 'V' <= c <= 'Z'
  }

  predicate IsClaimId(id: string) {
    |id| == ID_LENGTH && id[..6] == ID_PREFIX && forall i :: 6 <= i < ID_LENGTH ==> IsIdChar(id[i])
  }

  // The governed claim, with its value already rendered as text. Ranks and times are plain numbers.
  datatype Claim = Claim(id: string, subject: string, relation: string, value: string, quality: nat, sensitivity: nat,
                         validFrom: Option<int>, validTo: Option<int>, freshAt: Option<int>)

  datatype Group = Group(heading: string, claimIds: seq<string>)

  datatype Plan = Plan(title: string, groups: seq<Group>)

  datatype CurationError = ClaimsNotCoveredOnce | MultilineHeading | UnsafeConstruct

  function ClaimLine(c: Claim): string {
    "- " + Safe(c.subject) + " \U{2014} " + Safe(c.relation) + ": " + Safe(c.value) + " [^" + c.id + "]"
  }

  function PlannedIds(groups: seq<Group>): seq<string> {
    if groups == [] then [] else groups[0].claimIds + PlannedIds(groups[1..])
  }

  function Ids(claims: seq<Claim>): seq<string> {
    seq(|claims|, i requires 0 <= i < |claims| => claims[i].id)
  }

  predicate NoRepeats(ids: seq<string>) {
    forall i, j :: 0 <= i < j < |ids| ==> ids[i] != ids[j]
  }

  function SetOf(ids: seq<string>): set<string> {
    set x | x in ids
  }

  predicate SingleLine(s: string) {
    '\n' !in s && '\r' !in s
  }

  function Validate(plan: Plan, claims: seq<Claim>): Option<CurationError> {
    var actual, expected := PlannedIds(plan.groups), Ids(claims);
    if !NoRepeats(actual) || SetOf(actual) != SetOf(expected) || |actual| != |expected| then Some(ClaimsNotCoveredOnce)
    else if !SingleLine(plan.title) || exists g :: g in plan.groups && !SingleLine(g.heading)
    then Some(MultilineHeading)
    else None
  }

  // What the types of claims and plans demand.
  ghost predicate WellTyped(plan: Plan, claims: seq<Claim>) {
    && plan.groups != []
    && (forall g :: g in plan.groups ==> g.claimIds != [])
    && (forall c :: c in claims ==> IsClaimId(c.id))
  }

  function ById(claims: seq<Claim>): (byId: map<string, Claim>)
    ensures forall id :: id in byId <==> id in Ids(claims)
    ensures forall id :: id in byId ==> byId[id] in claims && byId[id].id == id
  {
    if claims == [] then map[]
    else
      var last := |claims| - 1;
      assert claims == claims[..last] + [claims[last]];
      assert Ids(claims) == Ids(claims[..last]) + [claims[last].id];
      ById(claims[..last])[claims[last].id := claims[last]]
  }

  // ---- The body ----

  function ClaimLines(ids: seq<string>, byId: map<string, Claim>): seq<string>
    requires forall id :: id in ids ==> id in byId
  {
    seq(|ids|, i requires 0 <= i < |ids| => ClaimLine(byId[ids[i]]))
  }

  ghost predicate Knows(byId: map<string, Claim>, groups: seq<Group>) {
    forall g, id :: g in groups && id in g.claimIds ==> id in byId
  }

  function GroupLines(g: Group, byId: map<string, Claim>): seq<string>
    requires forall id :: id in g.claimIds ==> id in byId
  {
    ["", "## " + Safe(g.heading), ""] + ClaimLines(g.claimIds, byId)
  }

  ghost function GroupParts(groups: seq<Group>, byId: map<string, Claim>): seq<string>
    requires Knows(byId, groups)
  {
    if groups == [] then []
    else GroupLines(groups[0], byId) + GroupParts(groups[1..], byId)
  }

  ghost function BodyParts(plan: Plan, byId: map<string, Claim>): seq<string>
    requires Knows(byId, plan.groups)
  {
    ["# " + Safe(plan.title)] + GroupParts(plan.groups, byId)
  }

  ghost function Body(plan: Plan, byId: map<string, Claim>): string
    requires Knows(byId, plan.groups)
  {
    RightStrip(Join(BodyParts(plan, byId))) + "\n"
  }

  lemma {:induction false} PlannedIdsMember(groups: seq<Group>, g: Group, id: string)
    requires g in groups && id in g.claimIds
    ensures id in PlannedIds(groups)
  {
    if groups[0] != g {
      assert g in groups[1..];
      PlannedIdsMember(groups[1..], g, id);
    }
  }

  lemma ValidPlanIsKnown(plan: Plan, claims: seq<Claim>)
    requires Validate(plan, claims).None?
    ensures Knows(ById(claims), plan.groups)
  {
    forall g, id | g in plan.groups && id in g.claimIds ensures id in ById(claims) {
      PlannedIdsMember(plan.groups, g, id);
      assert id in SetOf(PlannedIds(plan.groups));
    }
  }

  // `unsafe` is the search for constructs that no note may hold.
  method Render(plan: Plan, claims: seq<Claim>, unsafe: string -> bool) returns (body: Result<string, CurationError>)
    requires WellTyped(plan, claims)
    ensures Validate(plan, claims).Some? ==> body == Err(Validate(plan, claims).value)
    ensures Validate(plan, claims).None? ==> Knows(ById(claims), plan.groups)
                                             && var text := Body(plan, ById(claims));
                                                body == if unsafe(text) then Err(UnsafeConstruct) else Ok(text)
  {
    var invalid := Validate(plan, claims);
    if invalid.Some? {
      return Err(invalid.value);
    }
    ValidPlanIsKnown(plan, claims);
    var byId := ById(claims);
    var title := SafeInline(plan.title);
    var parts := RenderGroups(plan.groups, byId);
    var text := RightStrip(Join(["# " + title] + parts)) + "\n";
    return if unsafe(text) then Err(UnsafeConstruct) else Ok(text);
  }

  method RenderGroups(groups: seq<Group>, byId: map<string, Claim>) returns (parts: seq<string>)
    requires Knows(byId, groups)
    ensures parts == GroupParts(groups, byId)
  {
    parts := [];
    assert groups[0..] == groups;
    for i := 0 to |groups|
      invariant parts + GroupParts(groups[i..], byId) == GroupParts(groups, byId)
    {
      assert groups[i] in groups && groups[i..][1..] == groups[i + 1..];
      var heading := SafeInline(groups[i].heading);
      NextGroup(parts, GroupLines(groups[i], byId), GroupParts(groups[i + 1..], byId));
      parts := parts + (["", "## " + heading, ""] + ClaimLines(groups[i].claimIds, byId));
    }
  }

  lemma NextGroup(parts: seq<string>, lines: seq<string>, rest: seq<string>)
    ensures parts + (lines + rest) == parts + lines + rest
  {}
}
