/** What printing does to the words of a text, and what the parser makes of any text. */
module CurationLaws {
  import opened Prelude
  import opened Text
  import opened Curation
  import opened Sections
  import opened RoundTrip

  // ---- Normalizing keeps the words ----

  predicate Blank(c: char) {
    IsSpace(c) || IsControl(c)
  }

  function Word(word: string): seq<string> {
    if word == [] then [] else [word]
  }

  // The runs of visible characters, the first of which `word` begins.
  function WordsFrom(word: string, s: string): seq<string>
    decreases |s|
  {
    if s == [] then Word(word)
    else if Blank(s[0]) then Word(word) + WordsFrom([], s[1..])
    else WordsFrom(word + [s[0]], s[1..])
  }

  function Words(s: string): seq<string> {
    WordsFrom([], s)
  }

  lemma {:induction false} SkipKeepsWords(s: string, kind: CharClass)
    ensures WordsFrom([], Skip(s, kind)) == WordsFrom([], s)
  {
    if s != [] && In(s[0], kind) {
      SkipKeepsWords(s[1..], kind);
      assert Word([]) + WordsFrom([], s[1..]) == WordsFrom([], s[1..]);
    }
  }

  lemma {:induction false} CollapseKeepsWords(word: string, s: string, kind: CharClass)
    ensures WordsFrom(word, Collapse(s, kind)) == WordsFrom(word, s)
    decreases |s|
  {
    if s == [] {
    } else if In(s[0], kind) {
      var rest := Collapse(Skip(s[1..], kind), kind);
      assert ([' '] + rest)[1..] == rest;
      CollapseKeepsWords([], Skip(s[1..], kind), kind);
      SkipKeepsWords(s[1..], kind);
    } else {
      var rest := Collapse(s[1..], kind);
      assert ([s[0]] + rest)[1..] == rest;
      CollapseKeepsWords(word + [s[0]], s[1..], kind);
      CollapseKeepsWords([], s[1..], kind);
    }
  }

  lemma {:induction false} LeftStripKeepsWords(s: string)
    ensures Words(LeftStrip(s)) == Words(s)
  {
    if s != [] && IsSpace(s[0]) {
      LeftStripKeepsWords(s[1..]);
      assert Word([]) + WordsFrom([], s[1..]) == WordsFrom([], s[1..]);
    }
  }

  lemma {:induction false} LastBlankAddsNoWord(word: string, s: string, c: char)
    requires Blank(c)
    ensures WordsFrom(word, s + [c]) == WordsFrom(word, s)
    decreases |s|
  {
    if s == [] {
      assert (s + [c])[1..] == [] && Word(word) + [] == Word(word);
    } else {
      assert (s + [c])[1..] == s[1..] + [c];
      LastBlankAddsNoWord(word + [s[0]], s[1..], c);
      LastBlankAddsNoWord([], s[1..], c);
    }
  }

  lemma {:induction false} RightStripKeepsWords(s: string)
    ensures Words(RightStrip(s)) == Words(s)
  {
    if s != [] && IsSpace(s[|s| - 1]) {
      RightStripKeepsWords(s[..|s| - 1]);
      LastBlankAddsNoWord([], s[..|s| - 1], s[|s| - 1]);
      assert s == s[..|s| - 1] + [s[|s| - 1]];
    }
  }

  // Single spaces, and nothing else that is blank.
  ghost predicate Spaced(s: string) {
    && (forall i :: 0 <= i < |s| && Blank(s[i]) ==> s[i] == ' ')
    && (forall i :: 0 <= i < |s| - 1 && s[i] == ' ' ==> s[i + 1] != ' ')
  }

  lemma {:induction false} CollapseLeavesNone(s: string, kind: CharClass)
    ensures forall c :: c in Collapse(s, kind) ==> c == ' ' || !In(c, kind)
    decreases |s|
  {
    if s == [] {
    } else if In(s[0], kind) {
      CollapseLeavesNone(Skip(s[1..], kind), kind);
    } else {
      CollapseLeavesNone(s[1..], kind);
    }
  }

  lemma {:induction false} SkipStops(s: string, kind: CharClass)
    ensures Skip(s, kind) != [] ==> !In(Skip(s, kind)[0], kind)
  {
    if s != [] && In(s[0], kind) { SkipStops(s[1..], kind); }
  }

  lemma {:induction false} CollapseSpaces(s: string)
    ensures var r := Collapse(s, White);
      && (s != [] ==> r != [] && (r[0] == ' ' <==> In(s[0], White)))
      && (s == [] ==> r == [])
      && forall i :: 0 <= i < |r| - 1 && r[i] == ' ' ==> r[i + 1] != ' '
    decreases |s|
  {
    if s == [] {
    } else if In(s[0], White) {
      SkipStops(s[1..], White);
      CollapseSpaces(Skip(s[1..], White));
    } else {
      CollapseSpaces(s[1..]);
    }
  }

  lemma SliceIsSpaced(s: string, from: nat, to: nat)
    requires Spaced(s) && from <= to <= |s|
    ensures Spaced(s[from..to])
  {
  }

  lemma {:induction false} LeftStripIsSlice(s: string) returns (from: nat)
    ensures from <= |s| && LeftStrip(s) == s[from..]
  {
    from := 0;
    if s != [] && IsSpace(s[0]) {
      var rest := LeftStripIsSlice(s[1..]);
      from := rest + 1;
      assert s[1..][rest..] == s[from..];
    }
  }

  lemma TwiceIsSpaced(value: string)
    ensures Spaced(Collapse(Collapse(value, Control), White))
  {
    var once := Collapse(value, Control);
    var twice := Collapse(once, White);
    CollapseLeavesNone(value, Control);
    CollapseLeavesNone(once, White);
    CollapseKeeps(once, White);
    CollapseSpaces(once);
    forall i | 0 <= i < |twice| && Blank(twice[i]) ensures twice[i] == ' ' {
      assert twice[i] in twice;
    }
  }

  lemma StrippedIsSpaced(s: string)
    requires Spaced(s)
    ensures Spaced(Strip(s))
  {
    var from := LeftStripIsSlice(s);
    RightStripTrims(LeftStrip(s));
    SliceIsSpaced(s, from, |s|);
    SliceIsSpaced(LeftStrip(s), 0, |Strip(s)|);
    assert LeftStrip(s)[0..|Strip(s)|] == Strip(s);
  }

  // The normalized text has the same words, with one space between each other, and nothing around them.
  lemma NormalizedKeepsWords(value: string)
    ensures Words(Normalized(value)) == Words(value)
    ensures Spaced(Normalized(value)) && Trimmed(Normalized(value))
  {
    var once := Collapse(value, Control);
    CollapseKeepsWords([], value, Control);
    CollapseKeepsWords([], once, White);
    LeftStripKeepsWords(Collapse(once, White));
    RightStripKeepsWords(LeftStrip(Collapse(once, White)));
    NormalizedIsPlain(value);
    TwiceIsSpaced(value);
    StrippedIsSpaced(Collapse(once, White));
  }

  // ---- A printed claim, read back ----

  function Escaped(c: char): string {
    if c in SPECIALS then ['\\', c] else [c]
  }

  lemma EscapeOne(s: string)
    requires s != []
    ensures Escape(s, SPECIALS) == Escaped(s[0]) + Escape(s[1..], SPECIALS)
  {
  }

  lemma UnescapeOne(c: char, rest: string)
    ensures Unescape(Escaped(c) + rest) == [c] + Unescape(rest)
  {
    if c in SPECIALS {
      assert (['\\', c] + rest)[2..] == rest;
    } else {
      assert c != '\\' by { assert SPECIALS[0] == '\\'; }
      assert ([c] + rest)[1..] == rest;
    }
  }

  lemma UnescapeMore(c: char, more: string, s: string, rest: string)
    requires Unescape(more + rest) == s + Unescape(rest)
    ensures Unescape(Escaped(c) + more + rest) == [c] + s + Unescape(rest)
  {
    UnescapeOne(c, more + rest);
    assert Escaped(c) + more + rest == Escaped(c) + (more + rest);
    assert [c] + (s + Unescape(rest)) == [c] + s + Unescape(rest);
  }

  lemma {:induction false} UnescapeFirst(s: string, rest: string)
    ensures Unescape(Escape(s, SPECIALS) + rest) == s + Unescape(rest)
  {
    if s == [] {
      assert Escape(s, SPECIALS) + rest == rest;
    } else {
      EscapeOne(s);
      UnescapeFirst(s[1..], rest);
      UnescapeMore(s[0], Escape(s[1..], SPECIALS), s[1..], rest);
      assert [s[0]] + s[1..] == s;
    }
  }

  lemma {:induction false} UnescapePlain(s: string, rest: string)
    requires '\\' !in s
    ensures Unescape(s + rest) == s + Unescape(rest)
  {
    if s == [] {
      assert s + rest == rest;
    } else {
      assert (s + rest)[1..] == s[1..] + rest;
      UnescapePlain(s[1..], rest);
    }
  }

  function Sentence(subject: string, relation: string, value: string, id: string): string {
    "- " + subject + " \U{2014} " + relation + ": " + value + " [^" + id + "]"
  }

  lemma SentenceParts(subject: string, relation: string, value: string, id: string)
    ensures Sentence(subject, relation, value, id)
         == "- " + (subject + (" \U{2014} " + (relation + (": " + (value + (" [^" + id + "]"))))))
  {
  }

  // One more escaped text, between what is plain and what reads as `read`.
  lemma UnescapePart(plain: string, s: string, rest: string, read: string)
    requires '\\' !in plain && Unescape(rest) == read
    ensures Unescape(plain + (Escape(s, SPECIALS) + rest)) == plain + (s + read)
  {
    UnescapePlain(plain, Escape(s, SPECIALS) + rest);
    UnescapeFirst(s, rest);
  }

  // Three escaped texts between plain ones.
  lemma PartsRead(a: string, subject: string, b: string, relation: string, c: string, value: string, d: string)
    requires '\\' !in a && '\\' !in b && '\\' !in c && '\\' !in d
    ensures Unescape(a + (Escape(subject, SPECIALS) + (b + (Escape(relation, SPECIALS) + (c
                     + (Escape(value, SPECIALS) + d))))))
         == a + (subject + (b + (relation + (c + (value + d)))))
  {
    UnescapePlain(d, "");
    assert d + "" == d;
    var last, lastRead := c + (Escape(value, SPECIALS) + d), c + (value + d);
    UnescapePart(c, value, d, d);
    var middle, middleRead := b + (Escape(relation, SPECIALS) + last), b + (relation + lastRead);
    UnescapePart(b, relation, last, lastRead);
    UnescapePart(a, subject, middle, middleRead);
  }

  // Without its escapes, a claim line is the sentence of subject, relation and value, and then its marker.
  lemma ClaimLineReads(c: Claim)
    requires IsClaimId(c.id)
    ensures Unescape(ClaimLine(c)) == Sentence(Normalized(c.subject), Normalized(c.relation), Normalized(c.value), c.id)
  {
    IdIsPlain(c.id);
    PartsRead("- ", Normalized(c.subject), " \U{2014} ", Normalized(c.relation), ": ", Normalized(c.value),
              " [^" + c.id + "]");
    SentenceParts(Normalized(c.subject), Normalized(c.relation), Normalized(c.value), c.id);
    SentenceParts(Safe(c.subject), Safe(c.relation), Safe(c.value), c.id);
  }

  lemma IdIsPlain(id: string)
    requires IsClaimId(id)
    ensures '\\' !in id
  {
    forall i | 0 <= i < |id| ensures id[i] != '\\' {
      if i < 6 { assert id[i] == id[..6][i]; }
    }
  }

  // ---- Which plans are valid ----

  lemma {:induction false} NoRepeatsIff(ids: seq<string>)
    ensures NoRepeats(ids) <==> multiset(ids) == multiset(SetOf(ids))
    ensures multiset(SetOf(ids)) <= multiset(ids)
  {
    if ids == [] {
      assert SetOf(ids) == {};
    } else {
      var init, last := ids[..|ids| - 1], ids[|ids| - 1];
      assert ids == init + [last];
      NoRepeatsIff(init);
      assert NoRepeats(ids) <==> NoRepeats(init) && last !in init;
      assert multiset(ids) == multiset(init) + multiset{last};
      assert SetOf(ids) == SetOf(init) + {last};
      OneMoreId(multiset(init), SetOf(init), last);
      assert last in init <==> last in SetOf(init);
    }
  }

  lemma OneMoreId(all: multiset<string>, ids: set<string>, last: string)
    requires multiset(ids) <= all && (last in ids <==> last in all)
    ensures multiset(ids + {last}) <= all + multiset{last}
    ensures last in ids ==> all + multiset{last} != multiset(ids + {last})
    ensures last !in ids ==> (all + multiset{last} == multiset(ids + {last}) <==> all == multiset(ids))
  {
    if last in ids {
      assert ids + {last} == ids && (all + multiset{last})[last] >= 2 && multiset(ids)[last] == 1;
    } else {
      assert multiset(ids + {last}) == multiset(ids) + multiset{last};
      if all + multiset{last} == multiset(ids) + multiset{last} {
        assert all + multiset{last} - multiset{last} == all;
        assert multiset(ids) + multiset{last} - multiset{last} == multiset(ids);
      }
    }
  }

  lemma SameSize(a: multiset<string>, b: multiset<string>)
    requires a <= b && |a| == |b|
    ensures a == b
  {
    assert |b - a| == |b| - |a|;
    assert b == a + (b - a);
  }

  lemma CoveredOnceIff(planned: seq<string>, ids: seq<string>)
    ensures NoRepeats(planned) && SetOf(planned) == SetOf(ids) && |planned| == |ids|
            <==> multiset(planned) == multiset(ids) && NoRepeats(ids)
  {
    NoRepeatsIff(planned);
    NoRepeatsIff(ids);
    assert |multiset(planned)| == |planned| && |multiset(ids)| == |ids|;
    if NoRepeats(planned) && SetOf(planned) == SetOf(ids) && |planned| == |ids| {
      SameSize(multiset(SetOf(ids)), multiset(ids));
    }
    if multiset(planned) == multiset(ids) {
      assert forall id :: id in SetOf(planned) <==> id in multiset(planned);
      assert forall id :: id in SetOf(ids) <==> id in multiset(ids);
    }
  }

  // A plan is valid exactly when it holds every claim once, no two claims share an id, and its title and
  // headings are single lines. A claim too many or too few is reported first.
  lemma ValidIff(plan: Plan, claims: seq<Claim>)
    ensures var covered := multiset(PlannedIds(plan.groups)) == multiset(Ids(claims)) && NoRepeats(Ids(claims));
      var lines := SingleLine(plan.title) && forall g :: g in plan.groups ==> SingleLine(g.heading);
      && (Validate(plan, claims).None? <==> covered && lines)
      && (!covered ==> Validate(plan, claims) == Some(ClaimsNotCoveredOnce))
      && (covered && !lines ==> Validate(plan, claims) == Some(MultilineHeading))
  {
    CoveredOnceIff(PlannedIds(plan.groups), Ids(claims));
  }

  // ---- The layout of a body ----

  // Without its escapes, the line is the sentence of the claim, and it marks this claim alone.
  predicate Tells(line: string, c: Claim) {
    && "- " <= line && Markers(line) == [c.id]
    && Unescape(line) == Sentence(Normalized(c.subject), Normalized(c.relation), Normalized(c.value), c.id)
  }

  // An empty line, the heading, an empty line, and one item for each claim.
  ghost predicate LaidGroup(lines: seq<string>, g: Group, byId: map<string, Claim>) {
    && |g.claimIds| + 3 <= |lines| && lines[0] == "" && lines[2] == ""
    && Unescape(lines[1]) == "## " + Normalized(g.heading)
    && forall i :: 0 <= i < |g.claimIds| ==> g.claimIds[i] in byId && Tells(lines[3 + i], byId[g.claimIds[i]])
  }

  ghost predicate LaidOut(lines: seq<string>, groups: seq<Group>, byId: map<string, Claim>)
    decreases |groups|
  {
    if groups == [] then lines == []
    else LaidGroup(lines, groups[0], byId) && LaidOut(lines[|groups[0].claimIds| + 3..], groups[1..], byId)
  }

  lemma HeadingReads(hashes: string, value: string)
    requires '\\' !in hashes
    ensures Unescape(hashes + Safe(value)) == hashes + Normalized(value)
  {
    UnescapePlain(hashes, Safe(value));
    UnescapeEscaped(Normalized(value));
  }

  lemma GroupIsLaid(g: Group, byId: map<string, Claim>, rest: seq<string>)
    requires ProperIds(byId) && forall id :: id in g.claimIds ==> id in byId
    ensures LaidGroup(GroupLines(g, byId) + rest, g, byId)
    ensures (GroupLines(g, byId) + rest)[|g.claimIds| + 3..] == rest
  {
    ClaimLinesAreShaped(g.claimIds, byId);
    var lines := GroupLines(g, byId) + rest;
    HeadingReads("## ", g.heading);
    forall i | 0 <= i < |g.claimIds| ensures Tells(lines[3 + i], byId[g.claimIds[i]]) {
      assert lines[3 + i] == ClaimLines(g.claimIds, byId)[i];
      assert IsClaimLine(ClaimLines(g.claimIds, byId)[i], g.claimIds[i]);
      ClaimLineReads(byId[g.claimIds[i]]);
    }
  }

  lemma {:induction false} GroupsAreLaidOut(groups: seq<Group>, byId: map<string, Claim>)
    requires Knows(byId, groups) && ProperIds(byId)
    ensures LaidOut(GroupParts(groups, byId), groups, byId)
    decreases |groups|
  {
    if groups != [] {
      assert groups[0] in groups && Knows(byId, groups[1..]);
      GroupsAreLaidOut(groups[1..], byId);
      GroupIsLaid(groups[0], byId, GroupParts(groups[1..], byId));
    }
  }

  lemma BodyIsJoined(plan: Plan, byId: map<string, Claim>)
    requires Knows(byId, plan.groups) && ProperIds(byId) && plan.groups != []
    requires forall g :: g in plan.groups ==> g.claimIds != []
    ensures Body(plan, byId) == Join(BodyParts(plan, byId)) + "\n"
  {
    BodyPartsAreLines(plan, byId);
    NotStripped(BodyParts(plan, byId));
  }

  lemma NotStripped(parts: seq<string>)
    requires EndsInMarker(parts)
    ensures RightStrip(Join(parts)) == Join(parts)
  {
    JoinEnds(parts);
  }

  lemma TitleComesFirst(plan: Plan, byId: map<string, Claim>)
    requires Knows(byId, plan.groups)
    ensures Unescape(BodyParts(plan, byId)[0]) == "# " + Normalized(plan.title)
    ensures BodyParts(plan, byId)[1..] == GroupParts(plan.groups, byId)
  {
    HeadingReads("# ", plan.title);
  }

  // A body is a title line and then its groups, all of them with the words they were given, and ends with one
  // line end.
  lemma BodyIsLaidOut(plan: Plan, claims: seq<Claim>)
    requires WellTyped(plan, claims) && Validate(plan, claims).None?
    ensures Knows(ById(claims), plan.groups)
    ensures var lines := SplitLines(Body(plan, ById(claims)));
      && lines != [] && Unescape(lines[0]) == "# " + Normalized(plan.title)
      && LaidOut(lines[1..], plan.groups, ById(claims))
    ensures Body(plan, ById(claims)) == Join(SplitLines(Body(plan, ById(claims)))) + "\n"
  {
    PlanIsProper(plan, claims);
    BodySplits(plan, ById(claims));
    GroupsAreLaidOut(plan.groups, ById(claims));
    TitleComesFirst(plan, ById(claims));
    BodyIsJoined(plan, ById(claims));
  }

  // ---- What the parser makes of any text ----

  predicate IsTitle(l: string) {
    "# " <= Strip(l)
  }

  predicate IsHeading(l: string) {
    "## " <= Strip(l)
  }

  predicate IsItem(l: string) {
    "- " <= Strip(l)
  }

  // The list items among the lines.
  function Items(raw: seq<string>): seq<string> {
    if raw == [] then []
    else (if IsItem(raw[0]) then [Strip(raw[0])] else []) + Items(raw[1..])
  }

  // The last title among the lines, or the one before them.
  function TitleAfter(raw: seq<string>, title: string): string
    decreases |raw|
  {
    if raw == [] then title
    else TitleAfter(raw[1..], if IsTitle(raw[0]) then Strip(Strip(raw[0])[2..]) else title)
  }

  // A line is of one kind at most.
  lemma OneKind(l: string)
    ensures !(IsTitle(l) && IsHeading(l)) && !(IsTitle(l) && IsItem(l)) && !(IsHeading(l) && IsItem(l))
  {
    var s := Strip(l);
    if IsTitle(l) { assert s[0] == '#' && s[1] == ' '; }
    if IsHeading(l) { assert s[0] == '#' && s[1] == '#'; }
    if IsItem(l) { assert s[0] == '-'; }
  }

  lemma FirstLine(raw: seq<string>, n: nat, title: string)
    requires 0 < n <= |raw|
    ensures Items(raw[..n]) == (if IsItem(raw[0]) then [Strip(raw[0])] else []) + Items(raw[1..][..n - 1])
    ensures TitleAfter(raw[..n], title)
         == TitleAfter(raw[1..][..n - 1], if IsTitle(raw[0]) then Strip(Strip(raw[0])[2..]) else title)
  {
    assert raw[..n][1..] == raw[1..][..n - 1] && raw[..n][0] == raw[0];
  }

  // Line n is the first heading, or there is none.
  ghost predicate HeadingAt(raw: seq<string>, n: nat) {
    n <= |raw| && (forall i :: 0 <= i < n ==> !IsHeading(raw[i])) && (n < |raw| ==> IsHeading(raw[n]))
  }

  // The rest of the sections, behind the heading at line n.
  ghost function Behind(raw: seq<string>, n: nat, title: string): Result<seq<Section>, ChunkError>
    requires HeadingAt(raw, n)
  {
    if n == |raw| then Ok([]) else Parse(raw[n + 1..], title, Strip(Strip(raw[n])[3..]), [])
  }

  lemma BehindTheFirst(raw: seq<string>, n: nat, title: string)
    requires 0 < n && HeadingAt(raw, n)
    ensures HeadingAt(raw[1..], n - 1) && Behind(raw[1..], n - 1, title) == Behind(raw, n, title)
  {
    if n < |raw| {
      assert raw[1..][n..] == raw[n + 1..] && raw[1..][n - 1] == raw[n];
    }
  }

  lemma ParseOne(raw: seq<string>, title: string, heading: string, lines: seq<string>)
    requires raw != [] && !IsHeading(raw[0]) && (IsItem(raw[0]) ==> Markers(Strip(raw[0])) != [])
    ensures Parse(raw, title, heading, lines)
         == Parse(raw[1..], if IsTitle(raw[0]) then Strip(Strip(raw[0])[2..]) else title, heading,
                  lines + if IsItem(raw[0]) then [Strip(raw[0])] else [])
  {
    OneKind(raw[0]);
    assert lines + [] == lines;
  }

  // Everything up to the next heading is one section, under the last title before that heading.
  lemma {:induction false} BlockIsOneSection(raw: seq<string>, n: nat, title: string, heading: string,
                                             lines: seq<string>)
    requires HeadingAt(raw, n) && forall l :: l in Items(raw[..n]) ==> Markers(l) != []
    ensures var now := TitleAfter(raw[..n], title);
      Parse(raw, title, heading, lines)
      == Prepend(Flush(now, heading, lines + Items(raw[..n])), Behind(raw, n, now))
    decreases n
  {
    if n == 0 {
      EmptyBlock(raw, title, heading, lines);
    } else {
      FirstLine(raw, n, title);
      BehindTheFirst(raw, n, TitleAfter(raw[..n], title));
      var first := if IsItem(raw[0]) then [Strip(raw[0])] else [];
      var now, rest := if IsTitle(raw[0]) then Strip(Strip(raw[0])[2..]) else title, Items(raw[1..][..n - 1]);
      assert forall l :: l in first || l in rest ==> l in Items(raw[..n]);
      assert IsItem(raw[0]) ==> Strip(raw[0]) in first;
      ParseOne(raw, title, heading, lines);
      BlockIsOneSection(raw[1..], n - 1, now, heading, lines + first);
      Regrouped(lines, first, rest);
    }
  }

  lemma Regrouped(a: seq<string>, b: seq<string>, c: seq<string>)
    ensures a + b + c == a + (b + c)
  {
  }

  lemma EmptyBlock(raw: seq<string>, title: string, heading: string, lines: seq<string>)
    requires HeadingAt(raw, 0)
    ensures Parse(raw, title, heading, lines)
         == Prepend(Flush(title, heading, lines + Items(raw[..0])), Behind(raw, 0, title))
    ensures TitleAfter(raw[..0], title) == title
  {
    assert raw[..0] == [] && lines + [] == lines;
    if raw == [] {
      assert Flush(title, heading, lines) + [] == Flush(title, heading, lines);
    } else {
      OneKind(raw[0]);
    }
  }

  // Parsing fails exactly on a list item without a marker.
  lemma {:induction false} ParsingFailsIff(raw: seq<string>, title: string, heading: string, lines: seq<string>)
    ensures Parse(raw, title, heading, lines).Err? <==> exists l :: l in raw && IsItem(l) && Markers(Strip(l)) == []
    ensures Parse(raw, title, heading, lines).Err? ==> Parse(raw, title, heading, lines).error == MarkerMissing
  {
    if raw != [] {
      var line := Strip(raw[0]);
      OneKind(raw[0]);
      assert forall l :: l in raw <==> l == raw[0] || l in raw[1..];
      if StartsWith(line, "# ") {
        ParsingFailsIff(raw[1..], Strip(line[2..]), heading, lines);
      } else if StartsWith(line, "## ") {
        ParsingFailsIff(raw[1..], title, Strip(line[3..]), []);
      } else if StartsWith(line, "- ") {
        ParsingFailsIff(raw[1..], title, heading, lines + [line]);
      } else {
        ParsingFailsIff(raw[1..], title, heading, lines);
      }
    }
  }

  // No section is found exactly when there is no list item.
  lemma {:induction false} NothingIsFoundIff(raw: seq<string>, title: string, heading: string, lines: seq<string>)
    ensures Parse(raw, title, heading, lines) == Ok([]) <==> lines == [] && forall l :: l in raw ==> !IsItem(l)
  {
    if raw != [] {
      var line := Strip(raw[0]);
      OneKind(raw[0]);
      assert forall l :: l in raw <==> l == raw[0] || l in raw[1..];
      if StartsWith(line, "# ") {
        NothingIsFoundIff(raw[1..], Strip(line[2..]), heading, lines);
      } else if StartsWith(line, "## ") {
        NothingIsFoundIff(raw[1..], title, Strip(line[3..]), []);
        var flushed, rest := Flush(title, heading, lines), Parse(raw[1..], title, Strip(line[3..]), []);
        assert rest.Ok? ==> (flushed + rest.value == [] <==> flushed == [] && rest.value == []);
      } else if StartsWith(line, "- ") {
        assert IsItem(raw[0]) && raw[0] in raw && lines + [line] != [];
        NothingIsFoundIff(raw[1..], title, heading, lines + [line]);
      } else {
        NothingIsFoundIff(raw[1..], title, heading, lines);
      }
    }
  }
}
