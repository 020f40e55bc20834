/** Greedy batching of claim lines under a target and a hard limit, with an overlap between batches. */
module Batches {
  import opened Prelude
  import opened Text
  import opened Sections

  datatype Limits = Limits(target: nat, overlap: nat, hardMax: nat)

  predicate ValidLimits(c: Limits) {
    1 <= c.overlap < c.target <= c.hardMax
  }

  // Each line with its line end.
  function Cost(lines: seq<string>): nat {
    if lines == [] then 0 else |lines[0]| + 1 + Cost(lines[1..])
  }

  lemma {:induction false} CostSplits(a: seq<string>, b: seq<string>)
    ensures Cost(a + b) == Cost(a) + Cost(b)
  {
    if a == [] {
      assert a + b == b;
    } else {
      assert (a + b)[1..] == a[1..] + b;
      CostSplits(a[1..], b);
    }
  }

  // ---- The overlap: the longest suffix within the budget ----

  function TailStart(lines: seq<string>, budget: nat, i: nat): (start: nat)
    requires i <= |lines|
    ensures start <= i
  {
    if i > 0 && Cost(lines[i - 1..]) <= budget then TailStart(lines, budget, i - 1) else i
  }

  function Tail(lines: seq<string>, budget: nat): seq<string> {
    lines[TailStart(lines, budget, |lines|)..]
  }

  ghost predicate IsSuffix(tail: seq<string>, lines: seq<string>) {
    |tail| <= |lines| && lines[|lines| - |tail|..] == tail
  }

  lemma {:induction false} TailStartIsLeast(lines: seq<string>, budget: nat, i: nat)
    requires i <= |lines| && Cost(lines[i..]) <= budget
    ensures var start := TailStart(lines, budget, i);
            Cost(lines[start..]) <= budget && forall j :: 0 <= j < start ==> Cost(lines[j..]) > budget
  {
    if i > 0 && Cost(lines[i - 1..]) <= budget {
      TailStartIsLeast(lines, budget, i - 1);
    } else {
      forall j | 0 <= j < i ensures Cost(lines[j..]) > budget {
        assert lines[j..] == lines[j..i - 1] + lines[i - 1..];
        CostSplits(lines[j..i - 1], lines[i - 1..]);
      }
    }
  }

  lemma TailIsLongest(lines: seq<string>, budget: nat)
    ensures IsSuffix(Tail(lines, budget), lines) && Cost(Tail(lines, budget)) <= budget
    ensures forall s :: IsSuffix(s, lines) && Cost(s) <= budget ==> |s| <= |Tail(lines, budget)|
  {
    TailStartIsLeast(lines, budget, |lines|);
    forall s | IsSuffix(s, lines) && Cost(s) <= budget ensures |s| <= |Tail(lines, budget)| {
      assert s == lines[|lines| - |s|..];
    }
  }

  method OverlapTail(lines: seq<string>, budget: nat) returns (tail: seq<string>)
    ensures tail == Tail(lines, budget)
  {
    tail := [];
    var used := 0;
    var i := |lines|;
    while i > 0
      invariant 0 <= i <= |lines| && tail == lines[i..] && used == Cost(tail)
      invariant TailStart(lines, budget, |lines|) == TailStart(lines, budget, i)
    {
      var line := lines[i - 1];
      var cost := |line| + 1;
      assert [line] + tail == lines[i - 1..];
      if tail != [] && used + cost > budget {
        break;
      }
      if cost > budget {
        break;
      }
      tail := [line] + tail;
      used := used + cost;
      i := i - 1;
    }
  }

  // ---- The batches ----

  // What one line closes, and the batch that is then under way.
  datatype Step = TooLong | Step(closed: seq<seq<string>>, current: seq<string>)

  function TakeLine(c: Limits, prefix: nat, current: seq<string>, line: string): Step {
    if prefix + |line| > c.hardMax then TooLong
    else
      var full := current != [] && prefix + Cost(current + [line]) > c.target;
      var kept := if full then Tail(current, c.overlap) else current;
      var closed := if full then [current] else [];
      if prefix + Cost(kept + [line]) <= c.hardMax then Step(closed, kept + [line])
      else if kept == [] then TooLong
      else Step(closed + [kept], [line])
  }

  // The batches of the remaining lines, given the batch under way.
  function BatchesFrom(c: Limits, prefix: nat, current: seq<string>,
                       lines: seq<string>): Result<seq<seq<string>>, ChunkError>
    decreases |lines|
  {
    if lines == [] then Ok(if current == [] then [] else [current])
    else
      var step := TakeLine(c, prefix, current, lines[0]);
      if step.TooLong? then Err(LineTooLong) else After(step.closed, BatchesFrom(c, prefix, step.current, lines[1..]))
  }

  function After(first: seq<seq<string>>,
                 rest: Result<seq<seq<string>>, ChunkError>): Result<seq<seq<string>>, ChunkError>
  {
    if rest.Err? then rest else Ok(first + rest.value)
  }

  lemma AfterTwice(a: seq<seq<string>>, b: seq<seq<string>>, rest: Result<seq<seq<string>>, ChunkError>)
    ensures After(a, After(b, rest)) == After(a + b, rest)
  {
    if rest.Ok? {
      assert a + (b + rest.value) == a + b + rest.value;
    }
  }

  method AddLine(c: Limits, prefix: nat, batches: seq<seq<string>>, current: seq<string>, line: string)
    returns (fits: bool, nowBatches: seq<seq<string>>, nowCurrent: seq<string>)
    ensures fits <==> TakeLine(c, prefix, current, line).Step?
    ensures fits ==> nowBatches == batches + TakeLine(c, prefix, current, line).closed
                     && nowCurrent == TakeLine(c, prefix, current, line).current
  {
    nowBatches, nowCurrent := batches, current;
    if prefix + |line| > c.hardMax {
      return false, nowBatches, nowCurrent;
    }
    if nowCurrent != [] && prefix + Cost(nowCurrent + [line]) > c.target {
      nowBatches := nowBatches + [nowCurrent];
      nowCurrent := OverlapTail(nowCurrent, c.overlap);
    }
    var kept := nowCurrent;
    nowCurrent := nowCurrent + [line];
    if prefix + Cost(nowCurrent) > c.hardMax {
      if |nowCurrent| == 1 {
        return false, nowBatches, nowCurrent;
      }
      nowBatches := nowBatches + [kept];
      nowCurrent := [line];
    }
    fits := true;
  }

  method BatchLines(c: Limits, prefix: nat, lines: seq<string>) returns (r: Result<seq<seq<string>>, ChunkError>)
    ensures r == BatchesFrom(c, prefix, [], lines)
  {
    var batches: seq<seq<string>> := [];
    var current: seq<string> := [];
    NothingBefore(BatchesFrom(c, prefix, [], lines));
    assert lines[0..] == lines;
    for i := 0 to |lines|
      invariant After(batches, BatchesFrom(c, prefix, current, lines[i..])) == BatchesFrom(c, prefix, [], lines)
    {
      ghost var step := TakeLine(c, prefix, current, lines[i]);
      ghost var earlier := batches;
      assert lines[i..][0] == lines[i] && lines[i..][1..] == lines[i + 1..];
      var fits;
      fits, batches, current := AddLine(c, prefix, batches, current, lines[i]);
      if !fits {
        return Err(LineTooLong);
      }
      AfterTwice(earlier, step.closed, BatchesFrom(c, prefix, current, lines[i + 1..]));
    }
    assert batches + [] == batches;
    if current != [] {
      batches := batches + [current];
    }
    return Ok(batches);
  }

  lemma NothingBefore(rest: Result<seq<seq<string>>, ChunkError>)
    ensures After([], rest) == rest
  {
    if rest.Ok? { assert [] + rest.value == rest.value; }
  }

  // ---- What the batches promise ----

  // A batch goes on from the one before it: the longest suffix within the budget, or nothing, then new lines.
  ghost predicate Continues(c: Limits, previous: seq<string>, kept: seq<string>) {
    kept == [] || kept == Tail(previous, c.overlap)
  }

  // How many of the lines each batch adds. The new lines of the batches are the lines, in order and
  // once each, and a batch is closed only when the next line would take it over the target.
  ghost predicate Covers(c: Limits, prefix: nat, kept: seq<string>, lines: seq<string>, batches: seq<seq<string>>,
                         counts: seq<int>)
    decreases |batches|
  {
    && |batches| == |counts|
    && if batches == [] then kept == [] && lines == []
       else && 0 <= counts[0] <= |lines| && batches[0] == kept + lines[..counts[0]]
            && var rest := lines[counts[0]..];
               if |batches| == 1 then rest == []
               else && rest != [] && prefix + Cost(batches[0] + [rest[0]]) > c.target
                    && 0 <= counts[1] <= |batches[1]|
                    && Continues(c, batches[0], batches[1][..|batches[1]| - counts[1]])
                    && Covers(c, prefix, batches[1][..|batches[1]| - counts[1]], rest, batches[1..], counts[1..])
  }

  lemma CoversOne(c: Limits, prefix: nat, kept: seq<string>, first: seq<string>)
    ensures Covers(c, prefix, kept, first, [kept + first], [|first|])
  {
    assert first[..|first|] == first;
  }

  // Closing a batch in front of batches that cover the rest.
  lemma CoversMore(c: Limits, prefix: nat, kept: seq<string>, first: seq<string>, tail: seq<string>, lines: seq<string>,
                   batches: seq<seq<string>>, counts: seq<int>)
    requires Covers(c, prefix, tail, lines, batches, counts) && batches != [] && lines != []
    requires Continues(c, kept + first, tail) && prefix + Cost(kept + first + [lines[0]]) > c.target
    ensures Covers(c, prefix, kept, first + lines, [kept + first] + batches, [|first|] + counts)
  {
    assert (first + lines)[..|first|] == first && (first + lines)[|first|..] == lines;
    assert ([kept + first] + batches)[1..] == batches && ([|first|] + counts)[1..] == counts;
    assert batches[0] == tail + lines[..counts[0]];
    assert batches[0][..|batches[0]| - counts[0]] == tail;
  }

  // A line is added, or closes the batch, or closes it and finds no room beside the overlap either.
  // Then `nextKept` is the overlap of the batch under way and `nextFirst` are its new lines.
  ghost predicate Follows(c: Limits, prefix: nat, kept: seq<string>, first: seq<string>, line: string, step: Step,
                          nextKept: seq<string>, nextFirst: seq<string>)
  {
    var current, tail := kept + first, Tail(kept + first, c.overlap);
    && step.Step? && step.current == nextKept + nextFirst
    && match |step.closed|
       case 0 => nextKept == kept && nextFirst == first + [line]
       case 1 => step.closed == [current] && prefix + Cost(current + [line]) > c.target && nextKept == tail
           && nextFirst == [line]
       case _ => step.closed == [current, tail] && prefix + Cost(current + [line]) > c.target
                 && prefix + Cost(tail + [line]) > c.target && nextKept == [] && nextFirst == [line]
  }

  lemma StepFollows(c: Limits, prefix: nat, kept: seq<string>, first: seq<string>, line: string)
    returns (nextKept: seq<string>, nextFirst: seq<string>)
    requires ValidLimits(c) && TakeLine(c, prefix, kept + first, line).Step?
    ensures nextFirst != [] && Follows(c, prefix, kept, first, line, TakeLine(c, prefix, kept + first, line),
                                       nextKept, nextFirst)
  {
    var step, tail := TakeLine(c, prefix, kept + first, line), Tail(kept + first, c.overlap);
    assert kept + first + [line] == kept + (first + [line]);
    assert [] + [line] == [line];
    if |step.closed| == 0 {
      nextKept, nextFirst := kept, first + [line];
    } else {
      nextKept, nextFirst := if |step.closed| == 1 then tail else [], [line];
    }
  }

  lemma BatchesUnfold(c: Limits, prefix: nat, current: seq<string>, lines: seq<string>)
    requires lines != [] && BatchesFrom(c, prefix, current, lines).Ok?
    ensures var step := TakeLine(c, prefix, current, lines[0]);
            step.Step? && BatchesFrom(c, prefix, step.current, lines[1..]).Ok?
            && BatchesFrom(c, prefix, current, lines).value == step.closed + BatchesFrom(c, prefix, step.current,
                lines[1..]).value
  {}

  lemma {:induction false} SomeBatch(c: Limits, prefix: nat, current: seq<string>, lines: seq<string>)
    requires BatchesFrom(c, prefix, current, lines).Ok? && current != []
    ensures BatchesFrom(c, prefix, current, lines).value != []
    decreases |lines|
  {
    if lines != [] {
      BatchesUnfold(c, prefix, current, lines);
      SomeBatch(c, prefix, TakeLine(c, prefix, current, lines[0]).current, lines[1..]);
    }
  }

  lemma {:induction false} BatchesCover(c: Limits, prefix: nat, kept: seq<string>, first: seq<string>,
                                        lines: seq<string>)
    returns (counts: seq<int>)
    requires ValidLimits(c) && BatchesFrom(c, prefix, kept + first, lines).Ok? && (first == [] ==> kept == [])
    ensures Covers(c, prefix, kept, first + lines, BatchesFrom(c, prefix, kept + first, lines).value, counts)
    decreases |lines|
  {
    if lines == [] {
      assert first + lines == first;
      CoversOne(c, prefix, kept, first);
      counts := if kept + first == [] then [] else [|first|];
    } else {
      BatchesUnfold(c, prefix, kept + first, lines);
      var nextKept, nextFirst := StepFollows(c, prefix, kept, first, lines[0]);
      counts := BatchesCover(c, prefix, nextKept, nextFirst, lines[1..]);
      SomeBatch(c, prefix, nextKept + nextFirst, lines[1..]);
      var step := TakeLine(c, prefix, kept + first, lines[0]);
      counts := CoverStep(c, prefix, kept, first, lines, step, nextKept, nextFirst,
                          BatchesFrom(c, prefix, step.current, lines[1..]).value, counts);
    }
  }

  lemma BatchingCoversLines(c: Limits, prefix: nat, lines: seq<string>) returns (counts: seq<int>)
    requires ValidLimits(c) && BatchesFrom(c, prefix, [], lines).Ok?
    ensures Covers(c, prefix, [], lines, BatchesFrom(c, prefix, [], lines).value, counts)
  {
    var none: seq<string> := [];
    assert none + none == none && none + lines == lines;
    counts := BatchesCover(c, prefix, [], [], lines);
  }

  lemma CoverStep(c: Limits, prefix: nat, kept: seq<string>, first: seq<string>, lines: seq<string>, step: Step,
                  nextKept: seq<string>, nextFirst: seq<string>, others: seq<seq<string>>, counts: seq<int>)
    returns (allCounts: seq<int>)
    requires lines != [] && step.Step? && |step.closed| <= 2
             && Follows(c, prefix, kept, first, lines[0], step, nextKept, nextFirst)
    requires Covers(c, prefix, nextKept, nextFirst + lines[1..], others, counts) && others != []
    ensures Covers(c, prefix, kept, first + lines, step.closed + others, allCounts)
  {
    assert [lines[0]] + lines[1..] == lines;
    if |step.closed| == 0 {
      assert first + [lines[0]] + lines[1..] == first + lines && [] + others == others;
      allCounts := counts;
    } else if |step.closed| == 1 {
      CoversMore(c, prefix, kept, first, nextKept, lines, others, counts);
      allCounts := [|first|] + counts;
    } else {
      CoverTwoClosed(c, prefix, kept, first, lines, others, counts);
      allCounts := [|first|, 0] + counts;
    }
  }

  lemma CoverTwoClosed(c: Limits, prefix: nat, kept: seq<string>, first: seq<string>, lines: seq<string>,
                       others: seq<seq<string>>, counts: seq<int>)
    requires Covers(c, prefix, [], lines, others, counts) && others != [] && lines != []
    requires var tail := Tail(kept + first, c.overlap);
             prefix + Cost(kept + first + [lines[0]]) > c.target && prefix + Cost(tail + [lines[0]]) > c.target
    ensures Covers(c, prefix, kept, first + lines, [kept + first, Tail(kept + first, c.overlap)] + others,
                   [|first|, 0] + counts)
  {
    var tail := Tail(kept + first, c.overlap);
    assert [] + lines == lines && tail + [] == tail;
    CoversMore(c, prefix, tail, [], [], lines, others, counts);
    CoversMore(c, prefix, kept, first, tail, lines, [tail] + others, [0] + counts);
    assert [kept + first] + ([tail] + others) == [kept + first, tail] + others;
    assert [|first|] + ([0] + counts) == [|first|, 0] + counts;
  }

  // ---- Sizes ----

  function HeadingText(title: string, heading: string): string {
    "# " + title + "\n## " + heading
  }

  function PrefixLength(title: string, heading: string): nat {
    |HeadingText(title, heading)| + 2
  }

  function ChunkText(title: string, heading: string, batch: seq<string>): string {
    HeadingText(title, heading) + "\n\n" + Join(batch)
  }

  lemma {:induction false} JoinLength(lines: seq<string>)
    requires lines != []
    ensures |Join(lines)| + 1 == Cost(lines)
  {
    if |lines| > 1 {
      JoinLength(lines[1..]);
    }
  }

  ghost predicate Fits(c: Limits, prefix: nat, batch: seq<string>) {
    batch != [] && prefix + Cost(batch) <= c.hardMax + 1
  }

  lemma StepFits(c: Limits, prefix: nat, current: seq<string>, line: string)
    requires ValidLimits(c) && (current == [] || Fits(c, prefix, current)) && TakeLine(c, prefix, current, line).Step?
    ensures var step := TakeLine(c, prefix, current, line);
            Fits(c, prefix, step.current) && (forall b :: b in step.closed ==> Fits(c, prefix, b)) && |step.closed| <= 2
            && (current == [] ==> step.closed == [])
  {
    var start := TailStart(current, c.overlap, |current|);
    assert current == current[..start] + current[start..];
    CostSplits(current[..start], current[start..]);
  }

  // No batch is empty, none is over the limit, and n lines give at most 2n - 1 of them.
  lemma {:induction false} BatchesFit(c: Limits, prefix: nat, current: seq<string>, lines: seq<string>)
    requires ValidLimits(c) && (current == [] || Fits(c, prefix, current)) && BatchesFrom(c, prefix, current, lines).Ok?
    ensures var batches := BatchesFrom(c, prefix, current, lines).value;
            (forall b :: b in batches ==> Fits(c, prefix, b))
            && |batches| <= if current != [] then 2 * |lines| + 1 else if lines != [] then 2 * |lines| - 1 else 0
    decreases |lines|
  {
    if lines != [] {
      BatchesUnfold(c, prefix, current, lines);
      StepFits(c, prefix, current, lines[0]);
      BatchesFit(c, prefix, TakeLine(c, prefix, current, lines[0]).current, lines[1..]);
    }
  }

  lemma ChunkTextsAreBounded(c: Limits, title: string, heading: string, lines: seq<string>, batch: seq<string>)
    requires ValidLimits(c) && BatchesFrom(c, PrefixLength(title, heading), [], lines).Ok?
    requires batch in BatchesFrom(c, PrefixLength(title, heading), [], lines).value
    ensures |ChunkText(title, heading, batch)| <= c.hardMax
  {
    BatchesFit(c, PrefixLength(title, heading), [], lines);
    JoinLength(batch);
  }

  // ---- When batching succeeds ----

  // A line that fills the limit exactly is accepted only behind a line that is short enough to overlap.
  predicate LineFits(c: Limits, prefix: nat, previous: Option<string>, line: string) {
    || prefix + |line| < c.hardMax
    || (prefix + |line| == c.hardMax && previous.Some? && |previous.value| + 1 <= c.overlap)
  }

  predicate FitsAt(c: Limits, prefix: nat, previous: Option<string>, lines: seq<string>, i: nat)
    requires i < |lines|
  {
    LineFits(c, prefix, if i == 0 then previous else Some(lines[i - 1]), lines[i])
  }

  ghost predicate AllFit(c: Limits, prefix: nat, previous: Option<string>, lines: seq<string>) {
    forall i :: 0 <= i < |lines| ==> FitsAt(c, prefix, previous, lines, i)
  }

  function Last(lines: seq<string>): Option<string> {
    if lines == [] then None else Some(lines[|lines| - 1])
  }

  lemma TailIsEmptyIff(lines: seq<string>, budget: nat)
    ensures Tail(lines, budget) != [] <==> lines != [] && |lines[|lines| - 1]| + 1 <= budget
  {
    if lines != [] {
      assert lines[|lines| - 1..] == [lines[|lines| - 1]];
      CostSplits([], [lines[|lines| - 1]]);
    }
  }

  lemma StepIff(c: Limits, prefix: nat, current: seq<string>, line: string)
    requires ValidLimits(c)
    ensures TakeLine(c, prefix, current, line).Step? <==> LineFits(c, prefix, Last(current), line)
    ensures TakeLine(c, prefix, current, line).Step? ==> Last(TakeLine(c, prefix, current, line).current) == Some(line)
  {
    TailIsEmptyIff(current, c.overlap);
    CostSplits(current, [line]);
    CostSplits(Tail(current, c.overlap), [line]);
    assert [] + [line] == [line];
    assert Cost([line]) == |line| + 1;
  }

  lemma {:induction false} BatchingSucceedsIff(c: Limits, prefix: nat, current: seq<string>, lines: seq<string>)
    requires ValidLimits(c)
    ensures BatchesFrom(c, prefix, current, lines).Ok? <==> AllFit(c, prefix, Last(current), lines)
    decreases |lines|
  {
    if lines != [] {
      var line, rest := lines[0], lines[1..];
      StepIff(c, prefix, current, line);
      AllFitSplits(c, prefix, Last(current), lines);
      if LineFits(c, prefix, Last(current), line) {
        BatchingSucceedsIff(c, prefix, TakeLine(c, prefix, current, line).current, rest);
      }
    }
  }

  lemma AllFitSplits(c: Limits, prefix: nat, previous: Option<string>, lines: seq<string>)
    requires lines != []
    ensures AllFit(c, prefix, previous, lines) <==> LineFits(c, prefix, previous, lines[0])
                                                    && AllFit(c, prefix, Some(lines[0]), lines[1..])
  {
    var rest := lines[1..];
    if LineFits(c, prefix, previous, lines[0]) && AllFit(c, prefix, Some(lines[0]), rest) {
      forall i | 0 <= i < |lines| ensures FitsAt(c, prefix, previous, lines, i) {
        if i > 0 { assert FitsAt(c, prefix, Some(lines[0]), rest, i - 1); }
      }
    }
    if AllFit(c, prefix, previous, lines) {
      assert FitsAt(c, prefix, previous, lines, 0);
      forall i | 0 <= i < |rest| ensures FitsAt(c, prefix, Some(lines[0]), rest, i) {
        assert FitsAt(c, prefix, previous, lines, i + 1);
      }
    }
  }

  // A line that fills the limit exactly is refused alone, and accepted behind a short line.
  lemma ExactLineDependsOnItsPlace(c: Limits, prefix: nat, short: string, line: string)
    requires ValidLimits(c) && prefix + |line| == c.hardMax && prefix + |short| < c.hardMax && |short| + 1 <= c.overlap
    ensures BatchesFrom(c, prefix, [], [line]).Err? && BatchesFrom(c, prefix, [], [short, line]).Ok?
  {
    BatchingSucceedsIff(c, prefix, [], [line]);
    BatchingSucceedsIff(c, prefix, [], [short, line]);
    assert !FitsAt(c, prefix, None, [line], 0);
  }

  // ---- The lines of the batches are the lines ----

  ghost function LinesOf(batches: seq<seq<string>>): set<string> {
    set b, l | b in batches && l in b :: l
  }

  ghost function Members(lines: seq<string>): set<string> {
    set l | l in lines
  }

  lemma LinesOfConcat(a: seq<seq<string>>, b: seq<seq<string>>)
    ensures LinesOf(a + b) == LinesOf(a) + LinesOf(b)
  {}

  lemma StepKeepsLines(c: Limits, prefix: nat, current: seq<string>, line: string)
    requires TakeLine(c, prefix, current, line).Step?
    ensures var step := TakeLine(c, prefix, current, line);
            LinesOf(step.closed) + Members(step.current) == Members(current) + {line}
  {
    var step := TakeLine(c, prefix, current, line);
    forall l | l in current ensures l in LinesOf(step.closed) + Members(step.current) {
      if step.closed != [] { assert current in step.closed; }
    }
  }

  lemma {:induction false} BatchesKeepLines(c: Limits, prefix: nat, current: seq<string>, lines: seq<string>)
    requires BatchesFrom(c, prefix, current, lines).Ok?
    ensures LinesOf(BatchesFrom(c, prefix, current, lines).value) == Members(current) + Members(lines)
    decreases |lines|
  {
    if lines == [] {
      assert current != [] ==> LinesOf([current]) == Members(current);
    } else {
      BatchesUnfold(c, prefix, current, lines);
      var step := TakeLine(c, prefix, current, lines[0]);
      StepKeepsLines(c, prefix, current, lines[0]);
      BatchesKeepLines(c, prefix, step.current, lines[1..]);
      LinesOfConcat(step.closed, BatchesFrom(c, prefix, step.current, lines[1..]).value);
      assert Members(lines) == {lines[0]} + Members(lines[1..]);
    }
  }
}
