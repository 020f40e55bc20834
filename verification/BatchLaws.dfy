/** The batches of a section, told without the loop: how each begins, how full it is, and when it ends. */
module BatchLaws {
  import opened Prelude
  import opened Text
  import opened Sections
  import opened Batches

  // A batch of `kept` and n new lines. A second new line keeps it within the target. A first one keeps it within
  // the hard limit, or is alone and fills what the heading leaves. Without a new line, the next one had no room.
  ghost predicate Filled(c: Limits, prefix: nat, kept: seq<string>, lines: seq<string>, n: nat)
    requires n <= |lines|
  {
    var size := prefix + Cost(kept + lines[..n]);
    && (n >= 2 ==> size <= c.target)
    && (n == 1 ==> size <= c.hardMax || (kept == [] && prefix + |lines[0]| <= c.hardMax))
    && (n == 0 ==> kept != [] && lines != [] && prefix + Cost(kept + [lines[0]]) > c.hardMax)
  }

  // What the next batch begins with: the longest end of this one that the overlap affords. An end that had to
  // be a batch of its own is not carried over once more.
  ghost predicate Carried(c: Limits, batch: seq<string>, n: nat, nextKept: seq<string>) {
    if n == 0 then nextKept == []
    else
      && IsSuffix(nextKept, batch) && Cost(nextKept) <= c.overlap
      && forall s :: IsSuffix(s, batch) && Cost(s) <= c.overlap ==> |s| <= |nextKept|
  }

  // These batches take up all lines in order, with so many new ones each. A batch ends when the next line would
  // take it over the target, and not before.
  ghost predicate Greedy(c: Limits, prefix: nat, kept: seq<string>, lines: seq<string>, batches: seq<seq<string>>,
                         counts: seq<int>)
    decreases |batches|
  {
    && |batches| == |counts|
    && if batches == [] then kept == [] && lines == []
       else
         var n := counts[0];
         && 0 <= n <= |lines| && batches[0] == kept + lines[..n] && Filled(c, prefix, kept, lines, n)
         && if |batches| == 1 then n == |lines|
            else
              && n < |lines| && (n > 0 ==> prefix + Cost(batches[0] + [lines[n]]) > c.target)
              && 0 <= counts[1] <= |batches[1]|
              && var nextKept := batches[1][..|batches[1]| - counts[1]];
                 Carried(c, batches[0], n, nextKept)
                 && Greedy(c, prefix, nextKept, lines[n..], batches[1..], counts[1..])
  }

  // The batch under way: either nothing yet, or some new lines behind the overlap.
  ghost predicate UnderWay(c: Limits, prefix: nat, kept: seq<string>, first: seq<string>) {
    if first == [] then kept == [] else Filled(c, prefix, kept, first, |first|)
  }

  lemma FilledPart(c: Limits, prefix: nat, kept: seq<string>, first: seq<string>, lines: seq<string>)
    requires first != [] && Filled(c, prefix, kept, first, |first|)
    ensures Filled(c, prefix, kept, first + lines, |first|)
  {
    assert (first + lines)[..|first|] == first[..|first|];
  }

  lemma LastBatch(c: Limits, prefix: nat, kept: seq<string>, first: seq<string>)
    requires first != [] && Filled(c, prefix, kept, first, |first|)
    ensures Greedy(c, prefix, kept, first, [kept + first], [|first|])
  {
    assert first[..|first|] == first;
  }

  // One batch in front of greedy ones.
  lemma GreedyMore(c: Limits, prefix: nat, kept: seq<string>, n: nat, all: seq<string>, batches: seq<seq<string>>,
                   counts: seq<int>)
    requires |batches| > 1 && |counts| == |batches| && counts[0] == n && n < |all|
    requires batches[0] == kept + all[..n] && Filled(c, prefix, kept, all, n) && 0 <= counts[1] <= |batches[1]|
    requires n > 0 ==> prefix + Cost(batches[0] + [all[n]]) > c.target
    requires var nextKept := batches[1][..|batches[1]| - counts[1]];
      Carried(c, batches[0], n, nextKept) && Greedy(c, prefix, nextKept, all[n..], batches[1..], counts[1..])
    ensures Greedy(c, prefix, kept, all, batches, counts)
  {
  }

  lemma ClosedBatch(c: Limits, prefix: nat, kept: seq<string>, first: seq<string>, nextKept: seq<string>,
                    lines: seq<string>, batches: seq<seq<string>>, counts: seq<int>)
    requires batches != [] && lines != [] && Greedy(c, prefix, nextKept, lines, batches, counts)
    requires Filled(c, prefix, kept, first + lines, |first|) && Carried(c, kept + first, |first|, nextKept)
    requires first != [] ==> prefix + Cost(kept + first + [lines[0]]) > c.target
    ensures Greedy(c, prefix, kept, first + lines, [kept + first] + batches, [|first|] + counts)
  {
    var n: nat := |first|;
    var all, allBatches := first + lines, [kept + first] + batches;
    var allCounts: seq<int> := [n] + counts;
    assert all[..n] == first && all[n..] == lines;
    assert allBatches[1..] == batches && allCounts[1..] == counts;
    assert batches[0] == nextKept + lines[..counts[0]];
    assert allBatches[1][..|allBatches[1]| - allCounts[1]] == nextKept;
    GreedyMore(c, prefix, kept, n, all, allBatches, allCounts);
  }

  // A line is added: then it kept the batch within the target, or it is the first one.
  lemma AddedLine(c: Limits, prefix: nat, kept: seq<string>, first: seq<string>, line: string)
    requires ValidLimits(c) && UnderWay(c, prefix, kept, first)
    requires TakeLine(c, prefix, kept + first, line).Step? && TakeLine(c, prefix, kept + first, line).closed == []
    ensures UnderWay(c, prefix, kept, first + [line])
    ensures TakeLine(c, prefix, kept + first, line).current == kept + (first + [line])
  {
    assert kept + first + [line] == kept + (first + [line]);
    assert (first + [line])[..|first| + 1] == first + [line];
  }

  lemma TailIsCarried(c: Limits, batch: seq<string>, n: nat)
    requires n > 0
    ensures Carried(c, batch, n, Tail(batch, c.overlap))
  {
    TailIsLongest(batch, c.overlap);
  }

  lemma StartedBatch(c: Limits, prefix: nat, current: seq<string>, line: string)
    requires ValidLimits(c) && TakeLine(c, prefix, current, line).Step?
    requires TakeLine(c, prefix, current, line).closed != []
    ensures var step, tail := TakeLine(c, prefix, current, line), Tail(current, c.overlap);
      && current != [] && prefix + Cost(current + [line]) > c.target
      && if |step.closed| == 1
         then step.closed == [current] && step.current == tail + [line] && UnderWay(c, prefix, tail, [line])
         else step.closed == [current, tail] && step.current == [] + [line] && UnderWay(c, prefix, [], [line])
              && tail != [] && prefix + Cost(tail + [line]) > c.hardMax
  {
    assert [line][..1] == [line] && [] + [line] == [line];
  }

  lemma OneClosed(c: Limits, prefix: nat, kept: seq<string>, first: seq<string>, lines: seq<string>,
                  others: seq<seq<string>>, counts: seq<int>)
    requires first != [] && Filled(c, prefix, kept, first, |first|) && lines != [] && others != []
    requires prefix + Cost(kept + first + [lines[0]]) > c.target
    requires Greedy(c, prefix, Tail(kept + first, c.overlap), lines, others, counts)
    ensures Greedy(c, prefix, kept, first + lines, [kept + first] + others, [|first|] + counts)
  {
    FilledPart(c, prefix, kept, first, lines);
    TailIsCarried(c, kept + first, |first|);
    ClosedBatch(c, prefix, kept, first, Tail(kept + first, c.overlap), lines, others, counts);
  }

  // The overlap had no room for the next line, and was a batch of its own.
  lemma TailClosed(c: Limits, prefix: nat, tail: seq<string>, lines: seq<string>, others: seq<seq<string>>,
                   counts: seq<int>)
    requires tail != [] && lines != [] && others != [] && prefix + Cost(tail + [lines[0]]) > c.hardMax
    requires Greedy(c, prefix, [], lines, others, counts)
    ensures Greedy(c, prefix, tail, lines, [tail] + others, [0] + counts)
  {
    var none: seq<string> := [];
    assert none + lines == lines && tail + none == tail;
    ClosedBatch(c, prefix, tail, none, none, lines, others, counts);
  }

  lemma TwoInFront<T>(a: T, b: T, rest: seq<T>)
    ensures [a] + ([b] + rest) == [a, b] + rest
  {
  }

  lemma FirstMovesOver<T>(first: seq<T>, lines: seq<T>)
    requires lines != []
    ensures first + [lines[0]] + lines[1..] == first + lines && [lines[0]] + lines[1..] == lines
  {
  }

  lemma {:induction false} BatchesAreGreedy(c: Limits, prefix: nat, kept: seq<string>, first: seq<string>,
                                            lines: seq<string>)
    returns (counts: seq<int>)
    requires ValidLimits(c) && UnderWay(c, prefix, kept, first) && BatchesFrom(c, prefix, kept + first, lines).Ok?
    ensures Greedy(c, prefix, kept, first + lines, BatchesFrom(c, prefix, kept + first, lines).value, counts)
    decreases |lines|, 1
  {
    if lines == [] {
      counts := EndIsGreedy(c, prefix, kept, first, lines);
    } else {
      BatchesUnfold(c, prefix, kept + first, lines);
      if TakeLine(c, prefix, kept + first, lines[0]).closed == [] {
        counts := AddingIsGreedy(c, prefix, kept, first, lines);
      } else {
        counts := ClosingIsGreedy(c, prefix, kept, first, lines);
      }
    }
  }

  lemma EndIsGreedy(c: Limits, prefix: nat, kept: seq<string>, first: seq<string>, lines: seq<string>)
    returns (counts: seq<int>)
    requires UnderWay(c, prefix, kept, first) && lines == []
    ensures Greedy(c, prefix, kept, first + lines, BatchesFrom(c, prefix, kept + first, lines).value, counts)
  {
    assert first + lines == first;
    if first == [] {
      counts := [];
    } else {
      LastBatch(c, prefix, kept, first);
      counts := [|first|];
    }
  }

  lemma {:induction false} AddingIsGreedy(c: Limits, prefix: nat, kept: seq<string>, first: seq<string>,
                                          lines: seq<string>)
    returns (counts: seq<int>)
    requires ValidLimits(c) && UnderWay(c, prefix, kept, first) && BatchesFrom(c, prefix, kept + first, lines).Ok?
    requires lines != [] && TakeLine(c, prefix, kept + first, lines[0]).Step?
    requires TakeLine(c, prefix, kept + first, lines[0]).closed == []
    ensures Greedy(c, prefix, kept, first + lines, BatchesFrom(c, prefix, kept + first, lines).value, counts)
    decreases |lines|, 0
  {
    BatchesUnfold(c, prefix, kept + first, lines);
    AddedLine(c, prefix, kept, first, lines[0]);
    var longer := first + [lines[0]];
    FirstMovesOver(first, lines);
    NothingBefore(BatchesFrom(c, prefix, kept + longer, lines[1..]));
    counts := BatchesAreGreedy(c, prefix, kept, longer, lines[1..]);
  }

  lemma {:induction false} ClosingIsGreedy(c: Limits, prefix: nat, kept: seq<string>, first: seq<string>,
                                           lines: seq<string>)
    returns (counts: seq<int>)
    requires ValidLimits(c) && UnderWay(c, prefix, kept, first) && BatchesFrom(c, prefix, kept + first, lines).Ok?
    requires lines != [] && TakeLine(c, prefix, kept + first, lines[0]).Step?
    requires TakeLine(c, prefix, kept + first, lines[0]).closed != []
    ensures Greedy(c, prefix, kept, first + lines, BatchesFrom(c, prefix, kept + first, lines).value, counts)
    decreases |lines|, 0
  {
    BatchesUnfold(c, prefix, kept + first, lines);
    var step, tail := TakeLine(c, prefix, kept + first, lines[0]), Tail(kept + first, c.overlap);
    var others := BatchesFrom(c, prefix, step.current, lines[1..]).value;
    StartedBatch(c, prefix, kept + first, lines[0]);
    SomeBatch(c, prefix, step.current, lines[1..]);
    FirstMovesOver([], lines);
    var nextKept := if |step.closed| == 1 then tail else [];
    var more := BatchesAreGreedy(c, prefix, nextKept, [lines[0]], lines[1..]);
    if |step.closed| == 1 {
      OneClosed(c, prefix, kept, first, lines, others, more);
      counts := [|first|] + more;
    } else {
      TailClosed(c, prefix, tail, lines, others, more);
      counts := [0] + more;
      OneClosed(c, prefix, kept, first, lines, [tail] + others, counts);
      counts := [|first|] + counts;
      TwoInFront(kept + first, tail, others);
    }
  }

  // The batching of a section is greedy.
  lemma BatchingIsGreedy(c: Limits, prefix: nat, lines: seq<string>) returns (counts: seq<int>)
    requires ValidLimits(c) && BatchesFrom(c, prefix, [], lines).Ok?
    ensures Greedy(c, prefix, [], lines, BatchesFrom(c, prefix, [], lines).value, counts)
  {
    var none: seq<string> := [];
    assert none + none == none && none + lines == lines;
    counts := BatchesAreGreedy(c, prefix, none, none, lines);
  }

  // And no other batches are: what the predicate says leaves no choice.
  lemma {:induction false} GreedyIsUnique(c: Limits, prefix: nat, kept: seq<string>, lines: seq<string>,
                                          a: seq<seq<string>>, counts: seq<int>, b: seq<seq<string>>, others: seq<int>)
    requires ValidLimits(c)
    requires Greedy(c, prefix, kept, lines, a, counts) && Greedy(c, prefix, kept, lines, b, others)
    ensures a == b
    decreases |a|, 1
  {
    NothingIsBatched(c, prefix, kept, lines, a, counts);
    NothingIsBatched(c, prefix, kept, lines, b, others);
    if a != [] {
      SameCount(c, prefix, kept, lines, a, counts, b, others);
      if |a| > 1 {
        RestUnique(c, prefix, kept, lines, a, counts, b, others);
      }
      SameSeq(a, b);
    }
  }

  lemma {:induction false} RestUnique(c: Limits, prefix: nat, kept: seq<string>, lines: seq<string>,
                                      a: seq<seq<string>>, counts: seq<int>, b: seq<seq<string>>, others: seq<int>)
    requires ValidLimits(c) && |a| > 1 && |b| > 1
    requires Greedy(c, prefix, kept, lines, a, counts) && Greedy(c, prefix, kept, lines, b, others)
    requires |counts| > 0 && |others| > 0 && counts[0] == others[0] && a[0] == b[0]
    ensures a[1..] == b[1..]
    decreases |a|, 0
  {
    var x := GreedyRest(c, prefix, kept, lines, a, counts);
    var y := GreedyRest(c, prefix, kept, lines, b, others);
    SameCarried(c, a[0], counts[0], x, y);
    GreedyIsUnique(c, prefix, x, lines[counts[0]..], a[1..], counts[1..], b[1..], others[1..]);
  }

  lemma GreedyRest(c: Limits, prefix: nat, kept: seq<string>, lines: seq<string>, a: seq<seq<string>>,
                   counts: seq<int>)
    returns (nextKept: seq<string>)
    requires Greedy(c, prefix, kept, lines, a, counts) && |a| > 1
    ensures |counts| == |a| && 0 <= counts[0] <= |lines| && Carried(c, a[0], counts[0], nextKept)
    ensures Greedy(c, prefix, nextKept, lines[counts[0]..], a[1..], counts[1..])
  {
    nextKept := a[1][..|a[1]| - counts[1]];
  }

  lemma SameSeq<T>(a: seq<T>, b: seq<T>)
    requires a != [] && b != [] && a[0] == b[0] && (|a| == 1 <==> |b| == 1) && (|a| > 1 ==> a[1..] == b[1..])
    ensures a == b
  {
    assert a == [a[0]] + a[1..] && b == [b[0]] + b[1..];
  }

  lemma NothingIsBatched(c: Limits, prefix: nat, kept: seq<string>, lines: seq<string>, a: seq<seq<string>>,
                         counts: seq<int>)
    requires Greedy(c, prefix, kept, lines, a, counts)
    ensures a == [] <==> kept == [] && lines == []
  {
  }

  lemma SameCarried(c: Limits, batch: seq<string>, n: nat, x: seq<string>, y: seq<string>)
    requires Carried(c, batch, n, x) && Carried(c, batch, n, y)
    ensures x == y
  {
  }

  // Both first batches take the same number of new lines.
  lemma SameCount(c: Limits, prefix: nat, kept: seq<string>, lines: seq<string>, a: seq<seq<string>>,
                  counts: seq<int>, b: seq<seq<string>>, others: seq<int>)
    requires ValidLimits(c) && a != [] && b != []
    requires Greedy(c, prefix, kept, lines, a, counts) && Greedy(c, prefix, kept, lines, b, others)
    ensures |counts| > 0 && |others| > 0 && counts[0] == others[0] && a[0] == b[0] && (|a| == 1 <==> |b| == 1)
  {
    if counts[0] < others[0] {
      NotFewer(c, prefix, kept, lines, counts[0], others[0]);
    } else if others[0] < counts[0] {
      NotFewer(c, prefix, kept, lines, others[0], counts[0]);
    }
  }

  // A batch cannot end at m new lines and just as well take n more than that.
  lemma NotFewer(c: Limits, prefix: nat, kept: seq<string>, lines: seq<string>, m: nat, n: nat)
    requires ValidLimits(c) && m < n <= |lines| && Filled(c, prefix, kept, lines, m)
    requires m > 0 ==> prefix + Cost(kept + lines[..m] + [lines[m]]) > c.target
    ensures !Filled(c, prefix, kept, lines, n)
  {
    assert kept + lines[..m] + [lines[m]] == kept + lines[..m + 1];
    assert kept + lines[..n] == kept + lines[..m + 1] + lines[m + 1..n];
    CostSplits(kept + lines[..m + 1], lines[m + 1..n]);
    if m == 0 {
      assert kept + [lines[0]] == kept + lines[..1];
    }
  }
}
