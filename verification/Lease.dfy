/** Idempotency leases: one row for each key, taken over when its lease has run out, and fenced by its revision. */
module Lease {
  import opened Prelude

  datatype Status = InProgress | Succeeded | Failed | Unknown

  // `since` is the time of the last change of the row.
  datatype Row = Row(requestHash: string, status: Status, owner: Option<string>, expires: Option<int>,
                     result: Option<string>,
                     attempt: nat, revision: nat, since: int)

  datatype LeaseError =
    | BadDuration
    | RequestDiffers
    | NeedsReconciliation
    | Terminal
    | LeaseHeld
    | StaleRevision
    | Missing
    | NotAllowed
    | ResultMissing

  predicate CanMove(current: Status, target: Status) {
    match current
    case InProgress => !target.InProgress?
    case Unknown => target.Succeeded? || target.Failed?
    case _ => false
  }

  // ---- The statements, on the row as it is and on the row as it was read ----

  // What a call returns, and the row after it.
  datatype Outcome = Outcome(result: Result<Row, LeaseError>, row: Option<Row>)

  function Granted(hash: string, owner: string, now: int, duration: int): Row {
    Row(hash, InProgress, Some(owner), Some(now + duration), None, 1, 1, now)
  }

  function TakenOver(row: Row, owner: string, now: int, duration: int): Row {
    row.(owner := Some(owner), expires := Some(now + duration), attempt := row.attempt + 1,
         revision := row.revision + 1, since := now)
  }

  // Insert, or else read, and then compare and swap.
  function Acquire(row: Option<Row>, seen: Row, hash: string, owner: string, now: int, duration: int): Outcome {
    if duration <= 0 then Outcome(Err(BadDuration), row)
    else if row.None? then
      var first := Granted(hash, owner, now, duration);
      Outcome(Ok(first), Some(first))
    else if seen.requestHash != hash then Outcome(Err(RequestDiffers), row)
    else
      match seen.status
      case Succeeded => Outcome(Ok(seen), row)
      case Unknown => Outcome(Err(NeedsReconciliation), row)
      case Failed => Outcome(Err(Terminal), row)
      case InProgress =>
        if seen.expires.Some? && seen.expires.value > now then Outcome(Err(LeaseHeld), row)
        else if row.value.revision == seen.revision && row.value.status.InProgress? then
          var next := TakenOver(row.value, owner, now, duration).(attempt := seen.attempt + 1);
          Outcome(Ok(next), Some(next))
        else Outcome(Err(StaleRevision), row)
  }

  function Finish(row: Option<Row>, seen: Row, target: Status, expected: nat, reconcile: bool, result: Option<string>,
                  now: int): Outcome
  {
    if row.None? then Outcome(Err(Missing), row)
    else if seen.revision != expected then Outcome(Err(StaleRevision), row)
    else if seen.status.Unknown? && !reconcile then Outcome(Err(NeedsReconciliation), row)
    else if !CanMove(seen.status, target) then Outcome(Err(NotAllowed), row)
    else if row.value.revision != expected then Outcome(Err(StaleRevision), row)
    else
      var next := row.value.(status := target, owner := None, expires := None, result := result,
                             revision := expected + 1, since := now);
      Outcome(Ok(next), Some(next))
  }

  // ---- The repository, when nothing comes between the read and the write ----

  type Key = (string, string)     // scope and idempotency key

  class AuditRepository {
    var leases: map<Key, Row>

    constructor ()
      ensures leases == map[]
    {
      leases := map[];
    }

    ghost function At(key: Key): Option<Row>
      reads this
    {
      if key in leases then Some(leases[key]) else None
    }

    method AcquireIdempotencyKey(key: Key, hash: string, owner: string, duration: int, now: int)
      returns (r: Result<Row, LeaseError>)
      modifies this
      ensures var seen := if key in old(leases) then old(leases)[key] else Granted(hash, owner, now, duration);
              Outcome(r, At(key)) == Acquire(old(At(key)), seen, hash, owner, now, duration)
      ensures leases - {key} == old(leases) - {key}
    {
      if duration <= 0 {
        return Err(BadDuration);
      }
      if key !in leases {
        leases := leases[key := Granted(hash, owner, now, duration)];
        return Ok(leases[key]);
      }
      var existing := leases[key];
      if existing.requestHash != hash {
        return Err(RequestDiffers);
      }
      if existing.status.Succeeded? {
        return Ok(existing);
      }
      if existing.status.Unknown? {
        return Err(NeedsReconciliation);
      }
      if existing.status.Failed? {
        return Err(Terminal);
      }
      if existing.expires.Some? && existing.expires.value > now {
        return Err(LeaseHeld);
      }
      leases := leases[key := TakenOver(existing, owner, now, duration)];
      return Ok(leases[key]);
    }

    method FinishIdempotency(key: Key, target: Status, expected: nat, reconcile: bool, result: Option<string>, now: int)
      returns (r: Result<Row, LeaseError>)
      modifies this
      ensures key !in old(leases) ==> r == Err(Missing) && leases == old(leases)
      ensures key in old(leases) ==>
                Outcome(r, At(key)) == Finish(old(At(key)), old(leases)[key], target, expected, reconcile, result, now)
      ensures leases - {key} == old(leases) - {key}
    {
      if key !in leases {
        return Err(Missing);
      }
      var row := leases[key];
      if row.revision != expected {
        return Err(StaleRevision);
      }
      if row.status.Unknown? && !reconcile {
        return Err(NeedsReconciliation);
      }
      if !CanMove(row.status, target) {
        return Err(NotAllowed);
      }
      leases := leases[key := row.(status := target, owner := None, expires := None, result := result,
                                   revision := expected + 1, since := now)];
      return Ok(leases[key]);
    }

    // A success names its result, which has to be stored already: `entities` are the stored ones.
    method CompleteIdempotentOperation(key: Key, expected: nat, reconcile: bool, result: string,
                                       entities: set<string>, now: int)
      returns (r: Result<Row, LeaseError>)
      modifies this
      ensures result !in entities ==> r == Err(ResultMissing) && leases == old(leases)
      ensures result in entities && key !in old(leases) ==> r == Err(Missing) && leases == old(leases)
      ensures result in entities && key in old(leases) ==>
                Outcome(r, At(key)) == Finish(old(At(key)), old(leases)[key], Status.Succeeded, expected, reconcile,
                                              Some(result), now)
      ensures leases - {key} == old(leases) - {key}
    {
      if result !in entities {
        return Err(ResultMissing);
      }
      r := FinishIdempotency(key, Status.Succeeded, expected, reconcile, Some(result), now);
    }
  }

  // ---- Any interleaving of workers on one key ----

  // Every version that the row ever had. A worker may act on any version that it read before.
  type Log = seq<Row>

  datatype Call =
    | CallAcquire(seen: nat, hash: string, owner: string, now: int, duration: int)
    | CallFinish(seen: nat, target: Status, expected: nat, reconcile: bool, result: Option<string>, now: int)

  function Current(log: Log): Option<Row> {
    if log == [] then None else Some(log[|log| - 1])
  }

  // A read finds some version: while there is none, it does not matter which.
  function Seen(log: Log, seen: nat): Row {
    if seen < |log| then log[seen]
    else if log != [] then log[|log| - 1]
    else Row("", InProgress, None, None, None, 0, 0, 0)
  }

  function Perform(log: Log, c: Call): Outcome {
    match c
    case CallAcquire(seen, hash, owner, now, duration) =>
      Acquire(Current(log), Seen(log, seen), hash, owner, now, duration)
    case CallFinish(seen, target, expected, reconcile, result, now) =>
      Finish(Current(log), Seen(log, seen), target, expected, reconcile, result, now)
  }

  function Next(log: Log, c: Call): Log {
    var after := Perform(log, c).row;
    if after == Current(log) || after.None? then log else log + [after.value]
  }

  function Run(calls: seq<Call>): Log {
    if calls == [] then [] else Next(Run(calls[..|calls| - 1]), calls[|calls| - 1])
  }

  // ---- What every run keeps ----

  predicate Done(s: Status) {
    s.Succeeded? || s.Failed?
  }

  ghost predicate RowInv(log: Log, i: nat)
    requires i < |log|
  {
    var row := log[i];
    && row.revision == i + 1 && 1 <= row.attempt <= row.revision
    && row.requestHash == log[0].requestHash
    && (row.status.InProgress? ==> row.attempt == row.revision && row.owner.Some? && row.expires.Some?
                                   && row.since < row.expires.value && row.result.None?)
    && (!row.status.InProgress? ==> row.owner.None? && row.expires.None?)
    && (i == 0 ==> row.status.InProgress?)
    && (i > 0 && row.status.InProgress? ==> log[i - 1].status.InProgress? && log[i - 1].expires.Some?
                                            && log[i - 1].expires.value <= row.since)
    && (i > 0 && !row.status.InProgress? ==> CanMove(log[i - 1].status, row.status)
                                             && row.attempt == log[i - 1].attempt)
  }

  ghost predicate LogInv(log: Log) {
    forall i :: 0 <= i < |log| ==> RowInv(log, i)
  }

  // Revisions are never used twice, so a compare and swap that succeeds acted on the newest version.
  lemma StaleReadsLose(log: Log, seen: nat)
    requires LogInv(log) && log != [] && Seen(log, seen).revision == log[|log| - 1].revision
    ensures Seen(log, seen) == log[|log| - 1]
  {
    assert RowInv(log, |log| - 1);
    if seen < |log| { assert RowInv(log, seen); }
  }

  lemma NextKeepsInv(log: Log, c: Call)
    requires LogInv(log)
    ensures LogInv(Next(log, c)) && log <= Next(log, c) && |Next(log, c)| <= |log| + 1
    ensures Next(log, c) == log <==> Perform(log, c).row == Current(log)
  {
    var next := Next(log, c);
    if log != [] {
      assert RowInv(log, |log| - 1);
      if c.seen < |log| { assert RowInv(log, c.seen); }
      if Seen(log, c.seen).revision == log[|log| - 1].revision { StaleReadsLose(log, c.seen); }
    }
    if |next| > |log| {
      assert RowInv(next, |log|);
      forall i | 0 <= i < |log| ensures RowInv(next, i) {
        assert RowInv(log, i);
      }
    }
  }

  lemma {:induction false} RunsKeepInv(calls: seq<Call>)
    ensures LogInv(Run(calls))
  {
    if calls != [] {
      RunsKeepInv(calls[..|calls| - 1]);
      NextKeepsInv(Run(calls[..|calls| - 1]), calls[|calls| - 1]);
    }
  }

  // ---- Fencing ----

  // While the operation is in progress, the attempt, the revision and the number of grants agree.
  lemma AttemptIsRevision(calls: seq<Call>)
    ensures var log := Run(calls);
            log != [] && log[|log| - 1].status.InProgress? ==>
              log[|log| - 1].attempt == log[|log| - 1].revision == |log|
              && forall i :: 0 <= i < |log| ==> log[i].status.InProgress?
  {
    RunsKeepInv(calls);
    var log := Run(calls);
    if log != [] && log[|log| - 1].status.InProgress? {
      assert RowInv(log, |log| - 1);
      AllInProgressBefore(log, |log| - 1);
    }
  }

  lemma {:induction false} AllInProgressBefore(log: Log, i: nat)
    requires LogInv(log) && i < |log| && log[i].status.InProgress?
    ensures forall j :: 0 <= j <= i ==> log[j].status.InProgress?
  {
    assert RowInv(log, i);
    if i > 0 { AllInProgressBefore(log, i - 1); }
  }

  // The revision that a grant hands out.
  ghost predicate Grants(log: Log, c: Call) {
    c.CallAcquire? && Perform(log, c).result.Ok? && Next(log, c) != log
  }

  ghost predicate Finishes(log: Log, c: Call) {
    c.CallFinish? && Perform(log, c).result.Ok?
  }

  lemma GrantIff(calls: seq<Call>, c: Call)
    requires c.CallAcquire?
    ensures var log := Run(calls);
            Grants(log, c) <==>
              c.duration > 0 && (log == [] || (var last := log[|log| - 1];
                Seen(log, c.seen) == last && last.requestHash == c.hash && last.status.InProgress?
                    && last.expires.Some? && last.expires.value <= c.now))
    ensures Grants(Run(calls), c) ==> Perform(Run(calls), c).result.value.revision == |Run(calls)| + 1
  {
    RunsKeepInv(calls);
    var log := Run(calls);
    if log != [] {
      assert RowInv(log, |log| - 1);
      if c.seen < |log| { assert RowInv(log, c.seen); }
      if Seen(log, c.seen).revision == log[|log| - 1].revision { StaleReadsLose(log, c.seen); }
    }
  }

  // A finish from IN_PROGRESS needs the revision of the latest grant: any earlier holder is refused.
  lemma OnlyTheLatestGrantFinishes(calls: seq<Call>, c: Call)
    requires Finishes(Run(calls), c) && Run(calls)[|Run(calls)| - 1].status.InProgress?
    ensures var log := Run(calls);
      c.expected == |log| && forall i :: 0 <= i < |log| - 1 ==> log[i].revision != c.expected
    ensures Next(Run(calls), c) == Run(calls) + [Perform(Run(calls), c).result.value]
  {
    RunsKeepInv(calls);
    var log := Run(calls);
    assert RowInv(log, |log| - 1);
    forall i | 0 <= i < |log| - 1 ensures log[i].revision != c.expected {
      assert RowInv(log, i);
    }
  }

  // A change of the row out of IN_PROGRESS.
  ghost predicate EndsAt(log: Log, i: nat) {
    i + 1 < |log| && log[i].status.InProgress? && !log[i + 1].status.InProgress?
  }

  lemma AtMostOneEnd(calls: seq<Call>, i: nat, j: nat)
    requires EndsAt(Run(calls), i) && EndsAt(Run(calls), j)
    ensures i == j
  {
    RunsKeepInv(calls);
    var log := Run(calls);
    AllInProgressBefore(log, i);
    AllInProgressBefore(log, j);
  }

  // Once the row says SUCCEEDED or FAILED, no call ever changes it.
  lemma {:induction false} DoneIsForever(calls: seq<Call>, more: seq<Call>)
    requires Run(calls) != [] && Done(Run(calls)[|Run(calls)| - 1].status)
    ensures Run(calls + more) == Run(calls)
    decreases |more|
  {
    if more == [] {
      assert calls + more == calls;
    } else {
      var init, last := more[..|more| - 1], more[|more| - 1];
      DoneIsForever(calls, init);
      RunsKeepInv(calls);
      DoneStays(Run(calls), last);
      RunOneMore(calls + init, last);
      assert calls + more == calls + init + [last];
    }
  }

  lemma RunOneMore(calls: seq<Call>, c: Call)
    ensures Run(calls + [c]) == Next(Run(calls), c)
  {
    assert (calls + [c])[..|calls|] == calls;
  }

  lemma DoneStays(log: Log, c: Call)
    requires LogInv(log) && log != [] && Done(log[|log| - 1].status)
    ensures Next(log, c) == log
  {
    assert RowInv(log, |log| - 1);
    if Seen(log, c.seen).revision == log[|log| - 1].revision { StaleReadsLose(log, c.seen); }
  }

  // The lease windows [since, expires) of any two grants are disjoint, whatever the clocks of the workers say.
  lemma {:induction false} WindowsAreDisjoint(calls: seq<Call>, i: nat, j: nat)
    requires i < j < |Run(calls)| && Run(calls)[i].status.InProgress? && Run(calls)[j].status.InProgress?
    ensures Run(calls)[i].expires.Some? && Run(calls)[i].expires.value <= Run(calls)[j].since
    decreases j
  {
    RunsKeepInv(calls);
    var log := Run(calls);
    assert RowInv(log, i) && RowInv(log, j);
    if i + 1 < j {
      assert RowInv(log, j - 1);
      WindowsAreDisjoint(calls, i, j - 1);
    }
  }

  // Every grant is for one and the same request, and a replay returns the stored success.
  lemma OneRequestPerKey(calls: seq<Call>, c: Call)
    requires c.CallAcquire? && Perform(Run(calls), c).result.Ok? && Run(calls) != []
    ensures c.hash == Run(calls)[0].requestHash
    ensures !Grants(Run(calls), c) ==>
      var log := Run(calls);
      log[|log| - 1] == Perform(log, c).result.value && log[|log| - 1].status.Succeeded?
  {
    RunsKeepInv(calls);
    var log := Run(calls);
    assert RowInv(log, |log| - 1);
    if c.seen < |log| {
      assert RowInv(log, c.seen);
      if log[c.seen].status.Succeeded? { SucceededIsLast(log, c.seen); }
    }
  }

  lemma SucceededIsLast(log: Log, i: nat)
    requires LogInv(log) && i < |log| && Done(log[i].status)
    ensures i == |log| - 1
  {
    assert i + 1 < |log| ==> RowInv(log, i + 1);
  }

  // A worker that died holding the lease blocks the key only until the lease runs out.
  lemma ExpiredLeaseIsTakenOver(calls: seq<Call>, c: Call)
    requires c.CallAcquire? && c.duration > 0 && Run(calls) != []
    requires var last := Run(calls)[|Run(calls)| - 1];
             last.status.InProgress? && last.requestHash == c.hash && last.expires.Some? && last.expires.value <= c.now
    requires c.seen == |Run(calls)| - 1
    ensures Grants(Run(calls), c)
  {
    GrantIff(calls, c);
  }

  // ---- What the stored row says ----

  // A grant is stored for the worker, from now on for as long as it asked, and counts as one more attempt.
  lemma GrantStores(calls: seq<Call>, c: Call)
    requires Grants(Run(calls), c)
    ensures var log, next := Run(calls), Next(Run(calls), c);
      && |next| == |log| + 1 && next[..|log|] == log && Perform(log, c).result == Ok(next[|log|])
      && var row := next[|log|];
      && row.status.InProgress? && row.requestHash == c.hash && row.result.None?
      && row.owner == Some(c.owner) && row.since == c.now && row.expires == Some(c.now + c.duration)
      && row.revision == |log| + 1 && row.attempt == if log == [] then 1 else log[|log| - 1].attempt + 1
  {
    RunsKeepInv(calls);
    GrantIff(calls, c);
    var log := Run(calls);
    if log != [] { assert RowInv(log, |log| - 1); }
  }

  // A finish is accepted exactly for the newest row, read as it is: from IN_PROGRESS to any other status, or
  // from UNKNOWN to a final one by a worker that reconciles.
  lemma FinishIff(calls: seq<Call>, c: Call)
    requires c.CallFinish?
    ensures var log := Run(calls);
      Finishes(log, c) <==>
        log != [] && var last := log[|log| - 1];
        && Seen(log, c.seen) == last && c.expected == |log|
        && ((last.status == InProgress && c.target != InProgress)
            || (last.status == Unknown && c.reconcile && (c.target == Succeeded || c.target == Failed)))
  {
    RunsKeepInv(calls);
    var log := Run(calls);
    if log != [] {
      assert RowInv(log, |log| - 1);
      if c.seen < |log| { assert RowInv(log, c.seen); }
      if Seen(log, c.seen).revision == log[|log| - 1].revision { StaleReadsLose(log, c.seen); }
    }
  }

  // It stores the status and the result that it was given, and gives the lease up.
  lemma FinishStores(calls: seq<Call>, c: Call)
    requires Finishes(Run(calls), c)
    ensures var log, next := Run(calls), Next(Run(calls), c);
      && log != [] && next == log + [next[|log|]] && Perform(log, c).result == Ok(next[|log|])
      && var row, last := next[|log|], log[|log| - 1];
      && row.status == c.target && row.result == c.result && row.owner.None? && row.expires.None?
      && row.since == c.now && row.revision == |log| + 1
      && row.attempt == last.attempt && row.requestHash == last.requestHash
  {
    RunsKeepInv(calls);
    FinishIff(calls, c);
    var log := Run(calls);
    assert RowInv(log, |log| - 1);
  }

  // A refused call, and a replay, store nothing.
  lemma OthersStoreNothing(calls: seq<Call>, c: Call)
    requires !Grants(Run(calls), c) && !Finishes(Run(calls), c)
    ensures Next(Run(calls), c) == Run(calls)
  {
  }
}
