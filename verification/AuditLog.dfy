/** The append-only operation log: for each operation, a chain of entries linked by hash. */
module AuditLog {
  import opened Prelude

  // What the hash of an entry covers. The documents are taken as their canonical text.
  datatype Content = Content(operation: string, step: nat, actor: string, action: string, target: string,
                             before: string, after: string,
                             previous: Option<string>, createdAt: int)

  datatype Entry = Entry(content: Content, hash: string)

  type Digest = Content -> string

  datatype AuditError = TargetMissing | BrokenChain | WrongHash | DuplicateHash | OtherNote

  type Log = seq<Entry>

  // ---- Appending ----

  // ORDER BY step_number DESC LIMIT 1
  function Latest(log: Log, operation: string): Option<Entry> {
    if log == [] then None
    else
      var before, last := Latest(log[..|log| - 1], operation), log[|log| - 1];
      if last.content.operation != operation then before
      else if before.Some? && before.value.content.step > last.content.step then before
      else Some(last)
  }

  function NextStep(latest: Option<Entry>): nat {
    if latest.None? then 0 else latest.value.content.step + 1
  }

  function Link(latest: Option<Entry>): Option<string> {
    if latest.None? then None else Some(latest.value.hash)
  }

  function Append(log: Log, e: Entry, digest: Digest, targetExists: bool): Result<Log, AuditError> {
    var latest := Latest(log, e.content.operation);
    if !targetExists then Err(TargetMissing)
    else if e.content.step != NextStep(latest) || e.content.previous != Link(latest) then Err(BrokenChain)
    else if e.hash != digest(e.content) then Err(WrongHash)
    else if exists o :: o in log && o.hash == e.hash then Err(DuplicateHash)
    else Ok(log + [e])
  }

  // How the lifecycle services write: a repeated action is written once.
  function Record(log: Log, operation: string, action: string, note: string, before: string, after: string, now: int,
                  digest: Digest, noteExists: bool): Result<Log, AuditError>
  {
    var latest := Latest(log, operation);
    if latest.Some? && latest.value.content.target != note then Err(OtherNote)
    else if latest.Some? && latest.value.content.action == action then Ok(log)
    else
      var content := Content(operation, NextStep(latest), "SYSTEM", action, note, before, after, Link(latest), now);
      Append(log, Entry(content, digest(content)), digest, noteExists)
  }

  class OperationLog {
    var entries: Log
    const digest: Digest

    constructor (digest: Digest)
      ensures entries == [] && this.digest == digest
    {
      entries := [];
      this.digest := digest;
    }

    method GetLatest(operation: string) returns (latest: Option<Entry>)
      ensures latest == Latest(entries, operation)
    {
      latest := None;
      for i := 0 to |entries|
        invariant latest == Latest(entries[..i], operation)
      {
        var e := entries[i];
        assert entries[..i + 1][..i] == entries[..i];
        if e.content.operation == operation && (latest.None? || latest.value.content.step <= e.content.step) {
          latest := Some(e);
        }
      }
      assert entries[..|entries|] == entries;
    }

    method AppendOperationLog(e: Entry, targetExists: bool) returns (r: Result<(), AuditError>)
      modifies this
      ensures Append(old(entries), e, digest, targetExists) == if r.Ok? then Ok(entries) else Err(r.error)
      ensures r.Err? ==> entries == old(entries)
    {
      if !targetExists {
        return Err(TargetMissing);
      }
      var previous := GetLatest(e.content.operation);
      if e.content.step != NextStep(previous) || e.content.previous != Link(previous) {
        return Err(BrokenChain);
      }
      if e.hash != digest(e.content) {
        return Err(WrongHash);
      }
      if exists o :: o in entries && o.hash == e.hash {
        return Err(DuplicateHash);
      }
      entries := entries + [e];
      return Ok(());
    }

    method AppendAudit(operation: string, action: string, note: string, before: string, after: string, now: int,
                       noteExists: bool)
      returns (r: Result<(), AuditError>)
      modifies this
      ensures Record(old(entries), operation, action, note, before, after, now, digest,
                     noteExists) == if r.Ok? then Ok(entries) else Err(r.error)
      ensures r.Err? ==> entries == old(entries)
    {
      var previous := GetLatest(operation);
      if previous.Some? && previous.value.content.target != note {
        return Err(OtherNote);
      }
      if previous.Some? && previous.value.content.action == action {
        return Ok(());
      }
      var content := Content(operation, NextStep(previous), "SYSTEM", action, note, before, after, Link(previous), now);
      r := AppendOperationLog(Entry(content, digest(content)), noteExists);
    }
  }

  // ---- The chain of an operation ----

  function Chain(log: Log, operation: string): Log {
    if log == [] then []
    else
      var before, last := Chain(log[..|log| - 1], operation), log[|log| - 1];
      if last.content.operation == operation then before + [last] else before
  }

  // Steps 0, 1, 2, ..., each linked to the hash of the one before.
  ghost predicate Linked(chain: Log, operation: string, digest: Digest) {
    forall i :: 0 <= i < |chain| ==> LinkedAt(chain, i, operation, digest)
  }

  ghost predicate LinkedAt(chain: Log, i: nat, operation: string, digest: Digest)
    requires i < |chain|
  {
    && chain[i].content.operation == operation && chain[i].content.step == i
        && chain[i].hash == digest(chain[i].content)
    && chain[i].content.previous == if i == 0 then None else Some(chain[i - 1].hash)
  }

  lemma PrefixIsLinked(chain: Log, n: nat, operation: string, digest: Digest)
    requires Linked(chain, operation, digest) && n <= |chain|
    ensures Linked(chain[..n], operation, digest)
  {
    forall i | 0 <= i < n ensures LinkedAt(chain[..n], i, operation, digest) {
      assert LinkedAt(chain, i, operation, digest);
    }
  }

  ghost predicate Consistent(log: Log, digest: Digest) {
    forall operation :: Linked(Chain(log, operation), operation, digest)
  }

  lemma {:induction false} LatestIsLastOfChain(log: Log, operation: string, digest: Digest)
    requires Linked(Chain(log, operation), operation, digest)
    ensures var chain := Chain(log, operation);
            Latest(log, operation) == if chain == [] then None else Some(chain[|chain| - 1])
  {
    if log != [] {
      var init, last := log[..|log| - 1], log[|log| - 1];
      var chain, before := Chain(log, operation), Chain(init, operation);
      assert chain[..|before|] == before;
      PrefixIsLinked(chain, |before|, operation, digest);
      LatestIsLastOfChain(init, operation, digest);
      if before != [] && last.content.operation == operation {
        assert LinkedAt(chain, |before|, operation, digest) && LinkedAt(before, |before| - 1, operation, digest);
      }
    }
  }

  lemma AppendKeepsConsistent(log: Log, e: Entry, digest: Digest, targetExists: bool)
    requires Consistent(log, digest) && Append(log, e, digest, targetExists).Ok?
    ensures Consistent(Append(log, e, digest, targetExists).value, digest)
    ensures Chain(log + [e], e.content.operation) == Chain(log, e.content.operation) + [e]
    ensures forall o :: o != e.content.operation ==> Chain(log + [e], o) == Chain(log, o)
  {
    var next := log + [e];
    assert next[..|next| - 1] == log;
    forall o ensures Linked(Chain(next, o), o, digest) {
      ChainGrows(log, e, o, digest);
    }
  }

  lemma ChainGrows(log: Log, e: Entry, operation: string, digest: Digest)
    requires Consistent(log, digest) && Append(log, e, digest, true).Ok?
    ensures Linked(Chain(log + [e], operation), operation, digest)
  {
    var chain, next := Chain(log, operation), Chain(log + [e], operation);
    assert (log + [e])[..|log|] == log;
    assert Linked(chain, operation, digest);
    LatestIsLastOfChain(log, operation, digest);
    if e.content.operation == operation {
      assert chain != [] ==> LinkedAt(chain, |chain| - 1, operation, digest);
      forall i | 0 <= i < |next| ensures LinkedAt(next, i, operation, digest) {
        if i < |chain| { assert LinkedAt(chain, i, operation, digest); }
      }
    }
  }

  datatype Call =
    | CallAppend(entry: Entry, targetExists: bool)
    | CallRecord(operation: string, action: string, note: string, before: string, after: string, now: int,
                 targetExists: bool)

  // A refused call leaves the log as it was.
  function Perform(log: Log, c: Call, digest: Digest): Log {
    var r := match c
      case CallAppend(e, x) => Append(log, e, digest, x)
      case CallRecord(operation, action, note, before, after, now, x) => Record(log, operation, action, note, before,
          after, now, digest, x);
    if r.Ok? then r.value else log
  }

  function Run(calls: seq<Call>, digest: Digest): Log {
    if calls == [] then [] else Perform(Run(calls[..|calls| - 1], digest), calls[|calls| - 1], digest)
  }

  lemma PerformKeepsConsistent(log: Log, c: Call, digest: Digest)
    requires Consistent(log, digest)
    ensures Consistent(Perform(log, c, digest), digest) && log <= Perform(log, c, digest)
  {
    match c
    case CallAppend(e, x) =>
      if Append(log, e, digest, x).Ok? { AppendKeepsConsistent(log, e, digest, x); }
    case CallRecord(operation, action, note, before, after, now, x) =>
      var latest := Latest(log, operation);
      var content := Content(operation, NextStep(latest), "SYSTEM", action, note, before, after, Link(latest), now);
      var e := Entry(content, digest(content));
      if Append(log, e, digest, x).Ok? { AppendKeepsConsistent(log, e, digest, x); }
  }

  // Whatever is offered to the log, the chain of every operation stays complete and linked.
  lemma {:induction false} RunsAreConsistent(calls: seq<Call>, digest: Digest)
    ensures Consistent(Run(calls, digest), digest)
  {
    if calls == [] {
      assert forall o :: Chain([], o) == [];
    } else {
      RunsAreConsistent(calls[..|calls| - 1], digest);
      PerformKeepsConsistent(Run(calls[..|calls| - 1], digest), calls[|calls| - 1], digest);
    }
  }

  // ---- One hash stands for the whole chain ----

  ghost predicate Injective(digest: Digest) {
    forall a, b :: digest(a) == digest(b) ==> a == b
  }

  // Two linked chains with the same last hash are the same chain, even in different databases.
  lemma {:induction false} EqualHeadsEqualChains(a: Log, b: Log, p: string, q: string, digest: Digest)
    requires Injective(digest) && Linked(a, p, digest) && Linked(b, q, digest) && a != [] && b != []
    requires a[|a| - 1].hash == b[|b| - 1].hash
    ensures a == b && p == q
    decreases |a|
  {
    var x, y := a[|a| - 1], b[|b| - 1];
    assert LinkedAt(a, |a| - 1, p, digest) && LinkedAt(b, |b| - 1, q, digest);
    assert x.content == y.content;
    if |a| > 1 {
      var c, d := a[..|a| - 1], b[..|b| - 1];
      PrefixIsLinked(a, |a| - 1, p, digest);
      PrefixIsLinked(b, |b| - 1, q, digest);
      EqualHeadsEqualChains(c, d, p, q, digest);
      assert a == c + [x] && b == d + [y];
    } else {
      assert a == [x] && b == [y];
    }
  }

  lemma EqualLatestEqualHistories(log: Log, other: Log, p: string, q: string, digest: Digest)
    requires Injective(digest) && Consistent(log, digest) && Consistent(other, digest)
    requires Latest(log, p).Some? && Latest(other, q).Some? && Latest(log, p).value.hash == Latest(other, q).value.hash
    ensures Chain(log, p) == Chain(other, q) && p == q
  {
    LatestIsLastOfChain(log, p, digest);
    LatestIsLastOfChain(other, q, digest);
    EqualHeadsEqualChains(Chain(log, p), Chain(other, q), p, q, digest);
  }

  // ---- The services always pass the check ----

  lemma {:induction false} InSomeChain(log: Log, e: Entry)
    requires e in log
    ensures e in Chain(log, e.content.operation)
  {
    var last := log[|log| - 1];
    assert log == log[..|log| - 1] + [last];
    if e in log[..|log| - 1] {
      InSomeChain(log[..|log| - 1], e);
    }
  }

  lemma NewContentIsNew(log: Log, content: Content, digest: Digest)
    requires Injective(digest) && Consistent(log, digest) && content.step == NextStep(Latest(log, content.operation))
    ensures forall o :: o in log ==> o.hash != digest(content)
  {
    LatestIsLastOfChain(log, content.operation, digest);
    forall o | o in log ensures o.hash != digest(content) {
      InSomeChain(log, o);
      var own := Chain(log, o.content.operation);
      assert Linked(own, o.content.operation, digest);
      var i :| 0 <= i < |own| && own[i] == o;
      assert LinkedAt(own, i, o.content.operation, digest) && LinkedAt(own, |own| - 1, o.content.operation, digest);
    }
  }

  // A service's entry is refused only when its note is missing or the operation belongs to another note.
  lemma ServicesAreAccepted(log: Log, operation: string, action: string, note: string, before: string, after: string,
                            now: int,
                            digest: Digest, noteExists: bool)
    requires Injective(digest) && Consistent(log, digest)
    ensures var r := Record(log, operation, action, note, before, after, now, digest, noteExists);
            var latest := Latest(log, operation);
            if latest.Some? && latest.value.content.target != note then r == Err(OtherNote)
            else if latest.Some? && latest.value.content.action == action then r == Ok(log)
            else if !noteExists then r == Err(TargetMissing)
            else r.Ok? && |Chain(r.value, operation)| == |Chain(log, operation)| + 1
                 && Latest(r.value, operation).Some?
                 && Latest(r.value, operation).value.content.action == action
                     && Latest(r.value, operation).value.content.target == note
  {
    var latest := Latest(log, operation);
    var content := Content(operation, NextStep(latest), "SYSTEM", action, note, before, after, Link(latest), now);
    NewContentIsNew(log, content, digest);
    var e := Entry(content, digest(content));
    if Append(log, e, digest, noteExists).Ok? {
      AppendKeepsConsistent(log, e, digest, noteExists);
      LatestIsLastOfChain(log + [e], operation, digest);
    }
  }

  // Repeating a step after a crash writes nothing more.
  lemma RepeatingIsSilent(log: Log, operation: string, action: string, note: string, before: string, after: string,
                          now: int,
                          digest: Digest, noteExists: bool, laterBefore: string, laterAfter: string, later: int)
    requires Injective(digest) && Consistent(log, digest)
    requires Record(log, operation, action, note, before, after, now, digest, noteExists).Ok?
    ensures var once := Record(log, operation, action, note, before, after, now, digest, noteExists).value;
            Record(once, operation, action, note, laterBefore, laterAfter, later, digest, noteExists) == Ok(once)
  {
    ServicesAreAccepted(log, operation, action, note, before, after, now, digest, noteExists);
  }

  // ---- What is stored ----

  // The hash of the last entry of the chain, which the next one links to.
  function LastHash(chain: Log): Option<string> {
    if chain == [] then None else Some(chain[|chain| - 1].hash)
  }

  // An entry is accepted exactly as the next one of its chain, with its own hash, which no entry has yet.
  lemma AppendIff(log: Log, e: Entry, digest: Digest, targetExists: bool)
    requires Consistent(log, digest)
    ensures var chain := Chain(log, e.content.operation);
      Append(log, e, digest, targetExists).Ok? <==>
        && targetExists && e.content.step == |chain| && e.content.previous == LastHash(chain)
        && e.hash == digest(e.content) && forall o :: o in log ==> o.hash != e.hash
    ensures Append(log, e, digest, targetExists).Ok? ==> Append(log, e, digest, targetExists) == Ok(log + [e])
  {
    ChainTells(log, e.content.operation, digest);
  }

  lemma ChainTells(log: Log, operation: string, digest: Digest)
    requires Consistent(log, digest)
    ensures NextStep(Latest(log, operation)) == |Chain(log, operation)|
    ensures Link(Latest(log, operation)) == LastHash(Chain(log, operation))
  {
    var chain := Chain(log, operation);
    assert Linked(chain, operation, digest);
    LatestIsLastOfChain(log, operation, digest);
    if chain != [] { assert LinkedAt(chain, |chain| - 1, operation, digest); }
  }

  // What a service stores: its action on the note with the documents it was given, next in the chain.
  lemma ServicesStore(log: Log, operation: string, action: string, note: string, before: string, after: string,
                      now: int, digest: Digest, noteExists: bool)
    requires Consistent(log, digest)
    requires Record(log, operation, action, note, before, after, now, digest, noteExists).Ok?
    ensures var r := Record(log, operation, action, note, before, after, now, digest, noteExists).value;
      var chain := Chain(log, operation);
      if chain != [] && chain[|chain| - 1].content.action == action then r == log
      else
        && |r| == |log| + 1 && r[..|log|] == log && var e := r[|log|];
        && e.content.operation == operation && e.content.action == action && e.content.target == note
        && e.content.before == before && e.content.after == after && e.content.createdAt == now
        && e.content.actor == "SYSTEM" && e.content.step == |chain| && e.content.previous == LastHash(chain)
        && e.hash == digest(e.content)
  {
    ChainTells(log, operation, digest);
    LatestIsLastOfChain(log, operation, digest);
  }
}
