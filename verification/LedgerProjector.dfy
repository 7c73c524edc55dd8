/**
 The stream projector: one batch handled record by record under any schedule of faults, and
 batches redelivered from their first failure until nothing fails.
 */
module LedgerProjector {
  import opened Options
  import opened StreamRecords

  type Table = map<Cell, ReserveEvent>

  /** A write that fails may have been applied all the same. */
  datatype Attempt = Works | Faults(applied: bool)

  function AttemptAt(attempts: seq<Attempt>, i: nat): Attempt {
    if i < |attempts| then attempts[i] else Works
  }

  function PutIfAbsent(t: Table, cell: Cell, event: ReserveEvent): Table {
    if cell in t then t else t[cell := event]
  }

  predicate Blocked(failedKeys: set<SourceKey>, r: Record) {
    r.key.Some? && r.key.value in failedKeys
  }

  /** One record: the table after it, and whether it failed. */
  function One(t: Table, failedKeys: set<SourceKey>, r: Record, a: Attempt, shadow: bool): (Table, bool) {
    if Blocked(failedKeys, r) then (t, true)
    else
      match Derive(r, shadow)
      case Nothing => (t, false)
      case Unparseable => (t, true)
      case Project(cell, event) =>
        if a.Works? then (PutIfAbsent(t, cell, event), false)
        else (if a.applied then PutIfAbsent(t, cell, event) else t, true)
  }

  function AddKey(failedKeys: set<SourceKey>, r: Record, failed: bool): set<SourceKey> {
    if failed && r.key.Some? then failedKeys + {r.key.value} else failedKeys
  }

  /** A batch, with the records that failed marked. */
  datatype Batch = Batch(table: Table, failed: seq<bool>, keys: set<SourceKey>)

  function Step(b: Batch, r: Record, a: Attempt, shadow: bool): (next: Batch)
    ensures |next.failed| == |b.failed| + 1
  {
    var (after, failed) := One(b.table, b.keys, r, a, shadow);
    Batch(after, b.failed + [failed], AddKey(b.keys, r, failed))
  }

  function Handle(t: Table, rs: seq<Record>, attempts: seq<Attempt>, shadow: bool): (b: Batch)
    ensures |b.failed| == |rs|
  {
    if rs == [] then Batch(t, [], {})
    else Step(Handle(t, rs[..|rs| - 1], attempts, shadow), rs[|rs| - 1], AttemptAt(attempts, |rs| - 1), shadow)
  }

  function Report(r: Record, failed: bool): seq<nat> {
    if failed && r.sequence.Some? then [r.sequence.value] else []
  }

  /** The sequence numbers reported as failures; a record without one cannot be reported. */
  function Reported(rs: seq<Record>, failed: seq<bool>): seq<nat>
    requires |failed| == |rs|
  {
    if rs == [] then []
    else
      var n := |rs| - 1;
      Reported(rs[..n], failed[..n]) + Report(rs[n], failed[n])
  }

  class Projector {
    var table: Table
    const shadow: bool

    constructor (shadow: bool)
      ensures table == map[] && this.shadow == shadow
    {
      table, this.shadow := map[], shadow;
    }

    /** A conditional put under one attempt's fate; `ok` unless it raised. */
    method PutItem(cell: Cell, event: ReserveEvent, a: Attempt) returns (ok: bool)
      modifies this`table
      ensures ok == a.Works?
      ensures table == if a.Works? || a.applied then PutIfAbsent(old(table), cell, event) else old(table)
    {
      ok := a.Works?;
      if (a.Works? || a.applied) && cell !in table {
        table := table[cell := event];
      }
    }

    /** One record of a batch; `ok` unless it is blocked behind its key or something raised. */
    method Project(r: Record, failedKeys: set<SourceKey>, a: Attempt) returns (ok: bool)
      modifies this`table
      ensures (table, !ok) == One(old(table), failedKeys, r, a, shadow)
    {
      if r.key.Some? && r.key.value in failedKeys {
        return false;
      }
      ok := true;
      match Derive(r, shadow) {
        case Nothing =>
        case Unparseable => ok := false;
        case Project(cell, event) => ok := PutItem(cell, event, a);
      }
    }

    method Handler(records: seq<Record>, attempts: seq<Attempt>) returns (failures: seq<nat>)
      modifies this`table
      ensures table == Handle(old(table), records, attempts, shadow).table
      ensures failures == Reported(records, Handle(old(table), records, attempts, shadow).failed)
    {
      failures := [];
      var failedKeys: set<SourceKey> := {};
      ghost var b := Batch(table, [], {});
      for i := 0 to |records|
        invariant b == Handle(old(table), records[..i], attempts, shadow)
        invariant table == b.table && failedKeys == b.keys
        invariant failures == Reported(records[..i], b.failed)
      {
        var r := records[i];
        StepAtEnd(old(table), records, attempts, shadow, i, b);
        b := Step(b, r, AttemptAt(attempts, i), shadow);
        var ok := Project(r, failedKeys, AttemptAt(attempts, i));
        if !ok {
          if r.sequence.Some? {
            failures := failures + [r.sequence.value];
          }
          if r.key.Some? {
            failedKeys := failedKeys + {r.key.value};
          }
        }
      }
      assert records[..|records|] == records;
    }
  }

  lemma StepAtEnd(t: Table, rs: seq<Record>, attempts: seq<Attempt>, shadow: bool, i: nat, b: Batch)
    requires i < |rs| && b == Handle(t, rs[..i], attempts, shadow)
    ensures var next := Step(b, rs[i], AttemptAt(attempts, i), shadow);
            && next == Handle(t, rs[..i + 1], attempts, shadow)
            && Reported(rs[..i + 1], next.failed) == Reported(rs[..i], b.failed) + Report(rs[i], next.failed[i])
  {
    assert rs[..i + 1][..i] == rs[..i];
    assert Step(b, rs[i], AttemptAt(attempts, i), shadow).failed[..i] == b.failed;
  }

  // ---- one batch ----

  ghost predicate Submap(t: Table, u: Table) {
    forall c | c in t :: c in u && u[c] == t[c]
  }

  ghost predicate Extends(b: Batch, next: Batch) {
    && |b.failed| <= |next.failed| && next.failed[..|b.failed|] == b.failed
    && b.keys <= next.keys && Submap(b.table, next.table)
  }

  lemma StepExtends(b: Batch, r: Record, a: Attempt, shadow: bool)
    ensures Extends(b, Step(b, r, a, shadow))
  {
  }

  lemma ExtendsTransitive(b: Batch, c: Batch, d: Batch)
    requires Extends(b, c) && Extends(c, d)
    ensures Extends(b, d)
  {
  }

  lemma {:induction false} HandleExtends(t: Table, rs: seq<Record>, attempts: seq<Attempt>, shadow: bool, n: nat)
    requires n <= |rs|
    ensures Extends(Handle(t, rs[..n], attempts, shadow), Handle(t, rs, attempts, shadow))
    decreases |rs|
  {
    if n == |rs| {
      assert rs[..n] == rs;
    } else {
      var m := |rs| - 1;
      HandleExtends(t, rs[..m], attempts, shadow, n);
      assert rs[..m][..n] == rs[..n];
      var b := Handle(t, rs[..m], attempts, shadow);
      StepExtends(b, rs[m], AttemptAt(attempts, m), shadow);
      ExtendsTransitive(Handle(t, rs[..n], attempts, shadow), b, Handle(t, rs, attempts, shadow));
    }
  }

  /** Whether record `i` failed, and what was on the table when it was looked at. */
  lemma RecordAt(t: Table, rs: seq<Record>, attempts: seq<Attempt>, shadow: bool, i: nat)
    requires i < |rs|
    ensures var before, end := Handle(t, rs[..i], attempts, shadow), Handle(t, rs, attempts, shadow);
            var next := Step(before, rs[i], AttemptAt(attempts, i), shadow);
            && next == Handle(t, rs[..i + 1], attempts, shadow)
            && Extends(next, end) && end.failed[i] == next.failed[i]
  {
    StepAtEnd(t, rs, attempts, shadow, i, Handle(t, rs[..i], attempts, shadow));
    HandleExtends(t, rs, attempts, shadow, i + 1);
    var end := Handle(t, rs, attempts, shadow);
    assert end.failed[..i + 1][i] == end.failed[i];
  }

  /**
   Order is kept per source key: after a record of a key fails, no later record of that key
   in the batch is applied, and every one of them is marked failed.
   */
  lemma AppliedIsAPrefixPerKey(t: Table, rs: seq<Record>, attempts: seq<Attempt>, shadow: bool, i: nat, j: nat)
    requires i < j < |rs| && rs[i].key.Some? && rs[j].key == rs[i].key
    requires Handle(t, rs, attempts, shadow).failed[i]
    ensures Handle(t, rs, attempts, shadow).failed[j]
    ensures Handle(t, rs[..j + 1], attempts, shadow).table == Handle(t, rs[..j], attempts, shadow).table
  {
    RecordAt(t, rs, attempts, shadow, i);
    RecordAt(t, rs, attempts, shadow, j);
    HandleExtends(t, rs[..j], attempts, shadow, i + 1);
    assert rs[..j][..i + 1] == rs[..i + 1];
  }

  /** A record that did not fail has its event, if it has one, on the table. */
  lemma NotFailedIsThere(t: Table, rs: seq<Record>, attempts: seq<Attempt>, shadow: bool, i: nat)
    requires i < |rs| && !Handle(t, rs, attempts, shadow).failed[i]
    ensures !Derive(rs[i], shadow).Unparseable?
    ensures Derive(rs[i], shadow).Project? ==> Derive(rs[i], shadow).cell in Handle(t, rs, attempts, shadow).table
  {
    RecordAt(t, rs, attempts, shadow, i);
  }

  // ---- what the stream ought to leave ----

  ghost predicate Derives(rs: seq<Record>, shadow: bool, c: Cell, e: ReserveEvent) {
    exists r :: r in rs && Derive(r, shadow) == Project(c, e)
  }

  /** Records for one cell derive one event: a hold id is inserted once. */
  ghost predicate Consistent(rs: seq<Record>, shadow: bool) {
    forall c, e, f | Derives(rs, shadow, c, e) && Derives(rs, shadow, c, f) :: e == f
  }

  /** Nothing lost, nothing changed, nothing invented. */
  ghost predicate Sound(t: Table, rs: seq<Record>, shadow: bool, u: Table) {
    Submap(t, u) && forall c | c in u && c !in t :: Derives(rs, shadow, c, u[c])
  }

  /** One derived event per enriched hold insert. */
  ghost predicate Complete(rs: seq<Record>, shadow: bool, u: Table) {
    forall r | r in rs && Derive(r, shadow).Project? :: Derive(r, shadow).cell in u
  }

  ghost predicate IsProjection(t: Table, rs: seq<Record>, shadow: bool, u: Table) {
    Sound(t, rs, shadow, u) && Complete(rs, shadow, u)
  }

  lemma ProjectionIsUnique(t: Table, rs: seq<Record>, shadow: bool, u: Table, v: Table)
    requires Consistent(rs, shadow)
    requires IsProjection(t, rs, shadow, u) && IsProjection(t, rs, shadow, v)
    ensures u == v
  {
  }

  lemma DerivesMore(rs: seq<Record>, ss: seq<Record>, shadow: bool, c: Cell, e: ReserveEvent)
    requires Derives(rs, shadow, c, e) && forall r | r in rs :: r in ss
    ensures Derives(ss, shadow, c, e)
  {
  }

  lemma OneIsSound(t: Table, failedKeys: set<SourceKey>, r: Record, a: Attempt, shadow: bool)
    ensures Sound(t, [r], shadow, One(t, failedKeys, r, a, shadow).0)
  {
  }

  lemma SoundThenSound(t: Table, rs: seq<Record>, shadow: bool, u: Table, ss: seq<Record>, v: Table, all: seq<Record>)
    requires Sound(t, rs, shadow, u) && Sound(u, ss, shadow, v)
    requires (forall r | r in rs :: r in all) && (forall r | r in ss :: r in all)
    ensures Sound(t, all, shadow, v)
  {
    forall c | c in v && c !in t ensures Derives(all, shadow, c, v[c]) {
      if c in u {
        DerivesMore(rs, all, shadow, c, v[c]);
      } else {
        DerivesMore(ss, all, shadow, c, v[c]);
      }
    }
  }

  lemma {:induction false} BatchIsSound(t: Table, rs: seq<Record>, attempts: seq<Attempt>, shadow: bool)
    ensures Sound(t, rs, shadow, Handle(t, rs, attempts, shadow).table)
  {
    if rs != [] {
      var n := |rs| - 1;
      var b := Handle(t, rs[..n], attempts, shadow);
      BatchIsSound(t, rs[..n], attempts, shadow);
      OneIsSound(b.table, b.keys, rs[n], AttemptAt(attempts, n), shadow);
      SoundThenSound(t, rs[..n], shadow, b.table, [rs[n]], Handle(t, rs, attempts, shadow).table, rs);
    }
  }

  // ---- redelivery ----

  /** Where the checkpoint goes back to: the first reported failure, or the end of the batch. */
  function Checkpoint(rs: seq<Record>, failed: seq<bool>): (k: nat)
    requires |failed| == |rs|
    ensures k <= |rs|
    ensures forall i | 0 <= i < k :: !failed[i] || rs[i].sequence.None?
    ensures k < |rs| ==> failed[k] && rs[k].sequence.Some?
  {
    if rs == [] then 0
    else if failed[0] && rs[0].sequence.Some? then 0
    else 1 + Checkpoint(rs[1..], failed[1..])
  }

  /** Deliver, then redeliver from the checkpoint, one round per schedule of faults; what is left undelivered comes back. */
  function Deliver(t: Table, rs: seq<Record>, rounds: seq<seq<Attempt>>, shadow: bool): (Table, seq<Record>)
    decreases |rounds|
  {
    if rounds == [] then (t, rs)
    else
      var b := Handle(t, rs, rounds[0], shadow);
      Deliver(b.table, rs[Checkpoint(rs, b.failed)..], rounds[1..], shadow)
  }

  predicate Numbered(rs: seq<Record>) {
    forall r | r in rs :: r.sequence.Some?
  }

  lemma {:induction false} DeliveryIsSound(t: Table, rs: seq<Record>, rounds: seq<seq<Attempt>>, shadow: bool)
    requires Numbered(rs)
    ensures var (u, left) := Deliver(t, rs, rounds, shadow);
            && Sound(t, rs, shadow, u)
            && (forall r | r in left :: r in rs)
            && (forall r | r in rs && r !in left && Derive(r, shadow).Project? :: Derive(r, shadow).cell in u)
    decreases |rounds|
  {
    if rounds != [] {
      var b := Handle(t, rs, rounds[0], shadow);
      var k := Checkpoint(rs, b.failed);
      var rest := rs[k..];
      BatchIsSound(t, rs, rounds[0], shadow);
      DeliveryIsSound(b.table, rest, rounds[1..], shadow);
      var (u, left) := Deliver(b.table, rest, rounds[1..], shadow);
      SoundThenSound(t, rs, shadow, b.table, rest, u, rs);
      forall i | k <= i < |rs| ensures rs[i] in rest {
        assert rest[i - k] == rs[i];
      }
      forall r | r in rs && r !in rest && Derive(r, shadow).Project? ensures Derive(r, shadow).cell in u {
        var i :| 0 <= i < |rs| && rs[i] == r;
        assert rs[i] in rs;
        NotFailedIsThere(t, rs, rounds[0], shadow, i);
      }
    } else {
      assert Submap(t, t);
    }
  }

  /** Redelivered until nothing is left, every schedule of faults ends in the same table: one event per enriched hold. */
  lemma EveryScheduleConverges(t: Table, rs: seq<Record>, rounds: seq<seq<Attempt>>, others: seq<seq<Attempt>>, shadow: bool)
    requires Numbered(rs) && Consistent(rs, shadow)
    requires Deliver(t, rs, rounds, shadow).1 == [] && Deliver(t, rs, others, shadow).1 == []
    ensures IsProjection(t, rs, shadow, Deliver(t, rs, rounds, shadow).0)
    ensures Deliver(t, rs, rounds, shadow).0 == Deliver(t, rs, others, shadow).0
  {
    DeliveryIsSound(t, rs, rounds, shadow);
    DeliveryIsSound(t, rs, others, shadow);
    ProjectionIsUnique(t, rs, shadow, Deliver(t, rs, rounds, shadow).0, Deliver(t, rs, others, shadow).0);
  }

  /** A record that cannot be parsed is never passed: delivery does not complete while it is in the stream. */
  lemma {:induction false} UnparseableBlocks(t: Table, rs: seq<Record>, rounds: seq<seq<Attempt>>, shadow: bool, r: Record)
    requires Numbered(rs) && r in rs && Derive(r, shadow).Unparseable?
    ensures r in Deliver(t, rs, rounds, shadow).1
    decreases |rounds|
  {
    if rounds != [] {
      var b := Handle(t, rs, rounds[0], shadow);
      var k := Checkpoint(rs, b.failed);
      var i :| 0 <= i < |rs| && rs[i] == r;
      assert rs[i] in rs;
      if i < k {
        NotFailedIsThere(t, rs, rounds[0], shadow, i);
      }
      assert rs[k..][i - k] == r;
      UnparseableBlocks(b.table, rs[k..], rounds[1..], shadow, r);
    }
  }

  lemma {:induction false} FaultFreeBatch(t: Table, rs: seq<Record>, shadow: bool)
    requires forall r | r in rs :: !Derive(r, shadow).Unparseable?
    ensures forall i | 0 <= i < |rs| :: !Handle(t, rs, [], shadow).failed[i]
    ensures Handle(t, rs, [], shadow).keys == {}
  {
    if rs != [] {
      var n := |rs| - 1;
      FaultFreeBatch(t, rs[..n], shadow);
      assert rs[n] in rs;
    }
  }

  /** With no such record, one round without faults completes what is left. */
  lemma FaultFreeRoundCompletes(t: Table, rs: seq<Record>, round: seq<Attempt>, shadow: bool)
    requires round == [] && forall r | r in rs :: !Derive(r, shadow).Unparseable?
    ensures Deliver(t, rs, [round], shadow).1 == []
  {
    FaultFreeBatch(t, rs, shadow);
    var b := Handle(t, rs, round, shadow);
    assert Checkpoint(rs, b.failed) == |rs|;
    assert rs[|rs|..] == [] && [round][1..] == [];
  }

  /** A failing record without a sequence number is dropped: it cannot be reported, so it is never delivered again. */
  lemma UnnumberedIsDropped(t: Table, r: Record, shadow: bool)
    requires r.sequence.None? && Derive(r, shadow).Project? && Derive(r, shadow).cell !in t
    ensures Deliver(t, [r], [[Faults(false)]], shadow) == (t, [])
  {
    var rs, attempts := [r], [Faults(false)];
    assert rs[..0] == [] && rs[..1] == rs && AttemptAt(attempts, 0) == Faults(false);
    StepAtEnd(t, rs, attempts, shadow, 0, Batch(t, [], {}));
    var b := Handle(t, rs, attempts, shadow);
    assert Checkpoint(rs, b.failed) == 1;
    assert rs[1..] == [] && [attempts][1..] == [];
  }
}
