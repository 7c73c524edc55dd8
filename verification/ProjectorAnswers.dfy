/** Which records of a batch fail, what a batch writes, and what it reports, said of the records and the faults alone. */
module ProjectorAnswers {
  import opened Options
  import opened StreamRecords
  import opened LedgerProjector

  /** An earlier record of the same source key failed. */
  predicate Behind(rs: seq<Record>, failed: seq<bool>, i: nat)
    requires i < |rs| == |failed|
  {
    rs[i].key.Some? && exists j | 0 <= j < i :: failed[j] && rs[j].key == rs[i].key
  }

  lemma {:induction false} KeysOfTheFailed(t: Table, rs: seq<Record>, attempts: seq<Attempt>, shadow: bool, k: SourceKey)
    ensures var b := Handle(t, rs, attempts, shadow);
            k in b.keys <==> exists j | 0 <= j < |rs| :: b.failed[j] && rs[j].key == Some(k)
    decreases |rs|
  {
    if rs != [] {
      var n := |rs| - 1;
      var before, b := Handle(t, rs[..n], attempts, shadow), Handle(t, rs, attempts, shadow);
      KeysOfTheFailed(t, rs[..n], attempts, shadow, k);
      assert forall j | 0 <= j < n :: b.failed[j] == before.failed[j] && rs[..n][j] == rs[j];
      if k in b.keys {
        if k in before.keys {
          var j :| 0 <= j < n && before.failed[j] && rs[..n][j].key == Some(k);
          assert b.failed[j] && rs[j].key == Some(k);
        } else {
          assert b.failed[n] && rs[n].key == Some(k);
        }
      }
    }
  }

  lemma BlockedIsBehind(t: Table, rs: seq<Record>, attempts: seq<Attempt>, shadow: bool, i: nat)
    requires i < |rs|
    ensures Blocked(Handle(t, rs[..i], attempts, shadow).keys, rs[i]) <==> Behind(rs, Handle(t, rs, attempts, shadow).failed, i)
  {
    var before, b := Handle(t, rs[..i], attempts, shadow), Handle(t, rs, attempts, shadow);
    HandleExtends(t, rs, attempts, shadow, i);
    assert forall j | 0 <= j < i :: b.failed[j] == b.failed[..i][j] == before.failed[j] && rs[..i][j] == rs[j];
    if rs[i].key.Some? {
      KeysOfTheFailed(t, rs[..i], attempts, shadow, rs[i].key.value);
      if Behind(rs, b.failed, i) {
        var j :| 0 <= j < i && b.failed[j] && rs[j].key == rs[i].key;
        assert before.failed[j] && rs[..i][j].key == rs[i].key;
      }
    }
  }

  /** A record fails if and only if one of its key failed before it, or it cannot be parsed, or its write faulted. */
  lemma FailedIff(t: Table, rs: seq<Record>, attempts: seq<Attempt>, shadow: bool, i: nat)
    requires i < |rs|
    ensures var failed := Handle(t, rs, attempts, shadow).failed;
            failed[i] <==> (Behind(rs, failed, i) || Derive(rs[i], shadow).Unparseable?
                            || (Derive(rs[i], shadow).Project? && i < |attempts| && attempts[i].Faults?))
  {
    RecordAt(t, rs, attempts, shadow, i);
    BlockedIsBehind(t, rs, attempts, shadow, i);
  }

  /** Record `i` put its event in cell `c`, if nothing was there: its turn came, and its write worked or was applied all the same. */
  predicate Writes(rs: seq<Record>, failed: seq<bool>, attempts: seq<Attempt>, shadow: bool, i: nat, c: Cell)
    requires i < |rs| == |failed|
  {
    && !Behind(rs, failed, i) && Derive(rs[i], shadow).Project? && Derive(rs[i], shadow).cell == c
    && (i >= |attempts| || attempts[i].Works? || attempts[i].applied)
  }

  lemma PrefixWrites(t: Table, rs: seq<Record>, attempts: seq<Attempt>, shadow: bool, i: nat, c: Cell)
    requires i < |rs| - 1
    ensures var n := |rs| - 1;
            Writes(rs[..n], Handle(t, rs[..n], attempts, shadow).failed, attempts, shadow, i, c)
            <==> Writes(rs, Handle(t, rs, attempts, shadow).failed, attempts, shadow, i, c)
  {
    var n := |rs| - 1;
    assert rs[..n][..i] == rs[..i];
    BlockedIsBehind(t, rs, attempts, shadow, i);
    BlockedIsBehind(t, rs[..n], attempts, shadow, i);
  }

  ghost predicate Written(rs: seq<Record>, failed: seq<bool>, attempts: seq<Attempt>, shadow: bool, n: nat, c: Cell)
    requires n <= |rs| == |failed|
  {
    exists i | 0 <= i < n :: Writes(rs, failed, attempts, shadow, i, c)
  }

  lemma PrefixWritten(t: Table, rs: seq<Record>, attempts: seq<Attempt>, shadow: bool, c: Cell)
    requires rs != []
    ensures var n := |rs| - 1;
            Written(rs[..n], Handle(t, rs[..n], attempts, shadow).failed, attempts, shadow, n, c)
            <==> Written(rs, Handle(t, rs, attempts, shadow).failed, attempts, shadow, n, c)
  {
    var n := |rs| - 1;
    var before, b := Handle(t, rs[..n], attempts, shadow), Handle(t, rs, attempts, shadow);
    forall i: nat | i < n
      ensures Writes(rs[..n], before.failed, attempts, shadow, i, c) <==> Writes(rs, b.failed, attempts, shadow, i, c)
    {
      PrefixWrites(t, rs, attempts, shadow, i, c);
    }
  }

  lemma OneWrites(t: Table, failedKeys: set<SourceKey>, r: Record, a: Attempt, shadow: bool, c: Cell)
    ensures c in One(t, failedKeys, r, a, shadow).0
            <==> c in t || (!Blocked(failedKeys, r) && Derive(r, shadow).Project? && Derive(r, shadow).cell == c && (a.Works? || a.applied))
  {
  }

  lemma LastWrites(t: Table, rs: seq<Record>, attempts: seq<Attempt>, shadow: bool, c: Cell)
    requires rs != []
    ensures var n, b := |rs| - 1, Handle(t, rs, attempts, shadow);
            c in b.table <==> c in Handle(t, rs[..n], attempts, shadow).table || Writes(rs, b.failed, attempts, shadow, n, c)
  {
    var n := |rs| - 1;
    var before := Handle(t, rs[..n], attempts, shadow);
    BlockedIsBehind(t, rs, attempts, shadow, n);
    OneWrites(before.table, before.keys, rs[n], AttemptAt(attempts, n), shadow, c);
    assert Handle(t, rs, attempts, shadow).table == One(before.table, before.keys, rs[n], AttemptAt(attempts, n), shadow).0;
  }

  lemma OneMoreWritten(rs: seq<Record>, failed: seq<bool>, attempts: seq<Attempt>, shadow: bool, c: Cell)
    requires |rs| == |failed| > 0
    ensures Written(rs, failed, attempts, shadow, |rs|, c)
            <==> Written(rs, failed, attempts, shadow, |rs| - 1, c) || Writes(rs, failed, attempts, shadow, |rs| - 1, c)
  {
  }

  /** A batch fills exactly the cells its records write to; what was there stays. */
  lemma {:induction false} BatchWritesIff(t: Table, rs: seq<Record>, attempts: seq<Attempt>, shadow: bool, c: Cell)
    ensures var b := Handle(t, rs, attempts, shadow);
            c in b.table <==> c in t || Written(rs, b.failed, attempts, shadow, |rs|, c)
    decreases |rs|
  {
    if rs != [] {
      BatchWritesIff(t, rs[..|rs| - 1], attempts, shadow, c);
      PrefixWritten(t, rs, attempts, shadow, c);
      LastWrites(t, rs, attempts, shadow, c);
      OneMoreWritten(rs, Handle(t, rs, attempts, shadow).failed, attempts, shadow, c);
    }
  }

  /** Record `i` failed and has that number. */
  predicate FailedAs(rs: seq<Record>, failed: seq<bool>, i: nat, n: nat)
    requires i < |rs| == |failed|
  {
    failed[i] && rs[i].sequence == Some(n)
  }

  ghost predicate SomeFailedAs(rs: seq<Record>, failed: seq<bool>, n: nat)
    requires |rs| == |failed|
  {
    exists i | 0 <= i < |rs| :: FailedAs(rs, failed, i, n)
  }

  lemma OneMoreFailedAs(rs: seq<Record>, failed: seq<bool>, n: nat)
    requires |rs| == |failed| > 0
    ensures var m := |rs| - 1;
            SomeFailedAs(rs, failed, n) <==> SomeFailedAs(rs[..m], failed[..m], n) || FailedAs(rs, failed, m, n)
  {
    var m := |rs| - 1;
    assert forall i | 0 <= i < m :: FailedAs(rs[..m], failed[..m], i, n) == FailedAs(rs, failed, i, n);
  }

  /** The report is the numbers of the failed records that have one, all of them and nothing else. */
  lemma {:induction false} ReportedIff(rs: seq<Record>, failed: seq<bool>, n: nat)
    requires |failed| == |rs|
    ensures n in Reported(rs, failed) <==> exists i | 0 <= i < |rs| :: FailedAs(rs, failed, i, n)
    decreases |rs|
  {
    if rs != [] {
      ReportedIff(rs[..|rs| - 1], failed[..|rs| - 1], n);
      OneMoreFailedAs(rs, failed, n);
    }
    assert n in Reported(rs, failed) <==> SomeFailedAs(rs, failed, n);
  }

  lemma {:induction false} ReportedTail(rs: seq<Record>, failed: seq<bool>)
    requires |failed| == |rs| > 0
    ensures Reported(rs, failed) == Report(rs[0], failed[0]) + Reported(rs[1..], failed[1..])
    decreases |rs|
  {
    var m := |rs| - 1;
    if m > 0 {
      ReportedTail(rs[..m], failed[..m]);
      assert rs[..m][1..] == rs[1..][..m - 1] && failed[..m][1..] == failed[1..][..m - 1];
    } else {
      assert rs[1..] == [] && rs[..0] == [];
    }
  }

  /** Delivery goes back to the record of the first number reported, and goes on where nothing was. */
  lemma {:induction false} CheckpointIsFirstReported(rs: seq<Record>, failed: seq<bool>)
    requires |failed| == |rs|
    ensures var k, report := Checkpoint(rs, failed), Reported(rs, failed);
            if report == [] then k == |rs| else k < |rs| && rs[k].sequence == Some(report[0])
    decreases |rs|
  {
    if rs != [] {
      ReportedTail(rs, failed);
      CheckpointIsFirstReported(rs[1..], failed[1..]);
    }
  }
}
