/** The counters, the holds and the ledger as the tables the transactions write, and the settle's own routing. */
module CreditTables {
  import opened Options
  import opened CreditEvents
  import opened CreditRuns

  /** How a settle ends: booked, booked late, nothing left to book, or given up with a note. */
  datatype SettleAnswer =
    | Booked | BookedLate | AlreadyLate | LateFailed | AlreadyFinal | IgnoredAfterRelease | GoneForExternal
    | FellBack | Abandoned

  class CreditTable {
    var reserved: int
    var settled: int
    var reclaimed: int
    var holds: map<HoldId, int>
    var ledger: Ledger

    function View(): World
      reads this
    {
      World(reserved, settled, reclaimed, holds, ledger)
    }

    constructor ()
      ensures View() == World(0, 0, 0, map[], map[])
    {
      reserved, settled, reclaimed, holds, ledger := 0, 0, 0, map[], map[];
    }

    method PutEvent(id: HoldId, cell: Cell, kind: EventType, reservedDelta: int, settledDelta: int)
      modifies this`ledger
      ensures ledger == Put(old(ledger), Key(id, cell), kind, reservedDelta, settledDelta)
    {
      ledger := ledger[Key(id, cell) := Event(kind, id, reservedDelta, settledDelta)];
    }

    method ReserveTransaction(id: HoldId, amount: int) returns (ok: bool)
      modifies this
      ensures View() == CreditRuns.Next(old(View()), Reserve(id, amount)) && ok == Commits(old(View()), Reserve(id, amount))
    {
      ok := id !in holds && Key(id, ReserveCell) !in ledger;
      if ok {
        reserved := reserved + amount;
        holds := holds[id := amount];
        PutEvent(id, ReserveCell, RESERVE, amount, 0);
      }
    }

    /** Counter, hold and terminal in one transaction. */
    method EndTransaction(id: HoldId, kind: EventType, held: int, actual: int) returns (ok: bool)
      modifies this
      ensures ok == (id in old(holds) && Key(id, TerminalCell) !in old(ledger))
      ensures View() == if ok then End(old(View()), id, kind, held, actual) else old(View())
    {
      ok := id in holds && Key(id, TerminalCell) !in ledger;
      if ok {
        reserved := reserved - held;
        settled := settled + actual;
        if kind == RECLAIM {
          reclaimed := reclaimed + held;
        }
        holds := holds - {id};
        PutEvent(id, TerminalCell, kind, -held, actual);
      }
    }

    /** Settled-only counter and late event, on the condition that the terminal is a RECLAIM. */
    method LateSettleTransaction(id: HoldId, actual: int) returns (ok: bool)
      modifies this
      ensures View() == CreditRuns.Next(old(View()), LateSettle(id, actual)) && ok == Commits(old(View()), LateSettle(id, actual))
    {
      ok := Key(id, LateSettleCell) !in ledger && Key(id, TerminalCell) in ledger && ledger[Key(id, TerminalCell)].kind == RECLAIM;
      if ok {
        settled := settled + actual;
        PutEvent(id, LateSettleCell, LATE_SETTLE, 0, actual);
      }
    }

    method LegacySettleTransaction(id: HoldId, actual: int) returns (ok: bool)
      modifies this
      ensures View() == CreditRuns.Next(old(View()), LegacySettle(id, actual)) && ok == Commits(old(View()), LegacySettle(id, actual))
    {
      ok := Key(id, TerminalCell) !in ledger;
      if ok {
        settled := settled + actual;
        PutEvent(id, TerminalCell, SETTLE, 0, actual);
      }
    }

    method PutOwedSettle(id: HoldId, actual: int)
      modifies this`ledger
      ensures View() == CreditRuns.Next(old(View()), PutOwed(id, actual))
    {
      if Key(id, OwedSettleCell) !in ledger {
        PutEvent(id, OwedSettleCell, OWED_SETTLE, 0, actual);
      }
    }

    method PutRetainedRecord(id: HoldId)
      modifies this`ledger
      ensures View() == CreditRuns.Next(old(View()), PutRetained(id))
    {
      if Key(id, RetainedCell) !in ledger {
        PutEvent(id, RetainedCell, RETAINED, 0, 0);
      }
    }

    method ProjectShadowRow(id: HoldId, amount: int)
      modifies this`ledger
      ensures View() == CreditRuns.Next(old(View()), ProjectShadow(id, amount))
    {
      if Key(id, ShadowCell) !in ledger {
        PutEvent(id, ShadowCell, RESERVE, amount, 0);
      }
    }

    /** One transaction by another process. */
    method Land(t: Txn)
      modifies this
      ensures View() == CreditRuns.Next(old(View()), t)
    {
      match t {
        case Reserve(id, amount) => var _ := ReserveTransaction(id, amount);
        case Settle(id, held, actual) => var _ := EndTransaction(id, SETTLE, held, actual);
        case Release(id, held) => var _ := EndTransaction(id, RELEASE, held, 0);
        case Reclaim(id, held) => var _ := EndTransaction(id, RECLAIM, held, 0);
        case LateSettle(id, actual) => var _ := LateSettleTransaction(id, actual);
        case LegacySettle(id, actual) => var _ := LegacySettleTransaction(id, actual);
        case PutOwed(id, actual) => PutOwedSettle(id, actual);
        case PutRetained(id) => PutRetainedRecord(id);
        case ProjectShadow(id, amount) => ProjectShadowRow(id, amount);
      }
    }

    method OthersLand(ts: seq<Txn>)
      modifies this
      ensures View() == Run(old(View()), ts)
    {
      ghost var start := View();
      for i := 0 to |ts|
        invariant View() == Run(start, ts[..i])
      {
        assert ts[..i + 1][..i] == ts[..i];
        Land(ts[i]);
      }
      assert ts[..|ts|] == ts;
    }

    /** The recovery of a settle that lost to the reaper: a late settle, retried while it is cancelled transiently. */
    method RecoverViaLateSettle(id: HoldId, actual: int, turns: seq<LateTurn>) returns (answer: SettleAnswer)
      modifies this
      ensures View() == Run(old(View()), LateTrace(old(View()), [], id, actual, turns, 0).0)
      ensures answer == LateTrace(old(View()), [], id, actual, turns, 0).1
    {
      ghost var start, landed := View(), [];
      for attempt := 0 to MaxRetries
        invariant View() == Run(start, landed)
        invariant LateTrace(start, [], id, actual, turns, 0) == LateTrace(start, landed, id, actual, turns, attempt)
      {
        var turn := LateTurnAt(turns, attempt);
        RunConcat(start, landed, turn.before);
        landed := landed + turn.before;
        OthersLand(turn.before);
        if !turn.transient {
          RunOneMore(start, landed, LateSettle(id, actual));
          var ok := LateSettleTransaction(id, actual);
          return if ok then BookedLate else AlreadyLate;
        }
      }
      return LateFailed;
    }

    /** The settle: its transaction, retried while it is cancelled transiently; the routing of a refusal; and the note it leaves when it gives up. */
    method SettleReservation(id: HoldId, held: int, actual: int, external: bool, plan: seq<SettleTurn>) returns (answer: SettleAnswer)
      modifies this
      ensures View() == Run(old(View()), SettleTrace(old(View()), [], id, held, actual, external, plan, 0).0)
      ensures answer == SettleTrace(old(View()), [], id, held, actual, external, plan, 0).1
    {
      ghost var start, landed := View(), [];
      for attempt := 0 to MaxRetries
        invariant View() == Run(start, landed)
        invariant SettleTrace(start, [], id, held, actual, external, plan, 0)
               == SettleTrace(start, landed, id, held, actual, external, plan, attempt)
      {
        var turn := SettleTurnAt(plan, attempt);
        RunConcat(start, landed, turn.before);
        landed := landed + turn.before;
        OthersLand(turn.before);
        if !turn.transient {
          answer := SettleOnce(id, held, actual, external, turn);
          RunConcat(start, landed, SettleTurnTrace(Run(start, landed), id, held, actual, external, turn).0);
          return;
        }
      }
      RunOneMore(start, landed, PutOwed(id, actual));
      PutOwedSettle(id, actual);
      return Abandoned;
    }

    /** One settle transaction that was answered, and where its answer leads. */
    method SettleOnce(id: HoldId, held: int, actual: int, external: bool, turn: SettleTurn) returns (answer: SettleAnswer)
      modifies this
      ensures View() == Run(old(View()), SettleTurnTrace(old(View()), id, held, actual, external, turn).0)
      ensures answer == SettleTurnTrace(old(View()), id, held, actual, external, turn).1
    {
      ghost var start := View();
      RunOneMore(start, [], Settle(id, held, actual));
      var ok := EndTransaction(id, SETTLE, held, actual);
      if ok {
        return Booked;
      }
      if Key(id, TerminalCell) in ledger {
        var terminal := ledger[Key(id, TerminalCell)];
        if terminal.kind == RECLAIM && !external {
          RunConcat(start, turn.between, LateTrace(Run(start, turn.between), [], id, actual, turn.late, 0).0);
          OthersLand(turn.between);
          answer := RecoverViaLateSettle(id, actual, turn.late);
          return;
        }
        return if terminal.kind == RECLAIM then GoneForExternal
               else if terminal.kind == RELEASE then IgnoredAfterRelease else AlreadyFinal;
      }
      RunOneMore(start, turn.between, LegacySettle(id, actual));
      OthersLand(turn.between);
      var _ := LegacySettleTransaction(id, actual);
      return FellBack;
    }
  }

  // ---- the transactions that land while a settle runs ----

  const MaxRetries: nat := 4

  /** Others before one late attempt, and whether it is cancelled for a transient reason. */
  datatype LateTurn = LateTurn(before: seq<Txn>, transient: bool)

  /** Others before one attempt; whether it is cancelled transiently; others between a refusal and what follows it; the late attempts. */
  datatype SettleTurn = SettleTurn(before: seq<Txn>, transient: bool, between: seq<Txn>, late: seq<LateTurn>)

  function LateTurnAt(turns: seq<LateTurn>, k: nat): LateTurn {
    if k < |turns| then turns[k] else LateTurn([], false)
  }

  function SettleTurnAt(plan: seq<SettleTurn>, k: nat): SettleTurn {
    if k < |plan| then plan[k] else SettleTurn([], false, [], [])
  }

  function LateTrace(start: World, landed: seq<Txn>, id: HoldId, actual: int, turns: seq<LateTurn>, k: nat): (seq<Txn>, SettleAnswer)
    decreases MaxRetries - k
  {
    if k >= MaxRetries then (landed, LateFailed)
    else
      var now := landed + LateTurnAt(turns, k).before;
      if LateTurnAt(turns, k).transient then LateTrace(start, now, id, actual, turns, k + 1)
      else (now + [LateSettle(id, actual)], if Commits(Run(start, now), LateSettle(id, actual)) then BookedLate else AlreadyLate)
  }

  function SettleTurnTrace(w: World, id: HoldId, held: int, actual: int, external: bool, turn: SettleTurn): (seq<Txn>, SettleAnswer) {
    if Commits(w, Settle(id, held, actual)) then ([Settle(id, held, actual)], Booked)
    else if Key(id, TerminalCell) in w.ledger then
      var kind := w.ledger[Key(id, TerminalCell)].kind;
      if kind == RECLAIM && external then ([], GoneForExternal)
      else if kind == RECLAIM then
        var (late, answer) := LateTrace(Run(w, turn.between), [], id, actual, turn.late, 0);
        (turn.between + late, answer)
      else ([], if kind == RELEASE then IgnoredAfterRelease else AlreadyFinal)
    else (turn.between + [LegacySettle(id, actual)], FellBack)
  }

  function SettleTrace(start: World, landed: seq<Txn>, id: HoldId, held: int, actual: int, external: bool, plan: seq<SettleTurn>, k: nat): (seq<Txn>, SettleAnswer)
    decreases MaxRetries - k
  {
    if k >= MaxRetries then (landed + [PutOwed(id, actual)], Abandoned)
    else
      var turn := SettleTurnAt(plan, k);
      var now := landed + turn.before;
      if turn.transient then SettleTrace(start, now, id, held, actual, external, plan, k + 1)
      else
        var (ts, answer) := SettleTurnTrace(Run(start, now), id, held, actual, external, turn);
        (now + ts, answer)
  }

  lemma {:induction false} RunConcat(w: World, a: seq<Txn>, b: seq<Txn>)
    ensures Run(w, a + b) == Run(Run(w, a), b)
    decreases |b|
  {
    if b == [] {
      assert a + b == a;
    } else {
      assert (a + b)[..|a + b| - 1] == a + b[..|b| - 1];
      RunConcat(w, a, b[..|b| - 1]);
    }
  }

  lemma RunOneMore(w: World, ts: seq<Txn>, t: Txn)
    ensures Run(w, ts + [t]) == CreditRuns.Next(Run(w, ts), t)
    ensures Run(w, [t]) == CreditRuns.Next(w, t)
  {
    assert (ts + [t])[..|ts|] == ts;
    assert [t][..0] == [];
  }

  // ---- what a settle's answer means ----

  /** What the answer says about the tables when the settle returns. */
  predicate Means(answer: SettleAnswer, end: World, id: HoldId, actual: int, external: bool) {
    match answer
    case Booked => HasTerminal(end, id, SETTLE) && ChargedAt(end.ledger, id, TerminalCell) == actual && id !in end.holds
    case BookedLate => HasTerminal(end, id, RECLAIM) && Key(id, LateSettleCell) in end.ledger && ChargedAt(end.ledger, id, LateSettleCell) == actual
    case AlreadyLate => HasTerminal(end, id, RECLAIM) && Key(id, LateSettleCell) in end.ledger
    case LateFailed => HasTerminal(end, id, RECLAIM)
    case AlreadyFinal => HasTerminal(end, id, SETTLE)
    case IgnoredAfterRelease => HasTerminal(end, id, RELEASE)
    case GoneForExternal => HasTerminal(end, id, RECLAIM) && external
    case Abandoned => Key(id, OwedSettleCell) in end.ledger
    case FellBack => Key(id, TerminalCell) in end.ledger
  }

  lemma {:induction false} LateMeans(start: World, landed: seq<Txn>, id: HoldId, actual: int, external: bool, turns: seq<LateTurn>, k: nat)
    requires HasTerminal(start, id, RECLAIM)
    ensures var (ts, answer) := LateTrace(start, landed, id, actual, turns, k);
            Means(answer, Run(start, ts), id, actual, external)
    decreases MaxRetries - k
  {
    RowsAreForever(start, landed, Key(id, TerminalCell));
    if k < MaxRetries {
      var now := landed + LateTurnAt(turns, k).before;
      if LateTurnAt(turns, k).transient {
        LateMeans(start, now, id, actual, external, turns, k + 1);
      } else {
        RowsAreForever(start, now, Key(id, TerminalCell));
        RunOneMore(start, now, LateSettle(id, actual));
      }
    }
  }

  lemma TurnMeans(w: World, id: HoldId, held: int, actual: int, external: bool, turn: SettleTurn)
    requires WellKeyed(w.ledger)
    ensures var (ts, answer) := SettleTurnTrace(w, id, held, actual, external, turn);
            Means(answer, Run(w, ts), id, actual, external)
  {
    RunOneMore(w, [], Settle(id, held, actual));
    if !Commits(w, Settle(id, held, actual)) {
      if Key(id, TerminalCell) in w.ledger {
        assert RowFits(Key(id, TerminalCell), w.ledger[Key(id, TerminalCell)]);
        if HasTerminal(w, id, RECLAIM) && !external {
          RowsAreForever(w, turn.between, Key(id, TerminalCell));
          LateMeans(Run(w, turn.between), [], id, actual, external, turn.late, 0);
          RunConcat(w, turn.between, LateTrace(Run(w, turn.between), [], id, actual, turn.late, 0).0);
        }
      } else {
        RunOneMore(w, turn.between, LegacySettle(id, actual));
      }
    }
  }

  lemma {:induction false} RunIsWellKeyed(w: World, ts: seq<Txn>)
    requires WellKeyed(w.ledger)
    ensures WellKeyed(Run(w, ts).ledger)
    decreases |ts|
  {
    if ts != [] {
      RunIsWellKeyed(w, ts[..|ts| - 1]);
      NextIsWellKeyed(Run(w, ts[..|ts| - 1]), ts[|ts| - 1]);
    }
  }

  /** Whatever lands around it, a settle's answer is true of the tables as it returns. */
  lemma {:induction false} TheAnswerIsTrue(start: World, landed: seq<Txn>, id: HoldId, held: int, actual: int, external: bool, plan: seq<SettleTurn>, k: nat)
    requires WellKeyed(start.ledger)
    ensures var (ts, answer) := SettleTrace(start, landed, id, held, actual, external, plan, k);
            Means(answer, Run(start, ts), id, actual, external)
    decreases MaxRetries - k
  {
    if k >= MaxRetries {
      RunOneMore(start, landed, PutOwed(id, actual));
    } else {
      var turn := SettleTurnAt(plan, k);
      var now := landed + turn.before;
      if turn.transient {
        TheAnswerIsTrue(start, now, id, held, actual, external, plan, k + 1);
      } else {
        RunIsWellKeyed(start, now);
        TurnMeans(Run(start, now), id, held, actual, external, turn);
        RunConcat(start, now, SettleTurnTrace(Run(start, now), id, held, actual, external, turn).0);
      }
    }
  }

  /** The legacy fallback runs only from a world in which the hold is gone and has no terminal. */
  lemma {:induction false} FallsBackFrom(start: World, landed: seq<Txn>, id: HoldId, held: int, actual: int, external: bool, plan: seq<SettleTurn>, k: nat)
    returns (now: seq<Txn>)
    requires SettleTrace(start, landed, id, held, actual, external, plan, k).1 == FellBack
    ensures var ts := SettleTrace(start, landed, id, held, actual, external, plan, k).0; now <= ts
    ensures id !in Run(start, now).holds && Key(id, TerminalCell) !in Run(start, now).ledger
    decreases MaxRetries - k
  {
    var turn := SettleTurnAt(plan, k);
    now := landed + turn.before;
    if turn.transient {
      now := FallsBackFrom(start, now, id, held, actual, external, plan, k + 1);
    } else {
      NeverLate(Run(start, now), id, actual, turn);
    }
  }

  lemma NeverLate(w: World, id: HoldId, actual: int, turn: SettleTurn)
    ensures LateTrace(Run(w, turn.between), [], id, actual, turn.late, 0).1 != FellBack
  {
    LateAnswers(Run(w, turn.between), [], id, actual, turn.late, 0);
  }

  lemma {:induction false} LateAnswers(start: World, landed: seq<Txn>, id: HoldId, actual: int, turns: seq<LateTurn>, k: nat)
    ensures LateTrace(start, landed, id, actual, turns, k).1 in {BookedLate, AlreadyLate, LateFailed}
    decreases MaxRetries - k
  {
    if k < MaxRetries {
      LateAnswers(start, landed + LateTurnAt(turns, k).before, id, actual, turns, k + 1);
    }
  }

  lemma GoneHasTerminal(w: World, base: World, id: HoldId)
    requires Inv(w, base) && Key(id, ReserveCell) in w.ledger
    ensures id in w.holds || Key(id, TerminalCell) in w.ledger
  {
    assert LocalOf(w, id).Ok();
  }

  /** A recorded hold never falls back, whatever allowed transactions land around its settle. */
  lemma RecordedNeverFallsBack(start: World, base: World, id: HoldId, held: int, actual: int, external: bool, plan: seq<SettleTurn>)
    requires Inv(start, base) && Key(id, ReserveCell) in start.ledger
    requires AllAllowed(start, SettleTrace(start, [], id, held, actual, external, plan, 0).0)
    ensures SettleTrace(start, [], id, held, actual, external, plan, 0).1 != FellBack
  {
    var (ts, answer) := SettleTrace(start, [], id, held, actual, external, plan, 0);
    if answer == FellBack {
      var now := FallsBackFrom(start, [], id, held, actual, external, plan, 0);
      assert ts[..|now|] == now;
      AllAllowedPrefix(start, ts, |now|);
      RunKeepsInv(start, base, now);
      RowsAreForever(start, now, Key(id, ReserveCell));
      GoneHasTerminal(Run(start, now), base, id);
    }
  }
}
