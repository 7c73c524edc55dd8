/** Which answer a settle gives, decided by the ledger at its first clear attempt, and what it lands of its own. */
module CreditAnswers {
  import opened CreditEvents
  import opened CreditRuns
  import opened CreditTables

  /** What others land before the attempts `k` to `n` of a settle. */
  function OthersBefore(plan: seq<SettleTurn>, k: nat, n: nat): seq<Txn>
    decreases n - k
  {
    if k >= n then [] else SettleTurnAt(plan, k).before + OthersBefore(plan, k + 1, n)
  }

  function OthersBeforeLate(turns: seq<LateTurn>, k: nat, n: nat): seq<Txn>
    decreases n - k
  {
    if k >= n then [] else LateTurnAt(turns, k).before + OthersBeforeLate(turns, k + 1, n)
  }

  /** The settle's first attempt that is not cancelled transiently is its `j`th. */
  predicate FirstClear(plan: seq<SettleTurn>, j: nat) {
    j < 4 && !SettleTurnAt(plan, j).transient && forall i: nat | i < j :: SettleTurnAt(plan, i).transient
  }

  predicate NoneClear(plan: seq<SettleTurn>) {
    forall i: nat | i < 4 :: SettleTurnAt(plan, i).transient
  }

  predicate FirstClearLate(turns: seq<LateTurn>, j: nat) {
    j < 4 && !LateTurnAt(turns, j).transient && forall i: nat | i < j :: LateTurnAt(turns, i).transient
  }

  predicate NoneClearLate(turns: seq<LateTurn>) {
    forall i: nat | i < 4 :: LateTurnAt(turns, i).transient
  }

  // ---- up to the attempt that counts ----

  lemma {:induction false} TransientOnly(start: World, landed: seq<Txn>, id: HoldId, held: int, actual: int, external: bool,
                                         plan: seq<SettleTurn>, k: nat, n: nat)
    requires k <= n <= 4 && forall i: nat | k <= i < n :: SettleTurnAt(plan, i).transient
    ensures SettleTrace(start, landed, id, held, actual, external, plan, k)
         == SettleTrace(start, landed + OthersBefore(plan, k, n), id, held, actual, external, plan, n)
    decreases n - k
  {
    if k == n {
      assert landed + [] == landed;
    } else {
      var now := landed + SettleTurnAt(plan, k).before;
      TransientOnly(start, now, id, held, actual, external, plan, k + 1, n);
      assert landed + OthersBefore(plan, k, n) == now + OthersBefore(plan, k + 1, n);
    }
  }

  lemma {:induction false} TransientOnlyLate(start: World, landed: seq<Txn>, id: HoldId, actual: int, turns: seq<LateTurn>, k: nat, n: nat)
    requires k <= n <= 4 && forall i: nat | k <= i < n :: LateTurnAt(turns, i).transient
    ensures LateTrace(start, landed, id, actual, turns, k)
         == LateTrace(start, landed + OthersBeforeLate(turns, k, n), id, actual, turns, n)
    decreases n - k
  {
    if k == n {
      assert landed + [] == landed;
    } else {
      var now := landed + LateTurnAt(turns, k).before;
      TransientOnlyLate(start, now, id, actual, turns, k + 1, n);
      assert landed + OthersBeforeLate(turns, k, n) == now + OthersBeforeLate(turns, k + 1, n);
    }
  }

  lemma {:induction false} ClearOrNone(plan: seq<SettleTurn>, n: nat) returns (j: nat)
    requires n <= 4
    ensures j <= n && (forall i: nat | i < j :: SettleTurnAt(plan, i).transient)
    ensures j < n ==> !SettleTurnAt(plan, j).transient
  {
    if n == 0 {
      j := 0;
    } else {
      j := ClearOrNone(plan, n - 1);
      if j == n - 1 && SettleTurnAt(plan, j).transient {
        j := n;
      }
    }
  }

  lemma {:induction false} ClearOrNoneLate(turns: seq<LateTurn>, n: nat) returns (j: nat)
    requires n <= 4
    ensures j <= n && (forall i: nat | i < j :: LateTurnAt(turns, i).transient)
    ensures j < n ==> !LateTurnAt(turns, j).transient
  {
    if n == 0 {
      j := 0;
    } else {
      j := ClearOrNoneLate(turns, n - 1);
      if j == n - 1 && LateTurnAt(turns, j).transient {
        j := n;
      }
    }
  }

  // ---- the answers ----

  /**
   The settle of a hold, decided by the tables at its first clear attempt: what it answers and
   exactly which transactions land after those of the others before it.
   */
  lemma TheAnswerIsDecided(start: World, id: HoldId, held: int, actual: int, external: bool, plan: seq<SettleTurn>, j: nat)
    requires FirstClear(plan, j)
    ensures var now := OthersBefore(plan, 0, j) + SettleTurnAt(plan, j).before;
            var w, between := Run(start, now), SettleTurnAt(plan, j).between;
            var (ts, answer) := SettleTrace(start, [], id, held, actual, external, plan, 0);
            if Key(id, TerminalCell) !in w.ledger then
              if id in w.holds then answer == Booked && ts == now + [Settle(id, held, actual)]
              else answer == FellBack && ts == now + (between + [LegacySettle(id, actual)])
            else if w.ledger[Key(id, TerminalCell)].kind == RECLAIM then
              if external then answer == GoneForExternal && ts == now
              else
                var (late, said) := LateTrace(Run(w, between), [], id, actual, SettleTurnAt(plan, j).late, 0);
                answer == said && ts == now + (between + late)
            else
              answer == (if w.ledger[Key(id, TerminalCell)].kind == RELEASE then IgnoredAfterRelease else AlreadyFinal) && ts == now
  {
    TransientOnly(start, [], id, held, actual, external, plan, 0, j);
    var turn, now := SettleTurnAt(plan, j), OthersBefore(plan, 0, j) + SettleTurnAt(plan, j).before;
    assert [] + OthersBefore(plan, 0, j) == OthersBefore(plan, 0, j);
    assert now + [] == now;
  }

  /** It is abandoned, with the note as its only write, if and only if all four attempts were cancelled transiently. */
  lemma AbandonedIff(start: World, id: HoldId, held: int, actual: int, external: bool, plan: seq<SettleTurn>)
    ensures var (ts, answer) := SettleTrace(start, [], id, held, actual, external, plan, 0);
            && (answer == Abandoned <==> NoneClear(plan))
            && (NoneClear(plan) ==> ts == OthersBefore(plan, 0, 4) + [PutOwed(id, actual)])
  {
    var j := ClearOrNone(plan, 4);
    if j == 4 {
      TransientOnly(start, [], id, held, actual, external, plan, 0, 4);
      assert [] + OthersBefore(plan, 0, 4) == OthersBefore(plan, 0, 4);
    } else {
      TheAnswerIsDecided(start, id, held, actual, external, plan, j);
      var w := Run(start, OthersBefore(plan, 0, j) + SettleTurnAt(plan, j).before);
      LateAnswers(Run(w, SettleTurnAt(plan, j).between), [], id, actual, SettleTurnAt(plan, j).late, 0);
    }
  }

  /**
   The late settle of a hold whose terminal is a RECLAIM: booked if and only if one of its four
   attempts is clear and meets no late settle; given up with nothing written if and only if
   none is clear.
   */
  lemma LateIsDecided(start: World, id: HoldId, actual: int, turns: seq<LateTurn>)
    requires HasTerminal(start, id, RECLAIM)
    ensures var (ts, answer) := LateTrace(start, [], id, actual, turns, 0);
            && (answer == LateFailed <==> NoneClearLate(turns))
            && (NoneClearLate(turns) ==> ts == OthersBeforeLate(turns, 0, 4))
            && forall j: nat | FirstClearLate(turns, j) ::
                 var now := OthersBeforeLate(turns, 0, j) + LateTurnAt(turns, j).before;
                 && ts == now + [LateSettle(id, actual)]
                 && answer == if Key(id, LateSettleCell) in Run(start, now).ledger then AlreadyLate else BookedLate
  {
    var j := ClearOrNoneLate(turns, 4);
    TransientOnlyLate(start, [], id, actual, turns, 0, j);
    assert [] + OthersBeforeLate(turns, 0, j) == OthersBeforeLate(turns, 0, j);
    if j < 4 {
      var now := OthersBeforeLate(turns, 0, j) + LateTurnAt(turns, j).before;
      RowsAreForever(start, now, Key(id, TerminalCell));
      assert forall i: nat | FirstClearLate(turns, i) :: i == j;
    }
  }

  /** An external settle never charges late: the only charge it can land is its own settle, on an open hold, or the fallback's. */
  lemma ExternalIsNeverLate(start: World, id: HoldId, held: int, actual: int, plan: seq<SettleTurn>)
    ensures SettleTrace(start, [], id, held, actual, true, plan, 0).1 !in {BookedLate, AlreadyLate, LateFailed}
    ensures forall j: nat | FirstClear(plan, j) ::
              var now := OthersBefore(plan, 0, j) + SettleTurnAt(plan, j).before;
              HasTerminal(Run(start, now), id, RECLAIM) ==>
                SettleTrace(start, [], id, held, actual, true, plan, 0) == (now, GoneForExternal)
  {
    var j := ClearOrNone(plan, 4);
    if j == 4 {
      AbandonedIff(start, id, held, actual, true, plan);
    } else {
      TheAnswerIsDecided(start, id, held, actual, true, plan, j);
    }
    forall i: nat | FirstClear(plan, i) ensures i == j {
    }
  }

  /** An open hold with one clear attempt is booked, as long as nobody ends it before. */
  lemma OpenIsBooked(start: World, id: HoldId, held: int, actual: int, external: bool, plan: seq<SettleTurn>, j: nat)
    requires FirstClear(plan, j)
    requires var w := Run(start, OthersBefore(plan, 0, j) + SettleTurnAt(plan, j).before);
             id in w.holds && Key(id, TerminalCell) !in w.ledger
    ensures var (ts, answer) := SettleTrace(start, [], id, held, actual, external, plan, 0);
            var end := Run(start, ts);
            && answer == Booked && id !in end.holds
            && HasTerminal(end, id, SETTLE) && ChargedAt(end.ledger, id, TerminalCell) == actual
            && var w := Run(start, OthersBefore(plan, 0, j) + SettleTurnAt(plan, j).before);
            && end.settled == w.settled + actual && end.reserved == w.reserved - held
  {
    TheAnswerIsDecided(start, id, held, actual, external, plan, j);
    var now := OthersBefore(plan, 0, j) + SettleTurnAt(plan, j).before;
    RunOneMore(start, now, Settle(id, held, actual));
  }
}
