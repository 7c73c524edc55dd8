/** What the loops of the pool row guarantee once they return, whatever landed while they ran. */
module PoolCommits {
  import opened Options
  import opened PoolRows
  import opened PoolHistories
  import opened PoolLoops

  /** The commit of a loop: what landed before its last read, inside its last window, and its own write. */
  datatype Commit = Commit(pre: seq<Write>, window: seq<Write>, write: Write, turn: nat)

  ghost predicate IsCommit(c: Commit, start: Option<Row>, ws: seq<Write>, outcome: Outcome, op: Operation, plan: seq<Turn>, configured: int) {
    && ws == c.pre + c.window + [c.write]
    && Decide(Run(start, c.pre, configured), op, configured) == Try(c.write, outcome, true)
    && Lands(Run(start, c.pre + c.window, configured), c.write)
    && c.window == TurnAt(plan, c.turn).window
  }

  /** A turn that ends in `Done` ends in its own write, which landed. */
  lemma DoneTurn(row: Option<Row>, op: Operation, turn: Turn, configured: int) returns (write: Write)
    requires op != Heal && OneTurn(row, op, turn, configured).1 == Some(Done)
    ensures var seen := Run(row, turn.before, configured);
            && Decide(seen, op, configured) == Try(write, Done, true)
            && Lands(Run(seen, turn.window, configured), write)
            && OneTurn(row, op, turn, configured).0 == turn.before + turn.window + [write]
  {
    var decision := Decide(Run(row, turn.before, configured), op, configured);
    assert !decision.Repair? && !decision.Stop?;
    write := decision.write;
  }

  /** The turn a loop ends in, when it ends in a commit. */
  lemma TurnCommits(start: Option<Row>, landed: seq<Write>, op: Operation, plan: seq<Turn>, k: nat, configured: int)
    returns (c: Commit)
    requires op != Heal
    requires OneTurn(Run(start, landed, configured), op, TurnAt(plan, k), configured).1 == Some(Done)
    ensures IsCommit(c, start, landed + OneTurn(Run(start, landed, configured), op, TurnAt(plan, k), configured).0, Done, op, plan, configured)
  {
    var turn := TurnAt(plan, k);
    var write := DoneTurn(Run(start, landed, configured), op, turn, configured);
    c := Commit(landed + turn.before, turn.window, write, k);
    RunConcat(start, landed, turn.before, configured);
    RunConcat(start, landed + turn.before, turn.window, configured);
    assert landed + (turn.before + turn.window + [write]) == c.pre + c.window + [write];
  }

  lemma {:induction false} LoopCommits(start: Option<Row>, landed: seq<Write>, op: Operation, plan: seq<Turn>, k: nat, configured: int)
    returns (c: Commit)
    requires op != Heal
    requires LoopTrace(start, landed, op, plan, k, configured).1 == Done
    ensures IsCommit(c, start, LoopTrace(start, landed, op, plan, k, configured).0, Done, op, plan, configured)
    decreases MaxRetries - k
  {
    var (ws, end) := OneTurn(Run(start, landed, configured), op, TurnAt(plan, k), configured);
    if end.None? {
      c := LoopCommits(start, landed + ws, op, plan, k + 1, configured);
    } else {
      c := TurnCommits(start, landed, op, plan, k, configured);
    }
  }

  ghost predicate RateHolds(plan: seq<Turn>) {
    forall k: nat, w | w in TurnAt(plan, k).window :: !w.Recompute?
  }

  lemma CommitRun(c: Commit, start: Option<Row>, configured: int)
    ensures Run(start, c.pre + c.window, configured) == Run(Run(start, c.pre, configured), c.window, configured)
    ensures Run(start, c.pre + c.window + [c.write], configured)
         == Apply(Run(start, c.pre + c.window, configured), c.write, configured)
  {
    RunConcat(start, c.pre, c.window, configured);
    var ws := c.pre + c.window;
    assert (ws + [c.write])[..|ws|] == ws;
  }

  /** At the rate it read, a loop's own write adds neither a gap nor a drift. */
  lemma OwnWriteAddsNothing(seen: Row, before: Row, op: Operation, write: Write, configured: int)
    requires op != Heal && Decide(Some(seen), op, configured) == Try(write, Done, true)
    requires Lands(Some(before), write) && RowRate(before, configured) == RowRate(seen, configured)
    ensures var after := Apply(Some(before), write, configured);
            after.Some? && Gap(after.value, configured) == Gap(before, configured) && Drift(after.value) == Drift(before)
  {
    WriteSlips(before, write, configured);
    WriteKeepsDrift(before, write, configured);
    assert Slip(before, write, configured) == 0;
  }

  /** A commit on a row that was there writes neither a gap nor a drift. */
  lemma CommitAddsNothing(c: Commit, start: Option<Row>, op: Operation, plan: seq<Turn>, configured: int)
    requires op != Heal && RateHolds(plan) && Run(start, c.pre + c.window, configured).Some?
    requires Decide(Run(start, c.pre, configured), op, configured) == Try(c.write, Done, true)
    requires Lands(Run(start, c.pre + c.window, configured), c.write) && c.window == TurnAt(plan, c.turn).window
    ensures var before := Run(start, c.pre + c.window, configured).value;
            var after := Apply(Some(before), c.write, configured);
            after.Some? && Gap(after.value, configured) == Gap(before, configured) && Drift(after.value) == Drift(before)
  {
    CommitRun(c, start, configured);
    var seen, before := Run(start, c.pre, configured), Run(start, c.pre + c.window, configured).value;
    assert seen.Some?;
    OnlyRecomputeMovesRate(seen, c.window, configured);
    OwnWriteAddsNothing(seen.value, before, op, c.write, configured);
  }

  /**
   A committed loop leaves what it asked for, adds no gap to the ceiling identity and no
   drift to the headroom, provided no rate recompute landed between its reads and its writes.
   */
  lemma CommittedLoop(start: Option<Row>, op: Operation, plan: seq<Turn>, configured: int) returns (before: Option<Row>)
    requires op != Heal && RateHolds(plan)
    requires LoopTrace(start, [], op, plan, 0, configured).1 == Done
    ensures var end := Run(start, LoopTrace(start, [], op, plan, 0, configured).0, configured);
            && end.Some?
            && Gap(end.value, configured) == (if before.Some? then Gap(before.value, configured) else 0)
            && Drift(end.value) == (if before.Some? then Drift(before.value) else 0)
            && (op.SetFigure? ==> end.value.manual == Some(op.asked) && end.value.active == op.active
                                  && end.value.limit == op.asked + Or0(end.value.granted) + Gap(end.value, configured))
            && (op.ClearFigure? ==> SeatTracked(end.value))
            && (op.SeatDelta? ==> before.Some? && SeatTracked(before.value) && SeatTracked(end.value)
                                  && Or0(end.value.seats) == Or0(before.value.seats) + op.seats
                                  && end.value.limit == before.value.limit + op.seats * RowRate(before.value, configured))
            && (before.Some? ==> end.value.granted == before.value.granted && end.value.reserved == before.value.reserved
                                 && end.value.settled == before.value.settled)
    ensures exists c :: IsCommit(c, start, LoopTrace(start, [], op, plan, 0, configured).0, Done, op, plan, configured)
                        && before == Run(start, c.pre + c.window, configured)
  {
    var c := LoopCommits(start, [], op, plan, 0, configured);
    before := Run(start, c.pre + c.window, configured);
    CommitRun(c, start, configured);
    if before.Some? {
      CommitAddsNothing(c, start, op, plan, configured);
    }
  }

  /** What has landed once everybody else's writes of turns `k` to the last are added, and nothing more. */
  function OthersAfter(landed: seq<Write>, plan: seq<Turn>, k: nat): seq<Write>
    decreases MaxRetries - k
  {
    if k >= MaxRetries then landed
    else OthersAfter(landed + (TurnAt(plan, k).before + TurnAt(plan, k).window), plan, k + 1)
  }

  lemma LosingTurn(row: Option<Row>, op: Operation, turn: Turn, configured: int)
    requires op.SeatDelta? || op.Heal?
    ensures OneTurn(row, op, turn, configured).1.None? ==> OneTurn(row, op, turn, configured).0 == turn.before + turn.window
    ensures OneTurn(row, op, turn, configured).1 != Some(LostTheRace)
  {
  }

  /** A seat delta or a repair that gives up after its eight attempts has landed nothing of its own. */
  lemma {:induction false} LosingLandsNothing(start: Option<Row>, landed: seq<Write>, op: Operation, plan: seq<Turn>, k: nat, configured: int)
    requires op.SeatDelta? || op.Heal?
    requires LoopTrace(start, landed, op, plan, k, configured).1 == LostTheRace
    ensures LoopTrace(start, landed, op, plan, k, configured).0 == OthersAfter(landed, plan, k)
    decreases MaxRetries - k
  {
    if k < MaxRetries {
      var turn := TurnAt(plan, k);
      LosingTurn(Run(start, landed, configured), op, turn, configured);
      LosingLandsNothing(start, landed + (turn.before + turn.window), op, plan, k + 1, configured);
    }
  }

  lemma {:induction false} RunKeepsHeadroom(row: Option<Row>, ws: seq<Write>, configured: int)
    requires row.Some? && row.value.headroom.Some?
    ensures Run(row, ws, configured).Some? && Run(row, ws, configured).value.headroom.Some?
    decreases |ws|
  {
    if ws != [] {
      RunKeepsHeadroom(row, ws[..|ws| - 1], configured);
    }
  }

  /** The row a repair's last turn read, and the row that turn met when it wrote or stopped. */
  datatype LastTurn = LastTurn(pre: seq<Write>, turn: nat, window: seq<Write>)

  function ReadIn(l: LastTurn, start: Option<Row>, plan: seq<Turn>, configured: int): Option<Row> {
    ReadOf(Run(start, l.pre, configured), Heal, TurnAt(plan, l.turn))
  }

  function MetBy(l: LastTurn, start: Option<Row>, configured: int): Option<Row> {
    Run(start, l.pre + l.window, configured)
  }

  /**
   What a repair that reports success leaves, with no hypothesis on the others or on the age
   of its read: the headroom is exact in the end if and only if the row that was met has the
   drift of the row that was read.
   */
  lemma {:induction false} HealHealsIff(start: Option<Row>, landed: seq<Write>, plan: seq<Turn>, k: nat, configured: int) returns (l: LastTurn)
    requires LoopTrace(start, landed, Heal, plan, k, configured).1 == Done
    ensures l.window == [] || l.window == TurnAt(plan, l.turn).window
    ensures var end := Run(start, LoopTrace(start, landed, Heal, plan, k, configured).0, configured);
            var read, met := ReadIn(l, start, plan, configured), MetBy(l, start, configured);
            read.Some? && (end.Some? ==> met.Some? && (Drift(end.value) == 0 <==> Drift(met.value) == Drift(read.value)))
    decreases MaxRetries - k
  {
    var row, turn := Run(start, landed, configured), TurnAt(plan, k);
    var (ws, end) := OneTurn(row, Heal, turn, configured);
    if end.None? {
      l := HealHealsIff(start, landed + ws, plan, k + 1, configured);
    } else {
      RunConcat(start, landed, turn.before, configured);
      RunConcat(start, landed, ws, configured);
      var wrote := HealTurnIff(row, turn, configured);
      l := LastTurn(landed + turn.before, k, if wrote then turn.window else []);
      RunConcat(start, l.pre, l.window, configured);
      assert l.pre + [] == l.pre;
    }
  }

  lemma HealTurnIff(row: Option<Row>, turn: Turn, configured: int) returns (wrote: bool)
    requires OneTurn(row, Heal, turn, configured).1 == Some(Done)
    ensures var seen := Run(row, turn.before, configured);
            var read, end := ReadOf(seen, Heal, turn), Run(row, OneTurn(row, Heal, turn, configured).0, configured);
            var met := if wrote then Run(seen, turn.window, configured) else seen;
            read.Some? && (end.Some? ==> met.Some? && (Drift(end.value) == 0 <==> Drift(met.value) == Drift(read.value)))
  {
    var seen := Run(row, turn.before, configured);
    var read := ReadOf(seen, Heal, turn);
    HealTurn(row, turn, configured);
    wrote := read.value.headroom != Some(Target(read.value));
    if wrote {
      TurnRun(row, turn, RepairHeadroom(read.value), configured);
      RepairSubtractsWhatItSaw(Run(seen, turn.window, configured).value, RepairHeadroom(read.value), configured);
    }
  }

  /** Every read of the loop, however stale, is of a moment since when no repair has landed when its turn writes. */
  ghost predicate UndisturbedReads(start: Option<Row>, landed: seq<Write>, plan: seq<Turn>, k: nat, configured: int)
    decreases MaxRetries - k
  {
    k < MaxRetries ==>
      var row, turn := Run(start, landed, configured), TurnAt(plan, k);
      var seen := Run(row, turn.before, configured);
      var (ws, end) := OneTurn(row, Heal, turn, configured);
      && (exists since :: NoRepair(since) && seen == Run(ReadOf(seen, Heal, turn), since, configured))
      && NoRepair(turn.window)
      && (end.None? ==> UndisturbedReads(start, landed + ws, plan, k + 1, configured))
  }

  predicate NoRepair(ws: seq<Write>) {
    forall w | w in ws :: !w.RepairHeadroom?
  }

  /** A repair that reports success leaves no drift, however many others wrote in between, if none of them repaired. */
  lemma {:induction false} HealHeals(start: Option<Row>, landed: seq<Write>, plan: seq<Turn>, k: nat, configured: int)
    requires UndisturbedReads(start, landed, plan, k, configured)
    requires LoopTrace(start, landed, Heal, plan, k, configured).1 == Done
    ensures var end := Run(start, LoopTrace(start, landed, Heal, plan, k, configured).0, configured);
            end.Some? && Exact(end)
    decreases MaxRetries - k
  {
    var row, turn := Run(start, landed, configured), TurnAt(plan, k);
    var (ws, end) := OneTurn(row, Heal, turn, configured);
    RunConcat(start, landed, ws, configured);
    if end.None? {
      HealHeals(start, landed + ws, plan, k + 1, configured);
    } else {
      var seen := Run(row, turn.before, configured);
      var since :| NoRepair(since) && seen == Run(ReadOf(seen, Heal, turn), since, configured);
      HealTurnHeals(row, turn, since, configured);
    }
  }

  lemma HealTurnHeals(row: Option<Row>, turn: Turn, since: seq<Write>, configured: int)
    requires OneTurn(row, Heal, turn, configured).1 == Some(Done)
    requires NoRepair(since) && NoRepair(turn.window)
    requires Run(row, turn.before, configured) == Run(ReadOf(Run(row, turn.before, configured), Heal, turn), since, configured)
    ensures var end := Run(row, OneTurn(row, Heal, turn, configured).0, configured); end.Some? && Exact(end)
  {
    var seen := Run(row, turn.before, configured);
    var read := ReadOf(seen, Heal, turn);
    HealTurn(row, turn, configured);
    RunKeepsDrift(read, since, configured);
    if read.value.headroom == Some(Target(read.value)) {
      RunKeepsHeadroom(read, since, configured);
    } else {
      RunKeepsDrift(seen, turn.window, configured);
      TurnRun(row, turn, RepairHeadroom(read.value), configured);
      RepairSubtractsWhatItSaw(Run(seen, turn.window, configured).value, RepairHeadroom(read.value), configured);
    }
  }

  /** With nobody else writing, every operation commits in its first turn or finds nothing to do. */
  lemma AloneItCommits(start: Option<Row>, op: Operation, configured: int)
    requires start.Some? ==> start.value.headroom.Some?
    ensures LoopTrace(start, [], op, [], 0, configured).1 != LostTheRace
  {
  }
}
