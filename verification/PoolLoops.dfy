/**
 The pool row's read-and-compare loops. `LoopTrace` is the sequence of writes that lands
 while one loop runs: everybody else's, and its own. `PoolItem` is the repository itself.
 */
module PoolLoops {
  import opened Options
  import opened PoolRows
  import opened PoolHistories

  const MaxRetries: nat := 8

  datatype Operation = SetFigure(asked: int, active: bool) | ClearFigure | SeatDelta(seats: int) | Heal

  datatype Outcome = Done | Nothing | CountedOnly | LostTheRace

  /** What one turn of the loop does with the row it read. */
  datatype Decision = Stop(outcome: Outcome) | Repair | Try(write: Write, outcome: Outcome, retry: bool)

  /**
   What others land in one turn: before its read, between its read and its write, and while it
   repairs headroom; and what a repair's read returns if it is not the row as it is.
   */
  datatype Turn = Turn(before: seq<Write>, window: seq<Write>, repair: seq<Turn>, stale: Option<Option<Row>>)

  function TurnAt(plan: seq<Turn>, k: nat): Turn {
    if k < |plan| then plan[k] else Turn([], [], [], None)
  }

  /** The repair's read is eventually consistent; every other read is of the row as it is. */
  function ReadOf(seen: Option<Row>, op: Operation, turn: Turn): Option<Row> {
    if op.Heal? && turn.stale.Some? then turn.stale.value else seen
  }

  function Decide(seen: Option<Row>, op: Operation, configured: int): Decision {
    match op
    case SetFigure(asked, active) =>
      if seen.None? then Try(Seed(Some(asked), 0, configured, active, None), Done, true)
      else if seen.value.headroom.None? then Repair
      else Try(SetManual(seen.value, asked, active), Done, true)
    case ClearFigure =>
      if seen.None? then Stop(Nothing)
      else if seen.value.headroom.None? then Repair
      else Try(ClearManual(seen.value), Done, true)
    case SeatDelta(d) =>
      if d == 0 || seen.None? then Stop(Nothing)
      else if SeatTracked(seen.value) then Try(SeatsAndMoney(seen.value, d), Done, true)
      else Try(SeatsOnly(seen.value, d), CountedOnly, false)
    case Heal =>
      if seen.None? then Stop(Nothing)
      else if seen.value.headroom == Some(Target(seen.value)) then Stop(Done)
      else Try(RepairHeadroom(seen.value), Done, true)
  }

  /** One turn: the writes that land in it, and how the loop ends if it ends here. */
  function OneTurn(row: Option<Row>, op: Operation, turn: Turn, configured: int): (seq<Write>, Option<Outcome>)
    decreases op != Heal, 0, 0
  {
    var seen := Run(row, turn.before, configured);
    match Decide(ReadOf(seen, op, turn), op, configured)
    case Stop(outcome) => (turn.before, Some(outcome))
    case Repair =>
      var (repair, healed) := LoopTrace(seen, [], Heal, turn.repair, 0, configured);
      (turn.before + repair, if healed == LostTheRace then Some(LostTheRace) else None)
    case Try(write, outcome, retry) =>
      if Lands(Run(seen, turn.window, configured), write) then (turn.before + turn.window + [write], Some(outcome))
      else (turn.before + turn.window, if retry then None else Some(outcome))
  }

  /** Every write that has landed when the loop ends, given those that landed in its first `k` turns. */
  function LoopTrace(start: Option<Row>, landed: seq<Write>, op: Operation, plan: seq<Turn>, k: nat, configured: int): (seq<Write>, Outcome)
    decreases op != Heal, 1, MaxRetries - k
  {
    if k >= MaxRetries then (landed, LostTheRace)
    else
      var (ws, end) := OneTurn(Run(start, landed, configured), op, TurnAt(plan, k), configured);
      if end.Some? then (landed + ws, end.value)
      else LoopTrace(start, landed + ws, op, plan, k + 1, configured)
  }

  /** What a turn leaves, read as one run or moment by moment. */
  lemma TurnRun(row: Option<Row>, turn: Turn, write: Write, configured: int)
    ensures var now := Run(Run(row, turn.before, configured), turn.window, configured);
            && Run(row, turn.before + turn.window, configured) == now
            && Run(row, turn.before + turn.window + [write], configured) == Apply(now, write, configured)
  {
    RunConcat(row, turn.before, turn.window, configured);
    var ws := turn.before + turn.window;
    assert (ws + [write])[..|ws|] == ws;
  }

  lemma HealTurn(row: Option<Row>, turn: Turn, configured: int)
    ensures var seen := Run(row, turn.before, configured);
            var read := ReadOf(seen, Heal, turn);
            && (read.None? ==> OneTurn(row, Heal, turn, configured) == (turn.before, Some(Nothing)))
            && (read.Some? && read.value.headroom == Some(Target(read.value)) ==>
                  OneTurn(row, Heal, turn, configured) == (turn.before, Some(Done)))
            && (read.Some? && read.value.headroom != Some(Target(read.value)) ==>
                  OneTurn(row, Heal, turn, configured) ==
                  if Lands(Run(seen, turn.window, configured), RepairHeadroom(read.value))
                  then (turn.before + turn.window + [RepairHeadroom(read.value)], Some(Done))
                  else (turn.before + turn.window, None))
  {
  }

  class PoolItem {
    var row: Option<Row>
    const configured: int

    constructor (configured: int)
      ensures row == None && this.configured == configured
    {
      row, this.configured := None, configured;
    }

    /** One conditional write on the stored row. */
    method UpdateItem(w: Write) returns (ok: bool)
      modifies this`row
      ensures row == Apply(old(row), w, configured)
      ensures ok == Lands(old(row), w)
    {
      ok := Lands(row, w);
      row := Apply(row, w, configured);
    }

    method OthersLand(ws: seq<Write>)
      modifies this`row
      ensures row == Run(old(row), ws, configured)
    {
      for i := 0 to |ws|
        invariant row == Run(old(row), ws[..i], configured)
      {
        assert ws[..i + 1][..i] == ws[..i];
        var _ := UpdateItem(ws[i]);
      }
      assert ws[..|ws|] == ws;
    }

    /** One turn of the repair: read, compare, write back if the headroom is still what was read. */
    method HealOnce(turn: Turn) returns (end: Option<Outcome>)
      modifies this`row
      ensures (row, end) == TurnEnd(old(row), Heal, turn, configured)
    {
      ghost var first := row;
      OthersLand(turn.before);
      var read := if turn.stale.Some? then turn.stale.value else row;
      if read.None? {
        return Some(Nothing);
      }
      var item := read.value;
      if item.headroom == Some(item.limit - item.reserved - item.settled) {
        return Some(Done);
      }
      OthersLand(turn.window);
      var ok := UpdateItem(RepairHeadroom(item));
      TurnRun(first, turn, RepairHeadroom(item), configured);
      HealTurn(first, turn, configured);
      return if ok then Some(Done) else None;
    }

    method ReconcileHeadroom(plan: seq<Turn>) returns (outcome: Outcome)
      modifies this`row
      ensures row == Run(old(row), LoopTrace(old(row), [], Heal, plan, 0, configured).0, configured)
      ensures outcome == LoopTrace(old(row), [], Heal, plan, 0, configured).1
    {
      ghost var op, landed := Heal, [];
      for attempt := 0 to MaxRetries
        invariant row == Run(old(row), landed, configured)
        invariant LoopTrace(old(row), [], op, plan, 0, configured) == LoopTrace(old(row), landed, op, plan, attempt, configured)
      {
        landed := NextLanded(old(row), landed, op, plan, attempt, configured);
        var end := HealOnce(TurnAt(plan, attempt));
        if end.Some? {
          return end.value;
        }
      }
      return LostTheRace;
    }

    /** One turn of a set: seed a missing row, repair a missing headroom, or set the figure against what was read. */
    method SetOnce(asked: int, active: bool, turn: Turn) returns (end: Option<Outcome>)
      modifies this`row
      ensures (row, end) == TurnEnd(old(row), SetFigure(asked, active), turn, configured)
    {
      ghost var first := row;
      OthersLand(turn.before);
      var existing := row;
      if existing.Some? && existing.value.headroom.None? {
        RunConcat(first, turn.before, LoopTrace(existing, [], Heal, turn.repair, 0, configured).0, configured);
        var healed := ReconcileHeadroom(turn.repair);
        return if healed == LostTheRace then Some(LostTheRace) else None;
      }
      var write := if existing.None? then Seed(Some(asked), 0, configured, active, None)
                   else SetManual(existing.value, asked, active);
      OthersLand(turn.window);
      var ok := UpdateItem(write);
      TurnRun(first, turn, write, configured);
      return if ok then Some(Done) else None;
    }

    method SetManualLimit(asked: int, active: bool, plan: seq<Turn>) returns (outcome: Outcome)
      modifies this`row
      ensures row == Run(old(row), LoopTrace(old(row), [], SetFigure(asked, active), plan, 0, configured).0, configured)
      ensures outcome == LoopTrace(old(row), [], SetFigure(asked, active), plan, 0, configured).1
    {
      ghost var op, landed := SetFigure(asked, active), [];
      for attempt := 0 to MaxRetries
        invariant row == Run(old(row), landed, configured)
        invariant LoopTrace(old(row), [], op, plan, 0, configured) == LoopTrace(old(row), landed, op, plan, attempt, configured)
      {
        landed := NextLanded(old(row), landed, op, plan, attempt, configured);
        var end := SetOnce(asked, active, TurnAt(plan, attempt));
        if end.Some? {
          return end.value;
        }
      }
      return LostTheRace;
    }

    method ClearOnce(turn: Turn) returns (end: Option<Outcome>)
      modifies this`row
      ensures (row, end) == TurnEnd(old(row), ClearFigure, turn, configured)
    {
      ghost var first := row;
      OthersLand(turn.before);
      if row.None? {
        return Some(Nothing);
      }
      var existing := row.value;
      if existing.headroom.None? {
        RunConcat(first, turn.before, LoopTrace(row, [], Heal, turn.repair, 0, configured).0, configured);
        var healed := ReconcileHeadroom(turn.repair);
        return if healed == LostTheRace then Some(LostTheRace) else None;
      }
      OthersLand(turn.window);
      var ok := UpdateItem(ClearManual(existing));
      TurnRun(first, turn, ClearManual(existing), configured);
      return if ok then Some(Done) else None;
    }

    method ClearManualLimit(plan: seq<Turn>) returns (outcome: Outcome)
      modifies this`row
      ensures row == Run(old(row), LoopTrace(old(row), [], ClearFigure, plan, 0, configured).0, configured)
      ensures outcome == LoopTrace(old(row), [], ClearFigure, plan, 0, configured).1
    {
      ghost var op, landed := ClearFigure, [];
      for attempt := 0 to MaxRetries
        invariant row == Run(old(row), landed, configured)
        invariant LoopTrace(old(row), [], op, plan, 0, configured) == LoopTrace(old(row), landed, op, plan, attempt, configured)
      {
        landed := NextLanded(old(row), landed, op, plan, attempt, configured);
        var end := ClearOnce(TurnAt(plan, attempt));
        if end.Some? {
          return end.value;
        }
      }
      return LostTheRace;
    }

    /** One turn of a seat delta: the count alone on a row with a figure, the count and the money on a tracked one. */
    method SeatOnce(seatDelta: int, turn: Turn) returns (end: Option<Outcome>)
      requires seatDelta != 0
      modifies this`row
      ensures (row, end) == TurnEnd(old(row), SeatDelta(seatDelta), turn, configured)
    {
      ghost var first := row;
      OthersLand(turn.before);
      if row.None? {
        return Some(Nothing);
      }
      var existing := row.value;
      OthersLand(turn.window);
      if existing.manual.Some? {
        var _ := UpdateItem(SeatsOnly(existing, seatDelta));
        TurnRun(first, turn, SeatsOnly(existing, seatDelta), configured);
        return Some(CountedOnly);
      }
      var ok := UpdateItem(SeatsAndMoney(existing, seatDelta));
      TurnRun(first, turn, SeatsAndMoney(existing, seatDelta), configured);
      return if ok then Some(Done) else None;
    }

    method AdjustPoolForSeatDelta(seatDelta: int, plan: seq<Turn>) returns (outcome: Outcome)
      modifies this`row
      ensures seatDelta == 0 ==> row == old(row) && outcome == Nothing
      ensures seatDelta != 0 ==> row == Run(old(row), LoopTrace(old(row), [], SeatDelta(seatDelta), plan, 0, configured).0, configured)
      ensures seatDelta != 0 ==> outcome == LoopTrace(old(row), [], SeatDelta(seatDelta), plan, 0, configured).1
    {
      if seatDelta == 0 {
        return Nothing;
      }
      ghost var op, landed := SeatDelta(seatDelta), [];
      for attempt := 0 to MaxRetries
        invariant row == Run(old(row), landed, configured)
        invariant LoopTrace(old(row), [], op, plan, 0, configured) == LoopTrace(old(row), landed, op, plan, attempt, configured)
      {
        landed := NextLanded(old(row), landed, op, plan, attempt, configured);
        var end := SeatOnce(seatDelta, TurnAt(plan, attempt));
        if end.Some? {
          return end.value;
        }
      }
      return LostTheRace;
    }
  }

  /** The row after one turn, and how the loop ends if it ends there. */
  ghost function TurnEnd(row: Option<Row>, op: Operation, turn: Turn, configured: int): (Option<Row>, Option<Outcome>) {
    var (ws, end) := OneTurn(row, op, turn, configured);
    (Run(row, ws, configured), end)
  }

  /** One more turn of a trace. */
  lemma NextLanded(start: Option<Row>, landed: seq<Write>, op: Operation, plan: seq<Turn>, k: nat, configured: int) returns (more: seq<Write>)
    requires k < MaxRetries
    ensures var (after, end) := TurnEnd(Run(start, landed, configured), op, TurnAt(plan, k), configured);
            && Run(start, more, configured) == after
            && LoopTrace(start, landed, op, plan, k, configured)
               == if end.Some? then (more, end.value) else LoopTrace(start, more, op, plan, k + 1, configured)
  {
    var (ws, end) := OneTurn(Run(start, landed, configured), op, TurnAt(plan, k), configured);
    RunConcat(start, landed, ws, configured);
    more := landed + ws;
  }
}
