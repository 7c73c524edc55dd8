/** What each answer of a pool row's loop means, and what a loop leaves when nobody else writes. */
module PoolAnswers {
  import opened Options
  import opened PoolRows
  import opened PoolHistories
  import opened PoolLoops
  import opened PoolCommits

  // ---- a seat counted without its money ----

  /** A seat delta that moves the count alone has read a row with an operator's figure. */
  predicate FigureWasRead(w: Write) {
    w.SeatsOnly? ==> w.read.manual.Some?
  }

  predicate AllReadFigures(ws: seq<Write>) {
    forall w | w in ws :: FigureWasRead(w)
  }

  predicate OthersReadFigures(plan: seq<Turn>) {
    forall turn | turn in plan ::
      && AllReadFigures(turn.before) && AllReadFigures(turn.window)
      && forall inner | inner in turn.repair :: AllReadFigures(inner.before) && AllReadFigures(inner.window)
  }

  lemma TurnReadsFigures(row: Option<Row>, op: Operation, plan: seq<Turn>, k: nat, configured: int)
    requires OthersReadFigures(plan) && op != Heal
    ensures AllReadFigures(OneTurn(row, op, TurnAt(plan, k), configured).0)
  {
    var turn := TurnAt(plan, k);
    assert k < |plan| ==> turn in plan;
    HealReadsFigures(Run(row, turn.before, configured), [], turn.repair, 0, configured);
  }

  lemma {:induction false} HealReadsFigures(start: Option<Row>, landed: seq<Write>, plan: seq<Turn>, k: nat, configured: int)
    requires AllReadFigures(landed)
    requires forall turn | turn in plan :: AllReadFigures(turn.before) && AllReadFigures(turn.window)
    ensures AllReadFigures(LoopTrace(start, landed, Heal, plan, k, configured).0)
    decreases MaxRetries - k
  {
    if k < MaxRetries {
      var turn := TurnAt(plan, k);
      assert k < |plan| ==> turn in plan;
      HealTurn(Run(start, landed, configured), turn, configured);
      var ws := OneTurn(Run(start, landed, configured), Heal, turn, configured).0;
      assert AllReadFigures(ws);
      HealReadsFigures(start, landed + ws, plan, k + 1, configured);
    }
  }

  /** Every write of every loop meets that rule, if the others' do: so histories of loops are well timed in this respect. */
  lemma {:induction false} LoopReadsFigures(start: Option<Row>, landed: seq<Write>, op: Operation, plan: seq<Turn>, k: nat, configured: int)
    requires AllReadFigures(landed) && OthersReadFigures(plan) && op != Heal
    ensures AllReadFigures(LoopTrace(start, landed, op, plan, k, configured).0)
    decreases MaxRetries - k
  {
    if k < MaxRetries {
      var ws := OneTurn(Run(start, landed, configured), op, TurnAt(plan, k), configured).0;
      TurnReadsFigures(Run(start, landed, configured), op, plan, k, configured);
      LoopReadsFigures(start, landed + ws, op, plan, k + 1, configured);
    }
  }

  /** What the last turn of a loop saw: what had landed when it read, and what landed between that and its write. */
  datatype Seen = Seen(pre: seq<Write>, window: seq<Write>)

  /**
   `CountedOnly`: the row as read had an operator's figure, and the last write is this loop's own, of the seats alone.
   `Nothing`: there was no row to read, or no seat to move, and nothing was written.
   `Done` by a set or a clear: the row as read, if there was one, had its headroom.
   */
  ghost predicate AnswerMeans(s: Seen, start: Option<Row>, trace: (seq<Write>, Outcome), op: Operation, configured: int) {
    var read := Run(start, s.pre, configured);
    match trace.1
    case CountedOnly =>
      && op.SeatDelta? && op.seats != 0
      && read.Some? && read.value.manual.Some?
      && trace.0 == s.pre + s.window + [SeatsOnly(read.value, op.seats)]
    case Nothing =>
      && trace.0 == s.pre && !op.SetFigure?
      && (op.SeatDelta? ==> op.seats == 0 || read.None?)
      && (op.ClearFigure? ==> read.None?)
    case Done => (op.SetFigure? || op.ClearFigure?) && read.Some? ==> read.value.headroom.Some?
    case LostTheRace => true
  }

  lemma RowStays(row: Option<Row>, ws: seq<Write>, configured: int)
    requires row.Some?
    ensures Run(row, ws, configured).Some?
    decreases |ws|
  {
    if ws != [] {
      RowStays(row, ws[..|ws| - 1], configured);
    }
  }

  /** The meaning, turn by turn. */
  lemma TurnAnswers(start: Option<Row>, landed: seq<Write>, op: Operation, turn: Turn, configured: int) returns (s: Seen)
    requires op != Heal && OneTurn(Run(start, landed, configured), op, turn, configured).1.Some?
    ensures var (ws, end) := OneTurn(Run(start, landed, configured), op, turn, configured);
            AnswerMeans(s, start, (landed + ws, end.value), op, configured)
  {
    var row := Run(start, landed, configured);
    s := Seen(landed + turn.before, turn.window);
    RunConcat(start, landed, turn.before, configured);
    RunConcat(start, landed + turn.before, turn.window, configured);
    var seen := Run(start, s.pre, configured);
    if op.SeatDelta? && op.seats != 0 && seen.Some? && seen.value.manual.Some? {
      SeatsAreCounted(start, landed, op, turn, configured);
    }
  }

  /** On a row read with a figure the turn ends there, with the seats-only write. */
  lemma CountedTurn(row: Option<Row>, op: Operation, turn: Turn, configured: int)
    requires op.SeatDelta? && op.seats != 0
    requires Run(row, turn.before, configured).Some? && Run(row, turn.before, configured).value.manual.Some?
    ensures var read := Run(row, turn.before, configured).value;
            OneTurn(row, op, turn, configured) == (turn.before + turn.window + [SeatsOnly(read, op.seats)], Some(CountedOnly))
  {
    RowStays(Run(row, turn.before, configured), turn.window, configured);
  }

  lemma Regroup(a: seq<Write>, b: seq<Write>, c: seq<Write>, w: Write)
    ensures a + (b + c + [w]) == a + b + c + [w]
  {
  }

  lemma SeatsAreCounted(start: Option<Row>, landed: seq<Write>, op: Operation, turn: Turn, configured: int)
    requires op.SeatDelta? && op.seats != 0
    requires Run(start, landed + turn.before, configured).Some?
    requires Run(start, landed + turn.before, configured).value.manual.Some?
    ensures var (ws, end) := OneTurn(Run(start, landed, configured), op, turn, configured);
            end.Some? && AnswerMeans(Seen(landed + turn.before, turn.window), start, (landed + ws, end.value), op, configured)
  {
    var s := Seen(landed + turn.before, turn.window);
    var read := Run(start, s.pre, configured).value;
    RunConcat(start, landed, turn.before, configured);
    CountedTurn(Run(start, landed, configured), op, turn, configured);
    Regroup(landed, turn.before, turn.window, SeatsOnly(read, op.seats));
  }

  /** Whatever lands around a loop, its answer means what it says. */
  lemma {:induction false} LoopAnswers(start: Option<Row>, landed: seq<Write>, op: Operation, plan: seq<Turn>, k: nat, configured: int)
    returns (s: Seen)
    requires op != Heal
    ensures AnswerMeans(s, start, LoopTrace(start, landed, op, plan, k, configured), op, configured)
    decreases MaxRetries - k
  {
    if k >= MaxRetries {
      s := Seen(landed, []);
    } else {
      var (ws, end) := OneTurn(Run(start, landed, configured), op, TurnAt(plan, k), configured);
      if end.None? {
        s := LoopAnswers(start, landed + ws, op, plan, k + 1, configured);
      } else {
        s := TurnAnswers(start, landed, op, TurnAt(plan, k), configured);
      }
    }
  }

  /** A seat delta that was counted only has moved the seats of the row it met, and nothing else of it. */
  lemma CountedOnlyLeaves(s: Seen, start: Option<Row>, trace: (seq<Write>, Outcome), op: Operation, configured: int)
    requires trace.1 == CountedOnly && AnswerMeans(s, start, trace, op, configured)
    ensures var met, end := Run(start, s.pre + s.window, configured), Run(start, trace.0, configured);
            met.Some? && end == Some(met.value.(seats := Some(Or0(met.value.seats) + op.seats)))
  {
    var read := Run(start, s.pre, configured);
    RowThere(start, s, configured);
    LastLands(start, s.pre + s.window, SeatsOnly(read.value, op.seats), configured);
  }

  lemma RowThere(start: Option<Row>, s: Seen, configured: int)
    requires Run(start, s.pre, configured).Some?
    ensures Run(start, s.pre + s.window, configured).Some?
  {
    RunConcat(start, s.pre, s.window, configured);
    RowStays(Run(start, s.pre, configured), s.window, configured);
  }

  /** A set or clear whose repair gives up gives up with it, and has landed only what the repair did. */
  lemma LostRepairGivesUp(start: Option<Row>, landed: seq<Write>, op: Operation, plan: seq<Turn>, k: nat, configured: int)
    requires k < MaxRetries && (op.SetFigure? || op.ClearFigure?)
    requires var seen := Run(Run(start, landed, configured), TurnAt(plan, k).before, configured);
             && seen.Some? && seen.value.headroom == None
             && LoopTrace(seen, [], Heal, TurnAt(plan, k).repair, 0, configured).1 == LostTheRace
    ensures var seen := Run(Run(start, landed, configured), TurnAt(plan, k).before, configured);
            LoopTrace(start, landed, op, plan, k, configured)
            == (landed + (TurnAt(plan, k).before + LoopTrace(seen, [], Heal, TurnAt(plan, k).repair, 0, configured).0), LostTheRace)
  {
  }

  // ---- what was computed is what is stored ----

  /**
   The comparisons of the figure writers make the ceiling they leave the one they computed from
   the row they read, whatever landed in between; a recompute leaves seats times the new rate.
   */
  lemma TheCeilingIsAsComputed(r: Row, w: Write, configured: int)
    requires Lands(Some(r), w) && (w.SetManual? || w.ClearManual? || w.Recompute?)
    ensures var after := Landed(r, w, configured);
            && (w.SetManual? ==> after.limit == w.read.limit + w.asked - Baseline(w.read, configured) && after.seats == w.read.seats)
            && (w.ClearManual? ==> after.limit == w.read.limit + SeatTerm(w.read, configured) - Baseline(w.read, configured)
                                   && after.seats == w.read.seats)
            && (w.Recompute? ==> after.limit == Or0(after.seats) * w.newRate && after.rate == Some(w.newRate) && after.manual == None)
  {
  }

  // ---- alone ----

  ghost function AloneEnd(row: Row, op: Operation, configured: int): Option<Row> {
    Run(Some(row), LoopTrace(Some(row), [], op, [], 0, configured).0, configured)
  }

  ghost function AloneAnswer(row: Row, op: Operation, configured: int): Outcome {
    LoopTrace(Some(row), [], op, [], 0, configured).1
  }

  lemma AloneTries(row: Option<Row>, op: Operation, write: Write, outcome: Outcome, retry: bool, configured: int)
    requires Decide(row, op, configured) == Try(write, outcome, retry) && Lands(row, write)
    ensures LoopTrace(row, [], op, [], 0, configured) == ([write], outcome)
    ensures Run(row, [write], configured) == Apply(row, write, configured)
  {
    TurnTries(row, op, write, outcome, retry, configured);
    assert Run(row, [], configured) == row;
    assert [] + [write] == [write] && [write][..0] == [];
  }

  /** A turn with nobody else about. */
  lemma TurnTries(row: Option<Row>, op: Operation, write: Write, outcome: Outcome, retry: bool, configured: int)
    requires Decide(row, op, configured) == Try(write, outcome, retry) && Lands(row, write)
    ensures OneTurn(row, op, Turn([], [], [], None), configured) == ([write], Some(outcome))
  {
    assert [] + [] + [write] == [write];
    assert Run(row, [], configured) == row;
  }

  /** A row with its headroom, its ceiling moved by `d` and the headroom with it. */
  function Raised(row: Row, d: int): Row {
    row.(limit := row.limit + d, headroom := Some(Or0(row.headroom) + d))
  }

  /** With nobody else writing, a seat on a row that follows its seats comes with its money; on a row with a figure it is counted only. */
  lemma AloneSeatDelta(row: Row, d: int, configured: int)
    requires d != 0
    ensures var rate := if row.rate.Some? then row.rate.value else configured;
            if row.manual.None? then
              && AloneAnswer(row, SeatDelta(d), configured) == Done
              && AloneEnd(row, SeatDelta(d), configured) == Some(Raised(row, d * rate).(seats := Some(Or0(row.seats) + d)))
            else
              && AloneAnswer(row, SeatDelta(d), configured) == CountedOnly
              && AloneEnd(row, SeatDelta(d), configured) == Some(row.(seats := Some(Or0(row.seats) + d)))
    ensures Gap(AloneEnd(row, SeatDelta(d), configured).value, configured) == Gap(row, configured)
  {
    if row.manual.None? {
      AloneTries(Some(row), SeatDelta(d), SeatsAndMoney(row, d), Done, true, configured);
    } else {
      AloneTries(Some(row), SeatDelta(d), SeatsOnly(row, d), CountedOnly, false, configured);
    }
  }

  /** A set leaves the figure asked for, as ceiling with what is granted on top; a clear leaves seats times rate with it. */
  lemma AloneSetAndClear(row: Row, asked: int, active: bool, configured: int)
    requires row.headroom.Some? && Gap(row, configured) == 0
    ensures var granted, rate := Or0(row.granted), if row.rate.Some? then row.rate.value else configured;
            && AloneAnswer(row, SetFigure(asked, active), configured) == Done
            && AloneEnd(row, SetFigure(asked, active), configured)
               == Some(Raised(row, asked + granted - row.limit).(manual := Some(asked), active := active))
            && AloneAnswer(row, ClearFigure, configured) == Done
            && AloneEnd(row, ClearFigure, configured)
               == Some(Raised(row, Or0(row.seats) * rate + granted - row.limit).(manual := None))
  {
    AloneTries(Some(row), SetFigure(asked, active), SetManual(row, asked, active), Done, true, configured);
    AloneTries(Some(row), ClearFigure, ClearManual(row), Done, true, configured);
  }

  lemma AloneRepairTurn(row: Row, op: Operation, configured: int)
    requires row.headroom.None? && (op.SetFigure? || op.ClearFigure?)
    ensures OneTurn(Some(row), op, Turn([], [], [], None), configured) == ([RepairHeadroom(row)], None)
    ensures Run(Some(row), [RepairHeadroom(row)], configured) == Some(Repaired(row))
    ensures LoopTrace(Some(row), [], op, [], 0, configured) == LoopTrace(Some(row), [RepairHeadroom(row)], op, [], 1, configured)
  {
    var repair := RepairHeadroom(row);
    AloneTries(Some(row), Heal, repair, Done, true, configured);
    assert [] + [repair] == [repair];
    assert Run(Some(row), [], configured) == Some(row);
  }

  function Repaired(row: Row): Row {
    row.(headroom := Some(row.limit - row.reserved - row.settled))
  }

  function FigureWrite(row: Row, op: Operation): Write
    requires op.SetFigure? || op.ClearFigure?
  {
    if op.SetFigure? then SetManual(row, op.asked, op.active) else ClearManual(row)
  }

  lemma AloneFigureEnd(row: Row, op: Operation, configured: int)
    requires row.headroom.Some? && (op.SetFigure? || op.ClearFigure?)
    ensures AloneAnswer(row, op, configured) == Done
    ensures AloneEnd(row, op, configured) == Some(Landed(row, FigureWrite(row, op), configured))
  {
    AloneTries(Some(row), op, FigureWrite(row, op), Done, true, configured);
  }

  /** On a row without its headroom the repair comes first, and the set or clear goes on from the repaired row. */
  lemma AloneRepairsFirst(row: Row, op: Operation, configured: int)
    requires row.headroom.None? && (op.SetFigure? || op.ClearFigure?)
    ensures AloneAnswer(row, op, configured) == Done
    ensures AloneEnd(row, op, configured) == Some(Landed(Repaired(row), FigureWrite(Repaired(row), op), configured))
  {
    AloneRepairTurn(row, op, configured);
    AloneFigureEnd(Repaired(row), op, configured);
    AloneAgain(Some(row), [RepairHeadroom(row)], op, FigureWrite(Repaired(row), op), configured);
  }

  /** And what such a set or clear leaves has its headroom exact. */
  lemma RepairedStaysExact(row: Row, op: Operation, configured: int)
    requires op.SetFigure? || op.ClearFigure?
    ensures var end := Landed(Repaired(row), FigureWrite(Repaired(row), op), configured);
            end.headroom == Some(end.limit - end.reserved - end.settled)
  {
  }

  /** The second turn of a loop with nobody else about. */
  lemma AloneAgain(start: Option<Row>, landed: seq<Write>, op: Operation, write: Write, configured: int)
    requires Decide(Run(start, landed, configured), op, configured) == Try(write, Done, true)
    requires Lands(Run(start, landed, configured), write)
    ensures LoopTrace(start, landed, op, [], 1, configured) == (landed + [write], Done)
    ensures Run(start, landed + [write], configured) == Apply(Run(start, landed, configured), write, configured)
  {
    TurnTries(Run(start, landed, configured), op, write, Done, true, configured);
    LastLands(start, landed, write, configured);
  }

  lemma LastLands(start: Option<Row>, landed: seq<Write>, write: Write, configured: int)
    ensures Run(start, landed + [write], configured) == Apply(Run(start, landed, configured), write, configured)
  {
    assert (landed + [write])[..|landed|] == landed;
  }

  /** A repair leaves the headroom at limit less reserved less settled. */
  lemma AloneHeal(row: Row, configured: int)
    ensures AloneAnswer(row, Heal, configured) == Done
    ensures AloneEnd(row, Heal, configured) == Some(row.(headroom := Some(row.limit - row.reserved - row.settled)))
  {
    if row.headroom != Some(Target(row)) {
      AloneTries(Some(row), Heal, RepairHeadroom(row), Done, true, configured);
    }
  }

  /** With no row there is a seed for a set, and nothing to do for anything else. */
  lemma AloneOnNothing(op: Operation, configured: int)
    ensures var (ws, answer) := LoopTrace(None, [], op, [], 0, configured);
            if op.SetFigure? then
              && answer == Done
              && Run(None, ws, configured) == Some(Row(op.asked, Some(op.asked), 0, 0, 0, op.active, Some(0), Some(configured), Some(op.asked), None, None))
            else answer == Nothing && Run(None, ws, configured) == None
  {
    if op.SetFigure? {
      AloneTries(None, op, Seed(Some(op.asked), 0, configured, op.active, None), Done, true, configured);
    }
  }
}
