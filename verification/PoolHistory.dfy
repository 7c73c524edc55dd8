/**
 The ceiling identity and the headroom invariant over whole histories of one pool row, where
 each write carries the row some earlier moment of the history really showed.
 */
module PoolHistories {
  import opened Options
  import opened PoolRows

  // ---- one write ----

  /** Exactly how far a landed write moves the row off `limit == baseline + granted`. */
  function Slip(r: Row, w: Write, configured: int): int {
    match w
    case SetManual(read, _, _) =>
      if SeatTracked(r) then Or0(r.seats) * (RowRate(r, configured) - RowRate(read, configured)) else 0
    case ClearManual(read) =>
      if SeatTracked(r) then 0 else Or0(r.seats) * (RowRate(read, configured) - RowRate(r, configured))
    case SeatsOnly(_, d) => if SeatTracked(r) then -(d * RowRate(r, configured)) else 0
    case Recompute(_, _) => -(Gap(r, configured) + Or0(r.granted))
    case _ => 0
  }

  lemma FigureWriteSlips(r: Row, w: Write, configured: int)
    requires w.SetManual? || w.ClearManual?
    requires Admits(r, w)
    ensures Gap(Landed(r, w, configured), configured) == Gap(r, configured) + Slip(r, w, configured)
  {
  }

  lemma SeatWriteSlips(r: Row, w: Write, configured: int)
    requires w.SeatsOnly? || w.SeatsAndMoney?
    requires Admits(r, w)
    ensures Gap(Landed(r, w, configured), configured) == Gap(r, configured) + Slip(r, w, configured)
  {
  }

  lemma WriteSlips(r: Row, w: Write, configured: int)
    requires Lands(Some(r), w)
    ensures Gap(Landed(r, w, configured), configured) == Gap(r, configured) + Slip(r, w, configured)
  {
    if w.SetManual? || w.ClearManual? {
      FigureWriteSlips(r, w, configured);
    } else if w.SeatsOnly? || w.SeatsAndMoney? {
      SeatWriteSlips(r, w, configured);
    }
  }

  /** The named hypotheses, write by write, on the row the write lands on. */
  predicate KeepsIdentity(r: Row, w: Write, configured: int) {
    match w
    case SetManual(read, _, _) => SeatTracked(r) && Or0(r.seats) != 0 ==> RowRate(r, configured) == RowRate(read, configured)
    case ClearManual(read) => !SeatTracked(r) && Or0(r.seats) != 0 ==> RowRate(r, configured) == RowRate(read, configured)
    case SeatsOnly(_, d) => SeatTracked(r) && d != 0 ==> RowRate(r, configured) == 0
    case Recompute(_, _) => Or0(r.granted) == 0
    case _ => true
  }

  lemma ZeroProduct(a: int, b: int)
    ensures a * b == 0 <==> a == 0 || b == 0
  {
  }

  /** On a row that satisfies the identity, these conditions are necessary as well as sufficient. */
  lemma IdentityKeptIff(r: Row, w: Write, configured: int)
    requires Lands(Some(r), w)
    requires Gap(r, configured) == 0
    ensures Gap(Landed(r, w, configured), configured) == 0 <==> KeepsIdentity(r, w, configured)
  {
    WriteSlips(r, w, configured);
    if w.SetManual? || w.ClearManual? {
      ZeroProduct(Or0(r.seats), RowRate(r, configured) - RowRate(w.read, configured));
      ZeroProduct(Or0(r.seats), RowRate(w.read, configured) - RowRate(r, configured));
    } else if w.SeatsOnly? {
      ZeroProduct(w.seatDelta, RowRate(r, configured));
    }
  }

  /** Every writer but the repair moves headroom exactly as it moves the target. */
  lemma WriteKeepsDrift(r: Row, w: Write, configured: int)
    requires Lands(Some(r), w) && !w.RepairHeadroom?
    ensures Drift(Landed(r, w, configured)) == Drift(r)
  {
  }

  /** The repair subtracts the drift it saw from the drift there is. */
  lemma RepairSubtractsWhatItSaw(r: Row, w: Write, configured: int)
    requires Lands(Some(r), w) && w.RepairHeadroom?
    ensures Drift(Landed(r, w, configured)) == Drift(r) - Drift(w.read)
  {
  }

  // ---- histories ----

  predicate Carries(w: Write) {
    w.SetManual? || w.ClearManual? || w.SeatsOnly? || w.SeatsAndMoney? || w.Recompute? || w.RepairHeadroom?
  }

  /** `readAt[i]` is the moment write `i` read the row: any moment before it, however stale. */
  datatype History = History(start: Option<Row>, writes: seq<Write>, readAt: seq<nat>, configured: int)
  {
    function At(i: nat): Option<Row>
      requires i <= |writes|
    {
      Run(start, writes[..i], configured)
    }

    function End(): Option<Row> {
      Run(start, writes, configured)
    }

    /** Writes `readAt[i] .. i`: what landed between write `i`'s read and the write itself. */
    function Window(i: nat): seq<Write>
      requires i < |writes| && i < |readAt| && readAt[i] <= i
    {
      writes[readAt[i]..i]
    }

    ghost predicate Honest() {
      && |readAt| == |writes|
      && (forall i | 0 <= i < |writes| :: readAt[i] <= i)
      && (forall i | 0 <= i < |writes| :: Carries(writes[i]) ==> At(readAt[i]) == Some(writes[i].read))
    }
  }

  lemma {:induction false} OnlyRecomputeMovesRate(row: Option<Row>, ws: seq<Write>, configured: int)
    requires row.Some?
    requires forall w | w in ws :: !w.Recompute?
    ensures Run(row, ws, configured).Some?
    ensures Run(row, ws, configured).value.rate == row.value.rate
    decreases |ws|
  {
    if ws != [] {
      OnlyRecomputeMovesRate(row, ws[..|ws| - 1], configured);
    }
  }

  lemma {:induction false} OnlyClearDropsFigure(row: Option<Row>, ws: seq<Write>, configured: int)
    requires row.Some? && row.value.manual.Some?
    requires forall w | w in ws :: !w.ClearManual?
    ensures Run(row, ws, configured).Some?
    ensures Run(row, ws, configured).value.manual.Some?
    decreases |ws|
  {
    if ws != [] {
      OnlyClearDropsFigure(row, ws[..|ws| - 1], configured);
    }
  }

  lemma {:induction false} OnlyGrantsGrant(row: Option<Row>, ws: seq<Write>, configured: int)
    requires row.Some? ==> row.value.granted.None?
    requires forall w | w in ws :: !w.GrantApply?
    ensures Run(row, ws, configured).Some? ==> Run(row, ws, configured).value.granted.None?
    decreases |ws|
  {
    if ws != [] {
      OnlyGrantsGrant(row, ws[..|ws| - 1], configured);
    }
  }

  /** The moments between a read and its write. */
  lemma WindowRun(h: History, i: nat)
    requires h.Honest() && i < |h.writes|
    ensures h.At(i) == Run(h.At(h.readAt[i]), h.Window(i), h.configured)
  {
    var j := h.readAt[i];
    assert h.writes[..i] == h.writes[..j] + h.writes[j..i];
    RunConcat(h.start, h.writes[..j], h.writes[j..i], h.configured);
  }

  /**
   The hypotheses under which the ceiling identity is promised: the rate does not move
   inside a figure write's window, no figure is cleared inside the window of a seat delta
   that saw one, and no rate recompute runs once anything was granted.
   */
  ghost predicate WellTimed(h: History)
    requires h.Honest()
  {
    && (forall i | 0 <= i < |h.writes| && (h.writes[i].SetManual? || h.writes[i].ClearManual?) ::
          forall w | w in h.Window(i) :: !w.Recompute?)
    && (forall i | 0 <= i < |h.writes| && h.writes[i].SeatsOnly? ::
          h.writes[i].read.manual.Some? && forall w | w in h.Window(i) :: !w.ClearManual?)
    && (forall i | 0 <= i < |h.writes| && h.writes[i].Recompute? ::
          (h.start.Some? ==> h.start.value.granted.None?) && forall w | w in h.writes[..i] :: !w.GrantApply?)
  }

  lemma WellTimedKeepsIdentity(h: History, i: nat)
    requires h.Honest() && WellTimed(h)
    requires i < |h.writes| && h.At(i).Some?
    ensures KeepsIdentity(h.At(i).value, h.writes[i], h.configured)
  {
    var w := h.writes[i];
    WindowRun(h, i);
    if w.SetManual? || w.ClearManual? {
      OnlyRecomputeMovesRate(h.At(h.readAt[i]), h.Window(i), h.configured);
    } else if w.SeatsOnly? {
      OnlyClearDropsFigure(h.At(h.readAt[i]), h.Window(i), h.configured);
    } else if w.Recompute? {
      OnlyGrantsGrant(h.start, h.writes[..i], h.configured);
    }
  }

  ghost predicate Balanced(row: Option<Row>, configured: int) {
    row.Some? ==> Gap(row.value, configured) == 0
  }

  lemma AtNext(h: History, n: nat)
    requires n < |h.writes|
    ensures h.At(n + 1) == Apply(h.At(n), h.writes[n], h.configured)
    ensures h.At(0) == h.start && h.At(|h.writes|) == h.End()
  {
    assert h.writes[..n + 1][..n] == h.writes[..n];
    assert h.writes[..|h.writes|] == h.writes;
  }

  lemma {:induction false} IdentityAt(h: History, n: nat)
    requires h.Honest() && WellTimed(h) && n <= |h.writes|
    requires Balanced(h.start, h.configured)
    ensures Balanced(h.At(n), h.configured)
    decreases n
  {
    if n > 0 {
      IdentityAt(h, n - 1);
      AtNext(h, n - 1);
      if h.At(n - 1).Some? {
        WellTimedKeepsIdentity(h, n - 1);
        if Lands(h.At(n - 1), h.writes[n - 1]) {
          IdentityKeptIff(h.At(n - 1).value, h.writes[n - 1], h.configured);
        }
      }
    }
  }

  /** `limit == baseline + granted` at the end of every well-timed history, whatever is interleaved. */
  lemma IdentityOverHistories(h: History)
    requires h.Honest() && WellTimed(h)
    requires Balanced(h.start, h.configured)
    ensures Balanced(h.End(), h.configured)
  {
    IdentityAt(h, |h.writes|);
    assert h.writes[..|h.writes|] == h.writes;
  }

  /** What a history slips in total, with no hypothesis on its timing. */
  function TotalSlip(row: Option<Row>, ws: seq<Write>, configured: int): int
    decreases |ws|
  {
    if ws == [] then 0
    else
      var w := ws[|ws| - 1];
      var before := Run(row, ws[..|ws| - 1], configured);
      TotalSlip(row, ws[..|ws| - 1], configured)
      + (if before.Some? && Lands(before, w) then Slip(before.value, w, configured) else 0)
  }

  /** The gap at the end of any history is the gap at its start plus every landed slip. */
  lemma {:induction false} GapAccounting(row: Option<Row>, ws: seq<Write>, configured: int)
    requires row.Some?
    ensures Run(row, ws, configured).Some?
    ensures Gap(Run(row, ws, configured).value, configured) == Gap(row.value, configured) + TotalSlip(row, ws, configured)
    decreases |ws|
  {
    if ws != [] {
      var before := Run(row, ws[..|ws| - 1], configured);
      GapAccounting(row, ws[..|ws| - 1], configured);
      if Lands(before, ws[|ws| - 1]) {
        WriteSlips(before.value, ws[|ws| - 1], configured);
      }
    }
  }

  /** Rolling a balanced row into a new period moves no ceiling but the granted term, and starts balanced. */
  lemma RollForwardKeepsBaseline(source: Row, configured: int)
    ensures var rolled := Apply(None, RolledForward(source, configured), configured);
            && rolled.Some? && Gap(rolled.value, configured) == 0
            && rolled.value.limit == Baseline(source, configured)
            && SeatTracked(rolled.value) == SeatTracked(source)
            && rolled.value.headroom == Some(rolled.value.limit) && Drift(rolled.value) == 0
            && EffectiveCap(rolled.value, configured) == EffectiveCap(source, configured)
            && (Gap(source, configured) == 0 ==> rolled.value.limit == source.limit - Or0(source.granted))
  {
  }

  // ---- headroom ----

  lemma {:induction false} RunKeepsDrift(row: Option<Row>, ws: seq<Write>, configured: int)
    requires forall w | w in ws :: !w.RepairHeadroom?
    ensures row.Some? ==> Run(row, ws, configured).Some? && Drift(Run(row, ws, configured).value) == Drift(row.value)
    ensures row.None? && Run(row, ws, configured).Some? ==> Drift(Run(row, ws, configured).value) == 0
    decreases |ws|
  {
    if ws != [] {
      var before := Run(row, ws[..|ws| - 1], configured);
      RunKeepsDrift(row, ws[..|ws| - 1], configured);
      if before.Some? && Lands(before, ws[|ws| - 1]) {
        WriteKeepsDrift(before.value, ws[|ws| - 1], configured);
      }
    }
  }

  /**
   The compare-and-set on headroom alone suffices: with no other repair in the window the
   committed write leaves no drift, even if headroom moved away and came back, even if the
   read was stale.
   */
  lemma RepairIsRaceSafe(h: History, i: nat)
    requires h.Honest() && i < |h.writes| && h.writes[i].RepairHeadroom?
    requires forall w | w in h.Window(i) :: !w.RepairHeadroom?
    requires Lands(h.At(i), h.writes[i])
    ensures Apply(h.At(i), h.writes[i], h.configured).Some?
    ensures Drift(Apply(h.At(i), h.writes[i], h.configured).value) == 0
  {
    WindowRun(h, i);
    RepairAfterWindow(h.At(h.readAt[i]), h.Window(i), h.writes[i], h.configured);
  }

  lemma RepairAfterWindow(read: Option<Row>, window: seq<Write>, repair: Write, configured: int)
    requires repair.RepairHeadroom? && read == Some(repair.read)
    requires forall w | w in window :: !w.RepairHeadroom?
    requires Lands(Run(read, window, configured), repair)
    ensures var after := Apply(Run(read, window, configured), repair, configured);
            after.Some? && Drift(after.value) == 0
  {
    RunKeepsDrift(read, window, configured);
    RepairSubtractsWhatItSaw(Run(read, window, configured).value, repair, configured);
  }

  /** In general the repair is right exactly when the drift it saw is the drift it lands on. */
  lemma RepairIsRightIff(r: Row, read: Row, configured: int)
    requires Lands(Some(r), RepairHeadroom(read))
    ensures Drift(Landed(r, RepairHeadroom(read), configured)) == 0 <==> Drift(read) == Drift(r)
  {
  }

  ghost predicate OneRepairAtATime(h: History)
    requires h.Honest()
  {
    forall i | 0 <= i < |h.writes| && h.writes[i].RepairHeadroom? ::
      forall w | w in h.Window(i) :: !w.RepairHeadroom?
  }

  ghost predicate Exact(row: Option<Row>) {
    row.Some? ==> row.value.headroom.Some? && Drift(row.value) == 0
  }

  /** An exact row stays exact, and any repair that lands makes it so. */
  lemma OneWriteStaysExact(h: History, n: nat)
    requires h.Honest() && OneRepairAtATime(h) && n < |h.writes|
    ensures var after := Apply(h.At(n), h.writes[n], h.configured);
            && (Exact(h.At(n)) ==> Exact(after))
            && (h.At(n).Some? ==> after.Some?)
            && (h.writes[n].RepairHeadroom? && Lands(h.At(n), h.writes[n]) ==> after.Some? && Exact(after))
  {
    if h.At(n).Some? && Lands(h.At(n), h.writes[n]) {
      if h.writes[n].RepairHeadroom? {
        RepairIsRaceSafe(h, n);
      } else {
        WriteKeepsDrift(h.At(n).value, h.writes[n], h.configured);
      }
    }
  }

  lemma {:induction false} StaysExact(h: History, m: nat, n: nat)
    requires h.Honest() && OneRepairAtATime(h) && m <= n <= |h.writes|
    requires Exact(h.At(m))
    ensures Exact(h.At(n)) && (h.At(m).Some? ==> h.At(n).Some?)
    decreases n - m
  {
    if m < n {
      StaysExact(h, m, n - 1);
      OneWriteStaysExact(h, n - 1);
      AtNext(h, n - 1);
    }
  }

  /** `headroom == limit - reserved - settled` at the end of every history with one repair at a time. */
  lemma HeadroomOverHistories(h: History)
    requires h.Honest() && OneRepairAtATime(h)
    requires Exact(h.start)
    ensures Exact(h.End())
  {
    if h.writes != [] {
      AtNext(h, 0);
      StaysExact(h, 0, |h.writes|);
    }
  }

  /** One landed repair heals a row of any drift, and it stays healed. */
  lemma RepairHealsForGood(h: History, i: nat)
    requires h.Honest() && OneRepairAtATime(h)
    requires i < |h.writes| && h.writes[i].RepairHeadroom? && Lands(h.At(i), h.writes[i])
    ensures h.End().Some? && Exact(h.End())
  {
    OneWriteStaysExact(h, i);
    AtNext(h, i);
    StaysExact(h, i + 1, |h.writes|);
  }

  /** The gate reads one counter, and that counter decides the ceiling rule exactly. */
  lemma ReserveAdmittedIff(h: History, amount: int)
    requires h.Honest() && OneRepairAtATime(h)
    requires Exact(h.start)
    ensures Lands(h.End(), Reserve(amount)) <==>
            h.End().Some? && h.End().value.active
            && h.End().value.reserved + h.End().value.settled + amount <= h.End().value.limit
  {
    HeadroomOverHistories(h);
  }

  /** Reserves alone never cross the ceiling; what follows them may, only by a settle overrun or a lowered limit. */
  lemma AdmittedReserveFits(h: History, amount: int)
    requires h.Honest() && OneRepairAtATime(h)
    requires Exact(h.start) && Lands(h.End(), Reserve(amount))
    ensures var after := Apply(h.End(), Reserve(amount), h.configured);
            after.Some? && after.value.reserved + after.value.settled <= after.value.limit
  {
    ReserveAdmittedIff(h, amount);
  }

  // ---- the interleavings the conditions do not catch ----

  const Tracked := Row(40, Some(40), 0, 0, 0, true, Some(2), Some(20), None, None, None)
  const Figure := Tracked.(limit := 50, headroom := Some(50), manual := Some(50))

  lemma ThreeWrites(h: History, one: Row, two: Row, three: Row)
    requires |h.writes| == 3 && h.start.Some?
    requires Apply(h.start, h.writes[0], h.configured) == Some(one)
    requires Apply(Some(one), h.writes[1], h.configured) == Some(two)
    requires Apply(Some(two), h.writes[2], h.configured) == Some(three)
    ensures h.At(0) == h.start && h.At(1) == Some(one) && h.At(2) == Some(two) && h.End() == Some(three)
  {
    var ws := h.writes;
    assert ws[..2][..1] == ws[..1] && ws[..1][..0] == [] && ws[..3] == ws;
    assert Run(h.start, ws[..1], h.configured) == Apply(Run(h.start, ws[..1][..0], h.configured), ws[0], h.configured);
    assert Run(h.start, ws[..2], h.configured) == Apply(Run(h.start, ws[..2][..1], h.configured), ws[1], h.configured);
  }

  /**
   The rate moves inside a set's window and a grant brings the limit back to the figure
   read: the comparison passes and the identity is off by seats times the move.
   */
  lemma RateMovesInsideASet() returns (h: History)
    ensures h == History(Some(Tracked), [Recompute(Tracked, 10), GrantApply(20, 100), SetManual(Tracked, 100, true)], [0, 0, 0], 20)
    ensures h.Honest() && Balanced(h.start, 20)
    ensures h.End().Some? && Gap(h.End().value, 20) == -20
  {
    h := History(Some(Tracked), [Recompute(Tracked, 10), GrantApply(20, 100), SetManual(Tracked, 100, true)], [0, 0, 0], 20);
    var one := Tracked.(limit := 20, headroom := Some(20), rate := Some(10));
    var two := one.(limit := 40, headroom := Some(40), granted := Some(20));
    ThreeWrites(h, one, two, two.(limit := 100, headroom := Some(100), manual := Some(100)));
  }

  /** A clear lands inside the window of a seat delta that saw a figure: the seat arrives without its money. */
  lemma ClearInsideASeatDelta() returns (h: History)
    ensures h == History(Some(Figure), [ClearManual(Figure), SeatsOnly(Figure, 1), Reserve(5)], [0, 0, 2], 20)
    ensures h.Honest() && Balanced(h.start, 20)
    ensures h.End().Some? && Gap(h.End().value, 20) == -20
  {
    h := History(Some(Figure), [ClearManual(Figure), SeatsOnly(Figure, 1), Reserve(5)], [0, 0, 2], 20);
    var one := Figure.(limit := 40, headroom := Some(40), manual := None);
    var two := one.(seats := Some(3));
    ThreeWrites(h, one, two, two.(headroom := Some(35), reserved := 5));
  }

  /** A grant lands after the recompute pass checked for grants: its amount leaves the ceiling for good. */
  lemma GrantBeforeARecompute() returns (h: History)
    ensures h.writes == [GrantApply(10, 100), Recompute(Tracked.(limit := 50, headroom := Some(50), granted := Some(10)), 30), Reserve(5)]
    ensures h.Honest() && Balanced(h.start, 20)
    ensures h.End().Some? && Gap(h.End().value, 20) == -10
  {
    var read := Tracked.(limit := 50, headroom := Some(50), granted := Some(10));
    h := History(Some(Tracked), [GrantApply(10, 100), Recompute(read, 30), Reserve(5)], [0, 1, 2], 20);
    var two := read.(limit := 60, headroom := Some(60), rate := Some(30));
    ThreeWrites(h, read, two, two.(headroom := Some(55), reserved := 5));
  }

  /** Two overlapping repairs: the first heals, a grant restores the value read, the second undoes the repair. */
  lemma TwoRepairsClobber() returns (h: History)
    ensures h.writes == [RepairHeadroom(Tracked.(headroom := Some(50))), GrantApply(10, 100), RepairHeadroom(Tracked.(headroom := Some(50)))]
    ensures h.Honest()
    ensures Exact(h.At(1)) && h.End().Some? && Drift(h.End().value) == -10
  {
    var read := Tracked.(headroom := Some(50));
    h := History(Some(read), [RepairHeadroom(read), GrantApply(10, 100), RepairHeadroom(read)], [0, 0, 0], 20);
    var two := Tracked.(limit := 50, headroom := Some(50), granted := Some(10));
    ThreeWrites(h, Tracked, two, two.(headroom := Some(40)));
  }
}
