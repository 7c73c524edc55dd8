/**
 The migration from a row that says its mode to a row that says what its ceiling is made of:
 what each phase does to a row, and to the whole table in place.
 */
module CeilingMigration {
  import opened Options
  import opened PoolRows

  const PerSeat := "per_seat"
  const Fixed := "fixed"

  /** A pool row, with the attribute the migration retires. */
  datatype OldRow = OldRow(row: Row, sizing: Option<string>)

  function EffectiveBefore(o: OldRow): int {
    o.row.limit
  }

  function EffectiveAfter(o: OldRow, configured: int): int {
    ExpectedLimit(o.row, configured)
  }

  datatype Plan = Done | SeatTrack(seats: int) | OperatorFigure(figure: int) | Adjudicate

  function ClassifyForBackfill(o: OldRow, rate: int): Plan {
    if o.row.manual.Some? || (o.row.seats.Some? && o.sizing == Some(PerSeat)) then Done
    else if o.sizing == Some(PerSeat) then
      if rate <= 0 || o.row.limit % rate != 0 then Adjudicate else SeatTrack(o.row.limit / rate)
    else if o.sizing.Some? && o.sizing != Some(Fixed) then Adjudicate
    else OperatorFigure(o.row.limit)
  }

  // ---- one row ----

  function SeedRate(o: OldRow, rate: int): OldRow {
    if o.row.rate.Some? then o else o.(row := o.row.(rate := Some(rate)))
  }

  /** The backfill's condition, on the row it lands on and the row the scan read. */
  predicate BackfillLands(o: OldRow, read: OldRow) {
    o.row.limit == read.row.limit && (read.row.seats.Some? ==> o.row.seats == read.row.seats)
  }

  function Backfilled(o: OldRow, plan: Plan, members: int): OldRow {
    match plan
    case SeatTrack(seats) => o.(row := o.row.(seats := Some(seats)))
    case OperatorFigure(figure) => o.(row := o.row.(manual := Some(figure), seats := Some(members)))
    case _ => o
  }

  /** One pass over one row; a pass that loses its comparison leaves the row. */
  function Backfill(o: OldRow, rate: int, members: int, lost: bool): OldRow {
    if lost then o else Backfilled(o, ClassifyForBackfill(o, rate), members)
  }

  function CutOver(o: OldRow): OldRow {
    if o.row.manual.Some? || o.row.seats.Some? then o
    else o.(row := o.row.(manual := Some(o.row.limit)))
  }

  function Passes(o: OldRow, rate: int, members: int, lost: seq<bool>): OldRow
    decreases |lost|
  {
    if lost == [] then o else Passes(Backfill(o, rate, members, lost[0]), rate, members, lost[1..])
  }

  /** M1, then any number of M2 passes, then M3. */
  function Migrated(o: OldRow, rate: int, members: int, lost: seq<bool>): OldRow {
    CutOver(Passes(SeedRate(o, rate), rate, members, lost))
  }

  lemma BackfillIsIdempotent(o: OldRow, rate: int, members: int, again: int, lost: bool)
    requires o.sizing == Some(PerSeat) || ClassifyForBackfill(o, rate).OperatorFigure? || ClassifyForBackfill(o, rate).Done?
    ensures Backfill(Backfill(o, rate, members, false), rate, again, lost) == Backfill(o, rate, members, false)
  {
  }

  lemma {:induction false} PassesAre(o: OldRow, rate: int, members: int, lost: seq<bool>)
    ensures Passes(o, rate, members, lost) == if false in lost then Backfill(o, rate, members, false) else o
    decreases |lost|
  {
    if lost != [] {
      PassesAre(Backfill(o, rate, members, lost[0]), rate, members, lost[1..]);
      assert false in lost <==> lost[0] == false || false in lost[1..];
    }
  }

  /**
   When the rule computes, for the migrated row, the limit the row always had: the figure it
   came with is its limit; its seats came with their sizing and match; a seat-scaled row was
   seeded at the rate in force; and a row whose seats were counted before it was labelled
   a figure was reached by some pass of the backfill.
   */
  predicate LimitSurvives(o: OldRow, rate: int, reached: bool) {
    var stored := if o.row.rate.Some? then o.row.rate.value else rate;
    if o.row.manual.Some? then o.row.manual.value == o.row.limit
    else if o.sizing == Some(PerSeat) then
      if o.row.seats.Some? then o.row.seats.value * stored == o.row.limit
      else reached ==> stored == rate || o.row.limit == 0
    else reached || o.row.seats.None? || o.row.seats.value * stored == o.row.limit
  }

  lemma QuotientTimes(limit: int, rate: int, stored: int)
    requires rate > 0 && limit % rate == 0
    ensures limit / rate * stored == limit <==> stored == rate || limit == 0
  {
    var q := limit / rate;
    assert limit == q * rate;
    if q != 0 && stored != rate {
      assert q * (stored - rate) != 0;
    }
  }

  /** The migration moves no effective limit exactly on the rows that meet those conditions. */
  lemma LimitSurvivesIff(o: OldRow, rate: int, members: int, lost: seq<bool>, configured: int)
    requires o.row.granted.None? && !ClassifyForBackfill(o, rate).Adjudicate?
    ensures Migrated(o, rate, members, lost).row.limit == o.row.limit
    ensures EffectiveAfter(Migrated(o, rate, members, lost), configured) == EffectiveBefore(o)
            <==> LimitSurvives(o, rate, false in lost)
  {
    var seeded := SeedRate(o, rate);
    PassesAre(seeded, rate, members, lost);
    if ClassifyForBackfill(o, rate).SeatTrack? {
      QuotientTimes(o.row.limit, rate, seeded.row.rate.value);
    }
  }

  /** A backfill that lands keeps the rule and the stored limit together, however stale its scan. */
  lemma BackfillLandsRight(o: OldRow, read: OldRow, rate: int, members: int, configured: int)
    requires BackfillLands(o, read) && o.row.granted.None?
    requires o.row.rate == Some(rate)
    requires o.row.manual.Some? ==> o.row.manual.value == o.row.limit
    ensures var plan := ClassifyForBackfill(read, rate);
            plan.SeatTrack? || plan.OperatorFigure? ==>
              EffectiveAfter(Backfilled(o, plan, members), configured) == o.row.limit
              && Backfilled(o, plan, members).row.limit == o.row.limit
  {
    var plan := ClassifyForBackfill(read, rate);
    if plan.SeatTrack? {
      QuotientTimes(read.row.limit, rate, rate);
    }
  }

  /** The mode survives too, for a seat-tracked row, if some pass reaches it or it had its seats already. */
  lemma ModeSurvivesIff(o: OldRow, rate: int, members: int, lost: seq<bool>)
    requires !ClassifyForBackfill(o, rate).Adjudicate? && o.row.manual.None?
    ensures SeatTracked(Migrated(o, rate, members, lost).row) <==>
            if o.sizing == Some(PerSeat) then o.row.seats.Some? || false in lost
            else o.row.seats.Some? && false !in lost
  {
    PassesAre(SeedRate(o, rate), rate, members, lost);
  }

  /**
   A row labelled fixed whose seats were counted before the backfill reached it: the cutover
   neither repairs it nor refuses, and its ceiling becomes the seat term.
   */
  lemma CountedFixedRowMoves() returns (o: OldRow)
    ensures o.sizing == Some(Fixed) && o.row.manual.None? && o.row.limit == 500 && o.row.granted.None?
    ensures !ClassifyForBackfill(o, 20).Adjudicate?
    ensures EffectiveAfter(Migrated(o, 20, 3, [true]), 20) == 60
  {
    o := OldRow(Row(500, Some(500), 0, 0, 0, true, Some(3), Some(20), None, None, None), Some(Fixed));
    PassesAre(SeedRate(o, 20), 20, 3, [true]);
  }

  // ---- the whole table ----

  function SeedTable(rows: seq<OldRow>, rate: int): seq<OldRow> {
    seq(|rows|, i requires 0 <= i < |rows| => SeedRate(rows[i], rate))
  }

  datatype SeedEnd = Refused | Aborted | Seeded

  /** The first row whose seed loses to another process. */
  function FirstRace(rows: seq<OldRow>, raced: seq<Option<int>>): (n: nat)
    requires |raced| == |rows|
    ensures n <= |rows|
  {
    if rows == [] then 0
    else if rows[0].row.rate.None? && raced[0].Some? then 0
    else 1 + FirstRace(rows[1..], raced[1..])
  }

  lemma {:induction false} FirstRaceIs(rows: seq<OldRow>, raced: seq<Option<int>>, n: nat)
    requires |raced| == |rows| && n <= |rows|
    requires forall j | 0 <= j < n :: !(rows[j].row.rate.None? && raced[j].Some?)
    requires n < |rows| ==> rows[n].row.rate.None? && raced[n].Some?
    ensures FirstRace(rows, raced) == n
    decreases |rows|
  {
    if n > 0 {
      assert rows[0].row.rate.Some? || raced[0].None?;
      FirstRaceIs(rows[1..], raced[1..], n - 1);
    }
  }

  /** Seeded up to the race, the other's seed there, the rest not reached. */
  function AbortedTable(rows: seq<OldRow>, raced: seq<Option<int>>, rate: int): seq<OldRow>
    requires |raced| == |rows|
  {
    var n := FirstRace(rows, raced);
    seq(|rows|, i requires 0 <= i < |rows| =>
      if i < n then SeedRate(rows[i], rate) else if i == n then rows[i].(row := rows[i].row.(rate := raced[i])) else rows[i])
  }

  function BackfillTable(rows: seq<OldRow>, rate: int, members: seq<int>, lost: seq<bool>): seq<OldRow>
    requires |members| == |lost| == |rows|
  {
    seq(|rows|, i requires 0 <= i < |rows| => Backfill(rows[i], rate, members[i], lost[i]))
  }

  function CutOverTable(rows: seq<OldRow>): seq<OldRow> {
    seq(|rows|, i requires 0 <= i < |rows| => CutOver(rows[i]))
  }

  predicate AnyGrant(rows: seq<OldRow>) {
    exists i :: 0 <= i < |rows| && rows[i].row.granted.Some?
  }

  predicate AnyAdjudicated(rows: seq<OldRow>, rate: int) {
    exists i :: 0 <= i < |rows| && ClassifyForBackfill(rows[i], rate).Adjudicate?
  }

  class BudgetRows {
    const rows: array<OldRow>
    var rateInForce: Option<int>

    constructor (rows: array<OldRow>)
      ensures this.rows == rows && rateInForce == None
    {
      this.rows, rateInForce := rows, None;
    }

    method NoGrantsPresent() returns (clear: bool)
      ensures clear == !AnyGrant(rows[..])
    {
      for i := 0 to rows.Length
        invariant forall j | 0 <= j < i :: rows[j].row.granted.None?
      {
        if rows[i].row.granted.Some? {
          assert rows[..][i].row.granted.Some?;
          return false;
        }
      }
      return true;
    }

    /**
     `raced[i]`: another process seeds row `i`, at that rate, between this scan and its write.
     The write then fails its condition, which nothing catches: the phase stops there, with
     the rows before it seeded and the rate in force not recorded.
     */
    method PhaseM1(rate: int, raced: seq<Option<int>>, apply: bool) returns (end: SeedEnd)
      requires |raced| == rows.Length
      modifies this, rows
      ensures end == Refused <==> AnyGrant(old(rows[..])) || (old(rateInForce).Some? && old(rateInForce) != Some(rate))
      ensures end == Refused || !apply ==> rows[..] == old(rows[..]) && rateInForce == old(rateInForce) && end != Aborted
      ensures end != Refused && apply ==> (end == Aborted <==> FirstRace(old(rows[..]), raced) < rows.Length)
      ensures end == Aborted ==> rows[..] == AbortedTable(old(rows[..]), raced, rate) && rateInForce == old(rateInForce)
      ensures end == Seeded && apply ==> rows[..] == SeedTable(old(rows[..]), rate) && rateInForce == Some(rate)
    {
      var clear := NoGrantsPresent();
      if !clear || (rateInForce.Some? && rateInForce != Some(rate)) {
        return Refused;
      }
      if apply {
        ghost var scanned := rows[..];
        for i := 0 to rows.Length
          invariant rateInForce == old(rateInForce)
          invariant forall j | 0 <= j < i :: rows[j] == SeedRate(scanned[j], rate) && !(scanned[j].row.rate.None? && raced[j].Some?)
          invariant forall j | i <= j < rows.Length :: rows[j] == scanned[j]
        {
          if rows[i].row.rate.None? {
            if raced[i].Some? {
              FirstRaceIs(scanned, raced, i);
              rows[i] := rows[i].(row := rows[i].row.(rate := raced[i]));
              return Aborted;
            }
            rows[i] := rows[i].(row := rows[i].row.(rate := Some(rate)));
          }
        }
        FirstRaceIs(scanned, raced, rows.Length);
        rateInForce := Some(rate);
      }
      return Seeded;
    }

    /** `lost[i]`: another writer moved row `i` between the scan and the write. */
    method PhaseM2(members: seq<int>, lost: seq<bool>, apply: bool) returns (refused: bool, adjudication: seq<nat>)
      requires |members| == |lost| == rows.Length
      modifies rows
      ensures refused == (AnyGrant(old(rows[..])) || rateInForce.None?)
      ensures refused || !apply ==> rows[..] == old(rows[..])
      ensures !refused && apply ==> rows[..] == BackfillTable(old(rows[..]), rateInForce.value, members, lost)
      ensures !refused ==> forall i: nat :: i in adjudication <==> i < rows.Length && ClassifyForBackfill(old(rows[i]), rateInForce.value).Adjudicate?
    {
      adjudication := [];
      var clear := NoGrantsPresent();
      if !clear || rateInForce.None? {
        return true, [];
      }
      var rate := rateInForce.value;
      for i := 0 to rows.Length
        invariant forall j | 0 <= j < i :: rows[j] == if apply then Backfill(old(rows[j]), rate, members[j], lost[j]) else old(rows[j])
        invariant forall j | i <= j < rows.Length :: rows[j] == old(rows[j])
        invariant forall j: nat :: j in adjudication <==> j < i && ClassifyForBackfill(old(rows[j]), rate).Adjudicate?
      {
        var o := rows[i];
        var plan := ClassifyForBackfill(o, rate);
        match plan {
          case Done =>
          case Adjudicate => adjudication := adjudication + [i];
          case SeatTrack(seats) =>
            if apply && !lost[i] {
              rows[i] := o.(row := o.row.(seats := Some(seats)));
            }
          case OperatorFigure(figure) =>
            if apply && !lost[i] {
              rows[i] := o.(row := o.row.(manual := Some(figure), seats := Some(members[i])));
            }
        }
      }
      return false, adjudication;
    }

    method PhaseM3(apply: bool) returns (refused: bool)
      modifies rows
      ensures refused == (AnyGrant(old(rows[..])) || AnyAdjudicated(old(rows[..]), Or0(rateInForce)))
      ensures refused || !apply ==> rows[..] == old(rows[..])
      ensures !refused && apply ==> rows[..] == CutOverTable(old(rows[..]))
    {
      var clear := NoGrantsPresent();
      if !clear {
        return true;
      }
      for i := 0 to rows.Length
        invariant forall j | 0 <= j < i :: !ClassifyForBackfill(rows[j], Or0(rateInForce)).Adjudicate?
      {
        if ClassifyForBackfill(rows[i], Or0(rateInForce)).Adjudicate? {
          assert ClassifyForBackfill(rows[..][i], Or0(rateInForce)).Adjudicate?;
          return true;
        }
      }
      if apply {
        for i := 0 to rows.Length
          invariant forall j | 0 <= j < i :: rows[j] == CutOver(old(rows[j]))
          invariant forall j | i <= j < rows.Length :: rows[j] == old(rows[j])
        {
          if rows[i].row.manual.None? && rows[i].row.seats.None? {
            rows[i] := rows[i].(row := rows[i].row.(manual := Some(rows[i].row.limit)));
          }
        }
      }
      return false;
    }
  }

  /** A row nobody could classify stays so: no phase touches it but to seed its rate, and the cutover refuses the table. */
  lemma CutoverRefusesWhileAdjudicated(rows: seq<OldRow>, rate: int, members: seq<int>, lost: seq<bool>, i: nat)
    requires |members| == |lost| == |rows| && i < |rows|
    requires ClassifyForBackfill(rows[i], rate).Adjudicate?
    ensures AnyAdjudicated(BackfillTable(SeedTable(rows, rate), rate, members, lost), rate)
    ensures BackfillTable(SeedTable(rows, rate), rate, members, lost)[i] == SeedRate(rows[i], rate)
  {
  }

  /** One pass of the backfill after another, each losing its own rows. */
  function BackfillPasses(rows: seq<OldRow>, rate: int, members: seq<int>, passes: seq<seq<bool>>): (after: seq<OldRow>)
    requires |members| == |rows| && forall lost | lost in passes :: |lost| == |rows|
    ensures |after| == |rows|
    decreases |passes|
  {
    if passes == [] then rows
    else
      assert passes[0] in passes;
      BackfillPasses(BackfillTable(rows, rate, members, passes[0]), rate, members, passes[1..])
  }

  /** Which passes row `i` lost. */
  function LostBy(passes: seq<seq<bool>>, i: nat): seq<bool>
    requires forall lost | lost in passes :: i < |lost|
    decreases |passes|
  {
    if passes == [] then []
    else
      assert passes[0] in passes;
      [passes[0][i]] + LostBy(passes[1..], i)
  }

  lemma {:induction false} PassesRowByRow(rows: seq<OldRow>, rate: int, members: seq<int>, passes: seq<seq<bool>>, i: nat)
    requires |members| == |rows| && (forall lost | lost in passes :: |lost| == |rows|) && i < |rows|
    ensures BackfillPasses(rows, rate, members, passes)[i] == Passes(rows[i], rate, members[i], LostBy(passes, i))
    decreases |passes|
  {
    if passes != [] {
      assert passes[0] in passes;
      PassesRowByRow(BackfillTable(rows, rate, members, passes[0]), rate, members, passes[1..], i);
      assert LostBy(passes, i)[1..] == LostBy(passes[1..], i);
    }
  }

  /**
   The three phases, with any passes of the second, over a table none of whose rows awaits
   adjudication: a row keeps its effective limit if and only if it meets its condition.
   */
  lemma MigrationMovesNoLimitIff(rows: seq<OldRow>, rate: int, members: seq<int>, passes: seq<seq<bool>>, configured: int)
    requires |members| == |rows| && forall lost | lost in passes :: |lost| == |rows|
    requires !AnyGrant(rows) && !AnyAdjudicated(rows, rate)
    ensures var after := CutOverTable(BackfillPasses(SeedTable(rows, rate), rate, members, passes));
            |after| == |rows| &&
            forall i | 0 <= i < |rows| ::
              EffectiveAfter(after[i], configured) == EffectiveBefore(rows[i])
              <==> LimitSurvives(rows[i], rate, false in LostBy(passes, i))
  {
    var seeded := SeedTable(rows, rate);
    forall i | 0 <= i < |rows|
      ensures CutOver(BackfillPasses(seeded, rate, members, passes)[i]) == Migrated(rows[i], rate, members[i], LostBy(passes, i))
    {
      PassesRowByRow(seeded, rate, members, passes, i);
    }
    forall i | 0 <= i < |rows|
      ensures EffectiveAfter(Migrated(rows[i], rate, members[i], LostBy(passes, i)), configured) == EffectiveBefore(rows[i])
              <==> LimitSurvives(rows[i], rate, false in LostBy(passes, i))
    {
      LimitSurvivesIff(rows[i], rate, members[i], LostBy(passes, i), configured);
    }
  }
}
