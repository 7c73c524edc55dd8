/** What the phases of the ceiling migration decide and write for each row, said of its attributes. */
module MigrationAnswers {
  import opened Options
  import opened PoolRows
  import opened CeilingMigration

  /** The row has what the backfill would give it. */
  predicate HasItAll(o: OldRow) {
    o.row.manual.Some? || (o.row.seats.Some? && o.sizing == Some("per_seat"))
  }

  ghost predicate WholeCount(limit: int, rate: int) {
    exists seats: int :: seats * rate == limit
  }

  lemma WholeCountIs(limit: int, rate: int)
    requires rate > 0
    ensures WholeCount(limit, rate) <==> limit % rate == 0
  {
    if limit % rate == 0 {
      assert limit / rate * rate == limit;
    }
    if seats: int :| seats * rate == limit {
      CountIsTheQuotient(limit, rate, seats);
    }
  }

  lemma AtLeastOne(d: int, rate: int)
    requires d >= 1 && rate > 0
    ensures d * rate >= rate
  {
    assert (d - 1) * rate >= 0;
  }

  lemma CountIsTheQuotient(limit: int, rate: int, seats: int)
    requires rate > 0 && seats * rate == limit
    ensures limit % rate == 0
  {
    var q, rest := limit / rate, limit % rate;
    var d := seats - q;
    assert limit == q * rate + rest && d * rate == seats * rate - q * rate;
    if d >= 1 {
      AtLeastOne(d, rate);
    } else if d <= -1 {
      AtLeastOne(-d, rate);
    }
  }

  /**
   What the backfill would do with a row: nothing with one that has it all; a seat count, whose
   product with the rate is the limit, for a seat-scaled row; its limit as an operator's
   figure for a fixed row or one that says nothing; and nobody but a human decides a
   seat-scaled row with no whole count, or a mode nobody knows.
   */
  lemma ClassifiedIff(o: OldRow, rate: int)
    ensures var plan, limit := ClassifyForBackfill(o, rate), o.row.limit;
            var perSeat, plain := o.sizing == Some("per_seat"), o.sizing == None || o.sizing == Some("fixed");
            && (plan == Done <==> HasItAll(o))
            && (plan.SeatTrack? <==> !HasItAll(o) && perSeat && rate > 0 && WholeCount(limit, rate))
            && (plan.SeatTrack? ==> plan.seats * rate == limit)
            && (plan.OperatorFigure? <==> !HasItAll(o) && plain)
            && (plan.OperatorFigure? ==> plan.figure == limit)
            && (plan == Adjudicate <==>
                  (!HasItAll(o) && ((perSeat && (rate <= 0 || !WholeCount(limit, rate))) || (!perSeat && !plain))))
  {
    if rate > 0 {
      WholeCountIs(o.row.limit, rate);
    }
  }

  /** A write of the backfill lands if and only if the limit, and the seat count if one was read, are still what was read. */
  lemma BackfillLandsIff(o: OldRow, read: OldRow)
    ensures BackfillLands(o, read) <==>
              o.row.limit == read.row.limit && (read.row.seats == None || o.row.seats == read.row.seats)
  {
  }

  /** What a pass that reaches a row leaves: seats alone, or the figure and the members counted; nothing else moves. */
  lemma ReachedRow(rows: seq<OldRow>, rate: int, members: seq<int>, lost: seq<bool>, i: nat)
    requires |members| == |lost| == |rows| && i < |rows|
    ensures var o, after := rows[i], BackfillTable(rows, rate, members, lost)[i];
            match ClassifyForBackfill(o, rate)
            case SeatTrack(seats) => after == if lost[i] then o else OldRow(o.row.(seats := Some(seats)), o.sizing)
            case OperatorFigure(figure) =>
              after == if lost[i] then o else OldRow(o.row.(manual := Some(o.row.limit), seats := Some(members[i])), o.sizing)
            case _ => after == o
  {
  }

  /** The first phase gives a rate to a row without one, and the cutover a figure to a row without figure and seats; both leave all else. */
  lemma SeededAndCutOver(rows: seq<OldRow>, rate: int, i: nat)
    requires i < |rows|
    ensures |SeedTable(rows, rate)| == |CutOverTable(rows)| == |rows|
    ensures var o := rows[i];
            && SeedTable(rows, rate)[i] == (match o.row.rate case Some(_) => o case None => OldRow(o.row.(rate := Some(rate)), o.sizing))
            && CutOverTable(rows)[i] == (if o.row.manual == None && o.row.seats == None
                                         then OldRow(o.row.(manual := Some(o.row.limit)), o.sizing) else o)
  {
  }

  /** Another process got row `i` its rate first. */
  predicate Raced(rows: seq<OldRow>, raced: seq<Option<int>>, i: nat)
    requires i < |rows| == |raced|
  {
    rows[i].row.rate == None && raced[i].Some?
  }

  lemma {:induction false} FirstRaceFinds(rows: seq<OldRow>, raced: seq<Option<int>>)
    requires |raced| == |rows|
    ensures var n := FirstRace(rows, raced);
            && (forall j | 0 <= j < n :: !Raced(rows, raced, j))
            && (n < |rows| ==> Raced(rows, raced, n))
    decreases |rows|
  {
    if rows != [] && !Raced(rows, raced, 0) {
      FirstRaceFinds(rows[1..], raced[1..]);
      var n := FirstRace(rows[1..], raced[1..]);
      forall j | 0 <= j < n + 1 ensures !Raced(rows, raced, j) {
        assert j > 0 ==> Raced(rows[1..], raced[1..], j - 1) == Raced(rows, raced, j);
      }
    }
  }

  /** A seeding that lost a race: rows before it are seeded, the one it lost has the other's rate, and the rest are as they were. */
  lemma AbortedRows(rows: seq<OldRow>, raced: seq<Option<int>>, rate: int, i: nat)
    requires |raced| == |rows| && i < |rows|
    ensures |AbortedTable(rows, raced, rate)| == |rows|
    ensures AbortedTable(rows, raced, rate)[i] ==
              if exists j | 0 <= j < i :: Raced(rows, raced, j) then rows[i]
              else if Raced(rows, raced, i) then OldRow(rows[i].row.(rate := raced[i]), rows[i].sizing)
              else SeedTable(rows, rate)[i]
  {
    FirstRaceFinds(rows, raced);
  }
}
