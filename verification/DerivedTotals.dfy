/**
 The reconciliation fold: one walk over the partition's pages, and what it computes as a
 function of the ledger's contents alone.
 */
module DerivedTotals {
  import opened Sums
  import opened CreditEvents

  datatype Totals = Totals(settled: int, reserved: int, reclaimed: int, unmatchedTerminals: nat)

  // ---- the fold over rows in the order they are read ----

  predicate IsTerminal(kind: EventType) {
    kind == SETTLE || kind == RELEASE || kind == RECLAIM
  }

  function SettledIn(rows: seq<Event>): int {
    if rows == [] then 0 else SettledIn(rows[..|rows| - 1]) + rows[|rows| - 1].settled
  }

  function ReserveIn(rows: seq<Event>, h: HoldId): int {
    if rows == [] then 0
    else
      var e := rows[|rows| - 1];
      ReserveIn(rows[..|rows| - 1], h) + if e.kind == RESERVE && e.hold == h then e.reserved else 0
  }

  function TerminalIn(rows: seq<Event>, h: HoldId): int {
    if rows == [] then 0
    else
      var e := rows[|rows| - 1];
      TerminalIn(rows[..|rows| - 1], h) + if IsTerminal(e.kind) && e.hold == h then e.reserved else 0
  }

  function ReclaimedIn(rows: seq<Event>, h: HoldId): int {
    if rows == [] then 0
    else
      var e := rows[|rows| - 1];
      ReclaimedIn(rows[..|rows| - 1], h) + if e.kind == RECLAIM && e.hold == h then -e.reserved else 0
  }

  function ReservedHolds(rows: seq<Event>): set<HoldId> {
    set e | e in rows && e.kind == RESERVE :: e.hold
  }

  function TerminalHolds(rows: seq<Event>): set<HoldId> {
    set e | e in rows && IsTerminal(e.kind) :: e.hold
  }

  function ReclaimHolds(rows: seq<Event>): set<HoldId> {
    set e | e in rows && e.kind == RECLAIM :: e.hold
  }

  function OpenByHold(rows: seq<Event>): map<HoldId, int> {
    map h | h in ReservedHolds(rows) :: ReserveIn(rows, h) + TerminalIn(rows, h)
  }

  function ReclaimedByHold(rows: seq<Event>): map<HoldId, int> {
    map h | h in ReclaimHolds(rows) :: if h in ReservedHolds(rows) then ReclaimedIn(rows, h) else 0
  }

  ghost function Fold(rows: seq<Event>): Totals {
    Totals(SettledIn(rows), Sum(OpenByHold(rows)), Sum(ReclaimedByHold(rows)),
           |TerminalHolds(rows) - ReservedHolds(rows)|)
  }

  function Flatten(pages: seq<seq<Event>>): seq<Event> {
    if pages == [] then [] else Flatten(pages[..|pages| - 1]) + pages[|pages| - 1]
  }

  // ---- the walk ----

  /** The walk's running figures: per hold, so that what is returned can be gated on a RESERVE event. */
  datatype Tally = Tally(settled: int, hasReserve: set<HoldId>, reserveDelta: map<HoldId, int>,
                         terminalDelta: map<HoldId, int>, reclaimReturned: map<HoldId, int>)

  /** The tally after the rows in `seen`. */
  ghost predicate Accumulated(seen: seq<Event>, t: Tally) {
    && t.settled == SettledIn(seen)
    && t.hasReserve == ReservedHolds(seen)
    && TracksReserves(t.reserveDelta, seen)
    && TracksTerminals(t.terminalDelta, seen)
    && TracksReclaims(t.reclaimReturned, seen)
  }

  lemma OneMoreRow(seen: seq<Event>, e: Event)
    ensures SettledIn(seen + [e]) == SettledIn(seen) + e.settled
    ensures forall h :: ReserveIn(seen + [e], h) == ReserveIn(seen, h) + if e.kind == RESERVE && e.hold == h then e.reserved else 0
    ensures forall h :: TerminalIn(seen + [e], h) == TerminalIn(seen, h) + if IsTerminal(e.kind) && e.hold == h then e.reserved else 0
    ensures forall h :: ReclaimedIn(seen + [e], h) == ReclaimedIn(seen, h) + if e.kind == RECLAIM && e.hold == h then -e.reserved else 0
    ensures ReservedHolds(seen + [e]) == ReservedHolds(seen) + if e.kind == RESERVE then {e.hold} else {}
    ensures TerminalHolds(seen + [e]) == TerminalHolds(seen) + if IsTerminal(e.kind) then {e.hold} else {}
    ensures ReclaimHolds(seen + [e]) == ReclaimHolds(seen) + if e.kind == RECLAIM then {e.hold} else {}
  {
    assert (seen + [e])[..|seen|] == seen;
    forall x ensures x in seen + [e] <==> x in seen || x == e {
    }
  }

  function Bump(m: map<HoldId, int>, h: HoldId, d: int): map<HoldId, int> {
    m[h := ValueOr0(m, h) + d]
  }

  ghost predicate Tracks(m: map<HoldId, int>, keys: set<HoldId>, total: HoldId -> int) {
    m.Keys == keys && forall h :: ValueOr0(m, h) == total(h)
  }

  lemma TracksOneMore(m: map<HoldId, int>, keys: set<HoldId>, was: HoldId -> int, now: HoldId -> int, hit: bool, h: HoldId, d: int)
    requires Tracks(m, keys, was)
    requires forall x :: now(x) == was(x) + if hit && x == h then d else 0
    ensures Tracks(if hit then Bump(m, h, d) else m, keys + if hit then {h} else {}, now)
  {
  }

  function Counted(t: Tally, e: Event): Tally {
    Tally(t.settled + e.settled,
          t.hasReserve + if e.kind == RESERVE then {e.hold} else {},
          if e.kind == RESERVE then Bump(t.reserveDelta, e.hold, e.reserved) else t.reserveDelta,
          if IsTerminal(e.kind) then Bump(t.terminalDelta, e.hold, e.reserved) else t.terminalDelta,
          if e.kind == RECLAIM then Bump(t.reclaimReturned, e.hold, -e.reserved) else t.reclaimReturned)
  }

  ghost predicate TracksReserves(m: map<HoldId, int>, seen: seq<Event>) {
    Tracks(m, ReservedHolds(seen), h => ReserveIn(seen, h))
  }

  ghost predicate TracksTerminals(m: map<HoldId, int>, seen: seq<Event>) {
    Tracks(m, TerminalHolds(seen), h => TerminalIn(seen, h))
  }

  ghost predicate TracksReclaims(m: map<HoldId, int>, seen: seq<Event>) {
    Tracks(m, ReclaimHolds(seen), h => ReclaimedIn(seen, h))
  }

  lemma ReservesOneMore(m: map<HoldId, int>, seen: seq<Event>, e: Event)
    requires TracksReserves(m, seen)
    ensures TracksReserves(if e.kind == RESERVE then Bump(m, e.hold, e.reserved) else m, seen + [e])
  {
    OneMoreRow(seen, e);
    TracksOneMore(m, ReservedHolds(seen), h => ReserveIn(seen, h), h => ReserveIn(seen + [e], h), e.kind == RESERVE, e.hold, e.reserved);
  }

  lemma TerminalsOneMore(m: map<HoldId, int>, seen: seq<Event>, e: Event)
    requires TracksTerminals(m, seen)
    ensures TracksTerminals(if IsTerminal(e.kind) then Bump(m, e.hold, e.reserved) else m, seen + [e])
  {
    OneMoreRow(seen, e);
    TracksOneMore(m, TerminalHolds(seen), h => TerminalIn(seen, h), h => TerminalIn(seen + [e], h), IsTerminal(e.kind), e.hold, e.reserved);
  }

  lemma ReclaimsOneMore(m: map<HoldId, int>, seen: seq<Event>, e: Event)
    requires TracksReclaims(m, seen)
    ensures TracksReclaims(if e.kind == RECLAIM then Bump(m, e.hold, -e.reserved) else m, seen + [e])
  {
    OneMoreRow(seen, e);
    TracksOneMore(m, ReclaimHolds(seen), h => ReclaimedIn(seen, h), h => ReclaimedIn(seen + [e], h), e.kind == RECLAIM, e.hold, -e.reserved);
  }

  lemma AccumulatedOneMore(seen: seq<Event>, e: Event, t: Tally)
    requires Accumulated(seen, t)
    ensures Accumulated(seen + [e], Counted(t, e))
  {
    ReservesOneMore(t.reserveDelta, seen, e);
    TerminalsOneMore(t.terminalDelta, seen, e);
    ReclaimsOneMore(t.reclaimReturned, seen, e);
    OneMoreRow(seen, e);
  }

  /** One row into the tally. */
  method CountRow(before: Tally, e: Event) returns (t: Tally)
    ensures t == Counted(before, e)
  {
    t := before.(settled := before.settled + e.settled);
    if e.kind == RESERVE {
      t := t.(hasReserve := t.hasReserve + {e.hold}, reserveDelta := Bump(t.reserveDelta, e.hold, e.reserved));
    } else if e.kind == SETTLE || e.kind == RELEASE || e.kind == RECLAIM {
      t := t.(terminalDelta := Bump(t.terminalDelta, e.hold, e.reserved));
      if e.kind == RECLAIM {
        t := t.(reclaimReturned := Bump(t.reclaimReturned, e.hold, -e.reserved));
      }
    }
  }

  method CountPage(ghost seen: seq<Event>, page: seq<Event>, before: Tally) returns (t: Tally)
    requires Accumulated(seen, before)
    ensures Accumulated(seen + page, t)
  {
    t := before;
    assert seen + page[..0] == seen;
    for i := 0 to |page|
      invariant Accumulated(seen + page[..i], t)
    {
      AccumulatedOneMore(seen + page[..i], page[i], t);
      assert seen + page[..i + 1] == seen + page[..i] + [page[i]];
      t := CountRow(t, page[i]);
    }
    assert page[..|page|] == page;
  }

  method Derive(pages: seq<seq<Event>>) returns (totals: Totals)
    ensures totals == Fold(Flatten(pages))
  {
    var t := Tally(0, {}, map[], map[], map[]);
    for p := 0 to |pages|
      invariant Accumulated(Flatten(pages[..p]), t)
    {
      assert pages[..p + 1][..p] == pages[..p];
      t := CountPage(Flatten(pages[..p]), pages[p], t);
    }
    assert pages[..|pages|] == pages;
    var reserved := OpenTotal(Flatten(pages), t.hasReserve, t.reserveDelta, t.terminalDelta);
    var reclaimed := ReclaimedTotal(Flatten(pages), t.hasReserve, t.reclaimReturned);
    totals := Totals(t.settled, reserved, reclaimed, |t.terminalDelta.Keys - t.hasReserve|);
  }

  method OpenTotal(ghost rows: seq<Event>, hasReserve: set<HoldId>, reserveDelta: map<HoldId, int>, terminalDelta: map<HoldId, int>)
    returns (reserved: int)
    requires hasReserve == ReservedHolds(rows)
    requires TracksReserves(reserveDelta, rows) && TracksTerminals(terminalDelta, rows)
    ensures reserved == Sum(OpenByHold(rows))
  {
    reserved := 0;
    var todo := hasReserve;
    SeenNothing(OpenByHold(rows), todo);
    while todo != {}
      invariant todo <= hasReserve
      invariant reserved == Sum(Seen(OpenByHold(rows), todo))
      decreases todo
    {
      var h :| h in todo;
      SeenOneMore(OpenByHold(rows), todo, h);
      assert ValueOr0(reserveDelta, h) == ReserveIn(rows, h);
      reserved := reserved + (reserveDelta[h] + ValueOr0(terminalDelta, h));
      todo := todo - {h};
    }
    SeenAll(OpenByHold(rows));
  }

  method ReclaimedTotal(ghost rows: seq<Event>, hasReserve: set<HoldId>, reclaimReturned: map<HoldId, int>)
    returns (reclaimed: int)
    requires hasReserve == ReservedHolds(rows)
    requires TracksReclaims(reclaimReturned, rows)
    ensures reclaimed == Sum(ReclaimedByHold(rows))
  {
    reclaimed := 0;
    var todo := reclaimReturned.Keys;
    SeenNothing(ReclaimedByHold(rows), todo);
    while todo != {}
      invariant todo <= reclaimReturned.Keys
      invariant reclaimed == Sum(Seen(ReclaimedByHold(rows), todo))
      decreases todo
    {
      var h :| h in todo;
      SeenOneMore(ReclaimedByHold(rows), todo, h);
      assert ValueOr0(reclaimReturned, h) == ReclaimedIn(rows, h);
      if h in hasReserve {
        reclaimed := reclaimed + reclaimReturned[h];
      }
      todo := todo - {h};
    }
    SeenAll(ReclaimedByHold(rows));
  }
}
