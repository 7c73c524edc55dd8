/**
 Runs of the transactional protocol: the pool's counters, the open holds and the ledger
 move together, one transaction at a time. A hold ends once, is charged from one
 observation, and the fold of the ledger re-derives the counters up to named offsets.
 */
module CreditRuns {
  import opened Options
  import opened Sums
  import opened CreditEvents
  import opened DerivedTotals

  datatype World = World(reserved: int, settled: int, reclaimed: int, holds: map<HoldId, int>, ledger: Ledger)

  function Put(l: Ledger, k: Key, kind: EventType, reserved: int, settled: int): Ledger {
    l[k := Event(kind, k.hold, reserved, settled)]
  }

  /** `amount`, `held` and `actual` are what the caller passes; the conditions are the transactions' own. */
  datatype Txn =
    | Reserve(id: HoldId, amount: int)
    | Settle(id: HoldId, held: int, actual: int)
    | Release(id: HoldId, held: int)
    | Reclaim(id: HoldId, held: int)
    | LateSettle(id: HoldId, actual: int)
    | LegacySettle(id: HoldId, actual: int)
    | PutOwed(id: HoldId, actual: int)
    | PutRetained(id: HoldId)
    | ProjectShadow(id: HoldId, amount: int)

  predicate HasTerminal(w: World, id: HoldId, kind: EventType) {
    Key(id, TerminalCell) in w.ledger && w.ledger[Key(id, TerminalCell)].kind == kind
  }

  predicate Commits(w: World, t: Txn) {
    match t
    case Reserve(id, _) => id !in w.holds && Key(id, ReserveCell) !in w.ledger
    case Settle(id, _, _) => id in w.holds && Key(id, TerminalCell) !in w.ledger
    case Release(id, _) => id in w.holds && Key(id, TerminalCell) !in w.ledger
    case Reclaim(id, _) => id in w.holds && Key(id, TerminalCell) !in w.ledger
    case LateSettle(id, _) => Key(id, LateSettleCell) !in w.ledger && HasTerminal(w, id, RECLAIM)
    case LegacySettle(id, _) => Key(id, TerminalCell) !in w.ledger
    case PutOwed(id, _) => Key(id, OwedSettleCell) !in w.ledger
    case PutRetained(id) => Key(id, RetainedCell) !in w.ledger
    case ProjectShadow(id, _) => Key(id, ShadowCell) !in w.ledger
  }

  /** End hold `id`: its share of the counters, its row and its terminal, in one transaction. */
  function End(w: World, id: HoldId, kind: EventType, held: int, actual: int): World {
    w.(reserved := w.reserved - held, settled := w.settled + actual,
       reclaimed := w.reclaimed + (if kind == RECLAIM then held else 0),
       holds := w.holds - {id}, ledger := Put(w.ledger, Key(id, TerminalCell), kind, -held, actual))
  }

  function Next(w: World, t: Txn): World {
    if !Commits(w, t) then w
    else
      match t
      case Reserve(id, amount) =>
        w.(reserved := w.reserved + amount, holds := w.holds[id := amount],
           ledger := Put(w.ledger, Key(id, ReserveCell), RESERVE, amount, 0))
      case Settle(id, held, actual) => End(w, id, SETTLE, held, actual)
      case Release(id, held) => End(w, id, RELEASE, held, 0)
      case Reclaim(id, held) => End(w, id, RECLAIM, held, 0)
      case LateSettle(id, actual) =>
        w.(settled := w.settled + actual, ledger := Put(w.ledger, Key(id, LateSettleCell), LATE_SETTLE, 0, actual))
      case LegacySettle(id, actual) =>
        w.(settled := w.settled + actual, ledger := Put(w.ledger, Key(id, TerminalCell), SETTLE, 0, actual))
      case PutOwed(id, actual) => w.(ledger := Put(w.ledger, Key(id, OwedSettleCell), OWED_SETTLE, 0, actual))
      case PutRetained(id) => w.(ledger := Put(w.ledger, Key(id, RetainedCell), RETAINED, 0, 0))
      case ProjectShadow(id, amount) => w.(ledger := Put(w.ledger, Key(id, ShadowCell), RESERVE, amount, 0))
  }

  /** The hold the caller names: open with this amount if it is open at all. */
  predicate Names(w: World, id: HoldId, held: int) {
    id in w.holds ==> w.holds[id] == held
  }

  /**
   What callers do: ids are minted fresh; an ending passes the amount its hold reserved; the
   legacy branch runs only after its hold's delete condition failed; the projector copies
   the RESERVE event that was written with the hold it saw inserted.
   */
  predicate Allowed(w: World, t: Txn) {
    match t
    case Reserve(id, _) => Key(id, TerminalCell) !in w.ledger
    case Settle(id, held, _) => Names(w, id, held)
    case Release(id, held) => Names(w, id, held)
    case Reclaim(id, held) => Names(w, id, held)
    case LegacySettle(id, _) => id !in w.holds && Key(id, ReserveCell) in w.ledger
    case ProjectShadow(id, amount) =>
      Key(id, ReserveCell) in w.ledger && w.ledger[Key(id, ReserveCell)].reserved == amount
    case _ => true
  }

  function Subject(t: Txn): HoldId {
    t.id
  }

  // ---- one hold at a time ----

  predicate KindFits(cell: Cell, kind: EventType) {
    match cell
    case ReserveCell | ShadowCell => kind == RESERVE
    case TerminalCell => IsTerminal(kind)
    case LateSettleCell => kind == LATE_SETTLE
    case OwedSettleCell => kind == OWED_SETTLE
    case RetainedCell => kind == RETAINED
  }

  predicate RowFits(k: Key, e: Event) {
    && e.hold == k.hold && KindFits(k.cell, e.kind)
    && (k.cell.LateSettleCell? || k.cell.OwedSettleCell? || k.cell.RetainedCell? ==> e.reserved == 0)
    && (k.cell.ReserveCell? || k.cell.ShadowCell? || e.kind == RELEASE || e.kind == RECLAIM ==> e.settled == 0)
  }

  ghost predicate WellKeyed(l: Ledger) {
    forall k | k in l :: RowFits(k, l[k])
  }

  function ReservedAt(l: Ledger, h: HoldId, cell: Cell): int {
    if Key(h, cell) in l then l[Key(h, cell)].reserved else 0
  }

  /** All that the store keeps about one hold. */
  datatype Local = Local(open: Option<int>, reserve: Option<Event>, terminal: Option<Event>, late: Option<Event>, shadow: Option<Event>)
  {
    predicate Reclaimed() {
      terminal.Some? && terminal.value.kind == RECLAIM
    }

    /** A hold open now has no ending; one that ended returned exactly what it reserved. */
    predicate Ok() {
      && (open.Some? ==> terminal.None?)
      && (open.Some? && reserve.Some? ==> reserve.value.reserved == open.value)
      && (open.None? && reserve.Some? ==> terminal.Some? && terminal.value.reserved == -reserve.value.reserved)
      && (late.Some? ==> Reclaimed())
      && (shadow.Some? ==> reserve.Some? && shadow.value.reserved == reserve.value.reserved)
    }
  }

  function LocalOf(w: World, h: HoldId): Local {
    Local(Lookup(w.holds, h), Lookup(w.ledger, Key(h, ReserveCell)), Lookup(w.ledger, Key(h, TerminalCell)),
          Lookup(w.ledger, Key(h, LateSettleCell)), Lookup(w.ledger, Key(h, ShadowCell)))
  }

  lemma SubjectStaysOk(w: World, t: Txn)
    requires LocalOf(w, Subject(t)).Ok() && Allowed(w, t)
    ensures LocalOf(Next(w, t), Subject(t)).Ok()
  {
  }

  lemma OthersUntouched(w: World, t: Txn, h: HoldId)
    requires h != Subject(t)
    ensures LocalOf(Next(w, t), h) == LocalOf(w, h)
  {
  }

  // ---- sums ----

  /** The spend the rows claim, row by row, without the owed-settle notes. */
  function Charges(l: Ledger): map<Key, int> {
    map k | k in l :: if k.cell.OwedSettleCell? then 0 else l[k].settled
  }

  /** Every amount a reclaim returned. */
  function Reclaims(l: Ledger): map<Key, int> {
    map k | k in l :: if l[k].kind == RECLAIM then -l[k].reserved else 0
  }

  /** `base` is where the counters stood when the ledger was empty. */
  ghost predicate Inv(w: World, base: World) {
    && WellKeyed(w.ledger)
    && (forall h :: LocalOf(w, h).Ok())
    && Counted(w, base)
  }

  function ChargeOf(k: Key, e: Event): int {
    if k.cell.OwedSettleCell? then 0 else e.settled
  }

  function ReclaimOf(e: Event): int {
    if e.kind == RECLAIM then -e.reserved else 0
  }

  lemma PutCharges(l: Ledger, k: Key, e: Event)
    requires k !in l
    ensures Sum(Charges(l[k := e])) == Sum(Charges(l)) + ChargeOf(k, e)
  {
    SumUpdate(Charges(l), k, ChargeOf(k, e));
    assert Charges(l[k := e]) == Charges(l)[k := ChargeOf(k, e)];
  }

  lemma PutReclaims(l: Ledger, k: Key, e: Event)
    requires k !in l
    ensures Sum(Reclaims(l[k := e])) == Sum(Reclaims(l)) + ReclaimOf(e)
  {
    SumUpdate(Reclaims(l), k, ReclaimOf(e));
    assert Reclaims(l[k := e]) == Reclaims(l)[k := ReclaimOf(e)];
  }

  ghost predicate Counted(w: World, base: World) {
    && w.reserved == Sum(w.holds)
    && w.settled == base.settled + Sum(Charges(w.ledger))
    && w.reclaimed == base.reclaimed + Sum(Reclaims(w.ledger))
  }

  lemma EndCounts(w: World, base: World, id: HoldId, kind: EventType, held: int, actual: int)
    requires Counted(w, base) && id in w.holds && w.holds[id] == held
    requires Key(id, TerminalCell) !in w.ledger
    ensures Counted(End(w, id, kind, held, actual), base)
  {
    var e := Event(kind, id, -held, actual);
    SumRemove(w.holds, id);
    PutCharges(w.ledger, Key(id, TerminalCell), e);
    PutReclaims(w.ledger, Key(id, TerminalCell), e);
  }

  /** The transactions that only append a row, and count its charge if it is one. */
  lemma AppendCounts(w: World, base: World, k: Key, e: Event)
    requires Counted(w, base) && k !in w.ledger && e.kind != RECLAIM
    ensures Counted(w.(settled := w.settled + ChargeOf(k, e), ledger := w.ledger[k := e]), base)
  {
    PutCharges(w.ledger, k, e);
    PutReclaims(w.ledger, k, e);
  }

  lemma NextCounts(w: World, base: World, t: Txn)
    requires Counted(w, base) && Allowed(w, t) && Commits(w, t)
    ensures Counted(Next(w, t), base)
  {
    match t {
      case Reserve(id, amount) =>
        SumUpdate(w.holds, id, amount);
        AppendCounts(w, base, Key(id, ReserveCell), Event(RESERVE, id, amount, 0));
      case Settle(id, held, actual) => EndCounts(w, base, id, SETTLE, held, actual);
      case Release(id, held) => EndCounts(w, base, id, RELEASE, held, 0);
      case Reclaim(id, held) => EndCounts(w, base, id, RECLAIM, held, 0);
      case LateSettle(id, actual) => AppendCounts(w, base, Key(id, LateSettleCell), Event(LATE_SETTLE, id, 0, actual));
      case LegacySettle(id, actual) => AppendCounts(w, base, Key(id, TerminalCell), Event(SETTLE, id, 0, actual));
      case PutOwed(id, actual) => AppendCounts(w, base, Key(id, OwedSettleCell), Event(OWED_SETTLE, id, 0, actual));
      case PutRetained(id) => AppendCounts(w, base, Key(id, RetainedCell), Event(RETAINED, id, 0, 0));
      case ProjectShadow(id, amount) => AppendCounts(w, base, Key(id, ShadowCell), Event(RESERVE, id, amount, 0));
    }
  }

  lemma NextIsWellKeyed(w: World, t: Txn)
    requires WellKeyed(w.ledger)
    ensures WellKeyed(Next(w, t).ledger)
  {
  }

  lemma NextStaysOk(w: World, t: Txn, h: HoldId)
    requires LocalOf(w, h).Ok() && Allowed(w, t)
    ensures LocalOf(Next(w, t), h).Ok()
  {
    if h == Subject(t) {
      SubjectStaysOk(w, t);
    } else {
      OthersUntouched(w, t, h);
    }
  }

  lemma StepKeepsInv(w: World, base: World, t: Txn)
    requires Inv(w, base) && Allowed(w, t)
    ensures Inv(Next(w, t), base)
  {
    if Commits(w, t) {
      NextCounts(w, base, t);
      NextIsWellKeyed(w, t);
      forall h ensures LocalOf(Next(w, t), h).Ok() {
        NextStaysOk(w, t, h);
      }
    }
  }

  // ---- runs ----

  function Run(w: World, ts: seq<Txn>): World
    decreases |ts|
  {
    if ts == [] then w else Next(Run(w, ts[..|ts| - 1]), ts[|ts| - 1])
  }

  predicate AllAllowed(w: World, ts: seq<Txn>)
    decreases |ts|
  {
    ts != [] ==> AllAllowed(w, ts[..|ts| - 1]) && Allowed(Run(w, ts[..|ts| - 1]), ts[|ts| - 1])
  }

  lemma {:induction false} AllAllowedPrefix(w: World, ts: seq<Txn>, n: nat)
    requires AllAllowed(w, ts) && n <= |ts|
    ensures AllAllowed(w, ts[..n])
    decreases |ts|
  {
    if n == |ts| {
      assert ts[..n] == ts;
    } else {
      AllAllowedPrefix(w, ts[..|ts| - 1], n);
      assert ts[..|ts| - 1][..n] == ts[..n];
    }
  }

  lemma {:induction false} RunKeepsInv(w: World, base: World, ts: seq<Txn>)
    requires Inv(w, base) && AllAllowed(w, ts)
    ensures Inv(Run(w, ts), base)
    decreases |ts|
  {
    if ts != [] {
      var n := |ts| - 1;
      RunKeepsInv(w, base, ts[..n]);
      StepKeepsInv(Run(w, ts[..n]), base, ts[n]);
    }
  }

  /** The ledger is append-only: a row, once written, is there for ever, unchanged. */
  lemma {:induction false} RowsAreForever(w: World, ts: seq<Txn>, k: Key)
    requires k in w.ledger
    ensures k in Run(w, ts).ledger && Run(w, ts).ledger[k] == w.ledger[k]
    decreases |ts|
  {
    if ts != [] {
      RowsAreForever(w, ts[..|ts| - 1], k);
    }
  }

  /** What a hold was charged: its terminal's figure, or its late settle's, never both. */
  function ChargedAt(l: Ledger, h: HoldId, cell: Cell): int {
    if Key(h, cell) in l then l[Key(h, cell)].settled else 0
  }

  /**
   At most one charge per hold: a late settle stands only beside a RECLAIM, whose own figure
   is zero, so every charge of the hold is one observation; and the hold's reserved deltas
   add up to what it still holds.
   */
  lemma OneChargePerHold(w: World, base: World, h: HoldId)
    requires Inv(w, base)
    ensures Key(h, LateSettleCell) in w.ledger ==>
              HasTerminal(w, h, RECLAIM) && ChargedAt(w.ledger, h, TerminalCell) == 0
    ensures ChargedAt(w.ledger, h, TerminalCell) == 0 || Key(h, LateSettleCell) !in w.ledger
    ensures Key(h, ReserveCell) in w.ledger ==>
              ReservedAt(w.ledger, h, ReserveCell) + ReservedAt(w.ledger, h, TerminalCell)
              == if h in w.holds then w.holds[h] else 0
  {
    assert LocalOf(w, h).Ok();
  }

  /** Once a hold has its terminal, no transaction ends it again or charges it at the terminal again. */
  lemma TerminalIsFinal(w: World, base: World, t: Txn)
    requires Inv(w, base) && Key(Subject(t), TerminalCell) in w.ledger
    requires t.Settle? || t.Release? || t.Reclaim? || t.LegacySettle?
    ensures Next(w, t) == w
  {
  }

  /** The settle's legacy branch never commits: a recorded hold that is gone has its terminal. */
  lemma LegacyBranchIsDead(w: World, base: World, id: HoldId, actual: int)
    requires Inv(w, base) && Allowed(w, LegacySettle(id, actual))
    ensures Next(w, LegacySettle(id, actual)) == w
  {
    assert LocalOf(w, id).Ok();
  }

  /**
   A settle that lost to the reaper is charged exactly its figure, once: after any transactions
   by anybody the charge stands, and a second late settle at any figure changes nothing.
   */
  lemma LateSettleChargesOnce(w: World, id: HoldId, actual: int, between: seq<Txn>, again: int)
    requires HasTerminal(w, id, RECLAIM) && Key(id, LateSettleCell) !in w.ledger
    ensures var once := Next(w, LateSettle(id, actual));
            var later := Run(once, between);
            && once.settled == w.settled + actual && once.reserved == w.reserved && once.reclaimed == w.reclaimed
            && ChargedAt(later.ledger, id, LateSettleCell) == actual
            && HasTerminal(later, id, RECLAIM)
            && Next(later, LateSettle(id, again)) == later
  {
    var once := Next(w, LateSettle(id, actual));
    RowsAreForever(once, between, Key(id, LateSettleCell));
    RowsAreForever(once, between, Key(id, TerminalCell));
  }
}
