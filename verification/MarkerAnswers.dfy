/**
 What each write of the shipped PENDING protocol does and answers in any world a run can
 reach, said of the counters, the statuses and the ceiling rule alone; and how far a pool can
 be over its limit.
 */
module MarkerAnswers {
  import opened Options
  import opened Sums
  import opened MarkerItems
  import opened MarkerRuns

  /** The ceiling rule: what is reserved and spent, with this amount, is within the limit of an active pool. */
  predicate Fits(p: Pool, amount: int) {
    p.active && p.reserved + p.settled + amount <= p.limit
  }

  function AddedTo(p: Pool, reserved: int, settled: int): Pool {
    p.(reserved := p.reserved + reserved, settled := p.settled + settled, headroom := p.headroom - reserved - settled)
  }

  // ---- admission ----

  /**
   The commit point in every reachable world: a marker already there answers `Already`, a full
   or suspended pool `Exhausted`, and it debits if and only if there is no marker and the
   amount fits.
   */
  lemma CommitAnswers(limit: int, active: bool, steps: seq<Step>, w: World, id: HoldId)
    requires Reaches(Start(limit, active), steps, w) && Enabled(w, Commit(id))
    ensures var amount, p, next := w.minted[id].amount, w.store.pool, Next(w, Commit(id));
            var answer := CommitTxn(w.store, id, amount).1;
            var debits := id !in w.store.markers && Fits(p, amount);
            && (answer == Already <==> id in w.store.markers)
            && (answer == Exhausted <==> id !in w.store.markers && !Fits(p, amount))
            && (answer == Applied <==> debits)
            && ValueOr0(next.added, id) == ValueOr0(w.added, id) + (if debits then 1 else 0)
            && next.store == if debits then Store(AddedTo(p, amount, 0), w.store.rows, w.store.markers[id := Marker(amount, RESERVED)])
                             else w.store
  {
    StartInv(limit, active);
    RunKeepsInv(Start(limit, active), steps, w);
  }

  /** The transactional reserve: it debits and puts its hold if and only if the amount fits. */
  lemma ReserveAnswers(limit: int, active: bool, steps: seq<Step>, w: World, id: HoldId, amount: int)
    requires Reaches(Start(limit, active), steps, w) && Enabled(w, Reserve(id, amount))
    ensures var p, next, ok := w.store.pool, Next(w, Reserve(id, amount)), ReserveTxn(w.store, id, amount).1;
            && (ok <==> Fits(p, amount))
            && ValueOr0(next.added, id) == ValueOr0(w.added, id) + (if Fits(p, amount) then 1 else 0)
            && next.store == if Fits(p, amount) then Store(AddedTo(p, amount, 0), w.store.rows[id := HoldRow(amount, NoStatus)], w.store.markers)
                             else w.store
  {
    StartInv(limit, active);
    RunKeepsInv(Start(limit, active), steps, w);
    assert LocalOf(w, id).Consistent();
  }

  // ---- statuses ----

  /** The status a hold of status `from` has after a step about it; `None` when the row is gone. */
  function StatusAfter(from: RowStatus, step: Step): Option<RowStatus> {
    match step
    case Activate(_) => Some(if from == PENDING then ACTIVE else from)
    case Fence(_) => Some(if from == PENDING then EXPIRED_UNCREDITED else from)
    case MarkFailed(_) => Some(if from == PENDING then FAILED else from)
    case Retain(_) => Some(if from in {ACTIVE, NoStatus} then RETAINED else from)
    case End(_, _) => if from in {ACTIVE, NoStatus, RETAINED} then None else Some(from)
    case Reclaim(_) => if from in {ACTIVE, NoStatus} then None else Some(from)
    case Retire(_) => Some(if from == EXPIRED_UNCREDITED then RECLAIMED else from)
    case _ => Some(from)
  }

  /** That table on one row: a step keeps the hold's amount, and only a reserve or a put makes a row. */
  predicate RowFollows(was: Option<HoldRow>, now: Option<HoldRow>, step: Step) {
    match was
    case None => !step.Reserve? && !step.PutPending? ==> now.None?
    case Some(row) =>
      var after := StatusAfter(row.status, step);
      now == if after.None? then None else Some(HoldRow(row.amount, after.value))
  }

  predicate Ends(step: Step) {
    step.End? || step.Reclaim? || step.CreditBack?
  }

  lemma OpeningFollows(w: World, step: Step)
    requires Enabled(w, step) && Opens(step) && LocalOf(w, Subject(w, step)).Consistent()
    ensures RowFollows(Lookup(w.store.rows, Subject(w, step)), Lookup(Next(w, step).store.rows, Subject(w, step)), step)
  {
  }

  lemma EndingFollows(w: World, step: Step)
    requires Enabled(w, step) && Ends(step)
    ensures RowFollows(Lookup(w.store.rows, Subject(w, step)), Lookup(Next(w, step).store.rows, Subject(w, step)), step)
  {
  }

  lemma MovingFollows(w: World, step: Step)
    requires Enabled(w, step) && !Opens(step) && !Ends(step)
    ensures RowFollows(Lookup(w.store.rows, Subject(w, step)), Lookup(Next(w, step).store.rows, Subject(w, step)), step)
    ensures Next(w, step).added == w.added
    ensures !step.Spend? && !step.AdjustLimit? ==> Next(w, step).store.pool == w.store.pool
  {
  }

  /** Every step moves the status of its hold by the table. */
  lemma StatusFollows(w: World, step: Step)
    requires Inv(w) && Enabled(w, step)
    ensures RowFollows(Lookup(w.store.rows, Subject(w, step)), Lookup(Next(w, step).store.rows, Subject(w, step)), step)
  {
    if Opens(step) {
      assert LocalOf(w, Subject(w, step)).Consistent();
      OpeningFollows(w, step);
    } else if Ends(step) {
      EndingFollows(w, step);
    } else {
      MovingFollows(w, step);
    }
  }

  /** A settle or release ends a hold with its amount and its spend if and only if it is ACTIVE, RETAINED or has no status. */
  lemma EndsIff(w: World, id: HoldId, actual: int)
    ensures var next := Next(w, End(id, actual));
            if id in w.store.rows && w.store.rows[id].status in {ACTIVE, RETAINED, NoStatus} then
              && next.store == Store(AddedTo(w.store.pool, -w.store.rows[id].amount, actual), w.store.rows - {id}, w.store.markers)
              && ValueOr0(next.returned, id) == ValueOr0(w.returned, id) + 1
            else next == w
  {
  }

  /** The transactions that end a hold move what their caller passes, under the same two conditions. */
  lemma EndingTransactions(s: Store, id: HoldId, amount: int, actual: int)
    ensures EndTxn(s, id, amount, actual) ==
              if id in s.rows && s.rows[id].status in {ACTIVE, RETAINED, NoStatus}
              then (Store(AddedTo(s.pool, -amount, actual), s.rows - {id}, s.markers), true) else (s, false)
    ensures ReclaimTxn(s, id, amount) ==
              if id in s.rows && s.rows[id].status in {ACTIVE, NoStatus}
              then (Store(AddedTo(s.pool, -amount, 0), s.rows - {id}, s.markers), true) else (s, false)
  {
  }

  /** The reaper takes only an ACTIVE hold or one with no status: never a retained one. */
  lemma ReclaimsIff(w: World, id: HoldId)
    ensures var next := Next(w, Reclaim(id));
            if id in w.store.rows && w.store.rows[id].status in {ACTIVE, NoStatus} then
              && next.store == Store(AddedTo(w.store.pool, -w.store.rows[id].amount, 0), w.store.rows - {id}, w.store.markers)
              && ValueOr0(next.returned, id) == ValueOr0(w.returned, id) + 1
            else next == w
  {
  }

  lemma TicketIsOwned(w: World, worker: nat)
    requires Inv(w) && Enabled(w, CreditBack(worker))
    ensures var t := w.tickets[worker];
            && t.id in w.minted && t.amount == w.minted[t.id].amount
            && (t.id in w.store.markers ==> w.store.markers[t.id].amount == t.amount)
  {
    assert LocalOf(w, w.tickets[worker].id).Honours(w.tickets[worker]);
    assert LocalOf(w, w.tickets[worker].id).Consistent();
  }

  /** A reconciler's credit-back returns exactly what was minted, if and only if the marker is still RESERVED, and settles it. */
  lemma CreditsBackIff(w: World, worker: nat)
    requires Inv(w) && Enabled(w, CreditBack(worker))
    ensures var id, next := w.tickets[worker].id, Next(w, CreditBack(worker));
            id in w.minted &&
            if id in w.store.markers && w.store.markers[id].phase == RESERVED then
              && next.store == Store(AddedTo(w.store.pool, -w.minted[id].amount, 0), w.store.rows,
                                     w.store.markers[id := Marker(w.minted[id].amount, SETTLED)])
              && ValueOr0(next.returned, id) == ValueOr0(w.returned, id) + 1
            else next.store == w.store && next.returned == w.returned
  {
    TicketIsOwned(w, worker);
  }

  // ---- no oversell ----

  /** How far the pool is over its limit. */
  function Over(p: Pool): int {
    p.reserved + p.settled - p.limit
  }

  function Positive(d: int): int {
    if d > 0 then d else 0
  }

  /** What a step may put the pool over by: spend beyond a hold, spend without one, a lowered limit. */
  function Excess(w: World, step: Step): int {
    match step
    case End(id, actual) =>
      if id in w.store.rows && w.store.rows[id].status in {ACTIVE, RETAINED, NoStatus} then Positive(actual - w.store.rows[id].amount) else 0
    case Spend(actual) => Positive(actual)
    case AdjustLimit(delta) => Positive(-delta)
    case _ => 0
  }

  /** The step took an amount out of the pool. */
  predicate Admitted(w: World, step: Step)
    requires Enabled(w, step)
  {
    ValueOr0(Next(w, step).added, Subject(w, step)) > ValueOr0(w.added, Subject(w, step))
  }

  ghost predicate BoundedStep(w: World, step: Step)
    requires Enabled(w, step)
  {
    var after := Over(Next(w, step).store.pool);
    if Admitted(w, step) then after <= 0 else after <= Over(w.store.pool) + Excess(w, step)
  }

  lemma OpeningOvershoots(w: World, step: Step)
    requires Sound(w.store.pool) && Enabled(w, step) && Opens(step)
    ensures BoundedStep(w, step)
  {
  }

  lemma EndingOvershoots(w: World, step: Step)
    requires Inv(w) && Enabled(w, step) && Ends(step)
    ensures BoundedStep(w, step)
  {
    var id := Subject(w, step);
    assert LocalOf(w, id).Consistent();
    if step.CreditBack? {
      CreditsBackIff(w, step.worker);
    } else if step.End? {
      EndsIff(w, id, step.actual);
    } else {
      ReclaimsIff(w, id);
    }
  }

  lemma MovingOvershoots(w: World, step: Step)
    requires Enabled(w, step) && !Opens(step) && !Ends(step)
    ensures BoundedStep(w, step)
  {
    MovingFollows(w, step);
  }

  lemma StepOvershoots(w: World, step: Step)
    requires Inv(w) && Enabled(w, step)
    ensures BoundedStep(w, step)
  {
    if Opens(step) {
      OpeningOvershoots(w, step);
    } else if Ends(step) {
      EndingOvershoots(w, step);
    } else {
      MovingOvershoots(w, step);
    }
  }

  /** The excess since the last admission, on top of `sofar` if there is none. */
  ghost function ExcessSince(w: World, steps: seq<Step>, sofar: int): int
    decreases |steps|
  {
    if steps == [] || !Enabled(w, steps[0]) then sofar
    else ExcessSince(Next(w, steps[0]), steps[1..], if Admitted(w, steps[0]) then 0 else sofar + Excess(w, steps[0]))
  }

  /** Every reserve and every commit sees to it that the pool is within its limit; after it only excess can take it over. */
  lemma {:induction false} OvershootIsBounded(w: World, steps: seq<Step>, end: World, sofar: int)
    requires Inv(w) && Reaches(w, steps, end) && Over(w.store.pool) <= sofar
    ensures Over(end.store.pool) <= ExcessSince(w, steps, sofar)
    decreases |steps|
  {
    if steps != [] {
      StepOvershoots(w, steps[0]);
      StepKeepsInv(w, steps[0]);
      OvershootIsBounded(Next(w, steps[0]), steps[1..], end, if Admitted(w, steps[0]) then 0 else sofar + Excess(w, steps[0]));
    }
  }

  /** No settle exceeds its hold, nothing is spent without one, and the limit is never lowered. */
  ghost predicate Frugal(w: World, steps: seq<Step>)
    decreases |steps|
  {
    steps == [] || (Enabled(w, steps[0]) && Excess(w, steps[0]) == 0 && Frugal(Next(w, steps[0]), steps[1..]))
  }

  lemma {:induction false} FrugalHasNoExcess(w: World, steps: seq<Step>)
    requires Frugal(w, steps)
    ensures ExcessSince(w, steps, 0) == 0
    decreases |steps|
  {
    if steps != [] {
      FrugalHasNoExcess(Next(w, steps[0]), steps[1..]);
    }
  }

  /** No oversell: over every interleaving of such steps, what is reserved and spent is within the limit. */
  lemma NoOversell(limit: int, active: bool, steps: seq<Step>, w: World)
    requires limit >= 0 && Reaches(Start(limit, active), steps, w) && Frugal(Start(limit, active), steps)
    ensures 0 <= w.store.pool.reserved && w.store.pool.reserved + w.store.pool.settled <= w.store.pool.limit
  {
    StartInv(limit, active);
    OvershootIsBounded(Start(limit, active), steps, w, 0);
    FrugalHasNoExcess(Start(limit, active), steps);
    MovesAtMostOnce(limit, active, steps, w);
  }
}
