/**
 The transactional pool refines the accounting machine: each transaction on the row and
 its hold, and each ceiling write, is one step of `BillingRules` or no step at all.
 */
module PoolRefinement {
  import opened Options
  import PoolRows
  import PoolHistories
  import BillingRules

  type HoldId = BillingRules.HoldId

  datatype World = World(row: PoolRows.Row, holds: map<HoldId, BillingRules.Hold>,
                         state: map<HoldId, BillingRules.Status>, next: HoldId)

  /** One committed or refused transaction. A ceiling write is any write that only moves the ceiling. */
  datatype Txn =
    | TReserve(amount: int)
    | TSettle(id: HoldId, actual: int)
    | TRelease(id: HoldId)
    | TExpire(id: HoldId)
    | TReap(id: HoldId)
    | TCeiling(write: PoolRows.Write)

  predicate MovesOnlyTheCeiling(w: PoolRows.Write) {
    w.SetManual? || w.ClearManual? || w.SeatsOnly? || w.SeatsAndMoney? || w.GrantApply? || w.GrantRevoke? || w.Recompute?
  }

  function OnRow(w: World, write: PoolRows.Write, configured: int): World {
    w.(row := PoolRows.Apply(Some(w.row), write, configured).value)
  }

  /** The hold and its share of the row end in one transaction, or neither does. */
  function Ended(w: World, id: HoldId, write: PoolRows.Write, status: BillingRules.Status, configured: int): World {
    OnRow(w, write, configured).(holds := w.holds - {id}, state := w.state[id := status])
  }

  function Next(w: World, t: Txn, configured: int): World {
    match t
    case TReserve(amount) =>
      if !PoolRows.Lands(Some(w.row), PoolRows.Reserve(amount)) then w
      else OnRow(w, PoolRows.Reserve(amount), configured).(
           holds := w.holds[w.next := BillingRules.Hold(amount, false)],
           state := w.state[w.next := BillingRules.Live], next := w.next + 1)
    case TSettle(id, actual) =>
      if id !in w.holds then w
      else Ended(w, id, PoolRows.Settle(w.holds[id].amount, actual), BillingRules.Settled, configured)
    case TRelease(id) =>
      if id !in w.holds then w
      else Ended(w, id, PoolRows.Settle(w.holds[id].amount, 0), BillingRules.Released, configured)
    case TExpire(id) =>
      if id !in w.holds then w else w.(holds := w.holds[id := w.holds[id].(expired := true)])
    case TReap(id) =>
      if id !in w.holds || !w.holds[id].expired then w
      else Ended(w, id, PoolRows.Reclaim(w.holds[id].amount), BillingRules.Reaped, configured)
    case TCeiling(write) => OnRow(w, write, configured)
  }

  function Run(w: World, ts: seq<Txn>, configured: int): World
    decreases |ts|
  {
    if ts == [] then w else Next(Run(w, ts[..|ts| - 1], configured), ts[|ts| - 1], configured)
  }

  /** What the row's counters and its holds say, as the accounting machine would. */
  function Abstract(w: World): BillingRules.Ledger {
    BillingRules.Ledger(w.row.limit, w.row.reserved, w.row.settled, w.row.reclaimed,
                        PoolRows.Or0(w.row.headroom), w.holds, w.state, w.next)
  }

  /** The step a transaction simulates; a refused reserve or an ended hold simulates none. */
  function Simulates(w: World, t: Txn, configured: int): Option<BillingRules.Action> {
    match t
    case TReserve(amount) =>
      if PoolRows.Lands(Some(w.row), PoolRows.Reserve(amount)) then Some(BillingRules.AReserve(amount)) else None
    case TSettle(id, actual) => Some(BillingRules.ASettle(id, actual))
    case TRelease(id) => Some(BillingRules.ARelease(id))
    case TExpire(id) => Some(BillingRules.AExpire(id))
    case TReap(id) => Some(BillingRules.AReap(id))
    case TCeiling(write) => Some(BillingRules.ASetLimit(Next(w, t, configured).row.limit))
  }

  /** What callers promise: a positive reservation, a non-negative spend, and only ceiling writes as such. */
  predicate Allowed(t: Txn) {
    match t
    case TReserve(amount) => amount >= 1
    case TSettle(_, actual) => actual >= 0
    case TCeiling(write) => MovesOnlyTheCeiling(write)
    case _ => true
  }

  lemma CeilingWriteKeepsExact(r: PoolRows.Row, write: PoolRows.Write, configured: int)
    requires PoolHistories.Exact(Some(r)) && MovesOnlyTheCeiling(write)
    ensures var after := PoolRows.Apply(Some(r), write, configured);
            && after.Some? && PoolHistories.Exact(after)
            && after.value.reserved == r.reserved && after.value.settled == r.settled
            && after.value.reclaimed == r.reclaimed
  {
  }

  lemma StepRefines(w: World, t: Txn, configured: int)
    requires PoolHistories.Exact(Some(w.row)) && Allowed(t)
    ensures PoolHistories.Exact(Some(Next(w, t, configured).row))
    ensures var step := Simulates(w, t, configured);
            Abstract(Next(w, t, configured)) == if step.Some? then BillingRules.Next(Abstract(w), step.value) else Abstract(w)
  {
    if t.TCeiling? {
      CeilingWriteKeepsExact(w.row, t.write, configured);
    }
  }

  /** The row's gate and the machine's ceiling check agree, except that a suspended pool admits nothing. */
  lemma SameAdmission(w: World, amount: int)
    requires PoolHistories.Exact(Some(w.row)) && amount >= 1
    ensures PoolRows.Lands(Some(w.row), PoolRows.Reserve(amount)) <==>
            w.row.active && BillingRules.Reserve(Abstract(w), amount).1 == BillingRules.Fine
  {
  }

  /** Every run of transactions is, seen through its counters, a run of the accounting machine. */
  lemma {:induction false} RunRefines(w: World, ts: seq<Txn>, configured: int) returns (actions: seq<BillingRules.Action>)
    requires PoolHistories.Exact(Some(w.row))
    requires forall t | t in ts :: Allowed(t)
    ensures PoolHistories.Exact(Some(Run(w, ts, configured).row))
    ensures Abstract(Run(w, ts, configured)) == BillingRules.Run(Abstract(w), actions)
    decreases |ts|
  {
    if ts == [] {
      actions := [];
    } else {
      var n := |ts| - 1;
      actions := RunRefines(w, ts[..n], configured);
      var before := Run(w, ts[..n], configured);
      StepRefines(before, ts[n], configured);
      var step := Simulates(before, ts[n], configured);
      if step.Some? {
        var longer := actions + [step.value];
        assert longer[..|longer| - 1] == actions;
        actions := longer;
      }
    }
  }

  /** So `reserved` on the row is the sum of its open holds, and every hold ends at most once. */
  lemma RowCountsItsHolds(w: World, ts: seq<Txn>, configured: int)
    requires PoolHistories.Exact(Some(w.row)) && BillingRules.Inv(Abstract(w))
    requires forall t | t in ts :: Allowed(t)
    ensures BillingRules.Inv(Abstract(Run(w, ts, configured)))
    ensures forall id | id in w.state && w.state[id] != BillingRules.Live ::
              && id in Run(w, ts, configured).state && Run(w, ts, configured).state[id] == w.state[id]
              && id !in Run(w, ts, configured).holds
  {
    var actions := RunRefines(w, ts, configured);
    BillingRules.OvershootIsBounded(Abstract(w), actions);
    forall id | id in w.state && w.state[id] != BillingRules.Live
      ensures id in Run(w, ts, configured).state && Run(w, ts, configured).state[id] == w.state[id] && id !in Run(w, ts, configured).holds
    {
      BillingRules.EndedStaysEnded(Abstract(w), actions, id);
    }
  }

  /** The pool as its row is seeded: no holds. */
  function Opened(seed: PoolRows.Write): World
    requires seed.Seed?
  {
    World(PoolRows.Seeded(seed), map[], map[], 1)
  }

  lemma OpenedIsOpened(seed: PoolRows.Write)
    requires seed.Seed?
    ensures PoolHistories.Exact(Some(Opened(seed).row))
    ensures Abstract(Opened(seed)) == BillingRules.Opened(PoolRows.Seeded(seed).limit)
    ensures BillingRules.Inv(Abstract(Opened(seed)))
  {
    BillingRules.RunKeepsInv(PoolRows.Seeded(seed).limit, []);
  }

  /**
   From the seed, over any run: the row's reserved counter is the sum of its open holds, and
   the row is over its limit by at most the overruns and lowerings since the last reserve that
   the machine's matching run admitted.
   */
  lemma SeededPoolKeepsItsPromises(seed: PoolRows.Write, ts: seq<Txn>, configured: int) returns (actions: seq<BillingRules.Action>)
    requires seed.Seed? && forall t | t in ts :: Allowed(t)
    ensures var start, end := BillingRules.Opened(PoolRows.Seeded(seed).limit), Abstract(Run(Opened(seed), ts, configured));
            && end == BillingRules.Run(start, actions)
            && BillingRules.Inv(end)
            && BillingRules.Over(end) <= BillingRules.ExcessSinceReserve(start, actions)
  {
    OpenedIsOpened(seed);
    actions := RunRefines(Opened(seed), ts, configured);
    BillingRules.OvershootIsBounded(Abstract(Opened(seed)), actions);
  }
}
