/**
 The PENDING protocol's reference machine as pure steps: a single pool, its contended
 counter, and the write-ahead holds. `PendingLedger.dfy` holds the class whose methods
 are proved to take exactly these steps; `PendingRuns.dfy` proves what every run keeps.
 */
module PendingProtocol {
  import opened Sums

  type HoldId(!new, ==) = string

  datatype Status =
    | Pending
    | Active
    | Settled
    | Released
    | Expired            // ACTIVE expiry, credited
    | ExpiredUncredited  // PENDING fence, pool untouched
    | Reclaimed          // the reconciler recovered the leak
    | Failed             // definitive commit failure

  /** The terminals in which a reservation has been given back. */
  predicate CreditedBack(s: Status) {
    s.Settled? || s.Released? || s.Expired? || s.Reclaimed?
  }

  datatype Tick = NeverCommitted | CommittedAt(tick: int)

  datatype Hold = Hold(amount: int, status: Status, committed: Tick)

  /** How the environment lets the commit write end. */
  datatype Injection = Commit | Reject | AmbiguousApplied | AmbiguousLost

  /** What the client is told. The two ambiguous injections look the same. */
  datatype Reply = Noop | Committed | Rejected | Ambiguous

  datatype Insertion = Inserted | Duplicate | BadAmount

  datatype Return = Returned | NotApplicable | Oversell

  datatype State = State(
    limit: int,
    reserved: int,
    active: bool,
    holds: map<HoldId, Hold>,
    debited: map<HoldId, bool>,
    tick: int)
  {
    predicate Has(id: HoldId, status: Status) {
      id in holds && holds[id].status == status
    }

    predicate Marked(id: HoldId) {
      id in debited && debited[id]
    }

    function Headroom(): int {
      limit - reserved
    }

    function WithStatus(id: HoldId, status: Status): State
      requires id in holds
    {
      this.(holds := holds[id := holds[id].(status := status)])
    }

    /** Debit the pool and set the marker, in one write. */
    function Debit(id: HoldId): State
      requires id in holds
    {
      this.(reserved := reserved + holds[id].amount,
            debited := debited[id := true],
            holds := holds[id := holds[id].(committed := CommittedAt(tick))])
    }

    /** Credit the pool, clear the marker and end the hold, in one write. */
    function Credit(id: HoldId, status: Status): State
      requires id in holds
    {
      this.(reserved := reserved - holds[id].amount, debited := debited[id := false]).WithStatus(id, status)
    }
  }

  function Empty(limit: int, active: bool): State {
    State(limit, 0, active, map[], map[], 0)
  }

  // ----- the steps -----

  function PutPending(s: State, id: HoldId, amount: int): (State, Insertion) {
    if amount <= 0 then (s, BadAmount)
    else if id in s.holds then (s, Duplicate)
    else (s.(holds := s.holds[id := Hold(amount, Pending, NeverCommitted)],
             debited := s.debited[id := false]),
          Inserted)
  }

  /** Does the conditional write's condition hold? */
  predicate Fits(s: State, id: HoldId)
    requires id in s.holds
  {
    s.active && s.Headroom() >= s.holds[id].amount
  }

  function CommitDebit(s: State, id: HoldId, injection: Injection): (State, Reply) {
    if !s.Has(id, Pending) then (s, Noop)
    else if s.Marked(id) then (s, Committed)
    else if injection.AmbiguousLost? then (s, Ambiguous)
    else
      var applied := if Fits(s, id) then s.Debit(id) else s;
      (applied,
       if injection.AmbiguousApplied? then Ambiguous
       else if Fits(s, id) then Committed
       else Rejected)
  }

  /** A conditional status write: it does nothing unless the hold is still in `from`. */
  function Move(s: State, id: HoldId, from: Status, to: Status): State {
    if s.Has(id, from) then s.WithStatus(id, to) else s
  }

  function ReturnReservation(s: State, id: HoldId, terminal: Status): (State, Return) {
    if !s.Has(id, Pending) && !s.Has(id, Active) then (s, NotApplicable)
    else if !s.Marked(id) then (s, Oversell)
    else (s.Credit(id, terminal), Returned)
  }

  function ReapActive(s: State, id: HoldId): State {
    if s.Has(id, Active) then s.Credit(id, Expired) else s
  }

  // ----- leak recovery -----

  /** A hold leaks its amount while it is fenced and its marker is still present. */
  function LeakOf(s: State, id: HoldId): int
    requires id in s.holds
  {
    if s.Has(id, ExpiredUncredited) && s.Marked(id) then s.holds[id].amount else 0
  }

  ghost function Leaks(s: State): map<HoldId, int> {
    map id | id in s.holds :: LeakOf(s, id)
  }

  ghost function OutstandingLeak(s: State): int {
    Sum(Leaks(s))
  }

  function Retired(s: State, id: HoldId): Hold
    requires id in s.holds
  {
    if s.Has(id, ExpiredUncredited) then s.holds[id].(status := Reclaimed) else s.holds[id]
  }

  /** Every fenced hold is retired; the debited ones are credited back first. */
  ghost function Reconciled(s: State): State {
    s.(reserved := s.reserved - OutstandingLeak(s),
       debited := map id | id in s.debited :: s.debited[id] && !s.Has(id, ExpiredUncredited),
       holds := map id | id in s.holds :: Retired(s, id))
  }

  ghost predicate Quiescent(s: State) {
    && (forall id :: id in s.holds ==> s.holds[id].status != Pending)
    && OutstandingLeak(s) == 0
  }

  // ----- the no-oversell oracle -----

  /** A hold has its amount out while it is debited and not given back. */
  function OutOf(s: State, id: HoldId): int
    requires id in s.holds
  {
    if s.Marked(id) && !CreditedBack(s.holds[id].status) then s.holds[id].amount else 0
  }

  ghost function Outstanding(s: State): map<HoldId, int> {
    map id | id in s.holds :: OutOf(s, id)
  }

  /** The oracle's invariant: the counter equals what is debited and not given back. */
  ghost predicate I1(s: State) {
    s.reserved == Sum(Outstanding(s))
  }
}
