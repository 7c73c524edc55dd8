/**
 The shipped PENDING protocol's stored items for one tenant and period: the pool row,
 one HOLD row and one MARKER item per reservation, and the conditional writes on them.
 Each function is one atomic write or one multi-item transaction; a write whose condition
 fails leaves the store as it was.
 */
module MarkerItems {
  type HoldId(!new, ==) = string

  datatype Pool = Pool(limit: int, headroom: int, reserved: int, settled: int, active: bool)

  /** `NoStatus` is a transactional hold: the attribute is absent and reads as ACTIVE. */
  datatype RowStatus = NoStatus | PENDING | ACTIVE | RETAINED | EXPIRED_UNCREDITED | RECLAIMED | FAILED

  datatype HoldRow = HoldRow(amount: int, status: RowStatus)

  datatype Phase = RESERVED | SETTLED

  datatype Marker = Marker(amount: int, phase: Phase)

  datatype CommitOutcome = Applied | Already | Exhausted

  datatype Store = Store(pool: Pool, rows: map<HoldId, HoldRow>, markers: map<HoldId, Marker>)
  {
    predicate RowIs(id: HoldId, status: RowStatus) {
      id in rows && rows[id].status == status
    }

    predicate MarkerIs(id: HoldId, phase: Phase) {
      id in markers && markers[id].phase == phase
    }

    predicate Admits(amount: int) {
      pool.active && pool.headroom >= amount
    }
  }

  /** Move `amount` out of headroom and into reserved. */
  function Debited(p: Pool, amount: int): Pool {
    p.(headroom := p.headroom - amount, reserved := p.reserved + amount)
  }

  /** Give a reservation back and record `actual` spend: the settle arithmetic. */
  function Returned(p: Pool, amount: int, actual: int): Pool {
    p.(reserved := p.reserved - amount,
       settled := p.settled + actual,
       headroom := p.headroom + (amount - actual))
  }

  function PutRow(s: Store, id: HoldId, amount: int, status: RowStatus): (Store, bool) {
    if id in s.rows then (s, false)
    else (s.(rows := s.rows[id := HoldRow(amount, status)]), true)
  }

  /** The transactional reserve: pool debit and hold put, together or not at all. */
  function ReserveTxn(s: Store, id: HoldId, amount: int): (Store, bool) {
    if id in s.rows || !s.Admits(amount) then (s, false)
    else (PutRow(s, id, amount, NoStatus).0.(pool := Debited(s.pool, amount)), true)
  }

  /**
   The commit point: pool debit and marker put. A marker already there wins over an
   exhausted pool, and the hold row's status is not part of the condition.
   */
  function CommitTxn(s: Store, id: HoldId, amount: int): (Store, CommitOutcome) {
    if id in s.markers then (s, Already)
    else if !s.Admits(amount) then (s, Exhausted)
    else (s.(pool := Debited(s.pool, amount), markers := s.markers[id := Marker(amount, RESERVED)]), Applied)
  }

  function Transition(s: Store, id: HoldId, from: RowStatus, to: RowStatus): (Store, bool) {
    if s.RowIs(id, from) then (s.(rows := s.rows[id := s.rows[id].(status := to)]), true)
    else (s, false)
  }

  /** ACTIVE, or the implicit ACTIVE of a row without a status, becomes RETAINED. */
  function Retain(s: Store, id: HoldId): (Store, bool) {
    if s.RowIs(id, ACTIVE) then Transition(s, id, ACTIVE, RETAINED)
    else Transition(s, id, NoStatus, RETAINED)
  }

  /** The statuses a settle or release may end. */
  predicate Endable(s: Store, id: HoldId) {
    s.RowIs(id, ACTIVE) || s.RowIs(id, RETAINED) || s.RowIs(id, NoStatus)
  }

  /** The statuses the reaper may end: a retention is not its to give back. */
  predicate Reclaimable(s: Store, id: HoldId) {
    s.RowIs(id, ACTIVE) || s.RowIs(id, NoStatus)
  }

  function EndTxn(s: Store, id: HoldId, amount: int, actual: int): (Store, bool) {
    if Endable(s, id) then
      (s.(pool := Returned(s.pool, amount, actual), rows := s.rows - {id}), true)
    else (s, false)
  }

  function ReclaimTxn(s: Store, id: HoldId, amount: int): (Store, bool) {
    if Reclaimable(s, id) then
      (s.(pool := Returned(s.pool, amount, 0), rows := s.rows - {id}), true)
    else (s, false)
  }

  function SettleMarker(s: Store, id: HoldId): Store {
    if s.MarkerIs(id, RESERVED) then s.(markers := s.markers[id := s.markers[id].(phase := SETTLED)]) else s
  }

  /** Exactly-once credit-back: the marker's phase is the only condition. */
  function CreditBackTxn(s: Store, id: HoldId, amount: int): (Store, bool) {
    if s.MarkerIs(id, RESERVED) then
      (SettleMarker(s, id).(pool := Returned(s.pool, amount, 0)), true)
    else (s, false)
  }

  /** Any one conditional write another process may land. */
  datatype Write =
    | WReserve(id: HoldId, amount: int)
    | WPutPending(id: HoldId, amount: int)
    | WCommit(id: HoldId, amount: int)
    | WTransition(id: HoldId, from: RowStatus, to: RowStatus)
    | WRetain(id: HoldId)
    | WEnd(id: HoldId, amount: int, actual: int)
    | WReclaim(id: HoldId, amount: int)
    | WSettleMarker(id: HoldId)
    | WCreditBack(id: HoldId, amount: int)
    | WSpend(actual: int)
    | WAdjustLimit(delta: int)

  function Apply(s: Store, w: Write): Store {
    match w
    case WReserve(id, amount) => ReserveTxn(s, id, amount).0
    case WPutPending(id, amount) => PutRow(s, id, amount, PENDING).0
    case WCommit(id, amount) => CommitTxn(s, id, amount).0
    case WTransition(id, from, to) => Transition(s, id, from, to).0
    case WRetain(id) => Retain(s, id).0
    case WEnd(id, amount, actual) => EndTxn(s, id, amount, actual).0
    case WReclaim(id, amount) => ReclaimTxn(s, id, amount).0
    case WSettleMarker(id) => SettleMarker(s, id)
    case WCreditBack(id, amount) => CreditBackTxn(s, id, amount).0
    case WSpend(actual) => s.(pool := Returned(s.pool, 0, actual))
    case WAdjustLimit(delta) =>
      s.(pool := s.pool.(limit := s.pool.limit + delta, headroom := s.pool.headroom + delta))
  }

  function ApplyAll(s: Store, ws: seq<Write>): Store
    decreases |ws|
  {
    if ws == [] then s else ApplyAll(Apply(s, ws[0]), ws[1..])
  }
}
