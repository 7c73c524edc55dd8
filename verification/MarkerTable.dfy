/** The table as the mutable store the repository's methods write, one write at a time. */
module MarkerTable {
  import opened MarkerItems

  class BudgetTable {
    var pool: Pool
    var rows: map<HoldId, HoldRow>
    var markers: map<HoldId, Marker>

    function View(): Store
      reads this
    {
      Store(pool, rows, markers)
    }

    constructor (limit: int, active: bool)
      ensures View() == Store(Pool(limit, limit, 0, 0, active), map[], map[])
    {
      pool := Pool(limit, limit, 0, 0, active);
      rows, markers := map[], map[];
    }

    method AddToPool(headroom: int, reserved: int, settled: int)
      modifies this`pool
      ensures pool == old(pool).(headroom := old(pool).headroom + headroom,
                                 reserved := old(pool).reserved + reserved,
                                 settled := old(pool).settled + settled)
    {
      pool := pool.(headroom := pool.headroom + headroom,
                    reserved := pool.reserved + reserved,
                    settled := pool.settled + settled);
    }

    method PutHold(id: HoldId, amount: int, status: RowStatus) returns (ok: bool)
      modifies this`rows
      ensures (View(), ok) == PutRow(old(View()), id, amount, status)
    {
      ok := id !in rows;
      if ok {
        rows := rows[id := HoldRow(amount, status)];
      }
    }

    method Reserve(id: HoldId, amount: int) returns (ok: bool)
      modifies this
      ensures (View(), ok) == ReserveTxn(old(View()), id, amount)
    {
      ok := id !in rows && pool.active && pool.headroom >= amount;
      if ok {
        AddToPool(-amount, amount, 0);
        rows := rows[id := HoldRow(amount, NoStatus)];
      }
    }

    method ReserveCommit(id: HoldId, amount: int) returns (outcome: CommitOutcome)
      modifies this
      ensures (View(), outcome) == CommitTxn(old(View()), id, amount)
    {
      if id in markers {
        return Already;
      }
      if !pool.active || pool.headroom < amount {
        return Exhausted;
      }
      AddToPool(-amount, amount, 0);
      markers := markers[id := Marker(amount, RESERVED)];
      return Applied;
    }

    method StatusTransition(id: HoldId, from: RowStatus, to: RowStatus) returns (ok: bool)
      modifies this`rows
      ensures (View(), ok) == Transition(old(View()), id, from, to)
    {
      ok := id in rows && rows[id].status == from;
      if ok {
        rows := rows[id := rows[id].(status := to)];
      }
    }

    method HoldActivate(id: HoldId) returns (ok: bool)
      modifies this`rows
      ensures (View(), ok) == Transition(old(View()), id, PENDING, ACTIVE)
    {
      ok := StatusTransition(id, PENDING, ACTIVE);
    }

    method FencePendingExpired(id: HoldId) returns (ok: bool)
      modifies this`rows
      ensures (View(), ok) == Transition(old(View()), id, PENDING, EXPIRED_UNCREDITED)
    {
      ok := StatusTransition(id, PENDING, EXPIRED_UNCREDITED);
    }

    method RetireReclaimed(id: HoldId)
      modifies this`rows
      ensures View() == Transition(old(View()), id, EXPIRED_UNCREDITED, RECLAIMED).0
    {
      var _ := StatusTransition(id, EXPIRED_UNCREDITED, RECLAIMED);
    }

    method HoldRetain(id: HoldId) returns (ok: bool)
      modifies this`rows
      ensures (View(), ok) == MarkerItems.Retain(old(View()), id)
    {
      ok := id in rows && (rows[id].status == ACTIVE || rows[id].status == NoStatus);
      if ok {
        rows := rows[id := rows[id].(status := RETAINED)];
      }
    }

    /** Settle or release: the hold and its share of the aggregate vanish together. */
    method EndReservation(id: HoldId, amount: int, actual: int) returns (ok: bool)
      modifies this
      ensures (View(), ok) == EndTxn(old(View()), id, amount, actual)
    {
      ok := id in rows
        && (rows[id].status == ACTIVE || rows[id].status == RETAINED || rows[id].status == NoStatus);
      if ok {
        AddToPool(amount - actual, -amount, actual);
        rows := rows - {id};
      }
    }

    method ReclaimHold(id: HoldId, amount: int) returns (ok: bool)
      modifies this
      ensures (View(), ok) == ReclaimTxn(old(View()), id, amount)
    {
      ok := id in rows && (rows[id].status == ACTIVE || rows[id].status == NoStatus);
      if ok {
        AddToPool(amount, -amount, 0);
        rows := rows - {id};
      }
    }

    method MarkerSettleBestEffort(id: HoldId)
      modifies this`markers
      ensures View() == SettleMarker(old(View()), id)
    {
      if id in markers && markers[id].phase == RESERVED {
        markers := markers[id := markers[id].(phase := SETTLED)];
      }
    }

    method CreditBackTransaction(id: HoldId, amount: int) returns (ok: bool)
      modifies this
      ensures (View(), ok) == CreditBackTxn(old(View()), id, amount)
    {
      ok := id in markers && markers[id].phase == RESERVED;
      if ok {
        AddToPool(amount, -amount, 0);
        markers := markers[id := markers[id].(phase := SETTLED)];
      }
    }

    /** One write by another process. */
    method Land(w: Write)
      modifies this
      ensures View() == Apply(old(View()), w)
    {
      match w {
        case WReserve(id, amount) => var _ := Reserve(id, amount);
        case WPutPending(id, amount) => var _ := PutHold(id, amount, PENDING);
        case WCommit(id, amount) => var _ := ReserveCommit(id, amount);
        case WTransition(id, from, to) => var _ := StatusTransition(id, from, to);
        case WRetain(id) => var _ := HoldRetain(id);
        case WEnd(id, amount, actual) => var _ := EndReservation(id, amount, actual);
        case WReclaim(id, amount) => var _ := ReclaimHold(id, amount);
        case WSettleMarker(id) => MarkerSettleBestEffort(id);
        case WCreditBack(id, amount) => var _ := CreditBackTransaction(id, amount);
        case WSpend(actual) => AddToPool(-actual, 0, actual);
        case WAdjustLimit(delta) =>
          pool := pool.(limit := pool.limit + delta, headroom := pool.headroom + delta);
      }
    }

    method LandAll(ws: seq<Write>)
      modifies this
      ensures View() == ApplyAll(old(View()), ws)
    {
      ghost var before := View();
      for i := 0 to |ws|
        invariant ApplyAll(View(), ws[i..]) == ApplyAll(before, ws)
      {
        assert ws[i..][0] == ws[i] && ws[i..][1..] == ws[i + 1..];
        Land(ws[i]);
      }
    }

    /**
     The credit-back: a marker read, then the transaction, with `between` landing in the
     gap. It credits the amount the read saw, once, if the marker is still RESERVED then.
     */
    method PoolCreditBack(id: HoldId, between: seq<Write>) returns (credited: bool)
      modifies this
      ensures !old(View()).MarkerIs(id, RESERVED) ==> View() == old(View()) && !credited
      ensures old(View()).MarkerIs(id, RESERVED) ==>
                (View(), credited) == CreditBackTxn(ApplyAll(old(View()), between), id, old(markers[id].amount))
    {
      if id !in markers || markers[id].phase != RESERVED {
        return false;
      }
      var amount := markers[id].amount;
      LandAll(between);
      credited := CreditBackTransaction(id, amount);
    }
  }
}
