/** The accounting as the object that keeps it: one method per operation, fields changed in place. */
module BillingLedgers {
  import opened Options
  import opened Sums
  import opened BillingRules

  class BillingLedger {
    var limit: int
    var reserved: int
    var settled: int
    var reclaimed: int
    var headroom: int
    var live: map<HoldId, Hold>
    var state: map<HoldId, Status>
    var ids: HoldId

    function View(): Ledger
      reads this
    {
      Ledger(limit, reserved, settled, reclaimed, headroom, live, state, ids)
    }

    constructor (limit: int)
      ensures View() == Opened(limit)
    {
      this.limit, headroom := limit, limit;
      reserved, settled, reclaimed := 0, 0, 0;
      live, state, ids := map[], map[], 1;
    }

    method ReserveHold(amount: int) returns (answer: Answer, id: HoldId)
      modifies this
      ensures (View(), answer) == Reserve(old(View()), amount)
      ensures answer == Fine ==> id == old(ids)
    {
      id := ids;
      if amount < 1 {
        return BadAmount, id;
      }
      if reserved + settled + amount > limit {
        return LimitExceeded, id;
      }
      ids := ids + 1;
      reserved := reserved + amount;
      headroom := headroom - amount;
      live := live[id := Hold(amount, false)];
      state := state[id := Live];
      return Fine, id;
    }

    method SettleHold(id: HoldId, actual: int) returns (answer: Answer)
      modifies this
      ensures (View(), answer) == Settle(old(View()), id, actual)
    {
      if id !in live {
        return HoldNotFound;
      }
      if actual < 0 {
        return BadAmount;
      }
      var hold := live[id];
      reserved := reserved - hold.amount;
      settled := settled + actual;
      headroom := headroom + (hold.amount - actual);
      live := live - {id};
      state := state[id := Settled];
      return Fine;
    }

    method ReleaseHold(id: HoldId) returns (answer: Answer)
      modifies this
      ensures (View(), answer) == Release(old(View()), id)
    {
      if id !in live {
        return HoldNotFound;
      }
      var hold := live[id];
      reserved := reserved - hold.amount;
      headroom := headroom + hold.amount;
      live := live - {id};
      state := state[id := Released];
      return Fine;
    }

    method ExpireHold(id: HoldId) returns (answer: Answer)
      modifies this
      ensures (View(), answer) == ExpireLease(old(View()), id)
    {
      if id !in live {
        return HoldNotFound;
      }
      live := live[id := live[id].(expired := true)];
      return Fine;
    }

    method ReapHold(id: HoldId) returns (reclaimedAmount: Option<int>)
      modifies this
      ensures View() == Reap(old(View()), id)
      ensures reclaimedAmount == Lookup(Expired(old(View())), id)
    {
      if id !in live || !live[id].expired {
        return None;
      }
      var hold := live[id];
      reserved := reserved - hold.amount;
      reclaimed := reclaimed + hold.amount;
      headroom := headroom + hold.amount;
      live := live - {id};
      state := state[id := Reaped];
      return Some(hold.amount);
    }

    method ReapExpired() returns (reaped: map<HoldId, int>)
      requires Inv(View())
      modifies this
      ensures View() == ReapAll(old(View()))
      ensures reaped == Expired(old(View()))
    {
      ghost var before := View();
      reaped := map[];
      var todo := live.Keys;
      NoneReaped(before);
      while todo != {}
        invariant todo <= before.live.Keys
        invariant View() == ReapedBut(before, todo)
        invariant reaped == ReapedOutside(before, todo)
        decreases todo
      {
        var id :| id in todo;
        OneMoreReaped(before, todo, id);
        var amount := ReapHold(id);
        if amount.Some? {
          reaped := reaped[id := amount.value];
        }
        todo := todo - {id};
      }
      AllReaped(before);
    }

    method ChangeLimit(newLimit: int)
      modifies this
      ensures View() == SetLimit(old(View()), newLimit)
    {
      headroom := headroom + (newLimit - limit);
      limit := newLimit;
    }
  }
}
