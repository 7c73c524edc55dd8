/** The reference ledger as the mutable object the source makes it. */
module PendingLedgers {
  import opened Sums
  import opened PendingProtocol

  class PendingLedger {
    var limit: int
    var poolReserved: int
    var active: bool
    var holds: map<HoldId, Hold>
    var debited: map<HoldId, bool>
    var tick: int

    function View(): State
      reads this
    {
      State(limit, poolReserved, active, holds, debited, tick)
    }

    constructor (limit: int, active: bool)
      ensures View() == Empty(limit, active)
    {
      this.limit, this.active := limit, active;
      poolReserved, tick := 0, 0;
      holds, debited := map[], map[];
    }

    method AdvanceTime(ticks: int)
      modifies this
      ensures View() == old(View()).(tick := old(tick) + ticks)
    {
      tick := tick + ticks;
    }

    method DoPutPending(id: HoldId, amount: int) returns (r: Insertion)
      modifies this
      ensures (View(), r) == PutPending(old(View()), id, amount)
    {
      if amount <= 0 {
        return BadAmount;
      }
      if id in holds {
        return Duplicate;
      }
      holds := holds[id := Hold(amount, Pending, NeverCommitted)];
      debited := debited[id := false];
      return Inserted;
    }

    method Apply(id: HoldId)
      requires id in holds
      modifies this
      ensures View() == old(View()).Debit(id)
    {
      poolReserved := poolReserved + holds[id].amount;
      debited := debited[id := true];
      holds := holds[id := holds[id].(committed := CommittedAt(tick))];
    }

    method DoCommitDebit(id: HoldId, injection: Injection) returns (reply: Reply)
      modifies this
      ensures (View(), reply) == CommitDebit(old(View()), id, injection)
    {
      if id !in holds || holds[id].status != Pending {
        return Noop;
      }
      if id in debited && debited[id] {
        return Committed;  // an idempotent replay, never a second debit
      }
      var fits := active && limit - poolReserved >= holds[id].amount;
      match injection
      case Commit =>
        if fits {
          Apply(id);
          return Committed;
        }
        return Rejected;
      case Reject =>
        if fits {
          Apply(id);  // a reject that the budget does not justify is a commit
          return Committed;
        }
        return Rejected;
      case AmbiguousApplied =>
        if fits {
          Apply(id);
        }
        return Ambiguous;
      case AmbiguousLost =>
        return Ambiguous;
    }

    method ConditionalMove(id: HoldId, from: Status, to: Status) returns (moved: bool)
      modifies this
      ensures View() == Move(old(View()), id, from, to)
      ensures moved <==> old(View()).Has(id, from)
    {
      if id !in holds || holds[id].status != from {
        return false;
      }
      holds := holds[id := holds[id].(status := to)];
      return true;
    }

    method Activate(id: HoldId) returns (moved: bool)
      modifies this
      ensures View() == Move(old(View()), id, Pending, Active)
      ensures moved <==> old(View()).Has(id, Pending)
    {
      moved := ConditionalMove(id, Pending, Active);
    }

    method FencePendingExpired(id: HoldId) returns (moved: bool)
      modifies this
      ensures View() == Move(old(View()), id, Pending, ExpiredUncredited)
      ensures moved <==> old(View()).Has(id, Pending)
    {
      moved := ConditionalMove(id, Pending, ExpiredUncredited);
    }

    method MarkFailed(id: HoldId) returns (moved: bool)
      modifies this
      ensures View() == Move(old(View()), id, Pending, Failed)
      ensures moved <==> old(View()).Has(id, Pending)
    {
      moved := ConditionalMove(id, Pending, Failed);
    }

    method DoReturnReservation(id: HoldId, terminal: Status) returns (r: Return)
      modifies this
      ensures (View(), r) == ReturnReservation(old(View()), id, terminal)
    {
      if id !in holds || !(holds[id].status == Pending || holds[id].status == Active) {
        return NotApplicable;
      }
      if !(id in debited && debited[id]) {
        return Oversell;
      }
      poolReserved := poolReserved - holds[id].amount;
      debited := debited[id := false];
      holds := holds[id := holds[id].(status := terminal)];
      return Returned;
    }

    method ReapActiveExpired(id: HoldId) returns (reaped: bool)
      modifies this
      ensures View() == ReapActive(old(View()), id)
      ensures reaped <==> old(View()).Has(id, Active)
    {
      if id !in holds || holds[id].status != Active {
        return false;
      }
      poolReserved := poolReserved - holds[id].amount;
      debited := debited[id := false];
      holds := holds[id := holds[id].(status := Expired)];
      return true;
    }

    /** Retire one hold if it is fenced, crediting it back first if its marker is present. */
    method RetireIfFenced(id: HoldId) returns (recovered: int)
      requires id in holds && id in debited
      modifies this
      ensures recovered == LeakOf(old(View()), id)
      ensures View() == RetireOne(old(View()), id)
    {
      recovered := 0;
      if holds[id].status == ExpiredUncredited {
        if debited[id] {
          poolReserved := poolReserved - holds[id].amount;
          debited := debited[id := false];
          recovered := holds[id].amount;
        }
        holds := holds[id := holds[id].(status := Reclaimed)];
      }
      assert debited == old(debited)[id := old(debited[id]) && !old(View()).Has(id, ExpiredUncredited)];
      assert holds == old(holds)[id := Retired(old(View()), id)];
    }

    /**
     Walk the holds in any order, crediting back the debited fenced ones and retiring
     every fenced one. The result is exactly the leak that was outstanding.
     */
    method Reconcile() returns (recovered: int)
      requires holds.Keys == debited.Keys
      modifies this
      ensures View() == Reconciled(old(View()))
      ensures recovered == OutstandingLeak(old(View()))
    {
      recovered := 0;
      var todo := holds.Keys;
      ghost var before := View();
      NoneReconciled(before);
      while todo != {}
        invariant PartWay(before, todo, View(), recovered)
        decreases todo
      {
        var id :| id in todo;
        ghost var now := View();
        OneMoreReconciled(before, todo, id, now, recovered);
        var one := RetireIfFenced(id);
        assert View() == RetireOne(now, id);
        recovered := recovered + one;
        todo := todo - {id};
      }
      AllReconciled(before, View(), recovered);
    }

    // ----- the oracles, which only read -----

    method DebitedOutstandingSum() returns (total: int)
      ensures total == Sum(Outstanding(View()))
    {
      total := 0;
      var todo := holds.Keys;
      SeenNothing(Outstanding(View()), todo);
      while todo != {}
        invariant todo <= holds.Keys
        invariant total == Sum(Seen(Outstanding(View()), todo))
        decreases todo
      {
        var id :| id in todo;
        SeenOneMore(Outstanding(View()), todo, id);
        todo := todo - {id};
        if id in debited && debited[id] && !CreditedBack(holds[id].status) {
          total := total + holds[id].amount;
        }
      }
      SeenAll(Outstanding(View()));
    }

    method CheckI1() returns (ok: bool)
      ensures ok <==> I1(View())
    {
      var expected := DebitedOutstandingSum();
      ok := poolReserved == expected;
    }

    method LeakNow() returns (leak: int)
      ensures leak == OutstandingLeak(View())
    {
      leak := 0;
      var todo := holds.Keys;
      SeenNothing(Leaks(View()), todo);
      while todo != {}
        invariant todo <= holds.Keys
        invariant leak == Sum(Seen(Leaks(View()), todo))
        decreases todo
      {
        var id :| id in todo;
        SeenOneMore(Leaks(View()), todo, id);
        todo := todo - {id};
        if id in debited && debited[id] && holds[id].status == ExpiredUncredited {
          leak := leak + holds[id].amount;
        }
      }
      SeenAll(Leaks(View()));
    }

    method IsQuiescent() returns (quiet: bool)
      ensures quiet <==> Quiescent(View())
    {
      var leak := LeakNow();
      quiet := leak == 0 && forall id | id in holds :: holds[id].status != Pending;
    }
  }

  function RetireOne(s: State, id: HoldId): State
    requires id in s.holds && id in s.debited
  {
    s.(reserved := s.reserved - LeakOf(s, id),
       debited := s.debited[id := s.debited[id] && !s.Has(id, ExpiredUncredited)],
       holds := s.holds[id := Retired(s, id)])
  }

  /** Part-way through a reconcile: the holds in `todo` have not been visited yet. */
  ghost function ReconciledBut(s: State, todo: set<HoldId>): State {
    s.(reserved := s.reserved - Sum(Seen(Leaks(s), todo)),
       debited := map id | id in s.debited :: s.debited[id] && (id in todo || !s.Has(id, ExpiredUncredited)),
       holds := map id | id in s.holds :: if id in todo then s.holds[id] else Retired(s, id))
  }

  ghost predicate PartWay(s: State, todo: set<HoldId>, now: State, recovered: int) {
    && s.holds.Keys == s.debited.Keys
    && todo <= s.holds.Keys
    && now == ReconciledBut(s, todo)
    && recovered == Sum(Seen(Leaks(s), todo))
  }

  lemma NoneReconciled(s: State)
    requires s.holds.Keys == s.debited.Keys
    ensures PartWay(s, s.holds.Keys, s, 0)
  {
    SeenNothing(Leaks(s), s.holds.Keys);
    assert ReconciledBut(s, s.holds.Keys).holds == s.holds;
    assert ReconciledBut(s, s.holds.Keys).debited == s.debited;
  }

  lemma AllReconciled(s: State, now: State, recovered: int)
    requires PartWay(s, {}, now, recovered)
    ensures now == Reconciled(s) && recovered == OutstandingLeak(s)
  {
    SeenAll(Leaks(s));
    assert now.holds == Reconciled(s).holds;
    assert now.debited == Reconciled(s).debited;
  }

  lemma OneMoreReconciled(s: State, todo: set<HoldId>, id: HoldId, now: State, recovered: int)
    requires PartWay(s, todo, now, recovered) && id in todo
    ensures id in now.holds && id in now.debited
    ensures PartWay(s, todo - {id}, RetireOne(now, id), recovered + LeakOf(now, id))
  {
    var u := ReconciledBut(s, todo - {id});
    SeenOneMore(Leaks(s), todo, id);
    assert now.holds[id] == s.holds[id] && now.debited[id] == s.debited[id];
    assert LeakOf(now, id) == Leaks(s)[id];
    assert u.holds == now.holds[id := Retired(now, id)];
    assert u.debited == now.debited[id := now.debited[id] && !now.Has(id, ExpiredUncredited)];
  }
}
