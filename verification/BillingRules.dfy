/**
 Pooled-budget accounting as one machine: three counters under a ceiling, the live holds,
 and how each hold ended. Proved of every run: the counters mean what they claim, a hold
 ends once, and the ceiling is overshot by no more than what was spent over or taken away.
 */
module BillingRules {
  import opened Sums

  /** Holds are numbered in the order they were reserved. */
  type HoldId = nat

  datatype Hold = Hold(amount: int, expired: bool)

  datatype Status = Live | Settled | Released | Reaped

  datatype Ledger = Ledger(
    limit: int, reserved: int, settled: int, reclaimed: int, headroom: int,
    live: map<HoldId, Hold>, state: map<HoldId, Status>, next: HoldId)

  datatype Answer = Fine | BadAmount | LimitExceeded | HoldNotFound

  function Opened(limit: int): Ledger {
    Ledger(limit, 0, 0, 0, limit, map[], map[], 1)
  }

  function Reserve(l: Ledger, amount: int): (Ledger, Answer) {
    if amount < 1 then (l, BadAmount)
    else if l.reserved + l.settled + amount > l.limit then (l, LimitExceeded)
    else
      (l.(reserved := l.reserved + amount, headroom := l.headroom - amount,
          live := l.live[l.next := Hold(amount, false)], state := l.state[l.next := Live],
          next := l.next + 1), Fine)
  }

  /** Give a hold's reservation back, record `actual` spend, and close it. */
  function End(l: Ledger, id: HoldId, actual: int, status: Status): Ledger
    requires id in l.live
  {
    var amount := l.live[id].amount;
    l.(reserved := l.reserved - amount, settled := l.settled + actual,
       headroom := l.headroom + (amount - actual),
       live := l.live - {id}, state := l.state[id := status])
  }

  /** The spend may exceed the hold; only a negative spend is refused. */
  function Settle(l: Ledger, id: HoldId, actual: int): (Ledger, Answer) {
    if id !in l.live then (l, HoldNotFound)
    else if actual < 0 then (l, BadAmount)
    else (End(l, id, actual, Settled), Fine)
  }

  function Release(l: Ledger, id: HoldId): (Ledger, Answer) {
    if id !in l.live then (l, HoldNotFound) else (End(l, id, 0, Released), Fine)
  }

  function ExpireLease(l: Ledger, id: HoldId): (Ledger, Answer) {
    if id !in l.live then (l, HoldNotFound)
    else (l.(live := l.live[id := l.live[id].(expired := true)]), Fine)
  }

  function Reap(l: Ledger, id: HoldId): Ledger {
    if id in l.live && l.live[id].expired then
      End(l, id, 0, Reaped).(reclaimed := l.reclaimed + l.live[id].amount)
    else l
  }

  function Amounts(l: Ledger): map<HoldId, int> {
    map id | id in l.live :: l.live[id].amount
  }

  /** What a reap finds: the amount of every expired hold. */
  function Expired(l: Ledger): map<HoldId, int> {
    map id | id in l.live && l.live[id].expired :: l.live[id].amount
  }

  ghost function ReapAll(l: Ledger): Ledger {
    var total := Sum(Expired(l));
    l.(reserved := l.reserved - total, reclaimed := l.reclaimed + total, headroom := l.headroom + total,
       live := map id | id in l.live && !l.live[id].expired :: l.live[id],
       state := map id | id in l.state :: if id in l.live && l.live[id].expired then Reaped else l.state[id])
  }

  function SetLimit(l: Ledger, limit: int): Ledger {
    l.(headroom := l.headroom + (limit - l.limit), limit := limit)
  }

  datatype Action =
    | AReserve(amount: int)
    | ASettle(id: HoldId, actual: int)
    | ARelease(id: HoldId)
    | AExpire(id: HoldId)
    | AReap(id: HoldId)
    | ASetLimit(limit: int)

  function Next(l: Ledger, a: Action): Ledger {
    match a
    case AReserve(amount) => Reserve(l, amount).0
    case ASettle(id, actual) => Settle(l, id, actual).0
    case ARelease(id) => Release(l, id).0
    case AExpire(id) => ExpireLease(l, id).0
    case AReap(id) => Reap(l, id)
    case ASetLimit(limit) => SetLimit(l, limit)
  }

  function Run(l: Ledger, actions: seq<Action>): Ledger
    decreases |actions|
  {
    if actions == [] then l else Next(Run(l, actions[..|actions| - 1]), actions[|actions| - 1])
  }

  ghost predicate Inv(l: Ledger) {
    && l.headroom == l.limit - l.reserved - l.settled
    && l.reserved == Sum(Amounts(l))
    && l.settled >= 0 && l.reclaimed >= 0
    && (forall id | id in l.live :: l.live[id].amount >= 1)
    && (forall id | id in l.state :: id < l.next)
    && (forall id :: id in l.live <==> id in l.state && l.state[id] == Live)
  }

  lemma EndKeepsInv(l: Ledger, id: HoldId, actual: int, status: Status)
    requires Inv(l) && id in l.live && actual >= 0 && status != Live
    ensures Inv(End(l, id, actual, status))
  {
    SumRemove(Amounts(l), id);
    assert Amounts(End(l, id, actual, status)) == Amounts(l) - {id};
  }

  lemma StepKeepsInv(l: Ledger, a: Action)
    requires Inv(l)
    ensures Inv(Next(l, a))
  {
    match a {
      case AReserve(amount) =>
        SumUpdate(Amounts(l), l.next, amount);
        if Reserve(l, amount).1 == Fine {
          assert Amounts(Next(l, a)) == Amounts(l)[l.next := amount];
        }
      case ASettle(id, actual) => if id in l.live && actual >= 0 { EndKeepsInv(l, id, actual, Settled); }
      case ARelease(id) => if id in l.live { EndKeepsInv(l, id, 0, Released); }
      case AExpire(id) => if id in l.live { assert Amounts(Next(l, a)) == Amounts(l); }
      case AReap(id) =>
        if id in l.live && l.live[id].expired {
          EndKeepsInv(l, id, 0, Reaped);
          assert Amounts(Next(l, a)) == Amounts(End(l, id, 0, Reaped));
        }
      case ASetLimit(_) => assert Amounts(Next(l, a)) == Amounts(l);
    }
  }

  /** Every run keeps the headroom identity, and `reserved` is the sum of the live holds. */
  lemma {:induction false} RunKeepsInv(limit: int, actions: seq<Action>)
    ensures Inv(Run(Opened(limit), actions))
    decreases |actions|
  {
    if actions != [] {
      RunKeepsInv(limit, actions[..|actions| - 1]);
      StepKeepsInv(Run(Opened(limit), actions[..|actions| - 1]), actions[|actions| - 1]);
    }
  }

  /** A hold that has ended keeps its ending: no action settles, releases or reaps it again. */
  lemma {:induction false} EndedStaysEnded(l: Ledger, actions: seq<Action>, id: HoldId)
    requires Inv(l) && id in l.state && l.state[id] != Live
    ensures Inv(Run(l, actions))
    ensures id in Run(l, actions).state && Run(l, actions).state[id] == l.state[id]
    ensures id !in Run(l, actions).live
    decreases |actions|
  {
    if actions != [] {
      EndedStaysEnded(l, actions[..|actions| - 1], id);
      StepKeepsInv(Run(l, actions[..|actions| - 1]), actions[|actions| - 1]);
    }
  }

  // ---- the whole-pool reap is the hold-by-hold one ----

  /** Part-way through a reap: the expired holds in `todo` have not been visited yet. */
  ghost function ReapedBut(l: Ledger, todo: set<HoldId>): Ledger {
    var total := Sum(Seen(Expired(l), todo));
    l.(reserved := l.reserved - total, reclaimed := l.reclaimed + total, headroom := l.headroom + total,
       live := map id | id in l.live && (id in todo || !l.live[id].expired) :: l.live[id],
       state := map id | id in l.state ::
         if id in l.live && l.live[id].expired && id !in todo then Reaped else l.state[id])
  }

  function ReapedOutside(l: Ledger, todo: set<HoldId>): map<HoldId, int> {
    map id | id in l.live && l.live[id].expired && id !in todo :: l.live[id].amount
  }

  lemma NoneReaped(l: Ledger)
    ensures ReapedBut(l, l.live.Keys) == l
    ensures ReapedOutside(l, l.live.Keys) == map[]
  {
    SeenNothing(Expired(l), l.live.Keys);
    var r := ReapedBut(l, l.live.Keys);
    assert r.live == l.live;
    assert r.state == l.state;
  }

  lemma AllReaped(l: Ledger)
    ensures ReapedBut(l, {}) == ReapAll(l)
    ensures ReapedOutside(l, {}) == Expired(l)
  {
    SeenAll(Expired(l));
    assert ReapedBut(l, {}).live == ReapAll(l).live;
    assert ReapedBut(l, {}).state == ReapAll(l).state;
  }

  lemma OneMoreReaped(l: Ledger, todo: set<HoldId>, id: HoldId)
    requires id in todo && todo <= l.live.Keys && l.live.Keys <= l.state.Keys
    ensures id in ReapedBut(l, todo).live && ReapedBut(l, todo).live[id] == l.live[id]
    ensures Reap(ReapedBut(l, todo), id) == ReapedBut(l, todo - {id})
    ensures ReapedOutside(l, todo - {id})
         == if l.live[id].expired then ReapedOutside(l, todo)[id := l.live[id].amount] else ReapedOutside(l, todo)
  {
    var was, now := ReapedBut(l, todo), ReapedBut(l, todo - {id});
    if l.live[id].expired {
      SeenOneMore(Expired(l), todo, id);
      assert now.live == was.live - {id};
      assert now.state == was.state[id := Reaped];
    } else {
      assert Seen(Expired(l), todo - {id}) == Seen(Expired(l), todo);
      assert now.live == was.live;
      assert now.state == was.state;
    }
  }

  /** The reap is a run of single reaps, in whatever order the holds are visited. */
  lemma {:induction false} ReapIsARun(l: Ledger, todo: set<HoldId>) returns (actions: seq<Action>)
    requires Inv(l) && todo <= l.live.Keys
    ensures Run(ReapedBut(l, todo), actions) == ReapAll(l)
    ensures forall a | a in actions :: a.AReap?
    decreases todo
  {
    if todo == {} {
      AllReaped(l);
      actions := [];
    } else {
      var id :| id in todo;
      OneMoreReaped(l, todo, id);
      var rest := ReapIsARun(l, todo - {id});
      actions := [AReap(id)] + rest;
      RunFront(ReapedBut(l, todo), AReap(id), rest);
    }
  }

  lemma {:induction false} RunFront(l: Ledger, a: Action, rest: seq<Action>)
    ensures Run(l, [a] + rest) == Run(Next(l, a), rest)
    decreases |rest|
  {
    if rest == [] {
      assert [a] + rest == [a] && [a][..0] == [];
      assert Run(l, [a][..0]) == l;
    } else {
      var n := |rest| - 1;
      assert ([a] + rest)[..n + 1] == [a] + rest[..n];
      RunFront(l, a, rest[..n]);
    }
  }

  // ---- the overshoot ----

  function Over(l: Ledger): int {
    if l.reserved + l.settled > l.limit then l.reserved + l.settled - l.limit else 0
  }

  function Positive(x: int): int {
    if x > 0 then x else 0
  }

  predicate Admitted(l: Ledger, a: Action) {
    a.AReserve? && Reserve(l, a.amount).1 == Fine
  }

  /** What an action may push past the ceiling: a spend above its hold, or a lowering of the limit. */
  function Excess(l: Ledger, a: Action): int {
    match a
    case ASettle(id, actual) =>
      if id in l.live && actual >= 0 then Positive(actual - l.live[id].amount) else 0
    case ASetLimit(limit) => Positive(l.limit - limit)
    case _ => 0
  }

  /** The excesses since the last admitted reserve (or since the start, if none was admitted). */
  function ExcessSinceReserve(l: Ledger, actions: seq<Action>): int
    decreases |actions|
  {
    if actions == [] then Over(l)
    else
      var before := Run(l, actions[..|actions| - 1]);
      var last := actions[|actions| - 1];
      if Admitted(before, last) then 0
      else ExcessSinceReserve(l, actions[..|actions| - 1]) + Excess(before, last)
  }

  lemma StepOvershoot(l: Ledger, a: Action)
    requires Inv(l)
    ensures Admitted(l, a) ==> Over(Next(l, a)) == 0
    ensures Over(Next(l, a)) <= Over(l) + Excess(l, a)
  {
  }

  /** The ceiling is exceeded by at most the overruns and lowerings since the last admitted reserve. */
  lemma {:induction false} OvershootIsBounded(l: Ledger, actions: seq<Action>)
    requires Inv(l)
    ensures Inv(Run(l, actions))
    ensures Over(Run(l, actions)) <= ExcessSinceReserve(l, actions)
    decreases |actions|
  {
    if actions != [] {
      OvershootIsBounded(l, actions[..|actions| - 1]);
      StepOvershoot(Run(l, actions[..|actions| - 1]), actions[|actions| - 1]);
      StepKeepsInv(Run(l, actions[..|actions| - 1]), actions[|actions| - 1]);
    }
  }
}
