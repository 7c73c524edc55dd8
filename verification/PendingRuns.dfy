/** What every run of the reference protocol keeps, and how it recovers. */
module PendingRuns {
  import opened Sums
  import opened PendingProtocol

  datatype Action =
    | Put(id: HoldId, amount: int)
    | Debit(id: HoldId, injection: Injection)
    | Activate(id: HoldId)
    | Settle(id: HoldId)
    | Release(id: HoldId)
    | Reap(id: HoldId)
    | Fence(id: HoldId)
    | MarkFailed(id: HoldId)
    | Reconcile
    | Advance(ticks: int)

  /** The ledger, and what each client was last told about its commit. */
  datatype World = World(state: State, told: map<HoldId, Reply>)
  {
    predicate Told(id: HoldId, reply: Reply) {
      id in told && told[id] == reply
    }
  }

  ghost function Next(w: World, a: Action): World {
    match a
    case Put(id, amount) => w.(state := PutPending(w.state, id, amount).0)
    case Debit(id, injection) =>
      var (s, reply) := CommitDebit(w.state, id, injection);
      World(s, if reply.Noop? then w.told else w.told[id := reply])
    case Activate(id) => w.(state := Move(w.state, id, Pending, Active))
    case Settle(id) => w.(state := ReturnReservation(w.state, id, Settled).0)
    case Release(id) => w.(state := ReturnReservation(w.state, id, Released).0)
    case Reap(id) => w.(state := ReapActive(w.state, id))
    case Fence(id) => w.(state := Move(w.state, id, Pending, ExpiredUncredited))
    case MarkFailed(id) => w.(state := Move(w.state, id, Pending, Failed))
    case Reconcile => w.(state := Reconciled(w.state))
    case Advance(ticks) => w.(state := w.state.(tick := w.state.tick + ticks))
  }

  /**
   The client rules: activate, settle and release only a hold whose commit was reported
   committed, and mark failed only one whose commit was last reported rejected.
   */
  predicate Allowed(w: World, a: Action) {
    match a
    case Activate(id) => w.Told(id, Committed)
    case Settle(id) => w.Told(id, Committed)
    case Release(id) => w.Told(id, Committed)
    case MarkFailed(id) => w.Told(id, Rejected)
    case _ => true
  }

  /** The same rules but the last: a client that lost the reply may mark its hold failed. */
  predicate LooselyAllowed(w: World, a: Action) {
    a.MarkFailed? || Allowed(w, a)
  }

  ghost function Run(w: World, actions: seq<Action>): World
    decreases |actions|
  {
    if actions == [] then w else Run(Next(w, actions[0]), actions[1..])
  }

  ghost predicate Legal(w: World, actions: seq<Action>)
    decreases |actions|
  {
    actions == [] || (Allowed(w, actions[0]) && Legal(Next(w, actions[0]), actions[1..]))
  }

  ghost predicate LooselyLegal(w: World, actions: seq<Action>)
    decreases |actions|
  {
    actions == [] || (LooselyAllowed(w, actions[0]) && LooselyLegal(Next(w, actions[0]), actions[1..]))
  }

  lemma {:induction false} LegalIsLooselyLegal(w: World, actions: seq<Action>)
    requires Legal(w, actions)
    ensures LooselyLegal(w, actions)
    decreases |actions|
  {
    if actions != [] {
      LegalIsLooselyLegal(Next(w, actions[0]), actions[1..]);
    }
  }

  function Start(limit: int, active: bool): World {
    World(Empty(limit, active), map[])
  }

  /** The settle/release guard that would announce an oversell. */
  predicate HitsOversellGuard(w: World, a: Action) {
    match a
    case Settle(id) => ReturnReservation(w.state, id, Settled).1.Oversell?
    case Release(id) => ReturnReservation(w.state, id, Released).1.Oversell?
    case _ => false
  }

  // ----- the invariant -----

  /** What a hold's status says about its marker. */
  predicate HoldConsistent(w: World, id: HoldId)
    requires id in w.state.holds
  {
    var status, marked := w.state.holds[id].status, w.state.Marked(id);
    && w.state.holds[id].amount > 0
    && (status.Active? ==> marked)
    && (CreditedBack(status) ==> !marked)
    && (status.Pending? && w.Told(id, Committed) ==> marked)
    && (status.Pending? && w.Told(id, Rejected) ==> !marked)
  }

  ghost predicate Inv(w: World) {
    var s := w.state;
    && s.holds.Keys == s.debited.Keys
    && w.told.Keys <= s.holds.Keys
    && (forall id :: id in s.holds ==> HoldConsistent(w, id))
    && I1(s)
    && s.reserved <= s.limit
  }

  /** The step touched one hold's record and nothing of any other. */
  ghost predicate OnlyHold(s: State, t: State, id: HoldId) {
    && t.holds.Keys == s.holds.Keys + {id}
    && t.debited.Keys == s.debited.Keys + {id}
    && forall j :: j in s.holds && j != id ==> t.holds[j] == s.holds[j] && t.Marked(j) == s.Marked(j)
  }

  /** One hold's record changed: the outstanding sum moves by that hold alone. */
  lemma OutstandingChange(s: State, t: State, id: HoldId)
    requires OnlyHold(s, t, id)
    ensures Sum(Outstanding(t)) ==
            Sum(Outstanding(s)) - (if id in s.holds then OutOf(s, id) else 0) + OutOf(t, id)
  {
    SumUpdate(Outstanding(s), id, OutOf(t, id));
    assert Outstanding(t) == Outstanding(s)[id := OutOf(t, id)];
  }

  lemma OneHoldKeepsInv(w: World, w': World, id: HoldId)
    requires Inv(w)
    requires OnlyHold(w.state, w'.state, id)
    requires forall j :: j in w.state.holds && j != id ==> (j in w'.told) == (j in w.told)
    requires forall j :: j in w.told && j != id ==> w'.told[j] == w.told[j]
    requires w'.told.Keys <= w'.state.holds.Keys
    requires HoldConsistent(w', id)
    requires w'.state.reserved == w.state.reserved + OutOf(w'.state, id)
                                  - (if id in w.state.holds then OutOf(w.state, id) else 0)
    requires w'.state.reserved <= w'.state.limit
    ensures Inv(w')
  {
    OutstandingChange(w.state, w'.state, id);
    forall j | j in w'.state.holds && j != id ensures HoldConsistent(w', j) {
      assert HoldConsistent(w, j);
    }
  }

  lemma OutstandingBounds(w: World)
    requires Inv(w)
    ensures w.state.reserved >= 0
  {
    forall id | id in w.state.holds ensures Outstanding(w.state)[id] >= 0 {
      assert HoldConsistent(w, id);
    }
    SumBounds(Outstanding(w.state));
  }

  lemma LeakBounds(w: World)
    requires Inv(w)
    ensures OutstandingLeak(w.state) >= 0
  {
    forall id | id in w.state.holds ensures Leaks(w.state)[id] >= 0 {
      assert HoldConsistent(w, id);
    }
    SumBounds(Leaks(w.state));
  }

  /** Reconciling moves the outstanding sum by exactly the leak. */
  lemma ReconciledOutstanding(s: State)
    requires s.holds.Keys == s.debited.Keys
    ensures Sum(Outstanding(s)) == Sum(Outstanding(Reconciled(s))) + OutstandingLeak(s)
  {
    var t := Reconciled(s);
    forall id | id in s.holds ensures OutOf(s, id) == OutOf(t, id) + LeakOf(s, id) {
      assert t.holds[id] == Retired(s, id);
    }
    SumAdd(Outstanding(t), Leaks(s), Outstanding(s));
  }

  lemma ReconcileKeepsInv(w: World)
    requires Inv(w)
    ensures Inv(Next(w, Reconcile))
  {
    ReconciledOutstanding(w.state);
    LeakBounds(w);
    var w' := Next(w, Reconcile);
    forall id | id in w'.state.holds ensures HoldConsistent(w', id) {
      assert HoldConsistent(w, id);
      assert w'.state.holds[id] == Retired(w.state, id);
    }
  }

  lemma PutKeepsInv(w: World, id: HoldId, amount: int)
    requires Inv(w)
    ensures Inv(Next(w, Put(id, amount)))
  {
    if amount > 0 && id !in w.state.holds {
      OneHoldKeepsInv(w, Next(w, Put(id, amount)), id);
    }
  }

  lemma DebitKeepsInv(w: World, id: HoldId, injection: Injection)
    requires Inv(w)
    ensures Inv(Next(w, Debit(id, injection)))
  {
    if w.state.Has(id, Pending) {
      assert HoldConsistent(w, id);
      OneHoldKeepsInv(w, Next(w, Debit(id, injection)), id);
    }
  }

  lemma MoveKeepsInv(w: World, id: HoldId, to: Status)
    requires Inv(w)
    requires to.Active? ==> w.Told(id, Committed)
    requires to.Active? || to.Failed? || to.ExpiredUncredited?
    ensures Inv(w.(state := Move(w.state, id, Pending, to)))
  {
    if w.state.Has(id, Pending) {
      assert HoldConsistent(w, id);
      OneHoldKeepsInv(w, w.(state := Move(w.state, id, Pending, to)), id);
    }
  }

  lemma CreditKeepsInv(w: World, id: HoldId, to: Status)
    requires Inv(w)
    requires id in w.state.holds && w.state.Marked(id) && CreditedBack(to)
    ensures Inv(w.(state := w.state.Credit(id, to)))
  {
    assert HoldConsistent(w, id);
    OneHoldKeepsInv(w, w.(state := w.state.Credit(id, to)), id);
  }

  /** Every allowed step keeps the invariant; whether a mark-failed is honest does not matter to it. */
  lemma StepKeepsInv(w: World, a: Action)
    requires Inv(w) && LooselyAllowed(w, a)
    ensures Inv(Next(w, a))
  {
    match a
    case Put(id, amount) => PutKeepsInv(w, id, amount);
    case Debit(id, injection) => DebitKeepsInv(w, id, injection);
    case Settle(id) => if ReturnReservation(w.state, id, Settled).1.Returned? { CreditKeepsInv(w, id, Settled); }
    case Release(id) => if ReturnReservation(w.state, id, Released).1.Returned? { CreditKeepsInv(w, id, Released); }
    case Activate(id) => MoveKeepsInv(w, id, Active);
    case Reap(id) =>
      if w.state.Has(id, Active) {
        assert HoldConsistent(w, id);
        CreditKeepsInv(w, id, Expired);
      }
    case Fence(id) => MoveKeepsInv(w, id, ExpiredUncredited);
    case MarkFailed(id) => MoveKeepsInv(w, id, Failed);
    case Reconcile => ReconcileKeepsInv(w);
    case Advance(_) => AdvanceKeepsInv(w, a);
  }

  lemma AdvanceKeepsInv(w: World, a: Action)
    requires Inv(w) && a.Advance?
    ensures Inv(Next(w, a))
  {
    var w' := Next(w, a);
    assert Outstanding(w'.state) == Outstanding(w.state);
    forall id | id in w'.state.holds ensures HoldConsistent(w', id) {
      assert HoldConsistent(w, id);
    }
  }

  lemma {:induction false} RunKeepsInv(w: World, actions: seq<Action>)
    requires Inv(w) && LooselyLegal(w, actions)
    ensures Inv(Run(w, actions))
    decreases |actions|
  {
    if actions != [] {
      StepKeepsInv(w, actions[0]);
      RunKeepsInv(Next(w, actions[0]), actions[1..]);
    }
  }

  lemma StartInv(limit: int, active: bool)
    requires limit >= 0
    ensures Inv(Start(limit, active))
  {
  }

  /** The limit is set once: no step moves it. */
  lemma {:induction false} RunKeepsLimit(w: World, actions: seq<Action>)
    ensures Run(w, actions).state.limit == w.state.limit
    decreases |actions|
  {
    if actions != [] {
      RunKeepsLimit(Next(w, actions[0]), actions[1..]);
    }
  }

  /**
   No oversell, over every run under the client rules, the last of them kept or not: the
   counter is the sum of the debited holds not yet given back, it stays between zero and the
   limit it was opened with, and no step reaches the oversell guard.
   */
  lemma NoOversell(limit: int, active: bool, actions: seq<Action>, a: Action)
    requires limit >= 0
    requires LooselyLegal(Start(limit, active), actions)
    requires LooselyAllowed(Run(Start(limit, active), actions), a)
    ensures var w := Run(Start(limit, active), actions);
            && I1(w.state)
            && 0 <= w.state.reserved <= limit
            && !HitsOversellGuard(w, a)
  {
    StartInv(limit, active);
    RunKeepsInv(Start(limit, active), actions);
    RunKeepsLimit(Start(limit, active), actions);
    var w := Run(Start(limit, active), actions);
    OutstandingBounds(w);
  }

  // ----- the client rules are needed, and exactly where -----

  /** Reaping an ACTIVE hold keeps the invariant exactly when its debit had applied. */
  lemma ReapSoundIff(s: State, id: HoldId)
    requires s.holds.Keys == s.debited.Keys
    requires I1(s) && s.Has(id, Active) && s.holds[id].amount > 0
    ensures I1(ReapActive(s, id)) <==> s.Marked(id)
  {
    OutstandingChange(s, ReapActive(s, id), id);
  }

  /** Without "activate only after committed" a put, an activate and a reap oversell silently. */
  lemma UncheckedActivateOversells(limit: int, id: HoldId, amount: int)
    requires limit >= 0 && amount > 0
    ensures var w := Run(Start(limit, true), [Put(id, amount), Activate(id), Reap(id)]);
            w.state.reserved == -amount && !I1(w.state)
  {
    var w1 := Next(Start(limit, true), Put(id, amount));
    var w2 := Next(w1, Activate(id));
    var w3 := Next(w2, Reap(id));
    RunOne(w2, Reap(id));
    assert [Activate(id), Reap(id)][1..] == [Reap(id)];
    assert [Put(id, amount), Activate(id), Reap(id)][1..] == [Activate(id), Reap(id)];
    SumZero(Outstanding(w3.state));
  }

  // ----- recovery -----

  /** Reconcile returns the leak; a second call finds nothing; nothing leaks afterwards. */
  lemma ReconcileRecoversOnce(s: State)
    requires s.holds.Keys == s.debited.Keys
    ensures Reconciled(s).reserved == s.reserved - OutstandingLeak(s)
    ensures OutstandingLeak(Reconciled(s)) == 0
    ensures Reconciled(Reconciled(s)) == Reconciled(s)
  {
    var t := Reconciled(s);
    SumZero(Leaks(t));
    assert Reconciled(t).holds == t.holds;
    assert Reconciled(t).debited == t.debited;
  }

  /** How far a hold is from its end. Only leaving a status lowers it; nothing raises it. */
  function Rank(status: Status): nat {
    match status
    case Pending => 3
    case Active => 2
    case ExpiredUncredited => 1
    case _ => 0
  }

  ghost function Ranks(s: State): map<HoldId, int> {
    map id | id in s.holds :: Rank(s.holds[id].status)
  }

  ghost function Distance(s: State): int {
    Sum(Ranks(s))
  }

  lemma {:induction false} RanksFall(a: map<HoldId, int>, b: map<HoldId, int>)
    requires a.Keys == b.Keys
    requires forall id :: id in a ==> b[id] <= a[id]
    ensures Sum(b) <= Sum(a)
    ensures a != b ==> Sum(b) < Sum(a)
  {
    var d := map id | id in a :: a[id] - b[id];
    SumAdd(b, d, a);
    SumBounds(d);
    if a != b {
      var id :| id in a && a[id] != b[id];
      assert d[id] > 0;
    }
  }

  /** Every step but an insertion lowers the distance, or leaves every status where it was. */
  lemma ProgressDecreases(w: World, a: Action)
    requires !a.Put?
    ensures Next(w, a).state.holds.Keys == w.state.holds.Keys
    ensures 0 <= Distance(Next(w, a).state) <= Distance(w.state)
    ensures (exists id :: id in w.state.holds
                          && Next(w, a).state.holds[id].status != w.state.holds[id].status)
            ==> Distance(Next(w, a).state) < Distance(w.state)
  {
    SameHolds(w, a);
    forall id | id in w.state.holds ensures StatusFalls(w.state, Next(w, a).state, id) {
      EachStatusFalls(w, a, id);
    }
    DistanceFalls(w.state, Next(w, a).state);
  }

  lemma DistanceFalls(s: State, t: State)
    requires s.holds.Keys == t.holds.Keys
    requires forall id :: id in s.holds ==> StatusFalls(s, t, id)
    ensures 0 <= Distance(t) <= Distance(s)
    ensures (exists id :: id in s.holds && t.holds[id].status != s.holds[id].status) ==> Distance(t) < Distance(s)
  {
    SumBounds(Ranks(t));
    forall id | id in Ranks(s) ensures Ranks(t)[id] <= Ranks(s)[id] {
      assert StatusFalls(s, t, id);
    }
    RanksFall(Ranks(s), Ranks(t));
    if id :| id in s.holds && t.holds[id].status != s.holds[id].status {
      assert StatusFalls(s, t, id);
      assert Ranks(t)[id] < Ranks(s)[id];
    }
  }

  lemma SameHolds(w: World, a: Action)
    requires !a.Put?
    ensures Next(w, a).state.holds.Keys == w.state.holds.Keys
  {
  }

  ghost predicate StatusFalls(s: State, t: State, id: HoldId)
    requires id in s.holds
  {
    id in t.holds && (t.holds[id].status == s.holds[id].status || Rank(t.holds[id].status) < Rank(s.holds[id].status))
  }

  lemma EachStatusFalls(w: World, a: Action, id: HoldId)
    requires !a.Put? && id in w.state.holds
    ensures StatusFalls(w.state, Next(w, a).state, id)
  {
    if a.Reconcile? {
      assert Next(w, a).state.holds[id] == Retired(w.state, id);
    }
  }

  /** The actors' clean-up of a set of holds: fence what is PENDING, reap what is ACTIVE. */
  ghost function CleanUp(ids: set<HoldId>): seq<Action>
    decreases |ids|
  {
    if ids == {} then []
    else
      var id :| id in ids;
      [Fence(id), Reap(id)] + CleanUp(ids - {id})
  }

  /** No hold in `ids` is still PENDING or ACTIVE. */
  predicate Ended(s: State, ids: set<HoldId>) {
    forall id :: id in ids && id in s.holds ==> s.holds[id].status != Pending && s.holds[id].status != Active
  }

  lemma {:induction false} RunConcat(w: World, a: seq<Action>, b: seq<Action>)
    ensures Run(w, a + b) == Run(Run(w, a), b)
    ensures Legal(w, a + b) <==> Legal(w, a) && Legal(Run(w, a), b)
    decreases |a|
  {
    if a == [] {
      assert a + b == b;
    } else {
      assert (a + b)[1..] == a[1..] + b;
      RunConcat(Next(w, a[0]), a[1..], b);
    }
  }

  lemma {:induction false} CleanUpEnds(w: World, ids: set<HoldId>, done: set<HoldId>)
    requires Ended(w.state, done)
    ensures Legal(w, CleanUp(ids))
    ensures Ended(Run(w, CleanUp(ids)).state, ids + done)
    ensures Run(w, CleanUp(ids)).state.holds.Keys == w.state.holds.Keys
    decreases |ids|
  {
    if ids == {} {
      assert ids + done == done;
    } else {
      var id :| id in ids && CleanUp(ids) == [Fence(id), Reap(id)] + CleanUp(ids - {id});
      var w2 := EndOne(w, id, done);
      RunConcat(w, [Fence(id), Reap(id)], CleanUp(ids - {id}));
      CleanUpEnds(w2, ids - {id}, done + {id});
      assert ids - {id} + (done + {id}) == ids + done;
    }
  }

  lemma EndOne(w: World, id: HoldId, done: set<HoldId>) returns (w2: World)
    requires Ended(w.state, done)
    ensures w2 == Run(w, [Fence(id), Reap(id)])
    ensures Legal(w, [Fence(id), Reap(id)])
    ensures Ended(w2.state, done + {id})
    ensures w2.state.holds.Keys == w.state.holds.Keys
  {
    var w1 := Next(w, Fence(id));
    w2 := Next(w1, Reap(id));
    RunOne(w1, Reap(id));
    assert [Fence(id), Reap(id)][1..] == [Reap(id)];
  }

  lemma RunOne(w: World, a: Action)
    ensures Run(w, [a]) == Next(w, a)
    ensures Legal(w, [a]) <==> Allowed(w, a)
  {
  }

  // ----- what is left when everything is cleaned up -----

  /** A debited hold marked failed. */
  predicate FailedDebit(s: State, id: HoldId) {
    s.Has(id, Failed) && s.Marked(id)
  }

  ghost function FailedDebits(s: State): map<HoldId, int> {
    map id | id in s.holds :: if FailedDebit(s, id) then s.holds[id].amount else 0
  }

  lemma SameAmounts(t: State)
    requires forall id | id in t.holds :: OutOf(t, id) == if FailedDebit(t, id) then t.holds[id].amount else 0
    ensures Outstanding(t) == FailedDebits(t)
  {
  }

  lemma OutIsFailed(w: World)
    requires Inv(w) && Ended(w.state, w.state.holds.Keys)
    ensures Outstanding(Reconciled(w.state)) == FailedDebits(Reconciled(w.state))
  {
    var t := Reconciled(w.state);
    forall id | id in t.holds ensures OutOf(t, id) == if FailedDebit(t, id) then t.holds[id].amount else 0 {
      OnlyFailedIsOut(w, id);
    }
    SameAmounts(t);
  }

  lemma NothingPending(w: World)
    requires Inv(w) && Ended(w.state, w.state.holds.Keys)
    ensures Quiescent(Reconciled(w.state))
  {
    ReconcileRecoversOnce(w.state);
    forall id | id in Reconciled(w.state).holds ensures Reconciled(w.state).holds[id].status != Pending {
      OnlyFailedIsOut(w, id);
    }
  }

  /** With nothing PENDING or ACTIVE left, one reconcile returns all but the debited holds marked failed. */
  lemma ReconcileLeavesTheFailed(w: World)
    requires Inv(w) && Ended(w.state, w.state.holds.Keys)
    ensures var t := Reconciled(w.state);
            && t.reserved == Sum(FailedDebits(t))
            && Quiescent(t)
            && OutstandingLeak(w.state) == w.state.reserved - Sum(FailedDebits(t))
  {
    ReconciledOutstanding(w.state);
    OutIsFailed(w);
    NothingPending(w);
  }

  lemma OnlyFailedIsOut(w: World, id: HoldId)
    requires Inv(w) && Ended(w.state, w.state.holds.Keys) && id in w.state.holds
    ensures var t := Reconciled(w.state);
            && t.holds[id].status != Pending
            && OutOf(t, id) == if FailedDebit(t, id) then t.holds[id].amount else 0
  {
    assert HoldConsistent(w, id);
    assert Reconciled(w.state).holds[id] == Retired(w.state, id);
  }

  /** The recovery actions touch no failed hold. */
  lemma RecoveryKeepsFailed(w: World, a: Action, id: HoldId)
    requires w.state.holds.Keys == w.state.debited.Keys
    requires a.Fence? || a.Reap? || a.Reconcile?
    ensures FailedDebit(Next(w, a).state, id) <==> FailedDebit(w.state, id)
    ensures Next(w, a).state.holds.Keys == w.state.holds.Keys == Next(w, a).state.debited.Keys
    ensures id in w.state.holds ==> Next(w, a).state.holds[id].amount == w.state.holds[id].amount
  {
  }

  lemma {:induction false} RecoveryRunKeepsFailed(w: World, actions: seq<Action>, id: HoldId)
    requires w.state.holds.Keys == w.state.debited.Keys
    requires forall a | a in actions :: a.Fence? || a.Reap? || a.Reconcile?
    ensures FailedDebit(Run(w, actions).state, id) <==> FailedDebit(w.state, id)
    ensures Run(w, actions).state.holds.Keys == w.state.holds.Keys
    ensures id in w.state.holds ==> Run(w, actions).state.holds[id].amount == w.state.holds[id].amount
    decreases |actions|
  {
    if actions != [] {
      assert actions[0] in actions && forall a | a in actions[1..] :: a in actions;
      RecoveryKeepsFailed(w, actions[0], id);
      RecoveryRunKeepsFailed(Next(w, actions[0]), actions[1..], id);
    }
  }

  lemma {:induction false} CleanUpRecovers(ids: set<HoldId>)
    ensures forall a | a in CleanUp(ids) :: a.Fence? || a.Reap?
    decreases |ids|
  {
    if ids != {} {
      var id :| id in ids && CleanUp(ids) == [Fence(id), Reap(id)] + CleanUp(ids - {id});
      CleanUpRecovers(ids - {id});
    }
  }

  /** Fence and reap everything, then reconcile. */
  ghost function Recovery(w: World): seq<Action> {
    CleanUp(w.state.holds.Keys) + [Reconcile]
  }

  lemma SweepRuns(w: World) returns (swept: World)
    requires Inv(w)
    ensures swept == Run(w, CleanUp(w.state.holds.Keys)) && Legal(w, CleanUp(w.state.holds.Keys))
    ensures Inv(swept) && Ended(swept.state, swept.state.holds.Keys)
  {
    var sweep := CleanUp(w.state.holds.Keys);
    swept := Run(w, sweep);
    CleanUpEnds(w, w.state.holds.Keys, {});
    LegalIsLooselyLegal(w, sweep);
    RunKeepsInv(w, sweep);
  }

  lemma RecoveryRuns(w: World)
    requires Inv(w)
    ensures Legal(w, Recovery(w))
    ensures var t := Run(w, Recovery(w)).state;
            t.reserved == Sum(FailedDebits(t)) && Quiescent(t)
  {
    var swept := SweepRuns(w);
    ReconcileLeavesTheFailed(swept);
    RunConcat(w, CleanUp(w.state.holds.Keys), [Reconcile]);
    RunOne(swept, Reconcile);
  }

  /**
   What recovery leaves, when the mark-failed rule may be broken: from the end of any such
   run, clean-up and one reconcile leave exactly the debited holds marked failed, so the pool
   is empty if and only if there are none.
   */
  lemma RecoveryLeavesTheFailed(limit: int, active: bool, actions: seq<Action>)
    requires limit >= 0
    requires LooselyLegal(Start(limit, active), actions)
    ensures var w := Run(Start(limit, active), actions);
            var t := Run(w, Recovery(w)).state;
            && t.reserved == Sum(FailedDebits(w.state))
            && (t.reserved == 0 <==> forall id :: !FailedDebit(w.state, id))
  {
    StartInv(limit, active);
    RunKeepsInv(Start(limit, active), actions);
    var w := Run(Start(limit, active), actions);
    RecoveryRuns(w);
    RecoveryKeepsFailedDebits(w);
    FailedTotal(w);
  }

  lemma RecoveryKeepsFailedDebits(w: World)
    requires Inv(w)
    ensures FailedDebits(Run(w, Recovery(w)).state) == FailedDebits(w.state)
  {
    var t := Run(w, Recovery(w)).state;
    CleanUpRecovers(w.state.holds.Keys);
    forall id
      ensures FailedDebit(t, id) <==> FailedDebit(w.state, id)
      ensures t.holds.Keys == w.state.holds.Keys && (id in t.holds ==> t.holds[id].amount == w.state.holds[id].amount)
    {
      RecoveryRunKeepsFailed(w, Recovery(w), id);
    }
  }

  lemma FailedTotal(w: World)
    requires Inv(w)
    ensures Sum(FailedDebits(w.state)) == 0 <==> forall id :: !FailedDebit(w.state, id)
  {
    forall id | id in w.state.holds
      ensures FailedDebits(w.state)[id] >= 0 && (FailedDebit(w.state, id) <==> FailedDebits(w.state)[id] > 0)
    {
      assert HoldConsistent(w, id);
    }
    SumBounds(FailedDebits(w.state));
    if forall id :: !FailedDebit(w.state, id) {
      SumZero(FailedDebits(w.state));
    } else {
      var id :| FailedDebit(w.state, id);
      assert FailedDebits(w.state)[id] <= Sum(FailedDebits(w.state));
    }
  }

  /** Under the rule no debited hold is ever marked failed. */
  lemma StepKeepsFailedUndebited(w: World, a: Action)
    requires Inv(w) && Allowed(w, a) && forall id :: !FailedDebit(w.state, id)
    ensures forall id :: !FailedDebit(Next(w, a).state, id)
  {
    forall id ensures !FailedDebit(Next(w, a).state, id) {
      assert !FailedDebit(w.state, id);
      if id in w.state.holds {
        assert HoldConsistent(w, id);
      }
    }
  }

  lemma {:induction false} RunKeepsFailedUndebited(w: World, actions: seq<Action>)
    requires Inv(w) && Legal(w, actions) && forall id :: !FailedDebit(w.state, id)
    ensures forall id :: !FailedDebit(Run(w, actions).state, id)
    decreases |actions|
  {
    if actions != [] {
      StepKeepsInv(w, actions[0]);
      StepKeepsFailedUndebited(w, actions[0]);
      RunKeepsFailedUndebited(Next(w, actions[0]), actions[1..]);
    }
  }

  /**
   Crash recovery is complete: from the end of any legal run, fencing and reaping what is
   left and reconciling once is itself legal, reaches quiescence and empties the pool.
   */
  lemma RecoveryIsComplete(limit: int, active: bool, actions: seq<Action>)
    requires limit >= 0
    requires Legal(Start(limit, active), actions)
    ensures var w := Run(Start(limit, active), actions);
            && Legal(w, Recovery(w))
            && Run(w, Recovery(w)).state.reserved == 0
            && Quiescent(Run(w, Recovery(w)).state)
  {
    StartInv(limit, active);
    LegalIsLooselyLegal(Start(limit, active), actions);
    RunKeepsInv(Start(limit, active), actions);
    RunKeepsFailedUndebited(Start(limit, active), actions);
    RecoveryRuns(Run(Start(limit, active), actions));
    RecoveryLeavesTheFailed(limit, active, actions);
  }

  /**
   Why "mark failed only after a definite reject" is a rule: a debited hold marked failed
   keeps the invariant but is beyond every action, for good.
   */
  lemma {:induction false} FailedDebitIsStranded(w: World, id: HoldId, actions: seq<Action>)
    requires w.state.holds.Keys == w.state.debited.Keys
    requires FailedDebit(w.state, id)
    ensures var t := Run(w, actions).state;
            FailedDebit(t, id) && t.holds[id].amount == w.state.holds[id].amount
    decreases |actions|
  {
    if actions != [] {
      StrandedOneStep(w, id, actions[0]);
      FailedDebitIsStranded(Next(w, actions[0]), id, actions[1..]);
    }
  }

  lemma StrandedOneStep(w: World, id: HoldId, a: Action)
    requires w.state.holds.Keys == w.state.debited.Keys && FailedDebit(w.state, id)
    ensures Next(w, a).state.holds.Keys == Next(w, a).state.debited.Keys
    ensures FailedDebit(Next(w, a).state, id) && Next(w, a).state.holds[id].amount == w.state.holds[id].amount
  {
  }

  /** The run that makes one: the commit applies, its reply is lost, and the client marks the hold failed. */
  lemma LostReplyMarkedFailed(limit: int, id: HoldId, amount: int)
    requires 0 < amount <= limit
    ensures var run := [Put(id, amount), Debit(id, AmbiguousApplied), MarkFailed(id)];
            && LooselyLegal(Start(limit, true), run)
            && !Legal(Start(limit, true), run)
            && FailedDebit(Run(Start(limit, true), run).state, id)
            && Run(Start(limit, true), run).state.reserved == amount
  {
    var a, b, c := Put(id, amount), Debit(id, AmbiguousApplied), MarkFailed(id);
    var w1 := Next(Start(limit, true), a);
    var w2 := Next(w1, b);
    var w3 := Next(w2, c);
    assert [a, b, c][1..] == [b, c] && [b, c][1..] == [c] && [c][1..] == [];
    assert Run(w2, [c]) == w3 && Run(w1, [b, c]) == w3;
    assert LooselyLegal(w3, []) && LooselyLegal(w2, [c]) && LooselyLegal(w1, [b, c]);
    assert !Legal(w2, [c]) && !Legal(w1, [b, c]);
  }
}
