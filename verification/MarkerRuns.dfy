/**
 Every interleaving of the shipped PENDING protocol. A world is the store plus what is not
 stored anywhere: which reservations were minted, which commits a client has seen, what
 each reconciler is holding between its read and its write, and how often each amount
 has moved.
 */
module MarkerRuns {
  import opened Options
  import opened Sums
  import opened MarkerItems

  /** A reservation as it was minted; `pending` says which reserve path owns it. */
  datatype Reservation = Reservation(amount: int, pending: bool)

  /** A reconciler between two of its steps on one hold. */
  datatype Ticket =
    | Listed(id: HoldId)                   // saw the row EXPIRED_UNCREDITED
    | ReadReserved(id: HoldId, amount: int) // saw the marker RESERVED
    | Definite(id: HoldId)                 // credited, or nothing to credit: may retire

  datatype World = World(
    store: Store,
    minted: map<HoldId, Reservation>,
    seen: set<HoldId>,
    tickets: map<nat, Ticket>,
    added: map<HoldId, int>,
    returned: map<HoldId, int>,
    late: set<HoldId>)

  datatype Step =
    | Reserve(id: HoldId, amount: int)
    | PutPending(id: HoldId, amount: int)
    | Commit(id: HoldId)
    | SeeMarker(id: HoldId)
    | Activate(id: HoldId)
    | Fence(id: HoldId)
    | MarkFailed(id: HoldId)
    | Retain(id: HoldId)
    | End(id: HoldId, actual: int)
    | Reclaim(id: HoldId)
    | CleanMarker(id: HoldId)
    | List(worker: nat, id: HoldId)
    | ReadMarker(worker: nat)
    | CreditBack(worker: nat)
    | Retire(worker: nat)
    | Crash(worker: nat)
    | Spend(actual: int)
    | AdjustLimit(delta: int)

  function Bump(m: map<HoldId, int>, id: HoldId): map<HoldId, int> {
    m[id := ValueOr0(m, id) + 1]
  }

  function Mint(w: World, s: Store, id: HoldId, amount: int, pending: bool): World {
    w.(store := s, minted := w.minted[id := Reservation(amount, pending)])
  }

  /**
   What the callers do before they issue a write: an id is minted once (the idempotency
   intent is permanent); a client commits only its own pending reservation, with the
   amount it minted; it activates only after seeing the marker; and a marker is cleaned up
   only when its hold row is gone.
   */
  predicate Enabled(w: World, step: Step) {
    match step
    case Reserve(id, amount) => id !in w.minted && amount > 0
    case PutPending(id, amount) => id !in w.minted && amount > 0
    case Commit(id) => id in w.minted && w.minted[id].pending
    case SeeMarker(id) => id in w.store.markers
    case Activate(id) => id in w.seen
    case CleanMarker(id) => id in w.minted && id !in w.store.rows
    case List(worker, id) => worker !in w.tickets && w.store.RowIs(id, EXPIRED_UNCREDITED)
    case ReadMarker(worker) => worker in w.tickets && w.tickets[worker].Listed?
    case CreditBack(worker) => worker in w.tickets && w.tickets[worker].ReadReserved?
    case Retire(worker) => worker in w.tickets && w.tickets[worker].Definite?
    case _ => true
  }

  function Next(w: World, step: Step): World
    requires Enabled(w, step)
  {
    match step
    case Reserve(id, amount) =>
      var (s, ok) := ReserveTxn(w.store, id, amount);
      if ok then Mint(w, s, id, amount, false).(added := Bump(w.added, id)) else w
    case PutPending(id, amount) =>
      var (s, ok) := PutRow(w.store, id, amount, PENDING);
      if ok then Mint(w, s, id, amount, true) else w
    case Commit(id) =>
      var (s, outcome) := CommitTxn(w.store, id, w.minted[id].amount);
      if outcome.Applied? then
        w.(store := s, added := Bump(w.added, id),
           late := if w.store.RowIs(id, PENDING) then w.late else w.late + {id})
      else w
    case SeeMarker(id) => w.(seen := w.seen + {id})
    case Activate(id) => w.(store := Transition(w.store, id, PENDING, ACTIVE).0)
    case Fence(id) => w.(store := Transition(w.store, id, PENDING, EXPIRED_UNCREDITED).0)
    case MarkFailed(id) =>
      w.(store := Transition(w.store, id, PENDING, FAILED).0,
         late := if w.store.RowIs(id, PENDING) && id in w.store.markers then w.late + {id} else w.late)
    case Retain(id) => w.(store := MarkerItems.Retain(w.store, id).0)
    case End(id, actual) =>
      if Endable(w.store, id) then
        w.(store := EndTxn(w.store, id, w.store.rows[id].amount, actual).0, returned := Bump(w.returned, id))
      else w
    case Reclaim(id) =>
      if Reclaimable(w.store, id) then
        w.(store := ReclaimTxn(w.store, id, w.store.rows[id].amount).0, returned := Bump(w.returned, id))
      else w
    case CleanMarker(id) => w.(store := SettleMarker(w.store, id))
    case List(worker, id) => w.(tickets := w.tickets[worker := Listed(id)])
    case ReadMarker(worker) =>
      var id := w.tickets[worker].id;
      w.(tickets := w.tickets[worker :=
           if w.store.MarkerIs(id, RESERVED) then ReadReserved(id, w.store.markers[id].amount) else Definite(id)])
    case CreditBack(worker) =>
      var id := w.tickets[worker].id;
      var (s, ok) := CreditBackTxn(w.store, id, w.tickets[worker].amount);
      w.(store := s,
         tickets := w.tickets[worker := Definite(id)],
         returned := if ok then Bump(w.returned, id) else w.returned)
    case Retire(worker) =>
      w.(store := Transition(w.store, w.tickets[worker].id, EXPIRED_UNCREDITED, RECLAIMED).0,
         tickets := w.tickets - {worker})
    case Crash(worker) => w.(tickets := w.tickets - {worker})
    case Spend(actual) => w.(store := Apply(w.store, WSpend(actual)))
    case AdjustLimit(delta) => w.(store := Apply(w.store, WAdjustLimit(delta)))
  }

  /** The worlds a run of enabled steps can reach. */
  ghost predicate Reaches(w: World, steps: seq<Step>, w': World)
    decreases |steps|
  {
    if steps == [] then w' == w
    else Enabled(w, steps[0]) && Reaches(Next(w, steps[0]), steps[1..], w')
  }

  function Start(limit: int, active: bool): World {
    World(Store(Pool(limit, limit, 0, 0, active), map[], map[]), map[], {}, map[], map[], map[], {})
  }

  // ----- the invariant -----

  /** Everything the world says about one reservation. */
  datatype Local = Local(
    owner: Option<Reservation>,
    row: Option<HoldRow>,
    marker: Option<Marker>,
    added: int,
    returned: int)
  {
    predicate RowIs(status: RowStatus) {
      row.Some? && row.value.status == status
    }

    predicate MarkerIs(phase: Phase) {
      marker.Some? && marker.value.phase == phase
    }

    /** What the reservation still has out of the pool. */
    function Out(): int {
      if owner.Some? then owner.value.amount * (added - returned) else 0
    }

    /** The hold has left the reach of settle, release and reap, for good. */
    predicate FencedOff() {
      RowIs(EXPIRED_UNCREDITED) || RowIs(RECLAIMED)
    }

    predicate Moved(a: int, r: int) {
      added == a && returned == r
    }

    /** The moves that the marker proves. */
    predicate MovedAsMarked() {
      Moved(if marker.Some? then 1 else 0, if MarkerIs(SETTLED) then 1 else 0)
    }

    /** What a reservation's row and marker say about its moves. */
    predicate Consistent() {
      if owner.None? then row.None? && marker.None? && Moved(0, 0)
      else
        && owner.value.amount > 0
        && (row.Some? ==> row.value.amount == owner.value.amount)
        && (marker.Some? ==> owner.value.pending && marker.value.amount == owner.value.amount)
        && if row.None? then Moved(1, 1) && (owner.value.pending ==> marker.Some?)
           else match row.value.status
             case NoStatus => !owner.value.pending && Moved(1, 0)
             case ACTIVE => MarkerIs(RESERVED) && Moved(1, 0)
             case RETAINED => (owner.value.pending ==> MarkerIs(RESERVED)) && Moved(1, 0)
             case PENDING => owner.value.pending && !MarkerIs(SETTLED) && MovedAsMarked()
             case FAILED => owner.value.pending && !MarkerIs(SETTLED) && MovedAsMarked()
             case EXPIRED_UNCREDITED => owner.value.pending && MovedAsMarked()
             case RECLAIMED => owner.value.pending && MovedAsMarked()
    }

    predicate Honours(t: Ticket) {
      FencedOff() && owner.Some? && (t.ReadReserved? ==> t.amount == owner.value.amount)
    }

    /** A committed reservation no recovery path will look at again. */
    predicate IsStranded() {
      (RowIs(RECLAIMED) || RowIs(FAILED)) && MarkerIs(RESERVED)
    }
  }

  function LocalOf(w: World, id: HoldId): Local {
    Local(Lookup(w.minted, id), Lookup(w.store.rows, id), Lookup(w.store.markers, id),
          ValueOr0(w.added, id), ValueOr0(w.returned, id))
  }

  ghost function Outstanding(w: World): map<HoldId, int> {
    map id | id in w.minted :: LocalOf(w, id).Out()
  }

  ghost predicate Inv(w: World) {
    && (forall id :: LocalOf(w, id).Consistent())
    && (forall id :: id in w.seen ==> LocalOf(w, id).marker.Some?)
    && (forall k :: k in w.tickets ==> LocalOf(w, w.tickets[k].id).Honours(w.tickets[k]))
    && w.store.pool.reserved == Sum(Outstanding(w))
    && Sound(w.store.pool)
  }

  /** The one reservation a step may touch. */
  function Subject(w: World, step: Step): HoldId
    requires Enabled(w, step)
  {
    match step
    case ReadMarker(worker) => w.tickets[worker].id
    case CreditBack(worker) => w.tickets[worker].id
    case Retire(worker) => w.tickets[worker].id
    case Crash(_) => ""
    case Spend(_) => ""
    case AdjustLimit(_) => ""
    case _ => step.id
  }

  /** No other reservation changes. */
  lemma Frame(w: World, step: Step, id: HoldId)
    requires Enabled(w, step) && id != Subject(w, step)
    ensures LocalOf(Next(w, step), id) == LocalOf(w, id)
    ensures id in Next(w, step).minted <==> id in w.minted
  {
  }

  /** What a step does to the reservation it touches. */
  datatype Action =
    | Nothing
    | Minted(amount: int, pending: bool)  // reserved in one transaction, or put PENDING
    | Committed
    | Moved(from: RowStatus, to: RowStatus)
    | RowEnded
    | MarkerCleaned
    | CreditedBack

  function ActionOf(w: World, step: Step): Action
    requires Enabled(w, step)
  {
    match step
    case Reserve(id, amount) => if ReserveTxn(w.store, id, amount).1 then Minted(amount, false) else Nothing
    case PutPending(id, amount) => if id !in w.store.rows then Minted(amount, true) else Nothing
    case Commit(id) => if CommitTxn(w.store, id, w.minted[id].amount).1.Applied? then Committed else Nothing
    case Activate(_) => Moved(PENDING, ACTIVE)
    case Fence(_) => Moved(PENDING, EXPIRED_UNCREDITED)
    case MarkFailed(_) => Moved(PENDING, FAILED)
    case Retain(id) => Moved(if w.store.RowIs(id, ACTIVE) then ACTIVE else NoStatus, RETAINED)
    case End(id, _) => if Endable(w.store, id) then RowEnded else Nothing
    case Reclaim(id) => if Reclaimable(w.store, id) then RowEnded else Nothing
    case CleanMarker(_) => MarkerCleaned
    case CreditBack(worker) => if w.store.MarkerIs(w.tickets[worker].id, RESERVED) then CreditedBack else Nothing
    case Retire(_) => Moved(EXPIRED_UNCREDITED, RECLAIMED)
    case _ => Nothing
  }

  function LocalNext(l: Local, a: Action): Local {
    match a
    case Nothing => l
    case Minted(amount, pending) =>
      l.(owner := Some(Reservation(amount, pending)),
         row := Some(HoldRow(amount, if pending then PENDING else NoStatus)),
         added := if pending then l.added else l.added + 1)
    case Committed =>
      l.(marker := if l.owner.Some? then Some(Marker(l.owner.value.amount, RESERVED)) else l.marker,
         added := l.added + 1)
    case Moved(from, to) =>
      l.(row := if l.RowIs(from) then Some(l.row.value.(status := to)) else l.row)
    case RowEnded => l.(row := None, returned := l.returned + 1)
    case MarkerCleaned => l.(marker := Cleaned(l.marker))
    case CreditedBack => l.(marker := Cleaned(l.marker), returned := l.returned + 1)
  }

  function Cleaned(m: Option<Marker>): Option<Marker> {
    if m.Some? then Some(m.value.(phase := SETTLED)) else None
  }

  /** The rules of `Enabled`, as one reservation sees them. */
  predicate Fair(l: Local, a: Action) {
    match a
    case Nothing => true
    case Minted(amount, _) => l.owner.None? && amount > 0
    case Committed => l.owner.Some? && l.owner.value.pending && l.marker.None?
    case Moved(from, to) =>
      || (from.PENDING? && to.ACTIVE? && l.marker.Some?)
      || (from.PENDING? && (to.EXPIRED_UNCREDITED? || to.FAILED?))
      || ((from.ACTIVE? || from.NoStatus?) && to.RETAINED?)
      || (from.EXPIRED_UNCREDITED? && to.RECLAIMED?)
    case RowEnded => l.RowIs(ACTIVE) || l.RowIs(RETAINED) || l.RowIs(NoStatus)
    case MarkerCleaned => l.owner.Some? && l.row.None?
    case CreditedBack => l.FencedOff() && l.MarkerIs(RESERVED)
  }

  lemma LocalKeepsConsistent(l: Local, a: Action)
    requires l.Consistent() && Fair(l, a)
    ensures LocalNext(l, a).Consistent()
    ensures l.owner.Some? ==> LocalNext(l, a).owner == l.owner
    ensures l.FencedOff() ==> LocalNext(l, a).FencedOff()
    ensures l.marker.Some? ==> LocalNext(l, a).marker.Some?
  {
  }

  predicate Opens(step: Step) {
    step.Reserve? || step.PutPending? || step.Commit?
  }

  lemma OpeningAction(w: World, step: Step)
    requires Enabled(w, step) && Opens(step)
    ensures LocalOf(Next(w, step), Subject(w, step)) == LocalNext(LocalOf(w, Subject(w, step)), ActionOf(w, step))
  {
    if step.Commit? && ActionOf(w, step).Committed? {
      assert Next(w, step).store.markers[step.id] == Marker(w.minted[step.id].amount, RESERVED);
    }
  }

  lemma LaterAction(w: World, step: Step)
    requires Enabled(w, step) && !Opens(step)
    ensures LocalOf(Next(w, step), Subject(w, step)) == LocalNext(LocalOf(w, Subject(w, step)), ActionOf(w, step))
  {
  }

  /** A step changes the touched reservation by its action, and nothing else of it. */
  lemma SubjectAction(w: World, step: Step)
    requires Enabled(w, step)
    ensures LocalOf(Next(w, step), Subject(w, step)) == LocalNext(LocalOf(w, Subject(w, step)), ActionOf(w, step))
  {
    if Opens(step) {
      OpeningAction(w, step);
    } else {
      LaterAction(w, step);
    }
  }

  lemma SubjectFair(w: World, step: Step)
    requires Inv(w) && Enabled(w, step)
    ensures Fair(LocalOf(w, Subject(w, step)), ActionOf(w, step))
    ensures LocalOf(w, Subject(w, step)).Consistent()
  {
  }

  /** How an action moves the reserved counter. */
  function Flow(l: Local, a: Action): int {
    match a
    case Minted(amount, pending) => if pending then 0 else amount
    case Committed => if l.owner.Some? then l.owner.value.amount else 0
    case RowEnded => if l.row.Some? then -l.row.value.amount else 0
    case CreditedBack => if l.marker.Some? then -l.marker.value.amount else 0
    case _ => 0
  }

  lemma LocalFlow(l: Local, a: Action)
    requires l.Consistent() && Fair(l, a)
    ensures LocalNext(l, a).Out() - l.Out() == Flow(l, a)
  {
    if a.Minted? {
      assert l.added == l.returned == 0;
    } else if a.Committed? || a.RowEnded? || a.CreditedBack? {
      var amount, d := l.owner.value.amount, l.added - l.returned;
      assert amount * (d + 1) == amount * d + amount && amount * (d - 1) == amount * d - amount;
    }
  }

  predicate Sound(p: Pool) {
    p.headroom == p.limit - p.reserved - p.settled
  }

  /** The pool moves by what the touched reservation moves. */
  lemma PoolFollows(w: World, step: Step)
    requires Enabled(w, step)
    requires step.CreditBack? ==> LocalOf(w, Subject(w, step)).MarkerIs(RESERVED) ==>
               w.tickets[step.worker].amount == w.store.markers[Subject(w, step)].amount
    ensures Next(w, step).store.pool.reserved - w.store.pool.reserved ==
            Flow(LocalOf(w, Subject(w, step)), ActionOf(w, step))
  {
  }

  lemma PoolStaysSound(w: World, step: Step)
    requires Enabled(w, step)
    ensures Sound(w.store.pool) ==> Sound(Next(w, step).store.pool)
  {
  }

  lemma CreditsTheMarkersAmount(w: World, step: Step)
    requires Inv(w) && Enabled(w, step) && step.CreditBack?
    ensures LocalOf(w, Subject(w, step)).MarkerIs(RESERVED) ==>
              w.tickets[step.worker].amount == w.store.markers[Subject(w, step)].amount
  {
  }

  /** The touched reservation stays consistent. */
  lemma SubjectStep(w: World, step: Step)
    requires Inv(w) && Enabled(w, step)
    ensures var l, l' := LocalOf(w, Subject(w, step)), LocalOf(Next(w, step), Subject(w, step));
            && l.Consistent() && l'.Consistent()
            && (l.owner.Some? ==> l'.owner == l.owner)
            && (l.FencedOff() ==> l'.FencedOff())
            && (l.marker.Some? ==> l'.marker.Some?)
  {
    SubjectFair(w, step);
    SubjectAction(w, step);
    LocalKeepsConsistent(LocalOf(w, Subject(w, step)), ActionOf(w, step));
  }

  lemma OutstandingChange(w: World, w': World, id: HoldId)
    requires forall j :: j != id ==> LocalOf(w', j) == LocalOf(w, j) && (j in w'.minted <==> j in w.minted)
    ensures Sum(Outstanding(w')) == Sum(Outstanding(w)) - LocalOf(w, id).Out() + LocalOf(w', id).Out()
  {
    SumOneKey(Outstanding(w), Outstanding(w'), id);
  }

  lemma TicketsKept(w: World, step: Step, k: nat)
    requires Inv(w) && Enabled(w, step) && k in Next(w, step).tickets
    ensures LocalOf(Next(w, step), Next(w, step).tickets[k].id).Honours(Next(w, step).tickets[k])
  {
    var t := Next(w, step).tickets[k];
    if k in w.tickets {
      assert LocalOf(w, w.tickets[k].id).Honours(w.tickets[k]);
    }
    TicketIssued(w, step, k);
    if t.id == Subject(w, step) {
      SubjectStep(w, step);
    } else {
      Frame(w, step, t.id);
    }
  }

  /** Only a reconciler's own step changes its ticket. */
  lemma TicketChange(w: World, step: Step, k: nat)
    requires Enabled(w, step) && k in Next(w, step).tickets
    ensures || (k in w.tickets && Next(w, step).tickets[k] == w.tickets[k])
            || (step == List(k, Subject(w, step)) && Next(w, step).tickets[k] == Listed(Subject(w, step)))
            || ((step == ReadMarker(k) || step == CreditBack(k)) && k in w.tickets
                && Next(w, step).tickets[k].id == w.tickets[k].id
                && (Next(w, step).tickets[k].ReadReserved? ==>
                      LocalOf(w, w.tickets[k].id).marker.Some?
                      && LocalOf(w, w.tickets[k].id).marker.value.amount == Next(w, step).tickets[k].amount))
  {
  }

  /** A ticket is only ever issued for what the world says now. */
  lemma TicketIssued(w: World, step: Step, k: nat)
    requires Inv(w) && Enabled(w, step) && k in Next(w, step).tickets
    requires k in w.tickets ==> LocalOf(w, w.tickets[k].id).Honours(w.tickets[k])
    ensures LocalOf(w, Next(w, step).tickets[k].id).Honours(Next(w, step).tickets[k])
  {
    TicketChange(w, step, k);
    assert LocalOf(w, Next(w, step).tickets[k].id).Consistent();
  }

  /** Every step keeps the invariant. */
  lemma StepKeepsInv(w: World, step: Step)
    requires Inv(w) && Enabled(w, step)
    ensures Inv(Next(w, step))
  {
    var w', subject := Next(w, step), Subject(w, step);
    SubjectStep(w, step);
    SubjectAction(w, step);
    SubjectFair(w, step);
    LocalFlow(LocalOf(w, subject), ActionOf(w, step));
    if step.CreditBack? { CreditsTheMarkersAmount(w, step); }
    PoolFollows(w, step);
    PoolStaysSound(w, step);
    forall id | id != subject
      ensures LocalOf(w', id) == LocalOf(w, id) && (id in w'.minted <==> id in w.minted)
    {
      Frame(w, step, id);
    }
    OutstandingChange(w, w', subject);
    forall k | k in w'.tickets ensures LocalOf(w', w'.tickets[k].id).Honours(w'.tickets[k]) {
      TicketsKept(w, step, k);
    }
    SeenKept(w, step);
  }

  lemma SeenKept(w: World, step: Step)
    requires Inv(w) && Enabled(w, step)
    ensures forall id :: id in Next(w, step).seen ==> LocalOf(Next(w, step), id).marker.Some?
  {
    forall id | id in Next(w, step).seen ensures LocalOf(Next(w, step), id).marker.Some? {
      SubjectStep(w, step);
      if id != Subject(w, step) { Frame(w, step, id); }
      if id in w.seen { assert LocalOf(w, id).marker.Some?; }
    }
  }

  lemma {:induction false} RunKeepsInv(w: World, steps: seq<Step>, w': World)
    requires Inv(w) && Reaches(w, steps, w')
    ensures Inv(w')
    decreases |steps|
  {
    if steps != [] {
      StepKeepsInv(w, steps[0]);
      RunKeepsInv(Next(w, steps[0]), steps[1..], w');
    }
  }

  lemma StartInv(limit: int, active: bool)
    ensures Inv(Start(limit, active))
  {
  }

  /**
   At most once, over every interleaving: each amount is added to the reserved counter at
   most once and returned at most once, never returned without having been added, and the
   counter is exactly what is out.
   */
  lemma MovesAtMostOnce(limit: int, active: bool, steps: seq<Step>, w: World)
    requires Reaches(Start(limit, active), steps, w)
    ensures forall id :: 0 <= ValueOr0(w.returned, id) <= ValueOr0(w.added, id) <= 1
    ensures w.store.pool.reserved == Sum(Outstanding(w)) >= 0
    ensures w.store.pool.headroom == w.store.pool.limit - w.store.pool.reserved - w.store.pool.settled
  {
    StartInv(limit, active);
    RunKeepsInv(Start(limit, active), steps, w);
    forall id
      ensures 0 <= ValueOr0(w.returned, id) <= ValueOr0(w.added, id) <= 1
      ensures LocalOf(w, id).Out() >= 0
    {
      assert LocalOf(w, id).Consistent();
      ConsistentMoves(LocalOf(w, id));
    }
    SumBounds(Outstanding(w));
  }

  lemma ConsistentMoves(l: Local)
    requires l.Consistent()
    ensures 0 <= l.returned <= l.added <= 1 && l.Out() >= 0
  {
  }

  // ----- recovery -----

  function StrandedOf(l: Local): int {
    if l.IsStranded() && l.owner.Some? then l.owner.value.amount else 0
  }

  function RetainedOf(l: Local): int {
    if l.RowIs(RETAINED) && l.owner.Some? then l.owner.value.amount else 0
  }

  ghost function Stranded(w: World): map<HoldId, int> {
    map id | id in w.minted :: StrandedOf(LocalOf(w, id))
  }

  ghost function Retained(w: World): map<HoldId, int> {
    map id | id in w.minted :: RetainedOf(LocalOf(w, id))
  }

  /** The fencer, the reaper and the reconciler have nothing left to do on this hold. */
  predicate Finished(l: Local) {
    l.row.None? || l.row.value.status in {RETAINED, RECLAIMED, FAILED}
  }

  lemma FinishedOut(l: Local)
    requires l.Consistent() && Finished(l)
    ensures l.Out() == RetainedOf(l) + StrandedOf(l)
    requires l.RowIs(RECLAIMED) || l.RowIs(FAILED) || l.RowIs(RETAINED) || l.row.None?
  {
  }

  /** What a drained pool still holds out is what is deliberately retained and what is stranded. */
  lemma DrainedPool(w: World)
    requires Inv(w) && forall id :: Finished(LocalOf(w, id))
    ensures w.store.pool.reserved == Sum(Retained(w)) + Sum(Stranded(w))
  {
    forall id | id in w.minted
      ensures Outstanding(w)[id] == Retained(w)[id] + Stranded(w)[id]
    {
      assert LocalOf(w, id).Consistent() && Finished(LocalOf(w, id));
      FinishedOut(LocalOf(w, id));
    }
    SumAdd(Retained(w), Stranded(w), Outstanding(w));
  }

  /** Only a debit that landed after its hold was fenced or failed can be stranded. */
  ghost predicate StrandedAreLate(w: World) {
    && (forall id :: LocalOf(w, id).IsStranded() ==> id in w.late)
    && (forall k :: k in w.tickets ==> DefiniteIsClear(w, w.tickets[k]))
  }

  /** A reconciler about to retire a hold has credited it, unless the debit came late. */
  predicate DefiniteIsClear(w: World, t: Ticket) {
    t.Definite? && LocalOf(w, t.id).MarkerIs(RESERVED) ==> t.id in w.late
  }

  /** Which actions leave a hold stranded, or put a RESERVED marker behind a fence. */
  lemma LocalLate(l: Local, a: Action)
    requires l.Consistent() && Fair(l, a)
    ensures LocalNext(l, a).IsStranded() && !l.IsStranded() ==>
      || (a.Committed? && !l.RowIs(PENDING))
      || (a == Moved(PENDING, FAILED) && l.RowIs(PENDING) && l.marker.Some?)
      || (a == Moved(EXPIRED_UNCREDITED, RECLAIMED) && l.MarkerIs(RESERVED))
    ensures l.FencedOff() && LocalNext(l, a).MarkerIs(RESERVED) && !l.MarkerIs(RESERVED) ==>
      a.Committed? && !l.RowIs(PENDING)
  {
  }

  lemma SubjectLate(w: World, step: Step)
    requires Inv(w) && StrandedAreLate(w) && Enabled(w, step)
    ensures LocalOf(Next(w, step), Subject(w, step)).IsStranded() ==> Subject(w, step) in Next(w, step).late
    ensures (LocalOf(w, Subject(w, step)).FencedOff()
             && LocalOf(Next(w, step), Subject(w, step)).MarkerIs(RESERVED)
             && !LocalOf(w, Subject(w, step)).MarkerIs(RESERVED))
            ==> Subject(w, step) in Next(w, step).late
  {
    var id := Subject(w, step);
    SubjectFair(w, step);
    SubjectAction(w, step);
    LocalLate(LocalOf(w, id), ActionOf(w, step));
    LateGrows(w, step);
    assert LocalOf(w, id).IsStranded() ==> id in w.late;
    if step.Retire? { assert DefiniteIsClear(w, w.tickets[step.worker]); }
  }

  /** The late set only grows, and holds what each late step touched. */
  lemma LateGrows(w: World, step: Step)
    requires Enabled(w, step)
    ensures w.late <= Next(w, step).late
    ensures (ActionOf(w, step).Committed? && !w.store.RowIs(Subject(w, step), PENDING))
            ==> Subject(w, step) in Next(w, step).late
    ensures (ActionOf(w, step) == Moved(PENDING, FAILED) && w.store.RowIs(Subject(w, step), PENDING)
             && Subject(w, step) in w.store.markers)
            ==> Subject(w, step) in Next(w, step).late
    ensures ActionOf(w, step) == Moved(EXPIRED_UNCREDITED, RECLAIMED) ==> step.Retire?
  {
  }

  lemma TicketLate(w: World, step: Step, k: nat)
    requires Inv(w) && StrandedAreLate(w) && Enabled(w, step) && k in Next(w, step).tickets
    ensures DefiniteIsClear(Next(w, step), Next(w, step).tickets[k])
  {
    var t := Next(w, step).tickets[k];
    if t.Definite? {
      SubjectLate(w, step);
      LateGrows(w, step);
      DefiniteTicket(w, step, k);
      assert LocalOf(w, w.tickets[k].id).Honours(w.tickets[k]);
      assert DefiniteIsClear(w, w.tickets[k]);
      if t.id != Subject(w, step) { Frame(w, step, t.id); }
    }
  }

  /** A ticket turns definite only by reading no RESERVED marker, or by crediting it back. */
  lemma DefiniteTicket(w: World, step: Step, k: nat)
    requires Enabled(w, step) && k in Next(w, step).tickets && Next(w, step).tickets[k].Definite?
    ensures k in w.tickets && w.tickets[k].id == Next(w, step).tickets[k].id
    ensures w.tickets[k].Definite? || !LocalOf(Next(w, step), w.tickets[k].id).MarkerIs(RESERVED)
  {
  }

  lemma StepKeepsLate(w: World, step: Step)
    requires Inv(w) && StrandedAreLate(w) && Enabled(w, step)
    ensures StrandedAreLate(Next(w, step))
  {
    SubjectLate(w, step);
    LateGrows(w, step);
    forall id | LocalOf(Next(w, step), id).IsStranded() ensures id in Next(w, step).late {
      if id != Subject(w, step) { Frame(w, step, id); }
    }
    forall k | k in Next(w, step).tickets ensures DefiniteIsClear(Next(w, step), Next(w, step).tickets[k]) {
      TicketLate(w, step, k);
    }
  }

  lemma {:induction false} RunKeepsLate(w: World, steps: seq<Step>, w': World)
    requires Inv(w) && StrandedAreLate(w) && Reaches(w, steps, w')
    ensures Inv(w') && StrandedAreLate(w')
    decreases |steps|
  {
    if steps != [] {
      StepKeepsInv(w, steps[0]);
      StepKeepsLate(w, steps[0]);
      RunKeepsLate(Next(w, steps[0]), steps[1..], w');
    }
  }

  lemma StrandedTotal(w: World)
    requires Inv(w)
    ensures Sum(Stranded(w)) == 0 <==> forall id :: !LocalOf(w, id).IsStranded()
  {
    forall id | id in w.minted
      ensures Stranded(w)[id] >= 0 && (LocalOf(w, id).IsStranded() <==> Stranded(w)[id] > 0)
    {
      assert LocalOf(w, id).Consistent();
    }
    SumBounds(Stranded(w));
    if forall id :: !LocalOf(w, id).IsStranded() {
      SumZero(Stranded(w));
    } else {
      var id :| LocalOf(w, id).IsStranded();
      assert LocalOf(w, id).Consistent();
      assert id in w.minted && Stranded(w)[id] <= Sum(Stranded(w));
    }
  }

  /**
   Full recovery: once drained, with nothing retained, the pool is empty if and only if no
   debit is stranded; and a run in which no debit lands after its hold left PENDING, and no
   debited hold is marked failed, strands none.
   */
  lemma RecoveryIsFullIff(limit: int, active: bool, steps: seq<Step>, w: World)
    requires Reaches(Start(limit, active), steps, w)
    requires forall id :: Finished(LocalOf(w, id)) && !LocalOf(w, id).RowIs(RETAINED)
    ensures w.store.pool.reserved == 0 <==> forall id :: !LocalOf(w, id).IsStranded()
    ensures w.late == {} ==> w.store.pool.reserved == 0
  {
    StartInv(limit, active);
    RunKeepsLate(Start(limit, active), steps, w);
    DrainedPool(w);
    forall id | id in w.minted ensures Retained(w)[id] == 0 {
      assert !LocalOf(w, id).RowIs(RETAINED);
    }
    SumZero(Retained(w));
    StrandedTotal(w);
  }

  /** Stranded is for good: no later step moves such a hold or its marker. */
  lemma {:induction false} StrandedForever(w: World, steps: seq<Step>, w': World, id: HoldId)
    requires Inv(w) && LocalOf(w, id).IsStranded() && Reaches(w, steps, w')
    requires forall k :: k in w.tickets ==> w.tickets[k].id != id
    ensures LocalOf(w', id) == LocalOf(w, id)
    decreases |steps|
  {
    if steps != [] {
      StepKeepsInv(w, steps[0]);
      StrandedStays(w, steps[0], id);
      StrandedForever(Next(w, steps[0]), steps[1..], w', id);
    }
  }

  lemma StrandedStays(w: World, step: Step, id: HoldId)
    requires Inv(w) && LocalOf(w, id).IsStranded() && Enabled(w, step)
    requires forall k :: k in w.tickets ==> w.tickets[k].id != id
    ensures LocalOf(Next(w, step), id) == LocalOf(w, id)
    ensures forall k :: k in Next(w, step).tickets ==> Next(w, step).tickets[k].id != id
  {
    SubjectFair(w, step);
    if id != Subject(w, step) {
      Frame(w, step, id);
    } else {
      SubjectAction(w, step);
      StrandedUnmoved(LocalOf(w, id), ActionOf(w, step));
    }
    NoTicketAppears(w, step, id);
  }

  lemma StrandedUnmoved(l: Local, a: Action)
    requires l.Consistent() && l.IsStranded() && Fair(l, a) && !a.CreditedBack?
    ensures LocalNext(l, a) == l
  {
  }

  lemma NoTicketAppears(w: World, step: Step, id: HoldId)
    requires Enabled(w, step) && !w.store.RowIs(id, EXPIRED_UNCREDITED)
    requires forall k :: k in w.tickets ==> w.tickets[k].id != id
    ensures forall k :: k in Next(w, step).tickets ==> Next(w, step).tickets[k].id != id
  {
  }

  lemma {:induction false} Compose(w: World, a: seq<Step>, w1: World, b: seq<Step>, w2: World)
    requires Reaches(w, a, w1) && Reaches(w1, b, w2)
    ensures Reaches(w, a + b, w2)
    decreases |a|
  {
    if a == [] {
      assert a + b == b;
    } else {
      Compose(Next(w, a[0]), a[1..], w1, b, w2);
      assert (a + b)[1..] == a[1..] + b;
    }
  }

  lemma TwoSteps(w: World, a: Step, b: Step) returns (w2: World)
    requires Enabled(w, a) && Enabled(Next(w, a), b)
    ensures w2 == Next(Next(w, a), b) && Reaches(w, [a, b], w2)
  {
    w2 := Next(Next(w, a), b);
    assert [a, b][1..] == [b] && [b][1..] == [];
  }

  /** A pending hold, fenced before its debit. */
  function FencedHold(limit: int, id: HoldId, amount: int): World {
    World(Store(Pool(limit, limit, 0, 0, true), map[id := HoldRow(amount, EXPIRED_UNCREDITED)], map[]),
          map[id := Reservation(amount, true)], {}, map[], map[], map[], {})
  }

  lemma FenceFirst(limit: int, id: HoldId, amount: int)
    requires 0 < amount
    ensures Reaches(Start(limit, true), [PutPending(id, amount), Fence(id)], FencedHold(limit, id, amount))
  {
  }

  lemma ReadBeforeTheDebit(limit: int, id: HoldId, amount: int)
    requires 0 < amount
    ensures Reaches(FencedHold(limit, id, amount), [List(0, id), ReadMarker(0)],
                    FencedHold(limit, id, amount).(tickets := map[0 := Definite(id)]))
  {
  }

  lemma DebitThenRetire(limit: int, id: HoldId, amount: int) returns (w: World)
    requires 0 < amount <= limit
    ensures Reaches(FencedHold(limit, id, amount).(tickets := map[0 := Definite(id)]), [Commit(id), Retire(0)], w)
    ensures LocalOf(w, id).IsStranded() && w.store.pool.reserved == amount
    ensures forall j :: Finished(LocalOf(w, j)) && !LocalOf(w, j).RowIs(RETAINED)
  {
    w := TwoSteps(FencedHold(limit, id, amount).(tickets := map[0 := Definite(id)]), Commit(id), Retire(0));
  }

  /**
   A debit can come late and be lost to recovery: it lands after its hold was fenced and the
   reconciler has read no marker, and the hold is then retired. Safety holds; the amount stays out.
   */
  lemma LateCommitStrands(limit: int, id: HoldId, amount: int) returns (w: World)
    requires 0 < amount <= limit
    ensures Reaches(Start(limit, true), [PutPending(id, amount), Fence(id)] + [List(0, id), ReadMarker(0)] + [Commit(id), Retire(0)], w)
    ensures LocalOf(w, id).IsStranded() && w.store.pool.reserved == amount
    ensures forall j :: Finished(LocalOf(w, j)) && !LocalOf(w, j).RowIs(RETAINED)
  {
    FenceFirst(limit, id, amount);
    ReadBeforeTheDebit(limit, id, amount);
    w := DebitThenRetire(limit, id, amount);
    var start, fenced := Start(limit, true), FencedHold(limit, id, amount);
    var read := fenced.(tickets := map[0 := Definite(id)]);
    var a, b, c := [PutPending(id, amount), Fence(id)], [List(0, id), ReadMarker(0)], [Commit(id), Retire(0)];
    Compose(start, a, fenced, b, read);
    Compose(start, a + b, read, c, w);
  }

  /**
   Why an id is minted once. The table alone would take a second put of an ended id, whose
   replayed commit is a no-op, and the second settle would return the amount again.
   */
  lemma RemintReturnsTwice(limit: int, id: HoldId, amount: int)
    requires 0 < amount <= limit
    ensures var p := Pool(limit, limit, 0, 0, true);
            ApplyAll(Store(p, map[], map[]),
                     [WPutPending(id, amount), WCommit(id, amount), WTransition(id, PENDING, ACTIVE),
                      WEnd(id, amount, 0),
                      WPutPending(id, amount), WCommit(id, amount), WTransition(id, PENDING, ACTIVE),
                      WEnd(id, amount, 0)]).pool.reserved == -amount
  {
    var cycle := [WPutPending(id, amount), WCommit(id, amount), WTransition(id, PENDING, ACTIVE),
                  WEnd(id, amount, 0)];
    var s0 := Store(Pool(limit, limit, 0, 0, true), map[], map[]);
    ApplyFour(s0, cycle, cycle);
    var s1 := ApplyAll(s0, cycle);
    ApplyFour(s1, cycle, []);
    assert cycle + [] == cycle;
    assert cycle + cycle == [WPutPending(id, amount), WCommit(id, amount), WTransition(id, PENDING, ACTIVE),
                      WEnd(id, amount, 0),
                      WPutPending(id, amount), WCommit(id, amount), WTransition(id, PENDING, ACTIVE),
                      WEnd(id, amount, 0)];
    ApplyFour(s0, cycle, []);
    assert s1 == Apply(Apply(Apply(Apply(s0, cycle[0]), cycle[1]), cycle[2]), cycle[3]);
    assert s1.pool.reserved == 0 && id !in s1.rows && s1.MarkerIs(id, RESERVED);
  }

  lemma ApplyFour(s: Store, a: seq<Write>, rest: seq<Write>)
    requires |a| == 4
    ensures ApplyAll(s, a + rest) == ApplyAll(Apply(Apply(Apply(Apply(s, a[0]), a[1]), a[2]), a[3]), rest)
    ensures ApplyAll(s, a) == Apply(Apply(Apply(Apply(s, a[0]), a[1]), a[2]), a[3])
  {
    ApplyOne(s, a + rest);
    ApplyOne(Apply(s, a[0]), (a + rest)[1..]);
    ApplyOne(Apply(Apply(s, a[0]), a[1]), (a + rest)[1..][1..]);
    ApplyOne(Apply(Apply(Apply(s, a[0]), a[1]), a[2]), (a + rest)[1..][1..][1..]);
    assert (a + rest)[1..][1..][1..][1..] == rest;
    ApplyOne(s, a);
    ApplyOne(Apply(s, a[0]), a[1..]);
    ApplyOne(Apply(Apply(s, a[0]), a[1]), a[1..][1..]);
    ApplyOne(Apply(Apply(Apply(s, a[0]), a[1]), a[2]), a[1..][1..][1..]);
    assert a[1..][1..][1..][1..] == [];
  }

  lemma ApplyOne(s: Store, ws: seq<Write>)
    requires ws != []
    ensures ApplyAll(s, ws) == ApplyAll(Apply(s, ws[0]), ws[1..])
  {
  }
}
