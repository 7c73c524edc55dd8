/**
 Recovery of the shipped PENDING protocol runs: from every world that can be reached, fences,
 reclaims and one reconciler's steps lead to a world with nothing left for any of them to do.
 */
module MarkerRecovery {
  import opened Options
  import opened Sums
  import opened MarkerItems
  import opened MarkerRuns

  /** The background jobs' own steps. */
  predicate IsRecovery(step: Step) {
    step.Fence? || step.Reclaim? || step.List? || step.ReadMarker? || step.CreditBack? || step.Retire?
  }

  /** Only `id` was touched, and no debit came late. */
  ghost predicate Only(id: HoldId, w: World, end: World) {
    && (forall j | j != id :: LocalOf(end, j) == LocalOf(w, j))
    && end.minted == w.minted && end.late == w.late
  }

  lemma OneStep(w: World, step: Step) returns (w1: World)
    requires Enabled(w, step) && IsRecovery(step)
    ensures w1 == Next(w, step) && Reaches(w, [step], w1) && Only(Subject(w, step), w, w1)
  {
    w1 := Next(w, step);
    assert [step][1..] == [];
    forall j | j != Subject(w, step) ensures LocalOf(w1, j) == LocalOf(w, j) {
      Frame(w, step, j);
    }
  }

  lemma Then(id: HoldId, w: World, a: seq<Step>, mid: World, b: seq<Step>, end: World)
    requires Reaches(w, a, mid) && Reaches(mid, b, end) && Only(id, w, mid) && Only(id, mid, end)
    ensures Reaches(w, a + b, end) && Only(id, w, end)
  {
    Compose(w, a, mid, b, end);
  }

  lemma {:induction false} FreshWorker(busy: set<nat>) returns (k: nat)
    ensures k !in busy && forall j | j in busy :: j < k
    decreases |busy|
  {
    if busy == {} {
      k := 0;
    } else {
      var j :| j in busy;
      k := FreshWorker(busy - {j});
      if k <= j {
        k := j + 1;
      }
      assert forall i | i in busy :: i == j || i in busy - {j};
    }
  }

  lemma ListStep(w: World, k: nat, id: HoldId) returns (w1: World)
    requires w.store.RowIs(id, EXPIRED_UNCREDITED) && k !in w.tickets
    ensures Reaches(w, [List(k, id)], w1) && Only(id, w, w1)
    ensures w1.store == w.store && k in w1.tickets && w1.tickets[k] == Listed(id)
  {
    w1 := OneStep(w, List(k, id));
  }

  lemma ReadStep(w: World, k: nat, id: HoldId) returns (w1: World)
    requires k in w.tickets && w.tickets[k] == Listed(id)
    ensures Reaches(w, [ReadMarker(k)], w1) && Only(id, w, w1)
    ensures w1.store == w.store && k in w1.tickets && !w1.tickets[k].Listed? && w1.tickets[k].id == id
  {
    w1 := OneStep(w, ReadMarker(k));
  }

  lemma CreditStep(w: World, k: nat, id: HoldId) returns (w1: World)
    requires k in w.tickets && w.tickets[k].ReadReserved? && w.tickets[k].id == id
    ensures Reaches(w, [CreditBack(k)], w1) && Only(id, w, w1)
    ensures w1.store.rows == w.store.rows && k in w1.tickets && w1.tickets[k] == Definite(id)
  {
    w1 := OneStep(w, CreditBack(k));
  }

  lemma RetireStep(w: World, k: nat, id: HoldId) returns (w1: World)
    requires k in w.tickets && w.tickets[k] == Definite(id) && w.store.RowIs(id, EXPIRED_UNCREDITED)
    ensures Reaches(w, [Retire(k)], w1) && Only(id, w, w1) && w1.store.RowIs(id, RECLAIMED)
  {
    w1 := OneStep(w, Retire(k));
  }

  /** A fenced hold is listed, its marker read, credited back if it was debited, and retired. */
  lemma RetireFenced(w: World, id: HoldId) returns (steps: seq<Step>, end: World)
    requires w.store.RowIs(id, EXPIRED_UNCREDITED)
    ensures Reaches(w, steps, end) && Only(id, w, end) && (forall s | s in steps :: IsRecovery(s))
    ensures end.store.RowIs(id, RECLAIMED)
  {
    var k := FreshWorker(w.tickets.Keys);
    var listed := ListStep(w, k, id);
    var read := ReadStep(listed, k, id);
    Then(id, w, [List(k, id)], listed, [ReadMarker(k)], read);
    steps := [List(k, id)] + [ReadMarker(k)];
    var definite := read;
    if read.tickets[k].ReadReserved? {
      definite := CreditStep(read, k, id);
      Then(id, w, steps, read, [CreditBack(k)], definite);
      steps := steps + [CreditBack(k)];
    }
    end := RetireStep(definite, k, id);
    Then(id, w, steps, definite, [Retire(k)], end);
    steps := steps + [Retire(k)];
  }

  lemma FinishOne(w: World, id: HoldId) returns (steps: seq<Step>, end: World)
    ensures Reaches(w, steps, end) && Only(id, w, end) && (forall s | s in steps :: IsRecovery(s))
    ensures Finished(LocalOf(end, id))
  {
    steps, end := [], w;
    if w.store.RowIs(id, NoStatus) || w.store.RowIs(id, ACTIVE) {
      end := OneStep(w, Reclaim(id));
      steps := [Reclaim(id)];
    } else if w.store.RowIs(id, EXPIRED_UNCREDITED) {
      steps, end := RetireFenced(w, id);
    } else if w.store.RowIs(id, PENDING) {
      var fenced := OneStep(w, Fence(id));
      var rest;
      rest, end := RetireFenced(fenced, id);
      Then(id, w, [Fence(id)], fenced, rest, end);
      steps := [Fence(id)] + rest;
    }
  }

  lemma {:induction false} FinishAll(w: World, todo: set<HoldId>) returns (steps: seq<Step>, end: World)
    requires forall id | id !in todo :: Finished(LocalOf(w, id))
    ensures Reaches(w, steps, end) && (forall s | s in steps :: IsRecovery(s))
    ensures (forall id :: Finished(LocalOf(end, id))) && end.late == w.late && end.minted == w.minted
    decreases todo
  {
    if todo == {} {
      steps, end := [], w;
    } else {
      var id :| id in todo;
      var first, one := FinishOne(w, id);
      var rest;
      rest, end := FinishAll(one, todo - {id});
      Compose(w, first, one, rest, end);
      steps := first + rest;
    }
  }

  /**
   From every reachable world the background jobs alone can finish; what is then still out is
   what is retained and what is stranded, and without late debits only what is retained.
   */
  lemma RecoveryFinishes(limit: int, active: bool, run: seq<Step>, w: World) returns (steps: seq<Step>, end: World)
    requires Reaches(Start(limit, active), run, w)
    ensures Reaches(w, steps, end) && (forall s | s in steps :: IsRecovery(s))
    ensures forall id :: Finished(LocalOf(end, id))
    ensures end.store.pool.reserved == Sum(Retained(end)) + Sum(Stranded(end))
    ensures w.late == {} ==> end.store.pool.reserved == Sum(Retained(end))
  {
    StartInv(limit, active);
    RunKeepsLate(Start(limit, active), run, w);
    forall id | id !in w.minted.Keys ensures Finished(LocalOf(w, id)) {
      assert LocalOf(w, id).Consistent();
    }
    steps, end := FinishAll(w, w.minted.Keys);
    RunKeepsLate(w, steps, end);
    DrainedPool(end);
    StrandedTotal(end);
  }
}
