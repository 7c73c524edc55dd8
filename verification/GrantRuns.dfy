/** Runs of the grant lifecycle: the granted term of every pool row is what its grants say it is. */
module GrantRuns {
  import opened Options
  import opened Sums
  import opened PoolRows
  import opened GrantRows

  datatype Action =
    | AApprove(approval: Approval)
    | ADecide(request: RequestId, revision: int, decision: RequestStatus)
    | ARevoke(id: GrantId, read: Grant, to: GrantStatus)
    | ABump(id: GrantId)
    | ABlock(id: GrantId, maxAttempts: int)
    | AUnblock(id: GrantId)
    | ASubmit(request: RequestId)
    | APool(pool: PoolKey, write: Write)

  /** The grant an action is about. */
  function About(a: Action): GrantId
    requires !a.ADecide? && !a.ASubmit? && !a.APool?
  {
    if a.AApprove? then a.approval.id else a.id
  }

  function Next(w: World, a: Action, configured: int): World {
    match a
    case AApprove(approval) => Approve(w, approval, configured).0
    case ADecide(r, revision, to) => Decide(w, r, revision, to).0
    case ARevoke(id, read, to) => Revoke(w, id, read, to, configured).0
    case ABump(id) => Bump(w, id).0
    case ABlock(id, maxAttempts) => Block(w, id, maxAttempts).0
    case AUnblock(id) => Unblock(w, id).0
    case ASubmit(r) => if r in w.requests then w else w.(requests := w.requests[r := Request(Pending, 1, None)])
    case APool(p, write) => PoolWrite(w, p, write, configured)
  }

  /** What the row read earlier still tells about the grant: its target and amount are pinned for life. */
  predicate ReadOf(w: World, id: GrantId, read: Grant) {
    id in w.grants ==> read.target == w.grants[id].target && read.amount == w.grants[id].amount
  }

  /** Endings are terminal, reads are of the grant named, and only grants move the granted term. */
  predicate Allowed(w: World, a: Action) {
    match a
    case ADecide(_, _, to) => to == Rejected || to == Withdrawn
    case ARevoke(id, read, to) => ReadOf(w, id, read) && (to == EXPIRED || to == REVOKED)
    case APool(_, write) => !write.GrantApply? && !write.GrantRevoke?
    case _ => true
  }

  /** What each grant pinned to `p` contributes to it. */
  function Bears(w: World, p: PoolKey): map<GrantId, int> {
    map id | id in w.grants :: if w.grants[id].target == p && Bearing(w.grants[id]) then w.grants[id].amount else 0
  }

  /** The granted term of a row, absent or not, existing or not. */
  function GrantedTerm(w: World, p: PoolKey): int {
    if p in w.pools then Or0(w.pools[p].granted) else 0
  }

  ghost predicate GrantOk(w: World, id: GrantId)
    requires id in w.grants
  {
    var g := w.grants[id];
    && g.amount >= 0
    && (g.indexed <==> g.status == ACTIVE)
    && (g.blockedFlag ==> g.status == REVOKE_BLOCKED)
    && Count(w.subtracted, id) == (if Bearing(g) then 0 else 1)
    && (Bearing(g) ==> g.target in w.pools && w.pools[g.target].granted.Some?)
    && g.request in w.requests && w.requests[g.request].grant == Some(id) && w.requests[g.request].status == Approved
  }

  ghost predicate Inv(w: World) {
    && (forall id | id in w.grants :: GrantOk(w, id))
    && (forall p :: SumOk(w, p))
    && (forall r | r in w.requests && w.requests[r].status == Pending :: w.requests[r].grant.None?)
  }

  // ---- one pool's sum at a time ----

  lemma GrantChangesSum(w: World, now: World, id: GrantId, p: PoolKey)
    requires id in now.grants && now.grants == w.grants[id := now.grants[id]]
    ensures Sum(Bears(now, p)) == Sum(Bears(w, p)) - ValueOr0(Bears(w, p), id) + Bears(now, p)[id]
  {
    SumUpdate(Bears(w, p), id, Bears(now, p)[id]);
    assert Bears(now, p) == Bears(w, p)[id := Bears(now, p)[id]];
  }

  lemma SameGrantsSameSum(w: World, v: World, p: PoolKey)
    requires w.grants == v.grants
    ensures Bears(w, p) == Bears(v, p)
  {
  }

  ghost predicate SumOk(w: World, p: PoolKey) {
    GrantedTerm(w, p) == Sum(Bears(w, p))
  }

  /** The floor condition of a revoke never refuses a live grant: a grant is part of the sum. */
  lemma FloorNeverRefuses(w: World, id: GrantId, read: Grant, to: GrantStatus, configured: int)
    requires Inv(w) && id in w.grants && w.grants[id].status == ACTIVE && ReadOf(w, id, read)
    ensures Revoke(w, id, read, to, configured).1
  {
    var p := w.grants[id].target;
    assert GrantOk(w, id);
    assert forall j | j in w.grants :: GrantOk(w, j) && Bears(w, p)[j] >= 0;
    SumBounds(Bears(w, p));
    assert Bears(w, p)[id] == read.amount;
    assert SumOk(w, p);
  }

  lemma ApproveKeepsSums(w: World, a: Action, configured: int, p: PoolKey)
    requires SumOk(w, p) && a.AApprove?
    ensures SumOk(Next(w, a, configured), p)
  {
    if Approve(w, a.approval, configured).1.Granted? {
      GrantChangesSum(w, Next(w, a, configured), a.approval.id, p);
    }
  }

  lemma RevokeKeepsSums(w: World, a: Action, configured: int, p: PoolKey)
    requires SumOk(w, p) && a.ARevoke? && Allowed(w, a)
    ensures SumOk(Next(w, a, configured), p)
  {
    if Revoke(w, a.id, a.read, a.to, configured).1 {
      GrantChangesSum(w, Next(w, a, configured), a.id, p);
    }
  }

  lemma BookkeepingIsLocal(w: World, a: Action, configured: int)
    requires a.ABump? || a.ABlock? || a.AUnblock?
    ensures Next(w, a, configured).pools == w.pools
    ensures a.id in w.grants ==> exists g: Grant ::
              Next(w, a, configured).grants == w.grants[a.id := g] && Bearing(g) == Bearing(w.grants[a.id])
              && g.amount == w.grants[a.id].amount && g.target == w.grants[a.id].target
    ensures a.id !in w.grants ==> Next(w, a, configured) == w
  {
    if a.id in w.grants {
      var g := Next(w, a, configured).grants[a.id];
      assert Next(w, a, configured).grants == w.grants[a.id := g];
    }
  }

  /** Counting, blocking and unblocking move no capacity. */
  lemma BookkeepingKeepsSums(w: World, a: Action, configured: int, p: PoolKey)
    requires SumOk(w, p) && (a.ABump? || a.ABlock? || a.AUnblock?)
    ensures SumOk(Next(w, a, configured), p)
  {
    BookkeepingIsLocal(w, a, configured);
    assert Bears(Next(w, a, configured), p) == Bears(w, p);
  }

  lemma OthersKeepSums(w: World, a: Action, configured: int, p: PoolKey)
    requires SumOk(w, p) && Allowed(w, a) && (a.ADecide? || a.ASubmit? || a.APool?)
    ensures SumOk(Next(w, a, configured), p)
  {
    SameGrantsSameSum(Next(w, a, configured), w, p);
    if a.APool? {
      GrantedUntouched(Lookup(w.pools, a.pool), a.write, configured);
    }
  }

  /** No other writer moves the granted term, and a new period's row starts without one. */
  lemma GrantedUntouched(row: Option<Row>, write: Write, configured: int)
    requires !write.GrantApply? && !write.GrantRevoke?
    ensures row.Some? ==> Apply(row, write, configured).Some? && Apply(row, write, configured).value.granted == row.value.granted
    ensures row.None? && Apply(row, write, configured).Some? ==> Apply(row, write, configured).value.granted.None?
  {
  }

  lemma NextKeepsSums(w: World, a: Action, configured: int, p: PoolKey)
    requires SumOk(w, p) && Allowed(w, a)
    ensures SumOk(Next(w, a, configured), p)
  {
    if a.AApprove? {
      ApproveKeepsSums(w, a, configured, p);
    } else if a.ARevoke? {
      RevokeKeepsSums(w, a, configured, p);
    } else if a.ABump? || a.ABlock? || a.AUnblock? {
      BookkeepingKeepsSums(w, a, configured, p);
    } else {
      OthersKeepSums(w, a, configured, p);
    }
  }

  lemma NextKeepsRequests(w: World, a: Action, configured: int)
    requires Inv(w) && Allowed(w, a)
    ensures forall r | r in Next(w, a, configured).requests && Next(w, a, configured).requests[r].status == Pending ::
              Next(w, a, configured).requests[r].grant.None?
  {
  }

  lemma SubjectKeepsGrant(w: World, a: Action, configured: int, id: GrantId)
    requires Inv(w) && Allowed(w, a)
    requires a.AApprove? || a.ARevoke? || a.ABump? || a.ABlock? || a.AUnblock?
    requires id == About(a) && id in Next(w, a, configured).grants
    ensures GrantOk(Next(w, a, configured), id)
  {
    if id in w.grants {
      assert GrantOk(w, id);
    }
  }

  /** What a grant's standing depends on, left as it was. */
  lemma UntouchedGrant(w: World, now: World, id: GrantId)
    requires id in w.grants && GrantOk(w, id)
    requires id in now.grants && now.grants[id] == w.grants[id]
    requires Count(now.subtracted, id) == Count(w.subtracted, id)
    requires forall p | p in w.pools && w.pools[p].granted.Some? :: p in now.pools && now.pools[p].granted.Some?
    requires Lookup(now.requests, w.grants[id].request) == Lookup(w.requests, w.grants[id].request)
    ensures GrantOk(now, id)
  {
  }

  lemma OthersUnchanged(w: World, a: Action, configured: int, id: GrantId)
    requires id in w.grants
    requires a.ADecide? || a.ASubmit? || a.APool? || id != About(a)
    ensures var now := Next(w, a, configured);
            && id in now.grants && now.grants[id] == w.grants[id] && Count(now.subtracted, id) == Count(w.subtracted, id)
    ensures forall r | r in w.requests && w.requests[r].status != Pending ::
              Lookup(Next(w, a, configured).requests, r) == Lookup(w.requests, r)
  {
  }

  lemma PoolsStayGranted(w: World, a: Action, configured: int)
    requires Allowed(w, a)
    ensures forall p | p in w.pools && w.pools[p].granted.Some? ::
              p in Next(w, a, configured).pools && Next(w, a, configured).pools[p].granted.Some?
  {
    if a.APool? {
      GrantedUntouched(Lookup(w.pools, a.pool), a.write, configured);
    }
  }

  /** A grant the action is not about is left alone, and a row once granted from keeps its granted attribute. */
  lemma OtherKeepsGrant(w: World, a: Action, configured: int, id: GrantId)
    requires id in w.grants && GrantOk(w, id) && Allowed(w, a)
    requires a.ADecide? || a.ASubmit? || a.APool? || id != About(a)
    ensures id in Next(w, a, configured).grants
    ensures GrantOk(Next(w, a, configured), id)
  {
    OthersUnchanged(w, a, configured, id);
    PoolsStayGranted(w, a, configured);
    UntouchedGrant(w, Next(w, a, configured), id);
  }

  lemma NextKeepsGrant(w: World, a: Action, configured: int, id: GrantId)
    requires Inv(w) && Allowed(w, a)
    requires id in Next(w, a, configured).grants
    ensures GrantOk(Next(w, a, configured), id)
  {
    if a.ADecide? || a.ASubmit? || a.APool? || id != About(a) {
      assert id in w.grants ==> GrantOk(w, id);
      OtherKeepsGrant(w, a, configured, id);
    } else {
      SubjectKeepsGrant(w, a, configured, id);
    }
  }

  lemma StepKeepsInv(w: World, a: Action, configured: int)
    requires Inv(w) && Allowed(w, a)
    ensures Inv(Next(w, a, configured))
  {
    forall id | id in Next(w, a, configured).grants ensures GrantOk(Next(w, a, configured), id) {
      NextKeepsGrant(w, a, configured, id);
    }
    forall p ensures SumOk(Next(w, a, configured), p) {
      NextKeepsSums(w, a, configured, p);
    }
    NextKeepsRequests(w, a, configured);
  }

  // ---- runs ----

  function Run(w: World, actions: seq<Action>, configured: int): World
    decreases |actions|
  {
    if actions == [] then w else Next(Run(w, actions[..|actions| - 1], configured), actions[|actions| - 1], configured)
  }

  ghost predicate AllAllowed(w: World, actions: seq<Action>, configured: int) {
    forall i | 0 <= i < |actions| :: Allowed(Run(w, actions[..i], configured), actions[i])
  }

  lemma AllAllowedPrefix(w: World, actions: seq<Action>, configured: int)
    requires AllAllowed(w, actions, configured) && actions != []
    ensures AllAllowed(w, actions[..|actions| - 1], configured)
    ensures Allowed(Run(w, actions[..|actions| - 1], configured), actions[|actions| - 1])
  {
    var n := |actions| - 1;
    forall i | 0 <= i < n ensures Allowed(Run(w, actions[..n][..i], configured), actions[..n][i]) {
      assert actions[..n][..i] == actions[..i];
    }
  }

  /** In every run, each row's granted term is the sum of the capacity-bearing grants pinned to it. */
  lemma {:induction false} GrantedIsTheSum(w: World, actions: seq<Action>, configured: int)
    requires Inv(w) && AllAllowed(w, actions, configured)
    ensures Inv(Run(w, actions, configured))
    decreases |actions|
  {
    if actions != [] {
      var n := |actions| - 1;
      AllAllowedPrefix(w, actions, configured);
      GrantedIsTheSum(w, actions[..n], configured);
      StepKeepsInv(Run(w, actions[..n], configured), actions[n], configured);
    }
  }

  lemma EmptyIsOk(w: World)
    requires w.requests == map[] && w.grants == map[] && w.subtracted == map[]
    requires forall p | p in w.pools :: Or0(w.pools[p].granted) == 0
    ensures Inv(w)
  {
    forall p ensures SumOk(w, p) {
      assert Bears(w, p) == map[];
    }
  }

  ghost predicate SameGrant(was: Grant, now: Grant) {
    && now.target == was.target && now.amount == was.amount && now.request == was.request
    && (!Bearing(was) ==> now.status == was.status)
  }

  lemma StepPins(w: World, a: Action, configured: int, id: GrantId)
    requires id in w.grants
    ensures id in Next(w, a, configured).grants && SameGrant(w.grants[id], Next(w, a, configured).grants[id])
  {
  }

  /** A grant's target, amount and request never change, and an ended grant stays ended. */
  lemma {:induction false} PinnedForLife(w: World, actions: seq<Action>, configured: int, id: GrantId)
    requires id in w.grants
    ensures id in Run(w, actions, configured).grants
    ensures SameGrant(w.grants[id], Run(w, actions, configured).grants[id])
    decreases |actions|
  {
    if actions != [] {
      var n := |actions| - 1;
      PinnedForLife(w, actions[..n], configured, id);
      StepPins(Run(w, actions[..n], configured), actions[n], configured, id);
    }
  }

  /** Each grant is taken off its row at most once, and exactly once iff it has ended. */
  lemma SubtractedAtMostOnce(w: World, actions: seq<Action>, configured: int, id: GrantId)
    requires Inv(w) && AllAllowed(w, actions, configured)
    requires id in Run(w, actions, configured).grants
    ensures var now := Run(w, actions, configured);
            && Count(now.subtracted, id) <= 1
            && (Count(now.subtracted, id) == 1 <==> now.grants[id].status == EXPIRED || now.grants[id].status == REVOKED)
  {
    GrantedIsTheSum(w, actions, configured);
    assert GrantOk(Run(w, actions, configured), id);
  }

  /** One request, one grant. */
  lemma OneGrantPerRequest(w: World, a: GrantId, b: GrantId)
    requires Inv(w) && a in w.grants && b in w.grants
    requires w.grants[a].request == w.grants[b].request
    ensures a == b
  {
  }

  /** Blocking and clearing the block moves no money and leaves the grant revocable: the revoke then commits. */
  lemma BlockedThenRepaired(w: World, id: GrantId, maxAttempts: int, configured: int)
    requires Inv(w) && Block(w, id, maxAttempts).1
    ensures var blocked := Block(w, id, maxAttempts).0;
            var cleared := Unblock(blocked, id).0;
            && blocked.pools == w.pools && cleared.pools == w.pools
            && (forall read, to | ReadOf(w, id, read) :: !Revoke(blocked, id, read, to, configured).1)
            && (forall to :: Revoke(cleared, id, w.grants[id], to, configured).1)
            && !Block(cleared, id, 1).1
  {
    var blocked := Block(w, id, maxAttempts).0;
    StepKeepsInv(w, ABlock(id, maxAttempts), configured);
    StepKeepsInv(blocked, AUnblock(id), configured);
    forall to ensures Revoke(Unblock(blocked, id).0, id, w.grants[id], to, configured).1 {
      FloorNeverRefuses(Unblock(blocked, id).0, id, w.grants[id], to, configured);
    }
  }

  /**
   What the cap condition promises. `capMinus` is the cap less the amount: the approval
   leaves the granted term within the cap exactly when the attribute was there to compare,
   or the amount alone fits the cap.
   */
  lemma CapHoldsIff(r: Row, amount: int, capMinus: int, configured: int)
    requires Lands(Some(r), GrantApply(amount, capMinus))
    ensures Or0(Landed(r, GrantApply(amount, capMinus), configured).granted) <= capMinus + amount
            <==> r.granted.Some? || capMinus >= 0
  {
  }
}
