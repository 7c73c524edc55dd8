/**
 When each write of the grant lifecycle commits and what it leaves, in any world a run can
 reach; and the cap on what is granted, over runs.
 */
module GrantAnswers {
  import opened Options
  import opened Sums
  import opened PoolRows
  import opened GrantRows
  import opened GrantRuns

  // ---- approvals ----

  /** The cap as a row states it: its own, else its figure, else its seats at its rate. */
  function CapOn(r: Row, configured: int): int {
    match (r.cap, r.manual)
    case (Some(cap), _) => cap
    case (None, Some(figure)) => figure
    case (None, None) => Or0(r.seats) * (if r.rate.Some? then r.rate.value else configured)
  }

  /** Nothing about the approval itself stands in its way. */
  predicate WellAsked(a: Approval) {
    0 < a.amount <= MaxGrant && a.amount <= a.asked && a.read.Some? && a.read.value.active
  }

  lemma BearsNothingNegative(w: World, p: PoolKey)
    requires Inv(w)
    ensures GrantedTerm(w, p) == Sum(Bears(w, p)) >= 0
  {
    assert SumOk(w, p);
    assert forall id | id in w.grants :: GrantOk(w, id) && Bears(w, p)[id] >= 0;
    SumBounds(Bears(w, p));
  }

  /** The two comparisons with the cap come to one: the live grants, with this one, fit it. */
  lemma CapGate(w: World, a: Approval, configured: int)
    requires Inv(w) && a.read.Some? && a.amount > 0
    ensures var cap := CapOn(a.read.value, configured);
            && EffectiveCap(a.read.value, configured) == cap
            && Sum(Bears(w, a.pool)) >= 0
            && (a.amount <= cap ==> (PoolAdmits(w, a.pool, Raise(a, configured)) <==> a.pool in w.pools && Sum(Bears(w, a.pool)) + a.amount <= cap))
  {
    BearsNothingNegative(w, a.pool);
  }

  /**
   An approval commits if and only if it is well asked, its request is pending as read, its
   grant id is new, its row is there, and the live grants pinned to that row, with this
   one, fit the cap of the row that was read.
   */
  lemma ApprovedIff(w: World, a: Approval, configured: int)
    requires Inv(w)
    ensures Approve(w, a, configured).1 == Granted
            <==>
                 && WellAsked(a)
                 && a.request in w.requests && w.requests[a.request].status == Pending && w.requests[a.request].revision == a.revision
                 && a.id !in w.grants && a.pool in w.pools
                 && Sum(Bears(w, a.pool)) + a.amount <= CapOn(a.read.value, configured)
  {
    if WellAsked(a) {
      CapGate(w, a, configured);
    }
  }

  /** The refusals: over the cap alone or with what is live, and a request that was decided meanwhile. */
  lemma RefusedIff(w: World, a: Approval, configured: int)
    requires Inv(w) && WellAsked(a)
    ensures var cap, answer := CapOn(a.read.value, configured), Approve(w, a, configured).1;
            var pending := a.request in w.requests && w.requests[a.request].status == Pending && w.requests[a.request].revision == a.revision;
            && (answer == CapExceeded <==>
                  (a.amount > cap || (pending && (a.pool !in w.pools || Sum(Bears(w, a.pool)) + a.amount > cap))))
            && (answer == RequestNotPending <==> a.amount <= cap && !pending)
            && answer != AmountInvalid && answer != PoolMissing && answer != PoolSuspended
  {
    CapGate(w, a, configured);
  }

  /** What a committed approval leaves, and that a refused one leaves everything. */
  lemma ApprovalRaises(w: World, a: Approval, configured: int)
    ensures var (now, answer) := Approve(w, a, configured);
            if answer != Granted then now == w
            else
              && a.pool in w.pools && a.pool in now.pools && now.pools - {a.pool} == w.pools - {a.pool}
              && var was, row := w.pools[a.pool], now.pools[a.pool];
              && row == was.(limit := was.limit + a.amount, headroom := Some(Or0(was.headroom) + a.amount),
                             granted := Some(Or0(was.granted) + a.amount))
              && Bears(now, a.pool) == Bears(w, a.pool)[a.id := a.amount]
              && now.requests == w.requests[a.request := Request(RequestStatus.Approved, a.revision + 1, Some(a.id))]
  {
    if Approve(w, a, configured).1 == Granted {
      var now := Approve(w, a, configured).0;
      assert now.pools - {a.pool} == w.pools - {a.pool};
      assert Bears(now, a.pool) == Bears(w, a.pool)[a.id := a.amount];
    }
  }

  /** A request is decided, at the next revision and with no grant, if and only if it is pending as read. */
  lemma DecidedIff(w: World, r: RequestId, revision: int, to: RequestStatus)
    ensures var (now, ok) := Decide(w, r, revision, to);
            && (ok <==> r in w.requests && w.requests[r].status == Pending && w.requests[r].revision == revision)
            && now == if ok then w.(requests := w.requests[r := Request(to, revision + 1, None)]) else w
  {
  }

  /** The cap that the latest committed approval on a row had read. */
  function LastCap(w: World, actions: seq<Action>, p: PoolKey, configured: int): Option<int>
    decreases |actions|
  {
    if actions == [] then None
    else
      var n := |actions| - 1;
      if && actions[n].AApprove? && actions[n].approval.pool == p
         && Approve(GrantRuns.Run(w, actions[..n], configured), actions[n].approval, configured).1 == Granted
      then (match actions[n].approval.read case Some(row) => Some(CapOn(row, configured)) case None => None)
      else LastCap(w, actions[..n], p, configured)
  }

  lemma OnlyApprovalsRaise(w: World, a: Action, configured: int, p: PoolKey)
    requires Inv(w) && Allowed(w, a)
    requires !(a.AApprove? && a.approval.pool == p && Approve(w, a.approval, configured).1 == Granted)
    ensures GrantedTerm(Next(w, a, configured), p) <= GrantedTerm(w, p)
  {
    if a.ARevoke? {
      assert a.id in w.grants ==> GrantOk(w, a.id);
    } else if a.APool? {
      GrantedUntouched(Lookup(w.pools, a.pool), a.write, configured);
    } else if a.ABump? || a.ABlock? || a.AUnblock? {
      BookkeepingIsLocal(w, a, configured);
    }
  }

  /**
   Over every run, with every approval's row read at any earlier time or never: what is granted
   on a row is within the cap that its latest committed approval read.
   */
  lemma {:induction false} GrantedWithinLastCap(w: World, actions: seq<Action>, p: PoolKey, configured: int)
    requires Inv(w) && AllAllowed(w, actions, configured)
    ensures GrantedTerm(GrantRuns.Run(w, actions, configured), p)
         <= match LastCap(w, actions, p, configured) case Some(cap) => cap case None => GrantedTerm(w, p)
    decreases |actions|
  {
    if actions != [] {
      var n := |actions| - 1;
      var before := GrantRuns.Run(w, actions[..n], configured);
      AllAllowedPrefix(w, actions, configured);
      GrantedIsTheSum(w, actions[..n], configured);
      GrantedWithinLastCap(w, actions[..n], p, configured);
      if actions[n].AApprove? && actions[n].approval.pool == p && Approve(before, actions[n].approval, configured).1 == Granted {
        ApprovedIff(before, actions[n].approval, configured);
        ApprovalRaises(before, actions[n].approval, configured);
        BearsNothingNegative(before, p);
      } else {
        OnlyApprovalsRaise(before, actions[n], configured, p);
      }
    }
  }

  /** With one cap, or caps no higher, nothing is ever granted over it. */
  lemma OneCapHolds(w: World, actions: seq<Action>, p: PoolKey, configured: int, cap: int)
    requires Inv(w) && AllAllowed(w, actions, configured) && GrantedTerm(w, p) <= cap
    requires forall a | a in actions && a.AApprove? && a.approval.pool == p && a.approval.read.Some? ::
               CapOn(a.approval.read.value, configured) <= cap
    ensures GrantedTerm(GrantRuns.Run(w, actions, configured), p) <= cap
  {
    GrantedWithinLastCap(w, actions, p, configured);
    LastCapIsOneOfThem(w, actions, p, configured, cap);
  }

  lemma {:induction false} LastCapIsOneOfThem(w: World, actions: seq<Action>, p: PoolKey, configured: int, cap: int)
    requires forall a | a in actions && a.AApprove? && a.approval.pool == p && a.approval.read.Some? ::
               CapOn(a.approval.read.value, configured) <= cap
    ensures LastCap(w, actions, p, configured).Some? ==> LastCap(w, actions, p, configured).value <= cap
    decreases |actions|
  {
    if actions != [] {
      var n := |actions| - 1;
      assert actions[n] in actions && forall a | a in actions[..n] :: a in actions;
      LastCapIsOneOfThem(w, actions[..n], p, configured, cap);
    }
  }

  // ---- endings, blocks and their repair ----

  /**
   A grant's end commits if and only if the grant is ACTIVE with the amount that was read; its
   amount then leaves the row's limit, headroom and granted term together.
   */
  lemma EndedIff(w: World, id: GrantId, read: Grant, to: GrantStatus, configured: int)
    requires Inv(w) && (id in w.grants ==> read.target == w.grants[id].target)
    ensures var (now, ok) := Revoke(w, id, read, to, configured);
            && (ok <==> id in w.grants && w.grants[id].status == ACTIVE && w.grants[id].amount == read.amount)
            && if !ok then now == w
               else
                 && read.target in w.pools
                 && var was := w.pools[read.target];
                 && now.pools == w.pools[read.target := was.(limit := was.limit - read.amount,
                      headroom := Some(Or0(was.headroom) - read.amount), granted := Some(Or0(was.granted) - read.amount))]
                 && now.grants == w.grants[id := w.grants[id].(status := to, indexed := false)]
                 && now.requests == w.requests
  {
    if id in w.grants && w.grants[id].status == ACTIVE && w.grants[id].amount == read.amount {
      FloorNeverRefuses(w, id, read, to, configured);
    }
  }

  /** Whatever the row holds, taking a grant off it never leaves the granted term below zero. */
  lemma FloorHolds(r: Row, amount: int, configured: int)
    requires Lands(Some(r), GrantRevoke(amount))
    ensures r.granted.Some? && Or0(Landed(r, GrantRevoke(amount), configured).granted) == r.granted.value - amount >= 0
  {
  }

  /** An attempt is counted, and answered with the new count, if and only if the grant is ACTIVE. */
  lemma CountedIff(w: World, id: GrantId)
    ensures var (now, count) := Bump(w, id);
            if id in w.grants && w.grants[id].status == ACTIVE then
              count == Some(w.grants[id].attempts + 1) && now == w.(grants := w.grants[id := w.grants[id].(attempts := count.value)])
            else count == None && now == w
  {
  }

  /** Blocking takes an ACTIVE grant that has used its attempts out of the index, flags it, and touches nothing else. */
  lemma BlockedIff(w: World, id: GrantId, maxAttempts: int)
    ensures var (now, ok) := Block(w, id, maxAttempts);
            && (ok <==> id in w.grants && w.grants[id].status == ACTIVE && maxAttempts <= w.grants[id].attempts)
            && now == if ok then w.(grants := w.grants[id := w.grants[id].(status := REVOKE_BLOCKED, indexed := false, blockedFlag := true)]) else w
  {
  }

  /** Clearing a block undoes it, and the attempts start again from none. */
  lemma ClearedIff(w: World, id: GrantId, maxAttempts: int)
    requires Inv(w)
    ensures Unblock(w, id).1 <==> id in w.grants && w.grants[id].status == REVOKE_BLOCKED
    ensures !Unblock(w, id).1 ==> Unblock(w, id).0 == w
    ensures Block(w, id, maxAttempts).1 ==>
              Unblock(Block(w, id, maxAttempts).0, id) == (w.(grants := w.grants[id := w.grants[id].(attempts := 0)]), true)
  {
    assert id in w.grants ==> GrantOk(w, id);
    if Block(w, id, maxAttempts).1 {
      var g := w.grants[id];
      assert Unblock(Block(w, id, maxAttempts).0, id).0.grants == w.grants[id := g.(attempts := 0)];
    }
  }
}
