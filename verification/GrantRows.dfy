/**
 Limit-raise grants: a lifecycle on one table that moves capacity on another. Requests,
 grants and pool rows, and each conditional write or transaction over them.
 */
module GrantRows {
  import opened Options
  import opened PoolRows

  type RequestId(!new, ==) = string
  type GrantId(!new, ==) = string
  type PoolKey(!new, ==) = string

  datatype RequestStatus = Pending | Approved | Rejected | Withdrawn

  datatype Request = Request(status: RequestStatus, revision: int, grant: Option<GrantId>)

  datatype GrantStatus = ACTIVE | EXPIRED | REVOKED | REVOKE_BLOCKED

  /** `indexed`: the sparse expiry index's attribute is present. `target` is the pool row pinned at approval. */
  datatype Grant = Grant(status: GrantStatus, indexed: bool, blockedFlag: bool, amount: int,
                         target: PoolKey, request: RequestId, attempts: int)

  predicate Bearing(g: Grant) {
    g.status == ACTIVE || g.status == REVOKE_BLOCKED
  }

  /** `subtracted` counts how often each grant's amount was taken off a pool row. */
  datatype World = World(requests: map<RequestId, Request>, grants: map<GrantId, Grant>,
                         pools: map<PoolKey, Row>, subtracted: map<GrantId, nat>)

  function PoolWrite(w: World, p: PoolKey, write: Write, configured: int): World {
    var after := Apply(Lookup(w.pools, p), write, configured);
    if after.None? then w else w.(pools := w.pools[p := after.value])
  }

  predicate PoolAdmits(w: World, p: PoolKey, write: Write) {
    Lands(Lookup(w.pools, p), write)
  }

  /** The most one grant may give, in millionths of a dollar. */
  const MaxGrant: int := 1_000_000_000 * 10_000

  /**
   An approval as its caller makes it: the request as read, what it asked for and what is
   given, a fresh grant id, and the pool row as read, by which the cap is resolved.
   */
  datatype Approval = Approval(request: RequestId, revision: int, asked: int, amount: int, id: GrantId,
                               pool: PoolKey, read: Option<Row>)

  datatype Approved = Granted | AmountInvalid | PoolMissing | PoolSuspended | CapExceeded | RequestNotPending | Conflict

  /** What is refused before anything is written. */
  function Refusal(a: Approval, configured: int): Option<Approved> {
    if a.amount <= 0 || a.amount > MaxGrant || a.amount > a.asked then Some(AmountInvalid)
    else if a.read.None? then Some(PoolMissing)
    else if !a.read.value.active then Some(PoolSuspended)
    else if EffectiveCap(a.read.value, configured) - a.amount < 0 then Some(CapExceeded)
    else None
  }

  /** The write on the pool row: the row's live granted sum is compared with the cap as read, less the amount. */
  function Raise(a: Approval, configured: int): Write
    requires a.read.Some?
  {
    GrantApply(a.amount, EffectiveCap(a.read.value, configured) - a.amount)
  }

  predicate PendingAt(w: World, r: RequestId, revision: int) {
    r in w.requests && w.requests[r].status == Pending && w.requests[r].revision == revision
  }

  /** Decide the request, put the grant and raise the row: all three or none. */
  function Approve(w: World, a: Approval, configured: int): (World, Approved) {
    if Refusal(a, configured).Some? then (w, Refusal(a, configured).value)
    else if !PendingAt(w, a.request, a.revision) then (w, RequestNotPending)
    else if !PoolAdmits(w, a.pool, Raise(a, configured)) then (w, CapExceeded)
    else if a.id in w.grants then (w, Conflict)
    else
      (PoolWrite(w, a.pool, Raise(a, configured), configured).(
         requests := w.requests[a.request := Request(RequestStatus.Approved, a.revision + 1, Some(a.id))],
         grants := w.grants[a.id := Grant(ACTIVE, true, false, a.amount, a.pool, a.request, 0)],
         subtracted := w.subtracted[a.id := 0]), Granted)
  }

  function Decide(w: World, r: RequestId, revision: int, to: RequestStatus): (World, bool) {
    if PendingAt(w, r, revision) then
      (w.(requests := w.requests[r := Request(to, revision + 1, None)]), true)
    else (w, false)
  }

  function Count(m: map<GrantId, nat>, id: GrantId): nat {
    if id in m then m[id] else 0
  }

  /**
   End a grant and give its capacity back, as read from the grant row earlier: the status
   and the amount are compared, the pinned target is used as read.
   */
  function Revoke(w: World, id: GrantId, read: Grant, to: GrantStatus, configured: int): (World, bool) {
    if && id in w.grants && w.grants[id].status == ACTIVE && w.grants[id].amount == read.amount
       && PoolAdmits(w, read.target, GrantRevoke(read.amount))
    then
      (PoolWrite(w, read.target, GrantRevoke(read.amount), configured).(
         grants := w.grants[id := w.grants[id].(status := to, indexed := false)],
         subtracted := w.subtracted[id := Count(w.subtracted, id) + 1]), true)
    else (w, false)
  }

  function Bump(w: World, id: GrantId): (World, Option<int>) {
    if id in w.grants && w.grants[id].status == ACTIVE then
      (w.(grants := w.grants[id := w.grants[id].(attempts := w.grants[id].attempts + 1)]), Some(w.grants[id].attempts + 1))
    else (w, None)
  }

  function Block(w: World, id: GrantId, maxAttempts: int): (World, bool) {
    if id in w.grants && w.grants[id].status == ACTIVE && w.grants[id].attempts >= maxAttempts then
      (w.(grants := w.grants[id := w.grants[id].(status := REVOKE_BLOCKED, indexed := false, blockedFlag := true)]), true)
    else (w, false)
  }

  function Unblock(w: World, id: GrantId): (World, bool) {
    if id in w.grants && w.grants[id].status == REVOKE_BLOCKED then
      (w.(grants := w.grants[id := w.grants[id].(status := ACTIVE, indexed := true, blockedFlag := false, attempts := 0)]), true)
    else (w, false)
  }

  /** The repository, and the tables its transactions span. */
  class QuotaEvents {
    var requests: map<RequestId, Request>
    var grants: map<GrantId, Grant>
    var pools: map<PoolKey, Row>
    ghost var subtracted: map<GrantId, nat>
    const configured: int

    ghost function View(): World
      reads this
    {
      World(requests, grants, pools, subtracted)
    }

    constructor (configured: int)
      ensures View() == World(map[], map[], map[], map[]) && this.configured == configured
    {
      requests, grants, pools, subtracted := map[], map[], map[], map[];
      this.configured := configured;
    }

    /** The checks before the transaction, then the transaction. */
    method ApproveRequest(a: Approval) returns (answer: Approved)
      modifies this
      ensures (View(), answer) == Approve(old(View()), a, configured)
    {
      if a.amount <= 0 || a.amount > MaxGrant || a.amount > a.asked {
        return AmountInvalid;
      }
      if a.read.None? {
        return PoolMissing;
      }
      if !a.read.value.active {
        return PoolSuspended;
      }
      var capMinus := EffectiveCap(a.read.value, configured) - a.amount;
      if capMinus < 0 {
        return CapExceeded;
      }
      answer := ApproveTransaction(a.request, a.revision, a.id, a.amount, a.pool, capMinus);
    }

    method ApproveTransaction(r: RequestId, revision: int, id: GrantId, amount: int, p: PoolKey, capMinus: int) returns (answer: Approved)
      modifies this
      ensures var w := old(View());
              answer == if !PendingAt(w, r, revision) then RequestNotPending
                        else if !PoolAdmits(w, p, GrantApply(amount, capMinus)) then CapExceeded
                        else if id in w.grants then Conflict
                        else Granted
      ensures answer != Granted ==> View() == old(View())
      ensures answer == Granted ==>
                View() == PoolWrite(old(View()), p, GrantApply(amount, capMinus), configured).(
                  requests := old(requests)[r := Request(RequestStatus.Approved, revision + 1, Some(id))],
                  grants := old(grants)[id := Grant(ACTIVE, true, false, amount, p, r, 0)],
                  subtracted := old(subtracted)[id := 0])
    {
      if r !in requests || requests[r].status != Pending || requests[r].revision != revision {
        return RequestNotPending;
      }
      if p !in pools || (pools[p].granted.Some? && pools[p].granted.value > capMinus) {
        return CapExceeded;
      }
      if id in grants {
        return Conflict;
      }
      pools := pools[p := MoveCeiling(pools[p], amount).(granted := Some(Or0(pools[p].granted) + amount))];
      requests := requests[r := Request(RequestStatus.Approved, revision + 1, Some(id))];
      grants := grants[id := Grant(ACTIVE, true, false, amount, p, r, 0)];
      subtracted := subtracted[id := 0];
      return Granted;
    }

    method EndGrant(id: GrantId, read: Grant, to: GrantStatus) returns (ok: bool)
      modifies this
      ensures (View(), ok) == Revoke(old(View()), id, read, to, configured)
    {
      var p := read.target;
      ok := id in grants && grants[id].status == ACTIVE && grants[id].amount == read.amount
        && p in pools && pools[p].granted.Some? && pools[p].granted.value >= read.amount;
      if ok {
        pools := pools[p := MoveCeiling(pools[p], -read.amount).(granted := Some(Or0(pools[p].granted) - read.amount))];
        grants := grants[id := grants[id].(status := to, indexed := false)];
        subtracted := subtracted[id := Count(subtracted, id) + 1];
      }
    }

    method BumpRevokeAttempts(id: GrantId) returns (attempts: Option<int>)
      modifies this`grants
      ensures (View(), attempts) == Bump(old(View()), id)
    {
      if id !in grants || grants[id].status != ACTIVE {
        return None;
      }
      grants := grants[id := grants[id].(attempts := grants[id].attempts + 1)];
      return Some(grants[id].attempts);
    }

    method MarkRevokeBlocked(id: GrantId, maxAttempts: int) returns (ok: bool)
      modifies this`grants
      ensures (View(), ok) == Block(old(View()), id, maxAttempts)
    {
      ok := id in grants && grants[id].status == ACTIVE && grants[id].attempts >= maxAttempts;
      if ok {
        grants := grants[id := grants[id].(status := REVOKE_BLOCKED, indexed := false, blockedFlag := true)];
      }
    }

    method ClearRevokeBlock(id: GrantId) returns (ok: bool)
      modifies this`grants
      ensures (View(), ok) == Unblock(old(View()), id)
    {
      ok := id in grants && grants[id].status == REVOKE_BLOCKED;
      if ok {
        grants := grants[id := grants[id].(status := ACTIVE, indexed := true, blockedFlag := false, attempts := 0)];
      }
    }
  }
}
