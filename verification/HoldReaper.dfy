/**
 The expired-hold reaper of one tenant and period: one bounded page of expired holds per
 sweep, oldest first, each reclaimed at most once.
 */
module HoldReaper {
  import opened SortKeys

  datatype Status = NoStatus | ACTIVE | PENDING | RETAINED | EXPIRED_UNCREDITED | RECLAIMED | FAILED

  datatype HoldRow = HoldRow(expiresAt: nat, holdId: string, amount: int, status: Status)
  {
    ghost predicate WellFormed() {
      expiresAt < Pow10(ExpiresWidth) && PlainId(holdId)
    }

    predicate Blocked() {
      status != NoStatus && status != ACTIVE
    }

    /** Reclaiming it counts against the cap and gives its amount back. */
    predicate Counts() {
      !Blocked() && amount > 0
    }
  }

  /** The period's hold rows in key order. */
  ghost predicate Sorted(rows: seq<HoldRow>, period: string) {
    && (forall i | 0 <= i < |rows| :: rows[i].WellFormed())
    && (forall i, j | 0 <= i < j < |rows| ::
          Before(HoldSk(period, rows[i].expiresAt, rows[i].holdId), HoldSk(period, rows[j].expiresAt, rows[j].holdId)))
  }

  function ExpiredCount(rows: seq<HoldRow>, now: nat): (n: nat)
    ensures n <= |rows|
  {
    if rows == [] || rows[0].expiresAt > now then 0 else 1 + ExpiredCount(rows[1..], now)
  }

  /** The range scan with a limit: the first rows in key order up to the expiry ceiling. */
  function QueryExpiredHolds(rows: seq<HoldRow>, now: nat, limit: nat): seq<HoldRow> {
    rows[..if limit < ExpiredCount(rows, now) then limit else ExpiredCount(rows, now)]
  }

  lemma {:induction false} ExpiredFirst(rows: seq<HoldRow>, period: string, now: nat)
    requires Sorted(rows, period)
    ensures forall i | 0 <= i < |rows| :: i < ExpiredCount(rows, now) <==> rows[i].expiresAt <= now
    decreases |rows|
  {
    if rows != [] {
      if rows[0].expiresAt <= now {
        ExpiredFirst(rows[1..], period, now);
      }
      forall i | 0 < i < |rows| ensures rows[0].expiresAt <= rows[i].expiresAt {
        assert rows[0].WellFormed() && rows[i].WellFormed();
        HoldOrderIsExpiryOrder(period, rows[0].expiresAt, rows[i].expiresAt, rows[0].holdId, rows[i].holdId);
      }
      assert forall i | 0 < i < |rows| :: rows[i] == rows[1..][i - 1];
    }
  }

  /**
   The scan returns exactly the rows the key range takes in, oldest first: only expired
   ones, and a row it leaves out for the limit is no older than any it returns.
   */
  lemma ScanReturnsTheOldestExpired(rows: seq<HoldRow>, period: string, now: nat, limit: nat)
    requires Sorted(rows, period) && now < Pow10(ExpiresWidth)
    ensures var page := QueryExpiredHolds(rows, now, limit);
            && |page| <= limit
            && (forall i | 0 <= i < |page| :: page[i].expiresAt <= now)
            && (forall i, j | 0 <= i < |page| <= j < |rows| :: page[i].expiresAt <= rows[j].expiresAt)
            && (forall j | |page| <= j < |rows| && rows[j].expiresAt <= now :: |page| == limit)
    ensures forall i | 0 <= i < |rows| ::
              i < ExpiredCount(rows, now) <==>
              AtOrBefore(HoldSk(period, rows[i].expiresAt, rows[i].holdId), ExpiryCeiling(period, now))
  {
    ExpiredFirst(rows, period, now);
    forall i | 0 <= i < |rows|
      ensures i < ExpiredCount(rows, now) <==>
              AtOrBefore(HoldSk(period, rows[i].expiresAt, rows[i].holdId), ExpiryCeiling(period, now))
    {
      CeilingIsExpiry(period, rows[i].expiresAt, rows[i].holdId, now);
    }
    forall i, j | 0 <= i < j < |rows| ensures rows[i].expiresAt <= rows[j].expiresAt {
      HoldOrderIsExpiryOrder(period, rows[i].expiresAt, rows[j].expiresAt, rows[i].holdId, rows[j].holdId);
    }
  }

  // ---- one sweep ----

  function Total(rows: seq<HoldRow>): int {
    if rows == [] then 0 else rows[0].amount + Total(rows[1..])
  }

  /** What a page becomes: the rows left, and the rows reclaimed, at most `cap` of them. */
  function SweepPage(page: seq<HoldRow>, cap: nat): (seq<HoldRow>, seq<HoldRow>) {
    if page == [] || cap == 0 then (page, [])
    else
      var h, rest := page[0], page[1..];
      if h.Blocked() then
        var (left, reclaimed) := SweepPage(rest, cap);
        ([h] + left, reclaimed)
      else if h.amount <= 0 then SweepPage(rest, cap)
      else
        var (left, reclaimed) := SweepPage(rest, cap - 1);
        (left, [h] + reclaimed)
  }

  lemma SweepHead(page: seq<HoldRow>, cap: nat)
    requires page != [] && cap > 0
    ensures var (left, reclaimed) := SweepPage(page[1..], cap);
            page[0].Blocked() ==> SweepPage(page, cap) == ([page[0]] + left, reclaimed)
    ensures !page[0].Blocked() && page[0].amount <= 0 ==> SweepPage(page, cap) == SweepPage(page[1..], cap)
    ensures var (left, reclaimed) := SweepPage(page[1..], cap - 1);
            !page[0].Blocked() && page[0].amount > 0 ==> SweepPage(page, cap) == (left, [page[0]] + reclaimed)
  {
  }

  /** `spare` is the page's headroom over the cap. */
  function Swept(rows: seq<HoldRow>, now: nat, cap: nat, spare: nat): (seq<HoldRow>, seq<HoldRow>) {
    var page := QueryExpiredHolds(rows, now, cap + spare);
    var (left, reclaimed) := SweepPage(page, cap);
    (left + rows[|page|..], reclaimed)
  }

  class HoldTable {
    var rows: seq<HoldRow>
    var reserved: int
    var reclaimed: int

    constructor (rows: seq<HoldRow>, reserved: int)
      ensures this.rows == rows && this.reserved == reserved && reclaimed == 0
    {
      this.rows, this.reserved, reclaimed := rows, reserved, 0;
    }

    /** Delete the row at `at`. */
    method DeleteRow(at: nat)
      requires at < |rows|
      modifies this`rows
      ensures rows == old(rows)[..at] + old(rows)[at + 1..]
    {
      rows := rows[..at] + rows[at + 1..];
    }

    method SweepOnePeriod(now: nat, cap: nat, spare: nat) returns (count: nat)
      modifies this
      ensures rows == Swept(old(rows), now, cap, spare).0
      ensures count == |Swept(old(rows), now, cap, spare).1|
      ensures reserved == old(reserved) - Total(Swept(old(rows), now, cap, spare).1)
      ensures reclaimed == old(reclaimed) + Total(Swept(old(rows), now, cap, spare).1)
    {
      var page := QueryExpiredHolds(rows, now, cap + spare);
      count := WalkPage(page, cap);
    }

    /** One row of a page, at `at`: a blocked one stays; any other goes, and a positive amount goes back to the pool. */
    method SweepRow(at: nat, hold: HoldRow) returns (kept: bool, counted: bool)
      requires at < |rows|
      modifies this
      ensures kept == hold.Blocked() && counted == hold.Counts()
      ensures rows == if kept then old(rows) else old(rows)[..at] + old(rows)[at + 1..]
      ensures reserved == old(reserved) - if counted then hold.amount else 0
      ensures reclaimed == old(reclaimed) + if counted then hold.amount else 0
    {
      kept, counted := hold.Blocked(), false;
      if !kept {
        DeleteRow(at);
        if hold.amount > 0 {
          reserved := reserved - hold.amount;
          reclaimed := reclaimed + hold.amount;
          counted := true;
        }
      }
    }

    /** Walk one page; `at` is where the next row of the page now stands, past the rows left behind. */
    method WalkPage(page: seq<HoldRow>, cap: nat) returns (count: nat)
      requires |page| <= |rows| && rows[..|page|] == page
      modifies this
      ensures rows == SweepPage(page, cap).0 + old(rows)[|page|..]
      ensures count == |SweepPage(page, cap).1|
      ensures reserved == old(reserved) - Total(SweepPage(page, cap).1)
      ensures reclaimed == old(reclaimed) + Total(SweepPage(page, cap).1)
    {
      count := 0;
      ghost var rest, goal := rows[|page|..], SweepPage(page, cap);
      ghost var left: seq<HoldRow>, done: seq<HoldRow> := [], [];
      var at, i := 0, 0;
      assert page[0..] == page;
      JoinedToNothing(goal);
      while i < |page| && count < cap
        invariant 0 <= i <= |page| && count <= cap
        invariant at == |left| && rows == TableAt(left, page, i, rest)
        invariant count == |done| && goal == Joined(left, done, SweepPage(page[i..], cap - |done|))
        invariant reserved == old(reserved) - Total(done) && reclaimed == old(reclaimed) + Total(done)
        decreases |page| - i
      {
        ghost var left', done' := NextRow(left, done, page, i, cap, rest);
        var kept, counted := SweepRow(at, page[i]);
        at, count := at + (if kept then 1 else 0), count + (if counted then 1 else 0);
        left, done, i := left', done', i + 1;
      }
      WalkEnds(left, done, page, i, cap - |done|, rest);
    }
  }

  function Joined(left: seq<HoldRow>, done: seq<HoldRow>, more: (seq<HoldRow>, seq<HoldRow>)): (seq<HoldRow>, seq<HoldRow>) {
    (left + more.0, done + more.1)
  }

  lemma JoinedToNothing(more: (seq<HoldRow>, seq<HoldRow>))
    ensures Joined([], [], more) == more
  {
    assert [] + more.0 == more.0 && [] + more.1 == more.1;
  }

  /** The table in the middle of a walk: what was left behind, the page from row `i` on, and what lies after the page. */
  function TableAt(left: seq<HoldRow>, page: seq<HoldRow>, i: nat, rest: seq<HoldRow>): seq<HoldRow>
    requires i <= |page|
  {
    left + (page[i..] + rest)
  }

  /** One row of the walk: what was left behind and reclaimed so far, and what that makes of table and goal. */
  lemma NextRow(left: seq<HoldRow>, done: seq<HoldRow>, page: seq<HoldRow>, i: nat, cap: nat, rest: seq<HoldRow>)
    returns (left': seq<HoldRow>, done': seq<HoldRow>)
    requires i < |page| && |done| < cap
    ensures var h := page[i];
            && |left'| == |left| + (if h.Blocked() then 1 else 0)
            && |done'| == |done| + (if h.Counts() then 1 else 0)
            && Total(done') == Total(done) + (if h.Counts() then h.amount else 0)
    ensures Joined(left, done, SweepPage(page[i..], cap - |done|)) == Joined(left', done', SweepPage(page[i + 1..], cap - |done'|))
    ensures var rows := TableAt(left, page, i, rest);
            && |left| < |rows|
            && TableAt(left', page, i + 1, rest) == if page[i].Blocked() then rows else rows[..|left|] + rows[|left| + 1..]
  {
    var h := page[i];
    left', done' := if h.Blocked() then left + [h] else left, if h.Counts() then done + [h] else done;
    OneRowOfTable(left, page, i, rest);
    OneRowOfPage(left, done, page, i, cap - |done|);
    TotalOneMore(done, h);
  }

  lemma OneRowOfTable(left: seq<HoldRow>, page: seq<HoldRow>, i: nat, rest: seq<HoldRow>)
    requires i < |page|
    ensures var rows := TableAt(left, page, i, rest);
            && |left| < |rows|
            && rows == TableAt(left + [page[i]], page, i + 1, rest)
            && rows[..|left|] + rows[|left| + 1..] == TableAt(left, page, i + 1, rest)
  {
  }

  lemma WalkEnds(left: seq<HoldRow>, done: seq<HoldRow>, page: seq<HoldRow>, i: nat, cap: nat, rest: seq<HoldRow>)
    requires i == |page| || (i < |page| && cap == 0)
    ensures var goal := Joined(left, done, SweepPage(page[i..], cap));
            TableAt(left, page, i, rest) == goal.0 + rest && goal.1 == done
  {
    assert SweepPage(page[i..], cap) == (page[i..], []);
    assert left + (page[i..] + rest) == left + page[i..] + rest;
  }

  lemma OneRowOfPage(left: seq<HoldRow>, done: seq<HoldRow>, page: seq<HoldRow>, i: nat, cap: nat)
    requires i < |page| && cap > 0
    ensures var h := page[i];
            Joined(left, done, SweepPage(page[i..], cap)) ==
              if h.Blocked() then Joined(left + [h], done, SweepPage(page[i + 1..], cap))
              else if h.amount <= 0 then Joined(left, done, SweepPage(page[i + 1..], cap))
              else Joined(left, done + [h], SweepPage(page[i + 1..], cap - 1))
  {
    assert page[i..][0] == page[i] && page[i..][1..] == page[i + 1..];
    SweepHead(page[i..], cap);
    var more, fewer := SweepPage(page[i + 1..], cap), SweepPage(page[i + 1..], cap - 1);
    assert left + ([page[i]] + more.0) == left + [page[i]] + more.0;
    assert done + ([page[i]] + fewer.1) == done + [page[i]] + fewer.1;
  }

  lemma {:induction false} TotalOneMore(rows: seq<HoldRow>, h: HoldRow)
    ensures Total(rows + [h]) == Total(rows) + h.amount
  {
    if rows != [] {
      assert (rows + [h])[1..] == rows[1..] + [h];
      TotalOneMore(rows[1..], h);
    }
  }

  // ---- many sweeps ----

  predicate Reclaimable(h: HoldRow) {
    h.status in {NoStatus, ACTIVE} && h.amount > 0
  }

  /** The live holds that follow an expired backlog in key order. */
  predicate NotExpired(live: seq<HoldRow>, now: nat) {
    live != [] ==> live[0].expiresAt > now
  }

  /** The expired rows, oldest first. */
  function Backlog(rows: seq<HoldRow>, now: nat): seq<HoldRow> {
    rows[..ExpiredCount(rows, now)]
  }

  lemma {:induction false} PageOfReclaimable(page: seq<HoldRow>, cap: nat)
    requires forall h | h in page :: Reclaimable(h)
    ensures SweepPage(page, cap) == if |page| <= cap then ([], page) else (page[cap..], page[..cap])
    decreases |page|
  {
    if page != [] && cap > 0 {
      assert page[0] in page && Reclaimable(page[0]);
      PageOfReclaimable(page[1..], cap - 1);
      SweepHead(page, cap);
      assert page == [page[0]] + page[1..];
      if |page| > cap {
        assert page[..cap] == [page[0]] + page[1..][..cap - 1];
        assert page[cap..] == page[1..][cap - 1..];
      }
    }
  }

  lemma {:induction false} CountOfConcat(expired: seq<HoldRow>, live: seq<HoldRow>, now: nat)
    requires forall h | h in expired :: h.expiresAt <= now
    requires NotExpired(live, now)
    ensures ExpiredCount(expired + live, now) == |expired|
    decreases |expired|
  {
    if expired == [] {
      assert expired + live == live;
    } else {
      assert (expired + live)[1..] == expired[1..] + live;
      assert (expired + live)[0] == expired[0] && expired[0] in expired;
      CountOfConcat(expired[1..], live, now);
    }
  }

  lemma PageAndRest(expired: seq<HoldRow>, live: seq<HoldRow>, n: nat, m: nat)
    requires n <= m <= |expired|
    ensures expired[..m][n..] + (expired + live)[m..] == expired[n..] + live
  {
  }

  /** A sweep takes the `cap` oldest of a reclaimable backlog, or all of it, and leaves every live hold. */
  lemma SweepTakesTheOldest(expired: seq<HoldRow>, live: seq<HoldRow>, now: nat, cap: nat, spare: nat)
    requires forall h | h in expired :: Reclaimable(h) && h.expiresAt <= now
    requires NotExpired(live, now)
    ensures var n := Least(cap, |expired|);
            Swept(expired + live, now, cap, spare) == (expired[n..] + live, expired[..n])
  {
    var rows := expired + live;
    CountOfConcat(expired, live, now);
    var page := QueryExpiredHolds(rows, now, cap + spare);
    assert page == expired[..|page|];
    PageOfReclaimable(page, cap);
    var n := Least(cap, |expired|);
    assert page[..if |page| <= cap then |page| else cap] == expired[..n];
    assert SweepPage(page, cap).0 == page[n..];
    PageAndRest(expired, live, n, |page|);
  }

  /** Sweep after sweep, the live holds changing freely in between. */
  function Sweeps(expired: seq<HoldRow>, lives: seq<seq<HoldRow>>, now: nat, cap: nat, spare: nat): (seq<HoldRow>, seq<HoldRow>)
    decreases |lives|
  {
    if lives == [] then (expired, [])
    else
      var (rows, reclaimed) := Swept(expired + lives[0], now, cap, spare);
      var (left, later) := Sweeps(Backlog(rows, now), lives[1..], now, cap, spare);
      (left, reclaimed + later)
  }

  function Least(a: nat, b: nat): nat {
    if a < b then a else b
  }

  /** How many of `total` holds some rounds of `cap` take. */
  function Taken(total: nat, rounds: nat, cap: nat): (n: nat)
    ensures n <= total
  {
    if rounds == 0 then 0 else Least(cap, total) + Taken(total - Least(cap, total), rounds - 1, cap)
  }

  lemma {:induction false} TakenIs(total: nat, rounds: nat, cap: nat)
    ensures Taken(total, rounds, cap) == Least(rounds * cap, total)
    decreases rounds
  {
    if rounds > 0 {
      TakenIs(total - Least(cap, total), rounds - 1, cap);
      assert rounds * cap == (rounds - 1) * cap + cap;
    }
  }

  lemma CutTwice(s: seq<HoldRow>, m: nat, k: nat)
    requires m + k <= |s|
    ensures s[..m] + s[m..][..k] == s[..m + k] && s[m..][k..] == s[m + k..]
  {
  }

  lemma OneMoreSweep(expired: seq<HoldRow>, live: seq<HoldRow>, now: nat, cap: nat, spare: nat)
    requires forall h | h in expired :: Reclaimable(h) && h.expiresAt <= now
    requires NotExpired(live, now)
    ensures var m := Least(cap, |expired|);
            && Swept(expired + live, now, cap, spare).1 == expired[..m]
            && Backlog(Swept(expired + live, now, cap, spare).0, now) == expired[m..]
  {
    var m := Least(cap, |expired|);
    SweepTakesTheOldest(expired, live, now, cap, spare);
    CountOfConcat(expired[m..], live, now);
    assert Backlog(expired[m..] + live, now) == expired[m..];
  }

  lemma SweepsFromTheFirst(expired: seq<HoldRow>, lives: seq<seq<HoldRow>>, now: nat, cap: nat, spare: nat, m: nat)
    requires lives != [] && m <= |expired|
    requires Swept(expired + lives[0], now, cap, spare).1 == expired[..m]
    requires Backlog(Swept(expired + lives[0], now, cap, spare).0, now) == expired[m..]
    ensures var later := Sweeps(expired[m..], lives[1..], now, cap, spare);
            Sweeps(expired, lives, now, cap, spare) == (later.0, expired[..m] + later.1)
  {
  }

  lemma {:induction false} SweepsTakeInOrder(expired: seq<HoldRow>, lives: seq<seq<HoldRow>>, now: nat, cap: nat, spare: nat)
    requires forall h | h in expired :: Reclaimable(h) && h.expiresAt <= now
    requires forall live | live in lives :: NotExpired(live, now)
    ensures var n := Taken(|expired|, |lives|, cap);
            Sweeps(expired, lives, now, cap, spare) == (expired[n..], expired[..n])
    decreases |lives|
  {
    if lives == [] {
      assert expired[0..] == expired;
    } else {
      var m := Least(cap, |expired|);
      assert lives[0] in lives && forall live | live in lives[1..] :: live in lives;
      OneMoreSweep(expired, lives[0], now, cap, spare);
      SweepsFromTheFirst(expired, lives, now, cap, spare, m);
      SweepsTakeInOrder(expired[m..], lives[1..], now, cap, spare);
      CutTwice(expired, m, Taken(|expired| - m, |lives| - 1, cap));
    }
  }

  /**
   A backlog of reclaimable holds is gone after as many sweeps as it has caps, rounded up;
   each hold is returned exactly once, oldest first, so the sum returned is the sum held.
   */
  lemma TheBacklogDrains(expired: seq<HoldRow>, lives: seq<seq<HoldRow>>, now: nat, cap: nat, spare: nat)
    requires cap > 0 && |lives| * cap >= |expired|
    requires forall h | h in expired :: Reclaimable(h) && h.expiresAt <= now
    requires forall live | live in lives :: NotExpired(live, now)
    ensures Sweeps(expired, lives, now, cap, spare) == ([], expired)
    ensures Total(Sweeps(expired, lives, now, cap, spare).1) == Total(expired)
  {
    SweepsTakeInOrder(expired, lives, now, cap, spare);
    TakenIs(|expired|, |lives|, cap);
    assert expired[..|expired|] == expired && expired[|expired|..] == [];
  }

  /** No fewer sweeps would do. */
  lemma NoFewerSweeps(expired: seq<HoldRow>, lives: seq<seq<HoldRow>>, now: nat, cap: nat, spare: nat)
    requires |lives| * cap < |expired|
    requires forall h | h in expired :: Reclaimable(h) && h.expiresAt <= now
    requires forall live | live in lives :: NotExpired(live, now)
    ensures Sweeps(expired, lives, now, cap, spare).0 != []
  {
    SweepsTakeInOrder(expired, lives, now, cap, spare);
    TakenIs(|expired|, |lives|, cap);
  }

  /** A sweep reclaims something exactly when its page has a hold it may reclaim; other rows in the page hide what is behind it. */
  lemma {:induction false} PageReclaimsIff(page: seq<HoldRow>, cap: nat)
    requires cap > 0
    ensures SweepPage(page, cap).1 != [] <==> exists h :: h in page && Reclaimable(h)
    decreases |page|
  {
    if page != [] {
      PageReclaimsIff(page[1..], cap);
      SweepHead(page, cap);
      if Reclaimable(page[0]) {
        assert page[0] in page;
      } else {
        if h :| h in page && Reclaimable(h) {
          assert h in page[1..];
        }
        if h :| h in page[1..] && Reclaimable(h) {
          assert h in page;
        }
      }
    }
  }

  /**
   By status: a hold is reclaimed only if it is ACTIVE or has no status and its amount is
   positive; any other status is left as often as it was there, and of a positive amount
   what is not left is reclaimed.
   */
  predicate ByStatus(rows: seq<HoldRow>, left: seq<HoldRow>, reclaimed: seq<HoldRow>, h: HoldRow) {
    && (h in reclaimed ==> h.status in {NoStatus, ACTIVE} && h.amount > 0)
    && (h.status !in {NoStatus, ACTIVE} ==> multiset(left)[h] == multiset(rows)[h])
    && (h.amount > 0 ==> multiset(left)[h] + multiset(reclaimed)[h] == multiset(rows)[h])
  }

  lemma SweepGoesByStatus(rows: seq<HoldRow>, now: nat, cap: nat, spare: nat, h: HoldRow)
    ensures var (left, reclaimed) := Swept(rows, now, cap, spare); ByStatus(rows, left, reclaimed, h)
  {
    var page := QueryExpiredHolds(rows, now, cap + spare);
    var (left, reclaimed) := SweepPage(page, cap);
    var rest := rows[|page|..];
    PageGoesByStatus(page, cap, h);
    assert rows == page + rest;
    assert multiset(page + rest)[h] == multiset(page)[h] + multiset(rest)[h];
    assert multiset(left + rest)[h] == multiset(left)[h] + multiset(rest)[h];
  }

  lemma CountHead(first: HoldRow, rest: seq<HoldRow>, h: HoldRow)
    ensures multiset([first] + rest)[h] == multiset(rest)[h] + if first == h then 1 else 0
  {
    assert multiset([first] + rest) == multiset([first]) + multiset(rest);
  }

  lemma {:induction false} PageGoesByStatus(page: seq<HoldRow>, cap: nat, h: HoldRow)
    ensures var (left, reclaimed) := SweepPage(page, cap); ByStatus(page, left, reclaimed, h)
    decreases |page|
  {
    if page != [] && cap > 0 {
      var less := if page[0].Counts() then cap - 1 else cap;
      var (left, reclaimed) := SweepPage(page[1..], less);
      SweepHead(page, cap);
      assert page == [page[0]] + page[1..];
      PageGoesByStatus(page[1..], less, h);
      CountHead(page[0], page[1..], h);
      CountHead(page[0], left, h);
      CountHead(page[0], reclaimed, h);
    }
  }

  lemma {:induction false} CountPastPage(page: seq<HoldRow>, rest: seq<HoldRow>, now: nat)
    requires forall h | h in page :: h.expiresAt <= now
    ensures ExpiredCount(page + rest, now) >= |page|
    decreases |page|
  {
    if page != [] {
      assert (page + rest)[1..] == page[1..] + rest;
      assert (page + rest)[0] == page[0] && page[0] in page;
      CountPastPage(page[1..], rest, now);
    }
  }

  /** A full page of expired rows the reaper may not touch: whatever stands behind it, the sweep changes nothing. */
  lemma FullBlockedPage(page: seq<HoldRow>, rest: seq<HoldRow>, now: nat, cap: nat, spare: nat)
    requires |page| == cap + spare && forall h | h in page :: h.Blocked() && h.expiresAt <= now
    ensures Swept(page + rest, now, cap, spare) == (page + rest, [])
  {
    var rows := page + rest;
    CountPastPage(page, rest, now);
    assert QueryExpiredHolds(rows, now, cap + spare) == page;
    BlockedStay(page, cap);
    assert rows[|page|..] == rest;
  }

  /** One sweep after another at the given times; before each, other processes leave `behind` it what they will. */
  datatype Round = Round(now: nat, behind: seq<HoldRow>)

  function SweepRounds(page: seq<HoldRow>, rounds: seq<Round>, cap: nat, spare: nat): (seq<HoldRow>, seq<HoldRow>)
    decreases |rounds|
  {
    if rounds == [] then (page, [])
    else
      var (rows, reclaimed) := Swept(page + rounds[0].behind, rounds[0].now, cap, spare);
      var front := if |page| <= |rows| then rows[..|page|] else rows;
      var (left, later) := SweepRounds(front, rounds[1..], cap, spare);
      (left, reclaimed + later)
  }

  /**
   Such a page is never passed: any number of sweeps, at any later times, whatever arrives or
   goes behind it, leave it as it is and reclaim nothing at all.
   */
  lemma {:induction false} BlockedPageStarves(page: seq<HoldRow>, rounds: seq<Round>, now: nat, cap: nat, spare: nat)
    requires |page| == cap + spare && forall h | h in page :: h.Blocked() && h.expiresAt <= now
    requires forall round | round in rounds :: round.now >= now
    ensures SweepRounds(page, rounds, cap, spare) == (page, [])
    decreases |rounds|
  {
    if rounds != [] {
      assert rounds[0] in rounds && forall round | round in rounds[1..] :: round in rounds;
      FullBlockedPage(page, rounds[0].behind, rounds[0].now, cap, spare);
      assert (page + rounds[0].behind)[..|page|] == page;
      BlockedPageStarves(page, rounds[1..], now, cap, spare);
      var (rows, reclaimed) := Swept(page + rounds[0].behind, rounds[0].now, cap, spare);
      assert rows[..|page|] == page && reclaimed + [] == [];
    }
  }

  lemma {:induction false} BlockedStay(page: seq<HoldRow>, cap: nat)
    requires forall h | h in page :: h.Blocked()
    ensures SweepPage(page, cap) == (page, [])
    decreases |page|
  {
    if page != [] && cap > 0 {
      assert page[0] in page && page[0].Blocked();
      BlockedStay(page[1..], cap);
      SweepHead(page, cap);
      assert page == [page[0]] + page[1..];
    }
  }
}
