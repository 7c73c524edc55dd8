/**
 Runs of setters and sealers on one tenant row, with arbitrary delays between each read
 and its write and clocks that may run behind: no seal changes, no accepted default is
 lost, and pruning never shows.
 */
module SealRuns {
  import opened Options
  import opened TenantDefaults

  /** `accepted` and `sealed` remember every default and seal ever committed; `seen` every row there has been. */
  datatype World = World(row: Row, now: Period, accepted: map<Period, int>, sealed: map<Period, int>, seen: set<Row>)

  datatype Step = Tick(to: Period) | Do(write: Write)

  ghost function Next(w: World, s: Step): World {
    match s
    case Tick(to) => w.(now := to)
    case Do(write) =>
      if !Lands(w.row, write) then w
      else
        var row := Landed(w.row, write);
        w.(row := row, seen := w.seen + {row},
           accepted := if write.SetDefault? then w.accepted[write.period := write.amount] else w.accepted,
           sealed := if write.Seal? then w.sealed[write.period := Resolve(write.read, write.period).value] else w.sealed)
  }

  /** Time does not go back, no writer's clock is ahead of it, and a read saw a row that was once stored. */
  ghost predicate Allowed(w: World, s: Step) {
    match s
    case Tick(to) => w.now <= to
    case Do(write) => write.clock <= w.now && write.read in w.seen
  }

  // ---- the invariant, in three parts ----

  ghost predicate Superseded(keys: set<Period>, now: Period, k: Period) {
    exists j :: j in keys && k < j <= now
  }

  /** Every accepted default is still there, or a later one already in effect is. */
  ghost predicate HistoryOk(defaults: map<Period, int>, now: Period, accepted: map<Period, int>) {
    && (forall k | k in defaults :: k in accepted && accepted[k] == defaults[k])
    && (forall k | k in accepted :: k in defaults || Superseded(defaults.Keys, now, k))
  }

  /** Equal versions, equal defaults. */
  ghost predicate VersionsOk(r: Row, row: Row) {
    && (r.version.None? <==> r.defaults.None?)
    && (r.version.Some? ==> row.version.Some? && r.version.value <= row.version.value)
    && (r.version.Some? && r.version == row.version ==> r.defaults == row.defaults)
  }

  ghost predicate SealsOk(r: Row, now: Period, sealed: map<Period, int>) {
    forall p | p in MapOf(r.seals) && p >= now - SealRetention :: p in sealed && sealed[p] == MapOf(r.seals)[p]
  }

  ghost predicate Inv(w: World) {
    && w.row in w.seen
    && HistoryOk(MapOf(w.row.defaults), w.now, w.accepted)
    && (forall r | r in w.seen :: MapOf(r.defaults).Keys <= w.accepted.Keys)
    && (forall r | r in w.seen :: VersionsOk(r, w.row))
    && (forall r | r in w.seen :: SealsOk(r, w.now, w.sealed))
    && (forall p | p in w.sealed && p >= w.now - SealRetention :: p in MapOf(w.row.seals))
  }

  /**
   Pruning from a stale read is safe: everything removed is older than a key the reader saw
   in effect, and that key, or one that superseded it, is still there.
   */
  lemma PruneKeepsHistory(defaults: map<Period, int>, now: Period, accepted: map<Period, int>, read: set<Period>, clock: Period)
    requires HistoryOk(defaults, now, accepted) && read <= accepted.Keys && clock <= now
    ensures HistoryOk(defaults - DefaultsToPrune(read, clock), now, accepted)
  {
    var gone := DefaultsToPrune(read, clock);
    if gone != {} {
      var some :| some in gone;
      if Latest(read, clock).None? {
        NoLatest(read, clock);
        assert false;
      }
      var latest: Period :| IsLatest(read, clock, latest);
      LatestIs(read, clock, latest);
      var kept :| kept in defaults && latest <= kept <= now;
      assert forall k | k in gone :: k < latest;
      forall k | k in accepted && k !in defaults - gone ensures Superseded((defaults - gone).Keys, now, k) {
        if k in gone {
          assert kept in (defaults - gone).Keys && k < kept;
        } else {
          var j :| j in defaults && k < j <= now;
          assert j in (defaults - gone).Keys || (kept in (defaults - gone).Keys && k < kept);
        }
      }
    }
  }

  lemma AcceptKeepsHistory(defaults: map<Period, int>, now: Period, accepted: map<Period, int>, p: Period, amount: int)
    requires HistoryOk(defaults, now, accepted)
    ensures HistoryOk(defaults[p := amount], now, accepted[p := amount])
  {
    forall k | k in accepted && k !in defaults && k != p
      ensures Superseded(defaults[p := amount].Keys, now, k)
    {
      var j :| j in defaults && k < j <= now;
      assert j in defaults[p := amount].Keys;
    }
  }

  lemma SetKeepsInv(w: World, write: Write)
    requires Inv(w) && write.SetDefault? && Allowed(w, Do(write)) && Lands(w.row, write)
    ensures Inv(Next(w, Do(write)))
  {
    var read := MapOf(write.read.defaults).Keys;
    var pruned := MapOf(w.row.defaults) - DefaultsToPrune(read, write.clock);
    PruneKeepsHistory(MapOf(w.row.defaults), w.now, w.accepted, read, write.clock);
    AcceptKeepsHistory(pruned, w.now, w.accepted, write.period, write.amount);
    assert VersionsOk(w.row, w.row) && VersionsOk(write.read, w.row);
    assert SealsOk(w.row, w.now, w.sealed);
    var row := Landed(w.row, write);
    forall r | r in w.seen ensures VersionsOk(r, row) {
      assert VersionsOk(r, w.row);
    }
  }

  lemma SealKeepsInv(w: World, write: Write)
    requires Inv(w) && write.Seal? && Allowed(w, Do(write)) && Lands(w.row, write)
    ensures Inv(Next(w, Do(write)))
  {
    assert VersionsOk(w.row, w.row);
    assert SealsOk(w.row, w.now, w.sealed);
    var row := Landed(w.row, write);
    forall r | r in w.seen ensures VersionsOk(r, row) {
      assert VersionsOk(r, w.row);
    }
    var n := Next(w, Do(write));
    forall r | r in n.seen ensures SealsOk(r, n.now, n.sealed) {
      if r in w.seen {
        assert SealsOk(r, w.now, w.sealed);
      }
    }
  }

  lemma StepKeepsInv(w: World, s: Step)
    requires Inv(w) && Allowed(w, s)
    ensures Inv(Next(w, s))
  {
    match s {
      case Tick(to) =>
        forall r | r in w.seen ensures SealsOk(r, to, w.sealed) {
          assert SealsOk(r, w.now, w.sealed);
        }
        forall k | k in w.accepted && k !in MapOf(w.row.defaults) ensures Superseded(MapOf(w.row.defaults).Keys, to, k) {
          var j :| j in MapOf(w.row.defaults).Keys && k < j <= w.now;
        }
      case Do(write) =>
        if Lands(w.row, write) {
          if write.SetDefault? {
            SetKeepsInv(w, write);
          } else {
            SealKeepsInv(w, write);
          }
        }
    }
  }

  ghost function Run(w: World, steps: seq<Step>): World
    decreases |steps|
  {
    if steps == [] then w else Next(Run(w, steps[..|steps| - 1]), steps[|steps| - 1])
  }

  ghost predicate AllAllowed(w: World, steps: seq<Step>) {
    forall i | 0 <= i < |steps| :: Allowed(Run(w, steps[..i]), steps[i])
  }

  lemma AllAllowedPrefix(w: World, steps: seq<Step>, n: nat)
    requires AllAllowed(w, steps) && n <= |steps|
    ensures AllAllowed(w, steps[..n])
    ensures n < |steps| ==> Allowed(Run(w, steps[..n]), steps[n])
  {
    forall i | 0 <= i < n ensures Allowed(Run(w, steps[..n][..i]), steps[..n][i]) {
      assert steps[..n][..i] == steps[..i];
    }
  }

  lemma {:induction false} RunKeepsInv(w: World, steps: seq<Step>)
    requires Inv(w) && AllAllowed(w, steps)
    ensures Inv(Run(w, steps))
    decreases |steps|
  {
    if steps != [] {
      var n := |steps| - 1;
      AllAllowedPrefix(w, steps, n);
      RunKeepsInv(w, steps[..n]);
      StepKeepsInv(Run(w, steps[..n]), steps[n]);
    }
  }

  ghost function NewTenant(now: Period): World {
    World(Row(None, None, None), now, map[], map[], {Row(None, None, None)})
  }

  lemma NewTenantIsOk(now: Period)
    ensures Inv(NewTenant(now))
  {
  }

  // ---- what it promises ----

  /** Pruning never shows: from now on every period resolves as it would from the whole history. */
  lemma PruningNeverShows(w: World, p: Period)
    requires Inv(w) && p >= w.now
    ensures Resolve(w.row, p) == ResolveIn(w.accepted, p)
  {
    var defaults := MapOf(w.row.defaults);
    if k: Period :| IsLatest(w.accepted.Keys, p, k) {
      LatestIs(w.accepted.Keys, p, k);
      forall j | j in defaults.Keys && k < j ensures j > w.now {
        assert j in w.accepted.Keys;
      }
      assert !Superseded(defaults.Keys, w.now, k);
      assert IsLatest(defaults.Keys, p, k);
      LatestIs(defaults.Keys, p, k);
    } else {
      if Latest(defaults.Keys, p).Some? {
        var k: Period :| IsLatest(defaults.Keys, p, k);
        assert k in w.accepted.Keys;
        LatestExists(w.accepted.Keys, p);
      }
    }
  }

  /** A seal fixes the default in force at the instant it commits, whatever was read and however long ago. */
  lemma SealFixesWhatIsInForce(w: World, write: Write)
    requires Inv(w) && write.Seal? && Allowed(w, Do(write)) && Lands(w.row, write)
    ensures var n := Next(w, Do(write));
            && write.period in n.sealed
            && Some(n.sealed[write.period]) == Resolve(w.row, write.period)
            && (write.period >= w.now ==> Some(n.sealed[write.period]) == ResolveIn(w.accepted, write.period))
  {
    assert VersionsOk(write.read, w.row);
    if write.period >= w.now {
      PruningNeverShows(w, write.period);
    }
  }

  /** A default accepted for a period is the one that period is sealed at, unless replaced first. */
  lemma NoAcceptedDefaultIsLost(w: World, write: Write)
    requires Inv(w) && write.Seal? && Allowed(w, Do(write)) && Lands(w.row, write)
    requires write.period >= w.now && write.period in w.accepted
    ensures Next(w, Do(write)).sealed[write.period] == w.accepted[write.period]
  {
  }

  /** A setter is accepted for a period only before any seal of it. */
  lemma SetterComesBeforeSeal(w: World, write: Write)
    requires Inv(w) && write.SetDefault? && Lands(w.row, write)
    requires write.period >= w.now - SealRetention
    ensures write.period !in w.sealed
  {
  }

  /** Within the retention horizon a seal never changes. */
  lemma {:induction false} SealNeverChanges(w: World, steps: seq<Step>, p: Period)
    requires Inv(w) && AllAllowed(w, steps) && p in w.sealed
    requires p >= Run(w, steps).now - SealRetention
    ensures w.now <= Run(w, steps).now
    ensures p in Run(w, steps).sealed && Run(w, steps).sealed[p] == w.sealed[p]
    decreases |steps|
  {
    if steps != [] {
      var n := |steps| - 1;
      AllAllowedPrefix(w, steps, n);
      SealNeverChanges(w, steps[..n], p);
      RunKeepsInv(w, steps[..n]);
    }
  }

  /** What a sealer returns for a period: the seal it saw on a row it read. */
  lemma ReturnsAgree(w: World, r: Row, q: Row, p: Period)
    requires Inv(w) && r in w.seen && q in w.seen && p >= w.now - SealRetention
    requires p in MapOf(r.seals) && p in MapOf(q.seals)
    ensures MapOf(r.seals)[p] == MapOf(q.seals)[p] == w.sealed[p]
  {
  }

  // ---- clocks that run ahead ----

  /** What a setter's clock takes from its own reading: a default in effect at `p` exactly if a later one is already in effect by that clock. */
  lemma PrunesFromReadIff(read: set<Period>, clock: Period, k: Period)
    ensures k in DefaultsToPrune(read, clock) <==> k in read && exists j :: j in read && k < j <= clock
  {
    if exists j :: j in read && j <= clock {
      LatestExists(read, clock);
      var latest: Period :| IsLatest(read, clock, latest);
      LatestIs(read, clock, latest);
    }
  }

  /**
   A setter of any clock that landed on the row it read leaves the default in force at an
   earlier period alone if and only if the row had no default after that period and up to
   the clock.
   */
  lemma SetterLeavesPeriodIff(r: Row, w: Write, p: Period)
    requires w.SetDefault? && w.read == r && Lands(r, w) && p < w.period
    ensures Resolve(Landed(r, w), p) == Resolve(r, p)
            <==> Resolve(r, p).None? || forall k | k in MapOf(r.defaults) :: !(p < k <= w.clock)
    ensures Resolve(Landed(r, w), p) != Resolve(r, p) ==> Resolve(Landed(r, w), p).None?
  {
    var keys, after := MapOf(r.defaults).Keys, MapOf(Landed(r, w).defaults);
    forall k: Period ensures k in DefaultsToPrune(keys, w.clock) <==> k in keys && exists j :: j in keys && k < j <= w.clock {
      PrunesFromReadIff(keys, w.clock, k);
    }
    if m: Period :| IsLatest(keys, p, m) {
      LatestIs(keys, p, m);
      if forall k | k in keys :: !(p < k <= w.clock) {
        assert IsLatest(after.Keys, p, m);
        LatestIs(after.Keys, p, m);
      } else {
        var j :| j in keys && p < j <= w.clock;
        assert forall k | k in after.Keys :: k > p;
        assert forall k | k in after.Keys :: !IsLatest(after.Keys, p, k);
      }
    } else {
      assert forall k | k in after.Keys :: !IsLatest(after.Keys, p, k) by {
        forall k | k in after.Keys ensures k > p {
          if k in keys && k <= p {
            LatestExists(keys, p);
          }
        }
      }
    }
  }

  /**
   In any sound world, from any reading however stale and by any clock: the key in force now
   is lost if and only if the setter's reading had it and a later one that its clock says is
   in effect and the world's does not.
   */
  lemma KeyInForceIsLostIff(w: World, write: Write, m: Period)
    requires Inv(w) && write.SetDefault? && write.read in w.seen && Lands(w.row, write) && w.now < write.period
    requires IsLatest(MapOf(w.row.defaults).Keys, w.now, m)
    ensures var read := MapOf(write.read.defaults).Keys;
            Latest(MapOf(Next(w, Do(write)).row.defaults).Keys, w.now) != Some(m)
            <==> m in read && exists k :: k in read && w.now < k <= write.clock
  {
    var keys, read := MapOf(w.row.defaults).Keys, MapOf(write.read.defaults).Keys;
    var after := MapOf(Landed(w.row, write).defaults).Keys;
    assert after == keys - DefaultsToPrune(read, write.clock) + {write.period};
    PrunesFromReadIff(read, write.clock, m);
    forall k | k in read && m < k ensures k > w.now {
      assert k in w.accepted;
      assert !Superseded(keys, w.now, k);
    }
    if m in after {
      assert IsLatest(after, w.now, m);
      LatestIs(after, w.now, m);
    }
    LatestIsLatest(after, w.now);
  }

  lemma NewTenantRun(now: Period, steps: seq<Step>)
    requires AllAllowed(NewTenant(now), steps)
    ensures Inv(Run(NewTenant(now), steps))
  {
    NewTenantIsOk(now);
    RunKeepsInv(NewTenant(now), steps);
  }

  /** A setter with nothing in effect by its clock prunes nothing. */
  lemma EarlySetter(r: Row, p: Period, amount: int, clock: Period)
    requires p !in MapOf(r.seals) && (r.version.None? <==> r.defaults.None?)
    requires forall k | k in MapOf(r.defaults) :: k > clock
    ensures Lands(r, SetDefault(r, p, amount, clock))
    ensures var after := Landed(r, SetDefault(r, p, amount, clock));
            && after.defaults == Some(MapOf(r.defaults)[p := amount]) && after.seals == r.seals
            && after.version == Some(if r.version.Some? then r.version.value + 1 else 1)
  {
    assert DefaultsToPrune(MapOf(r.defaults).Keys, clock) == {};
    assert MapOf(r.defaults) - {} == MapOf(r.defaults);
  }

  lemma RunOfThree(w: World, a: Step, b: Step, c: Step)
    ensures Run(w, [a, b, c]) == Next(Next(Next(w, a), b), c)
    ensures Allowed(w, a) && Allowed(Next(w, a), b) && Allowed(Next(Next(w, a), b), c) ==> AllAllowed(w, [a, b, c])
  {
    var steps := [a, b, c];
    assert steps[..0] == [] && steps[..1] == [a] && steps[..2] == [a, b];
    assert [a][..0] == [] && [a, b][..1] == [a];
    assert Run(w, steps[..1]) == Next(w, a);
    assert Run(w, steps[..2]) == Next(Next(w, a), b);
  }

  /**
   The run in which it happens: two defaults accepted ahead of time, the first comes into
   force, and a setter whose clock already shows the second's month removes it.
   */
  lemma FastClockPrunesTheDefaultInForce(first: Period, second: Period, a: int, b: int, c: int)
    returns (s1: Step, s2: Step, w: World, write: Write)
    requires 0 < first < second
    ensures AllAllowed(NewTenant(first - 1), [s1, s2, Tick(first)]) && w == Run(NewTenant(first - 1), [s1, s2, Tick(first)])
    ensures w.now == first && write.SetDefault? && write.read == w.row && write.clock == second && Lands(w.row, write)
    ensures Resolve(w.row, w.now) == Some(a) && Resolve(Next(w, Do(write)).row, w.now) == None
  {
    var row0, row1 := Row(None, None, None), Row(Some(map[first := a]), Some(1), None);
    var w0 := NewTenant(first - 1);
    s1, s2 := Do(SetDefault(row0, first, a, first - 1)), Do(SetDefault(row1, second, b, first - 1));
    EarlySetter(row0, first, a, first - 1);
    EarlySetter(row1, second, b, first - 1);
    assert Next(w0, s1).row == row1;
    w := Next(Next(Next(w0, s1), s2), Tick(first));
    RunOfThree(w0, s1, s2, Tick(first));
    write := SetDefault(w.row, second + 1, c, second);
    TwoKeysResolve(w.row, write, first, second, a, b);
  }

  lemma TwoKeysResolve(r: Row, w: Write, first: Period, second: Period, a: int, b: int)
    requires first < second && r.defaults == Some(map[first := a, second := b]) && r.seals.None?
    requires w.SetDefault? && w.read == r && w.period > second && w.clock == second
    ensures Lands(r, w) && Resolve(r, first) == Some(a) && Resolve(Landed(r, w), first).None?
  {
    var keys := MapOf(r.defaults).Keys;
    assert keys == {first, second};
    assert IsLatest(keys, first, first);
    LatestIs(keys, first, first);
    SetterLeavesPeriodIff(r, w, first);
    assert second in MapOf(r.defaults);
  }
}
