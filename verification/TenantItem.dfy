/** The tenant row and the two loops that read it, compute, and write it back on a condition. */
module TenantItems {
  import opened Options
  import opened TenantDefaults

  datatype Answer = Value(value: Option<int>) | Written | TenantNotFound | PeriodSealed | Backdated | LostTheRace

  /**
   One turn of a loop: what others land before its read and between its read and its write,
   the writer's own clock, and whether the read finds a live tenant.
   */
  datatype Turn = Turn(before: seq<Write>, window: seq<Write>, clock: Period, found: bool)

  function TurnAt(plan: seq<Turn>, k: nat): Turn {
    if k < |plan| then plan[k] else Turn([], [], 0, false)
  }

  /** Every write that has landed when the sealer returns, and what it returns. */
  ghost function SealLoop(start: Row, landed: seq<Write>, p: Period, plan: seq<Turn>, k: nat): (seq<Write>, Answer)
    decreases MaxRetries - k
  {
    if k >= MaxRetries then (landed, LostTheRace)
    else
      var turn := TurnAt(plan, k);
      var read := ApplyAll(start, landed + turn.before);
      if !turn.found then (landed + turn.before, Value(None))
      else if p in MapOf(read.seals) then (landed + turn.before, Value(Some(MapOf(read.seals)[p])))
      else if Resolve(read, p).None? then (landed + turn.before, Value(None))
      else
        var write, now := Seal(read, p, turn.clock), landed + turn.before + turn.window;
        if Lands(ApplyAll(start, now), write) then (now + [write], Value(Resolve(read, p)))
        else SealLoop(start, now, p, plan, k + 1)
  }

  ghost function SetLoop(start: Row, landed: seq<Write>, p: Period, amount: int, plan: seq<Turn>, k: nat): (seq<Write>, Answer)
    decreases MaxRetries - k
  {
    if k >= MaxRetries then (landed, LostTheRace)
    else
      var turn := TurnAt(plan, k);
      var read := ApplyAll(start, landed + turn.before);
      if !turn.found then (landed + turn.before, TenantNotFound)
      else if p in MapOf(read.seals) then (landed + turn.before, PeriodSealed)
      else
        var write, now := SetDefault(read, p, amount, turn.clock), landed + turn.before + turn.window;
        if Lands(ApplyAll(start, now), write) then (now + [write], Written)
        else SetLoop(start, now, p, amount, plan, k + 1)
  }

  lemma {:induction false} ApplyConcat(start: Row, a: seq<Write>, b: seq<Write>)
    ensures ApplyAll(start, a + b) == ApplyAll(ApplyAll(start, a), b)
    decreases |b|
  {
    if b == [] {
      assert a + b == a;
    } else {
      assert (a + b)[..|a + b| - 1] == a + b[..|b| - 1];
      ApplyConcat(start, a, b[..|b| - 1]);
    }
  }

  lemma ApplyOne(start: Row, ws: seq<Write>, w: Write)
    ensures ApplyAll(start, ws + [w]) == Apply(ApplyAll(start, ws), w)
  {
  }

  method LatestKey(keys: set<Period>, p: Period) returns (latest: Option<Period>)
    ensures latest == Latest(keys, p)
  {
    latest := None;
    var todo := keys;
    ghost var done: set<Period> := {};
    while todo != {}
      invariant done + todo == keys
      invariant latest.Some? ==> latest.value in done && latest.value <= p
      invariant forall j | j in done && j <= p :: latest.Some? && j <= latest.value
      decreases todo
    {
      var k :| k in todo;
      todo, done := todo - {k}, done + {k};
      if k <= p && (latest.None? || k > latest.value) {
        latest := Some(k);
      }
    }
    assert done == keys;
    if latest.Some? {
      LatestIs(keys, p, latest.value);
    }
  }

  method ResolveUserDollarDefault(r: Row, p: Period) returns (amount: Option<int>)
    ensures amount == Resolve(r, p)
  {
    var m := MapOf(r.defaults);
    var k := LatestKey(m.Keys, p);
    amount := if k.Some? && k.value in m then Some(m[k.value]) else None;
  }

  method DefaultsPeriodsToPrune(keys: set<Period>, current: Period) returns (gone: set<Period>)
    ensures gone == DefaultsToPrune(keys, current)
  {
    var latest := LatestKey(keys, current);
    gone := set p | p in keys && p <= current && Some(p) != latest;
  }

  class TenantItem {
    var defaults: Option<map<Period, int>>
    var version: Option<int>
    var seals: Option<map<Period, int>>

    function View(): Row
      reads this
    {
      Row(defaults, version, seals)
    }

    constructor ()
      ensures View() == Row(None, None, None)
    {
      defaults, version, seals := None, None, None;
    }

    method UpdateDefault(read: Row, period: Period, amount: int, clock: Period) returns (ok: bool)
      modifies this`defaults, this`version
      ensures View() == Apply(old(View()), SetDefault(read, period, amount, clock))
      ensures ok == Lands(old(View()), SetDefault(read, period, amount, clock))
    {
      var gone := DefaultsPeriodsToPrune(MapOf(read.defaults).Keys, clock);
      ok := period !in MapOf(seals) && defaults.Some? == read.defaults.Some? && period !in gone;
      if ok {
        if defaults.Some? {
          defaults := Some((defaults.value - gone)[period := amount]);
          version := Some((if version.Some? then version.value else 0) + 1);
        } else {
          assert MapOf(defaults) - gone == map[];
          defaults := Some(map[period := amount]);
          version := Some(1);
        }
      }
    }

    method UpdateSeal(read: Row, period: Period, base: int, clock: Period) returns (ok: bool)
      requires Resolve(read, period) == Some(base)
      modifies this`seals
      ensures View() == Apply(old(View()), Seal(read, period, clock))
      ensures ok == Lands(old(View()), Seal(read, period, clock))
    {
      var gone := SealsToPrune(MapOf(read.seals).Keys, clock);
      ok := read.version.Some? && version == read.version
        && period !in MapOf(seals) && seals.Some? == read.seals.Some? && period !in gone;
      if ok {
        seals := Some((MapOf(seals) - gone)[period := base]);
      }
    }

    /** Writes by other processes. */
    method OthersLand(ws: seq<Write>)
      modifies this
      ensures View() == ApplyAll(old(View()), ws)
    {
      ghost var start := View();
      for i := 0 to |ws|
        invariant View() == ApplyAll(start, ws[..i])
      {
        ApplyOne(start, ws[..i], ws[i]);
        assert ws[..i + 1] == ws[..i] + [ws[i]];
        match ws[i] {
          case SetDefault(read, period, amount, clock) => var _ := UpdateDefault(read, period, amount, clock);
          case Seal(read, period, clock) =>
            var base := ResolveUserDollarDefault(read, period);
            if base.Some? {
              var _ := UpdateSeal(read, period, base.value, clock);
            }
        }
      }
      assert ws[..|ws|] == ws;
    }

    method SetUserDollarDefault(period: Period, amount: int, current: Period, plan: seq<Turn>) returns (answer: Answer)
      modifies this
      ensures period <= current ==> View() == old(View()) && answer == Backdated
      ensures period > current ==>
                View() == ApplyAll(old(View()), SetLoop(old(View()), [], period, amount, plan, 0).0)
      ensures period > current ==> answer == SetLoop(old(View()), [], period, amount, plan, 0).1
    {
      if period <= current {
        return Backdated;
      }
      ghost var start, landed := View(), [];
      for attempt := 0 to MaxRetries
        invariant View() == ApplyAll(start, landed)
        invariant SetLoop(start, [], period, amount, plan, 0) == SetLoop(start, landed, period, amount, plan, attempt)
      {
        var turn := TurnAt(plan, attempt);
        ApplyConcat(start, landed, turn.before);
        ApplyConcat(start, landed + turn.before, turn.window);
        OthersLand(turn.before);
        if !turn.found {
          return TenantNotFound;
        }
        var item := View();
        if period in MapOf(item.seals) {
          return PeriodSealed;
        }
        OthersLand(turn.window);
        landed := landed + turn.before + turn.window;
        ApplyOne(start, landed, SetDefault(item, period, amount, turn.clock));
        var ok := UpdateDefault(item, period, amount, turn.clock);
        if ok {
          return Written;
        }
      }
      return LostTheRace;
    }

    method SealUserDollarBase(period: Period, plan: seq<Turn>) returns (answer: Answer)
      modifies this
      ensures View() == ApplyAll(old(View()), SealLoop(old(View()), [], period, plan, 0).0)
      ensures answer == SealLoop(old(View()), [], period, plan, 0).1
    {
      ghost var start, landed := View(), [];
      for attempt := 0 to MaxRetries
        invariant View() == ApplyAll(start, landed)
        invariant SealLoop(start, [], period, plan, 0) == SealLoop(start, landed, period, plan, attempt)
      {
        var turn := TurnAt(plan, attempt);
        ApplyConcat(start, landed, turn.before);
        ApplyConcat(start, landed + turn.before, turn.window);
        OthersLand(turn.before);
        if !turn.found {
          return Value(None);
        }
        var item := View();
        if period in MapOf(item.seals) {
          return Value(Some(MapOf(item.seals)[period]));
        }
        var resolved := ResolveUserDollarDefault(item, period);
        if resolved.None? {
          return Value(None);
        }
        OthersLand(turn.window);
        landed := landed + turn.before + turn.window;
        ApplyOne(start, landed, Seal(item, period, turn.clock));
        var ok := UpdateSeal(item, period, resolved.value, turn.clock);
        if ok {
          return Value(resolved);
        }
      }
      return LostTheRace;
    }
  }

  // ---- what the loops guarantee ----

  /** Whatever a sealer returns is the seal on the row as it returns, and its own write, if it made one, read a row of the run. */
  lemma {:induction false} SealerReturnsTheSeal(start: Row, landed: seq<Write>, p: Period, plan: seq<Turn>, k: nat)
    requires SealLoop(start, landed, p, plan, k).1.Value?
    requires SealLoop(start, landed, p, plan, k).1.value.Some?
    ensures var (ws, answer) := SealLoop(start, landed, p, plan, k);
            && p in MapOf(ApplyAll(start, ws).seals)
            && MapOf(ApplyAll(start, ws).seals)[p] == answer.value.value
    decreases MaxRetries - k
  {
    var turn := TurnAt(plan, k);
    var read := ApplyAll(start, landed + turn.before);
    var now := landed + turn.before + turn.window;
    if turn.found && p !in MapOf(read.seals) {
      var write := Seal(read, p, turn.clock);
      ApplyOne(start, now, write);
      if !Lands(ApplyAll(start, now), write) {
        SealerReturnsTheSeal(start, now, p, plan, k + 1);
      }
    }
  }

  /** An accepted setter has left its amount on a row that has no seal for the period, in one write of its own. */
  lemma {:induction false} SetterWritesOnce(start: Row, landed: seq<Write>, p: Period, amount: int, plan: seq<Turn>, k: nat)
    returns (read: Row, others: seq<Write>, clock: Period)
    requires SetLoop(start, landed, p, amount, plan, k).1 == Written
    ensures SetLoop(start, landed, p, amount, plan, k).0 == others + [SetDefault(read, p, amount, clock)]
    ensures Lands(ApplyAll(start, others), SetDefault(read, p, amount, clock))
    ensures exists i :: 0 <= i <= |others| && read == ApplyAll(start, others[..i])
    ensures var end := ApplyAll(start, SetLoop(start, landed, p, amount, plan, k).0);
            && p in MapOf(end.defaults) && MapOf(end.defaults)[p] == amount && p !in MapOf(end.seals)
    decreases MaxRetries - k
  {
    var turn := TurnAt(plan, k);
    read, clock := ApplyAll(start, landed + turn.before), turn.clock;
    others := landed + turn.before + turn.window;
    ApplyOne(start, others, SetDefault(read, p, amount, clock));
    if Lands(ApplyAll(start, others), SetDefault(read, p, amount, clock)) {
      assert others[..|landed + turn.before|] == landed + turn.before;
    } else {
      read, others, clock := SetterWritesOnce(start, others, p, amount, plan, k + 1);
    }
  }
}
