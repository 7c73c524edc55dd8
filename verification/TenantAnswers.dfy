/** When the setter and the sealer of a tenant's default give each of their answers, and what they do alone. */
module TenantAnswers {
  import opened Options
  import opened TenantDefaults
  import opened TenantItems

  /** What the turn a loop ended in saw: how many turns came before it, what had landed when it read, and what landed until its write. */
  datatype Seen = Seen(turn: nat, pre: seq<Write>, window: seq<Write>)

  /** No default is in effect at `p`. */
  predicate Unconfigured(r: Row, p: Period) {
    forall k | k in MapOf(r.defaults) :: k > p
  }

  /** `amount` is the default with the greatest period not after `p`. */
  predicate InEffect(r: Row, p: Period, amount: int) {
    exists k :: k in MapOf(r.defaults) && k <= p && MapOf(r.defaults)[k] == amount && forall j | j in MapOf(r.defaults) && j <= p :: j <= k
  }

  lemma ResolvedIs(r: Row, p: Period)
    ensures Resolve(r, p).None? ==> Unconfigured(r, p)
    ensures Resolve(r, p).Some? ==> InEffect(r, p, Resolve(r, p).value)
  {
    var keys := MapOf(r.defaults).Keys;
    LatestIsLatest(keys, p);
    if Resolve(r, p).None? {
      NoLatest(keys, p);
    }
  }

  // ---- the sealer ----

  /**
   Absent: there was no tenant, or the row read had no seal for the period and no default in
   effect. A value: the seal on the row read, or the default in effect on it, sealed by the
   one write this sealer makes. Only a value it sealed itself comes with a write of its own.
   */
  ghost predicate SealAnswerMeans(s: Seen, start: Row, trace: (seq<Write>, Answer), p: Period, plan: seq<Turn>) {
    var read, turn := ApplyAll(start, s.pre), TurnAt(plan, s.turn);
    match trace.1
    case Value(None) => trace.0 == s.pre && (!turn.found || (p !in MapOf(read.seals) && Unconfigured(read, p)))
    case Value(Some(amount)) =>
      && turn.found
      && if p in MapOf(read.seals) then trace.0 == s.pre && MapOf(read.seals)[p] == amount
         else
           && InEffect(read, p, amount)
           && trace.0 == s.pre + s.window + [Seal(read, p, turn.clock)]
           && p !in MapOf(ApplyAll(start, s.pre + s.window).seals)
    case LostTheRace => s.turn == 8 && trace.0 == s.pre
    case _ => false
  }

  /** Whatever lands around a sealer, its answer means what it says. */
  lemma {:induction false} SealerAnswers(start: Row, landed: seq<Write>, p: Period, plan: seq<Turn>, k: nat) returns (s: Seen)
    requires k <= 8
    ensures SealAnswerMeans(s, start, SealLoop(start, landed, p, plan, k), p, plan)
    decreases 8 - k
  {
    var turn := TurnAt(plan, k);
    var read, now := ApplyAll(start, landed + turn.before), landed + turn.before + turn.window;
    s := Seen(k, if k < 8 then landed + turn.before else landed, turn.window);
    if k < 8 && turn.found && p !in MapOf(read.seals) {
      ResolvedIs(read, p);
      if Resolve(read, p).Some? && !Lands(ApplyAll(start, now), Seal(read, p, turn.clock)) {
        s := SealerAnswers(start, now, p, plan, k + 1);
      }
    }
  }

  /** A tenant found sealed for the period at the first read is answered the seal, with nothing written. */
  lemma SealedIsAnswered(start: Row, p: Period, plan: seq<Turn>)
    requires TurnAt(plan, 0).found
    requires p in MapOf(ApplyAll(start, TurnAt(plan, 0).before).seals)
    ensures var read := ApplyAll(start, TurnAt(plan, 0).before);
            SealLoop(start, [], p, plan, 0) == (TurnAt(plan, 0).before, Value(Some(MapOf(read.seals)[p])))
  {
    assert [] + TurnAt(plan, 0).before == TurnAt(plan, 0).before;
  }

  /** A seal lands if and only if the version it read is still there, a default was in effect, and the period has no seal. */
  lemma SealLandsIff(r: Row, read: Row, p: Period, clock: Period)
    ensures Lands(r, Seal(read, p, clock))
            <==>
                 && read.version.Some? && r.version.Some? && r.version.value == read.version.value
                 && !Unconfigured(read, p)
                 && p !in MapOf(r.seals) && (r.seals.None? <==> read.seals.None?)
                 && !(p in MapOf(read.seals) && p + 12 < clock)
  {
    ResolvedIs(read, p);
  }

  /** Nobody else writes, and the tenant is found. */
  predicate Alone(turn: Turn) {
    turn.before == [] && turn.window == [] && turn.found
  }

  lemma AloneTurn(start: Row, landed: seq<Write>, turn: Turn)
    requires Alone(turn)
    ensures landed + turn.before == landed && landed + turn.before + turn.window == landed
  {
  }

  /**
   Alone: a sealed period is answered its seal and an unconfigured one nothing, the row left
   as it was; any other is answered its default and sealed at it, and keeps every seal within
   the retention horizon.
   */
  lemma SealerAlone(row: Row, p: Period, plan: seq<Turn>)
    requires Alone(TurnAt(plan, 0)) && (row.defaults.Some? ==> row.version.Some?)
    ensures var (ws, answer) := SealLoop(row, [], p, plan, 0);
            var end, clock := ApplyAll(row, ws), TurnAt(plan, 0).clock;
            if p in MapOf(row.seals) then answer == Value(Some(MapOf(row.seals)[p])) && end == row
            else if Unconfigured(row, p) then answer == Value(None) && end == row
            else
              && answer.Value? && answer.value.Some? && InEffect(row, p, answer.value.value)
              && end.defaults == row.defaults && end.version == row.version
              && (forall q :: q in MapOf(end.seals) <==> q == p || (q in MapOf(row.seals) && q >= clock - SealRetention))
              && (forall q | q in MapOf(end.seals) :: MapOf(end.seals)[q] == if q == p then answer.value.value else MapOf(row.seals)[q])
  {
    var turn := TurnAt(plan, 0);
    AloneTurn(row, [], turn);
    assert ApplyAll(row, []) == row;
    ResolvedIs(row, p);
    if p !in MapOf(row.seals) && Resolve(row, p).Some? {
      var write := Seal(row, p, turn.clock);
      ApplyOne(row, [], write);
      assert [] + [write] == [write];
    }
  }

  // ---- the setter ----

  /** A refusal saw a seal for the period; no tenant was found; or eight writes lost, and none of the loop's own landed. */
  ghost predicate SetAnswerMeans(s: Seen, start: Row, trace: (seq<Write>, Answer), p: Period, amount: int, plan: seq<Turn>) {
    var read, turn := ApplyAll(start, s.pre), TurnAt(plan, s.turn);
    match trace.1
    case TenantNotFound => trace.0 == s.pre && !turn.found
    case PeriodSealed => trace.0 == s.pre && turn.found && p in MapOf(read.seals)
    case Written =>
      && turn.found && p !in MapOf(read.seals)
      && trace.0 == s.pre + s.window + [SetDefault(read, p, amount, turn.clock)]
      && p !in MapOf(ApplyAll(start, s.pre + s.window).seals)
    case LostTheRace => s.turn == 8 && trace.0 == s.pre
    case _ => false
  }

  lemma {:induction false} SetterAnswers(start: Row, landed: seq<Write>, p: Period, amount: int, plan: seq<Turn>, k: nat) returns (s: Seen)
    requires k <= 8
    ensures SetAnswerMeans(s, start, SetLoop(start, landed, p, amount, plan, k), p, amount, plan)
    decreases 8 - k
  {
    var turn := TurnAt(plan, k);
    var read, now := ApplyAll(start, landed + turn.before), landed + turn.before + turn.window;
    s := Seen(k, if k < 8 then landed + turn.before else landed, turn.window);
    if k < 8 && turn.found && p !in MapOf(read.seals) && !Lands(ApplyAll(start, now), SetDefault(read, p, amount, turn.clock)) {
      s := SetterAnswers(start, now, p, amount, plan, k + 1);
    }
  }

  /** A default that the setter's clock drops: in effect, with a later one in effect too. */
  predicate Superseded(r: Row, clock: Period, k: Period) {
    k <= clock && exists j :: j in MapOf(r.defaults) && k < j <= clock
  }

  lemma PrunedIs(r: Row, clock: Period, k: Period)
    ensures k in DefaultsToPrune(MapOf(r.defaults).Keys, clock) <==> k in MapOf(r.defaults) && Superseded(r, clock, k)
  {
    var keys := MapOf(r.defaults).Keys;
    if m: Period :| IsLatest(keys, clock, m) {
      LatestIs(keys, clock, m);
    } else if exists j :: j in keys && j <= clock {
      LatestExists(keys, clock);
    }
  }

  /**
   A setter's write lands if and only if the period has no seal, the history is there now
   exactly if it was there when read, and the period is not one that this write prunes.
   */
  lemma SetLandsIff(r: Row, read: Row, p: Period, amount: int, clock: Period)
    ensures Lands(r, SetDefault(read, p, amount, clock))
            <==>
                 && p !in MapOf(r.seals) && (r.defaults.None? <==> read.defaults.None?)
                 && !(p in MapOf(read.defaults) && Superseded(read, clock, p))
  {
    PrunedIs(read, clock, p);
  }

  /**
   Alone: a sealed period is refused and the row left as it was; any other after the clock is
   set, the version counts the write, and of the defaults only the superseded go.
   */
  lemma SetterAlone(row: Row, p: Period, amount: int, plan: seq<Turn>)
    requires Alone(TurnAt(plan, 0)) && TurnAt(plan, 0).clock < p
    ensures var (ws, answer) := SetLoop(row, [], p, amount, plan, 0);
            var end, clock := ApplyAll(row, ws), TurnAt(plan, 0).clock;
            if p in MapOf(row.seals) then answer == PeriodSealed && end == row
            else
              && answer == Written && end.seals == row.seals
              && end.version == Some(if row.defaults.Some? && row.version.Some? then row.version.value + 1 else 1)
              && (forall k :: k in MapOf(end.defaults) <==> k == p || (k in MapOf(row.defaults) && !Superseded(row, clock, k)))
              && (forall k | k in MapOf(end.defaults) :: MapOf(end.defaults)[k] == if k == p then amount else MapOf(row.defaults)[k])
  {
    var turn := TurnAt(plan, 0);
    AloneTurn(row, [], turn);
    assert ApplyAll(row, []) == row;
    forall k: Period ensures k in DefaultsToPrune(MapOf(row.defaults).Keys, turn.clock) <==> k in MapOf(row.defaults) && Superseded(row, turn.clock, k) {
      PrunedIs(row, turn.clock, k);
    }
    if p !in MapOf(row.seals) {
      var write := SetDefault(row, p, amount, turn.clock);
      ApplyOne(row, [], write);
      assert [] + [write] == [write];
    }
  }
}
