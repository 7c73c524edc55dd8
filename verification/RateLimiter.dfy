/**
 The fixed-window rate limiter: one shared counter per window, an in-process counter per
 task for when the shared one cannot answer, and what they admit together.
 */
module RateLimiter {
  import opened Options

  const TtlGrace := 60
  const PruneAbove := 4096

  /** The shared counter's key has the window's start but not its length. */
  datatype Pk = Pk(scope: string, client: string, start: nat)

  datatype Counter = Counter(hits: nat, expiresAt: nat)

  datatype LocalKey = LocalKey(scope: string, client: string, tag: nat)

  type Windows = map<LocalKey, Counter>

  function WindowStart(now: nat, window: nat): (start: nat)
    requires window > 0
    ensures start <= now < start + window
  {
    now / window * window
  }

  function Tag(start: nat, window: nat): nat {
    start * 1_000_000 + window
  }

  /** Windows of different starts or lengths never share a local counter. */
  lemma TagsDiffer(start: nat, window: nat, other: nat, length: nat)
    requires 0 < window < 1_000_000 && 0 < length < 1_000_000
    ensures Tag(start, window) == Tag(other, length) <==> start == other && window == length
  {
  }

  function KeyAt(scope: string, client: string, now: nat, window: nat): LocalKey
    requires window > 0
  {
    LocalKey(scope, client, Tag(WindowStart(now, window), window))
  }

  function Hits<K>(m: map<K, Counter>, k: K): nat {
    if k in m then m[k].hits else 0
  }

  function Pruned(w: Windows, now: nat): Windows {
    if |w| > PruneAbove then map k | k in w && w[k].expiresAt > now :: w[k] else w
  }

  /** One local count: prune if there is much to prune, then add to the caller's window. */
  function Counted(w: Windows, scope: string, client: string, now: nat, window: nat): Windows
    requires window > 0
  {
    var key, kept := KeyAt(scope, client, now, window), Pruned(w, now);
    kept[key := Counter(Hits(kept, key) + 1, WindowStart(now, window) + window)]
  }

  function OverLimitAt(w: Windows, scope: string, client: string, now: nat, limit: int, window: nat): bool
    requires window > 0
  {
    Hits(Counted(w, scope, client, now, window), KeyAt(scope, client, now, window)) > limit
  }

  function Added(m: map<Pk, Counter>, pk: Pk, ttl: nat): map<Pk, Counter> {
    m[pk := Counter(Hits(m, pk) + 1, if pk in m then m[pk].expiresAt else ttl)]
  }

  /** How the shared counter answers: counted; refused for a throttle or a misconfiguration; or out of reach, perhaps after counting. */
  datatype Fate = Answers | Refuses | OutOfReach(counted: bool)

  class LocalWindows {
    var counts: Windows

    constructor ()
      ensures counts == map[]
    {
      counts := map[];
    }

    method OverLimit(scope: string, client: string, now: nat, limit: int, window: nat) returns (over: bool)
      requires window > 0
      modifies this
      ensures counts == Counted(old(counts), scope, client, now, window)
      ensures over == OverLimitAt(old(counts), scope, client, now, limit, window)
    {
      var start := WindowStart(now, window);
      var key := LocalKey(scope, client, Tag(start, window));
      var expiry := start + window;
      if |counts| > PruneAbove {
        counts := map k | k in counts && counts[k].expiresAt > now :: counts[k];
      }
      var count := if key in counts then counts[key].hits else 0;
      count := count + 1;
      counts := counts[key := Counter(count, expiry)];
      return count > limit;
    }
  }

  /** The shared table as one server process reaches it, with its own fallback. */
  class Limiter {
    var hits: map<Pk, Counter>
    const fallback: LocalWindows

    constructor ()
      ensures hits == map[] && fallback.counts == map[] && fresh(fallback)
    {
      hits := map[];
      fallback := new LocalWindows();
    }

    method Check(scope: string, client: string, now: nat, limit: int, window: nat, fate: Fate) returns (admitted: bool)
      requires window > 0
      modifies this, fallback
      ensures hits == SharedAfter(old(hits), scope, client, now, window, fate)
      ensures fallback.counts == LocalAfter(old(fallback.counts), scope, client, now, window, fate)
      ensures admitted == Admits(old(hits), old(fallback.counts), scope, client, now, limit, window, fate)
    {
      var start := WindowStart(now, window);
      var pk := Pk(scope, client, start);
      if fate.Answers? || (fate.OutOfReach? && fate.counted) {
        hits := Added(hits, pk, start + window + TtlGrace);
      }
      if fate.Refuses? {
        return false;
      }
      if fate.OutOfReach? {
        var over := fallback.OverLimit(scope, client, now, limit, window);
        return !over;
      }
      return hits[pk].hits <= limit;
    }
  }

  function SharedAfter(hits: map<Pk, Counter>, scope: string, client: string, now: nat, window: nat, fate: Fate): map<Pk, Counter>
    requires window > 0
  {
    var start := WindowStart(now, window);
    if fate.Answers? || (fate.OutOfReach? && fate.counted) then Added(hits, Pk(scope, client, start), start + window + TtlGrace) else hits
  }

  function LocalAfter(w: Windows, scope: string, client: string, now: nat, window: nat, fate: Fate): Windows
    requires window > 0
  {
    if fate.OutOfReach? then Counted(w, scope, client, now, window) else w
  }

  function Admits(hits: map<Pk, Counter>, w: Windows, scope: string, client: string, now: nat, limit: int, window: nat, fate: Fate): bool
    requires window > 0
  {
    match fate
    case Answers => Hits(hits, Pk(scope, client, WindowStart(now, window))) + 1 <= limit
    case Refuses => false
    case OutOfReach(_) => !OverLimitAt(w, scope, client, now, limit, window)
  }

  // ---- the local map forgets nothing that is alive ----

  datatype LocalCall = LocalCall(scope: string, client: string, now: nat, window: nat)

  predicate InOrder(calls: seq<LocalCall>) {
    && (forall i | 0 <= i < |calls| :: 0 < calls[i].window < 1_000_000)
    && (forall i, j | 0 <= i < j < |calls| :: calls[i].now <= calls[j].now)
  }

  function After(calls: seq<LocalCall>): Windows
    requires forall i | 0 <= i < |calls| :: 0 < calls[i].window
  {
    if calls == [] then map[]
    else
      var c := calls[|calls| - 1];
      Counted(After(calls[..|calls| - 1]), c.scope, c.client, c.now, c.window)
  }

  function CallsTo(calls: seq<LocalCall>, key: LocalKey): nat
    requires forall i | 0 <= i < |calls| :: 0 < calls[i].window
  {
    if calls == [] then 0
    else
      var c := calls[|calls| - 1];
      CallsTo(calls[..|calls| - 1], key) + if KeyAt(c.scope, c.client, c.now, c.window) == key then 1 else 0
  }

  /** Of the other windows, a map of more than 4096 loses those that have ended; a smaller one loses none. */
  lemma PruningTakesTheEnded(w: Windows, scope: string, client: string, now: nat, window: nat, k: LocalKey)
    requires window > 0 && k != KeyAt(scope, client, now, window)
    ensures var after := Counted(w, scope, client, now, window);
            && (k in after <==> k in w && (|w| <= 4096 || w[k].expiresAt > now))
            && (k in after ==> after[k] == w[k])
  {
  }

  /** The map cannot grow without bound: after a call it has at most 4097 windows, or all of them are alive. */
  lemma PruningBoundsTheMap(w: Windows, scope: string, client: string, now: nat, window: nat)
    requires window > 0
    ensures var after := Counted(w, scope, client, now, window);
            |after| <= 4097 || forall k | k in after :: after[k].expiresAt > now
  {
    var after, key := Counted(w, scope, client, now, window), KeyAt(scope, client, now, window);
    if |w| <= 4096 {
      assert after.Keys == w.Keys + {key};
      assert |after| == |after.Keys| && |w| == |w.Keys|;
    }
  }

  /** Every counter of a window that has not ended counts every call it was given, whatever was pruned. */
  lemma {:induction false} LiveWindowsAreNeverForgotten(calls: seq<LocalCall>, scope: string, client: string, now: nat, window: nat)
    requires InOrder(calls) && 0 < window < 1_000_000
    requires forall i | 0 <= i < |calls| :: calls[i].now <= now
    ensures Hits(After(calls), KeyAt(scope, client, now, window)) == CallsTo(calls, KeyAt(scope, client, now, window))
    ensures KeyAt(scope, client, now, window) in After(calls) ==>
              After(calls)[KeyAt(scope, client, now, window)].expiresAt == WindowStart(now, window) + window
    decreases |calls|
  {
    if calls != [] {
      var n := |calls| - 1;
      var c := calls[n];
      LiveWindowsAreNeverForgotten(calls[..n], scope, client, now, window);
      TagsDiffer(WindowStart(c.now, c.window), c.window, WindowStart(now, window), window);
    }
  }

  /** So the verdict is the number of calls in the window, this one included. */
  lemma VerdictIsTheCount(calls: seq<LocalCall>, scope: string, client: string, now: nat, limit: int, window: nat)
    requires InOrder(calls) && 0 < window < 1_000_000
    requires forall i | 0 <= i < |calls| :: calls[i].now <= now
    ensures OverLimitAt(After(calls), scope, client, now, limit, window)
            <==> CallsTo(calls, KeyAt(scope, client, now, window)) + 1 > limit
  {
    LiveWindowsAreNeverForgotten(calls, scope, client, now, window);
  }
}
