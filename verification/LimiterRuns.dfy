/**
 Any number of tasks against one shared table, through outages, pruning and expiry of old
 counters: how many calls of one key a window, and any interval of its length, can admit.
 */
module LimiterRuns {
  import opened Options
  import opened RateLimiter

  type Task = nat

  datatype Entry = Entry(task: Task, now: nat, fate: Fate, admitted: bool)

  /** One scope and client, whose limit and window are fixed; other keys live in `locals` and `hits` beside it. */
  datatype Rule = Rule(scope: string, client: string, limit: int, window: nat, tasks: nat)
  {
    predicate Valid() {
      0 < window < 1_000_000 && limit >= 0
    }

    function Start(now: nat): nat
      requires Valid()
    {
      WindowStart(now, window)
    }

    function SharedKey(start: nat): Pk {
      Pk(scope, client, start)
    }

    function LocalKeyAt(start: nat): LocalKey {
      LocalKey(scope, client, Tag(start, window))
    }
  }

  datatype World = World(hits: map<Pk, Counter>, locals: map<Task, Windows>, now: nat, log: seq<Entry>)

  /** A call of the rule's key; a call of some other key; or the table's own expiry taking a counter whose time has passed. */
  datatype Event =
    | Call(task: Task, now: nat, fate: Fate)
    | OtherCall(task: Task, scope: string, client: string, now: nat, window: nat, fate: Fate)
    | Expire(pk: Pk, now: nat)

  function LocalOf(w: World, task: Task): Windows {
    if task in w.locals then w.locals[task] else map[]
  }

  function Enter(w: World, task: Task, scope: string, client: string, now: nat, window: nat, fate: Fate): World
    requires window > 0
  {
    w.(now := now,
       hits := SharedAfter(w.hits, scope, client, now, window, fate),
       locals := w.locals[task := LocalAfter(LocalOf(w, task), scope, client, now, window, fate)])
  }

  function Next(r: Rule, w: World, e: Event): World
    requires r.Valid() && (e.OtherCall? ==> e.window > 0)
  {
    match e
    case Call(task, now, fate) =>
      var admitted := Admits(w.hits, LocalOf(w, task), r.scope, r.client, now, r.limit, r.window, fate);
      Enter(w, task, r.scope, r.client, now, r.window, fate).(log := w.log + [Entry(task, now, fate, admitted)])
    case OtherCall(task, scope, client, now, window, fate) => Enter(w, task, scope, client, now, window, fate)
    case Expire(pk, now) => w.(now := now, hits := w.hits - {pk})
  }

  /** Clocks agree and do not go back; a counter expires only after its time. */
  predicate Timed(r: Rule, w: World, e: Event) {
    match e
    case Call(task, now, _) => w.now <= now && task < r.tasks
    case OtherCall(_, _, _, now, window, _) => w.now <= now && 0 < window < 1_000_000
    case Expire(pk, now) => w.now <= now && (pk in w.hits ==> w.hits[pk].expiresAt < now)
  }

  /** A second rule on the same scope and client shares this rule's counters. */
  predicate SharesScope(r: Rule, e: Event) {
    e.OtherCall? && e.scope == r.scope && e.client == r.client
  }

  /**
   When a second window length on one scope does no harm: the expiry it gives a counter it
   opens cannot come, grace included, before the rule's own window is over; or the rule admits
   at most one call, which the other's own count then leaves no room for.
   */
  predicate Coexists(r: Rule, other: nat) {
    other + TtlGrace + 1 >= r.window || r.limit <= 1
  }

  predicate AllCoexist(r: Rule, events: seq<Event>) {
    forall e | e in events :: SharesScope(r, e) ==> Coexists(r, e.window)
  }

  // ---- what was admitted ----

  predicate Shared(e: Entry) {
    e.admitted && e.fate.Answers?
  }

  predicate ByTask(e: Entry, task: Task) {
    e.admitted && e.fate.OutOfReach? && e.task == task
  }

  function SharedAdmitted(r: Rule, log: seq<Entry>, start: nat): nat
    requires r.Valid()
  {
    if log == [] then 0
    else
      var e := log[|log| - 1];
      SharedAdmitted(r, log[..|log| - 1], start) + if Shared(e) && r.Start(e.now) == start then 1 else 0
  }

  function TaskAdmitted(r: Rule, log: seq<Entry>, start: nat, task: Task): nat
    requires r.Valid()
  {
    if log == [] then 0
    else
      var e := log[|log| - 1];
      TaskAdmitted(r, log[..|log| - 1], start, task) + if ByTask(e, task) && r.Start(e.now) == start then 1 else 0
  }

  function AdmittedIn(r: Rule, log: seq<Entry>, start: nat): nat
    requires r.Valid()
  {
    if log == [] then 0
    else
      var e := log[|log| - 1];
      AdmittedIn(r, log[..|log| - 1], start) + if e.admitted && r.Start(e.now) == start then 1 else 0
  }

  function AdmittedBetween(log: seq<Entry>, from: nat, until: nat): nat {
    if log == [] then 0
    else
      var e := log[|log| - 1];
      AdmittedBetween(log[..|log| - 1], from, until) + if e.admitted && from <= e.now < until then 1 else 0
  }

  // ---- the invariant ----

  /** The counter of a live window counts at least what it admitted; a window it has lost is over, or admitted nothing. */
  ghost predicate SharedOk(r: Rule, w: World, start: nat)
    requires r.Valid()
  {
    var key, admitted := r.SharedKey(start), SharedAdmitted(r, w.log, start);
    && admitted <= r.limit
    && (key in w.hits ==> w.hits[key].hits >= 1
                          && (w.hits[key].expiresAt + 1 >= start + r.window || (admitted == 0 && r.limit <= 1)))
    && (start + r.window > w.now ==> admitted <= Hits(w.hits, key))
  }

  ghost predicate TaskOk(r: Rule, w: World, start: nat, task: Task)
    requires r.Valid()
  {
    var admitted := TaskAdmitted(r, w.log, start, task);
    && admitted <= r.limit
    && (r.LocalKeyAt(start) in LocalOf(w, task) ==> LocalOf(w, task)[r.LocalKeyAt(start)].expiresAt == start + r.window)
    && (start + r.window > w.now ==> admitted <= Hits(LocalOf(w, task), r.LocalKeyAt(start)))
  }

  ghost predicate Inv(r: Rule, w: World)
    requires r.Valid()
  {
    && (forall start :: SharedOk(r, w, start))
    && (forall start, task :: TaskOk(r, w, start, task))
    && (forall i | 0 <= i < |w.log| :: w.log[i].task < r.tasks && (w.log[i].admitted ==> !w.log[i].fate.Refuses?))
  }

  lemma CallKeepsShared(r: Rule, w: World, e: Event, start: nat)
    requires r.Valid() && SharedOk(r, w, start) && Timed(r, w, e) && e.Call?
    ensures SharedOk(r, Next(r, w, e), start)
  {
    assert Next(r, w, e).log[..|w.log|] == w.log;
  }

  lemma OtherCallKeepsShared(r: Rule, w: World, e: Event, start: nat)
    requires r.Valid() && SharedOk(r, w, start) && Timed(r, w, e) && e.OtherCall?
    requires SharesScope(r, e) ==> Coexists(r, e.window)
    ensures SharedOk(r, Next(r, w, e), start)
  {
  }

  lemma ExpireKeepsShared(r: Rule, w: World, e: Event, start: nat)
    requires r.Valid() && SharedOk(r, w, start) && Timed(r, w, e) && e.Expire?
    ensures SharedOk(r, Next(r, w, e), start)
  {
  }

  lemma CallKeepsTask(r: Rule, w: World, e: Event, start: nat, task: Task)
    requires r.Valid() && TaskOk(r, w, start, task) && Timed(r, w, e) && e.Call?
    ensures TaskOk(r, Next(r, w, e), start, task)
  {
    assert Next(r, w, e).log[..|w.log|] == w.log;
    TagsDiffer(r.Start(e.now), r.window, start, r.window);
  }

  lemma OthersKeepTask(r: Rule, w: World, e: Event, start: nat, task: Task)
    requires r.Valid() && TaskOk(r, w, start, task) && Timed(r, w, e) && !e.Call?
    ensures TaskOk(r, Next(r, w, e), start, task)
  {
    if e.OtherCall? {
      TagsDiffer(WindowStart(e.now, e.window), e.window, start, r.window);
    }
  }

  lemma StepKeepsInv(r: Rule, w: World, e: Event)
    requires r.Valid() && Inv(r, w) && Timed(r, w, e)
    requires SharesScope(r, e) ==> Coexists(r, e.window)
    ensures Inv(r, Next(r, w, e))
  {
    forall start ensures SharedOk(r, Next(r, w, e), start) {
      assert SharedOk(r, w, start);
      match e {
        case Call(_, _, _) => CallKeepsShared(r, w, e, start);
        case OtherCall(_, _, _, _, _, _) => OtherCallKeepsShared(r, w, e, start);
        case Expire(_, _) => ExpireKeepsShared(r, w, e, start);
      }
    }
    forall start, task ensures TaskOk(r, Next(r, w, e), start, task) {
      assert TaskOk(r, w, start, task);
      if e.Call? {
        CallKeepsTask(r, w, e, start, task);
      } else {
        OthersKeepTask(r, w, e, start, task);
      }
    }
  }

  ghost predicate Reaches(r: Rule, w: World, events: seq<Event>, end: World)
    requires r.Valid()
    decreases |events|
  {
    if events == [] then end == w
    else Timed(r, w, events[0]) && Reaches(r, Next(r, w, events[0]), events[1..], end)
  }

  lemma {:induction false} RunKeepsInv(r: Rule, w: World, events: seq<Event>, end: World)
    requires r.Valid() && Inv(r, w) && Reaches(r, w, events, end) && AllCoexist(r, events)
    ensures Inv(r, end)
    decreases |events|
  {
    if events != [] {
      assert events[0] in events && forall e | e in events[1..] :: e in events;
      StepKeepsInv(r, w, events[0]);
      RunKeepsInv(r, Next(r, w, events[0]), events[1..], end);
    }
  }

  function Empty(now: nat): World {
    World(map[], map[], now, [])
  }

  lemma EmptyIsOk(r: Rule, now: nat)
    requires r.Valid()
    ensures Inv(r, Empty(now))
  {
  }

  // ---- adding up ----

  function TasksAdmitted(r: Rule, log: seq<Entry>, start: nat, tasks: nat): nat
    requires r.Valid()
  {
    if tasks == 0 then 0 else TasksAdmitted(r, log, start, tasks - 1) + TaskAdmitted(r, log, start, tasks - 1)
  }

  lemma {:induction false} OneEntryOneTask(r: Rule, log: seq<Entry>, e: Entry, start: nat, tasks: nat)
    requires r.Valid()
    ensures TasksAdmitted(r, log + [e], start, tasks)
         == TasksAdmitted(r, log, start, tasks)
          + if e.admitted && e.fate.OutOfReach? && e.task < tasks && r.Start(e.now) == start then 1 else 0
    decreases tasks
  {
    assert (log + [e])[..|log|] == log;
    if tasks > 0 {
      OneEntryOneTask(r, log, e, start, tasks - 1);
    }
  }

  lemma {:induction false} AdmittedAddsUp(r: Rule, log: seq<Entry>, start: nat)
    requires r.Valid()
    requires forall i | 0 <= i < |log| :: log[i].task < r.tasks && (log[i].admitted ==> !log[i].fate.Refuses?)
    ensures AdmittedIn(r, log, start) == SharedAdmitted(r, log, start) + TasksAdmitted(r, log, start, r.tasks)
    decreases |log|
  {
    if log == [] {
      NothingByTasks(r, start, r.tasks);
    } else {
      var n := |log| - 1;
      AdmittedAddsUp(r, log[..n], start);
      OneEntryOneTask(r, log[..n], log[n], start, r.tasks);
      assert log[..n] + [log[n]] == log;
    }
  }

  lemma {:induction false} NothingByTasks(r: Rule, start: nat, tasks: nat)
    requires r.Valid()
    ensures TasksAdmitted(r, [], start, tasks) == 0
    decreases tasks
  {
    if tasks > 0 {
      NothingByTasks(r, start, tasks - 1);
    }
  }

  lemma {:induction false} TasksWithinLimit(r: Rule, w: World, start: nat, tasks: nat)
    requires r.Valid() && Inv(r, w)
    ensures TasksAdmitted(r, w.log, start, tasks) <= r.limit * tasks
    decreases tasks
  {
    if tasks > 0 {
      TasksWithinLimit(r, w, start, tasks - 1);
      assert TaskOk(r, w, start, tasks - 1);
      assert r.limit * tasks == r.limit * (tasks - 1) + r.limit;
    }
  }

  /** One window: the limit through the shared counter, and once more for each task that had to count alone. */
  lemma WindowBound(r: Rule, w: World, start: nat)
    requires r.Valid() && Inv(r, w)
    ensures SharedAdmitted(r, w.log, start) <= r.limit
    ensures AdmittedIn(r, w.log, start) <= r.limit * (r.tasks + 1)
  {
    assert SharedOk(r, w, start);
    AdmittedAddsUp(r, w.log, start);
    TasksWithinLimit(r, w, start, r.tasks);
    assert r.limit * (r.tasks + 1) == r.limit * r.tasks + r.limit;
  }

  lemma MoreWindows(a: nat, b: nat, window: nat)
    requires a <= b
    ensures a * window <= b * window
  {
  }

  lemma QuotientsAreClose(q: nat, p: nat, window: nat, from: nat, now: nat)
    requires q * window <= from < q * window + window
    requires p * window <= now < p * window + window
    requires from <= now < from + window
    ensures p == q || p == q + 1
  {
    if p < q {
      MoreWindows(p + 1, q, window);
    } else if p > q + 1 {
      MoreWindows(q + 2, p, window);
    }
  }

  lemma TwoWindows(r: Rule, from: nat, now: nat)
    requires r.Valid() && from <= now < from + r.window
    ensures r.Start(now) == r.Start(from) || r.Start(now) == r.Start(from) + r.window
  {
    var q, p := from / r.window, now / r.window;
    assert r.Start(from) == q * r.window && r.Start(now) == p * r.window;
    QuotientsAreClose(q, p, r.window, from, now);
    assert (q + 1) * r.window == q * r.window + r.window;
  }

  lemma {:induction false} IntervalInTwoWindows(r: Rule, log: seq<Entry>, from: nat)
    requires r.Valid()
    ensures AdmittedBetween(log, from, from + r.window)
         <= AdmittedIn(r, log, r.Start(from)) + AdmittedIn(r, log, r.Start(from) + r.window)
    decreases |log|
  {
    if log != [] {
      var e := log[|log| - 1];
      IntervalInTwoWindows(r, log[..|log| - 1], from);
      if from <= e.now < from + r.window {
        TwoWindows(r, from, e.now);
      }
    }
  }

  lemma {:induction false} NoOutageIsShared(r: Rule, log: seq<Entry>, start: nat)
    requires r.Valid()
    requires forall i | 0 <= i < |log| :: log[i].admitted ==> log[i].fate.Answers?
    ensures AdmittedIn(r, log, start) == SharedAdmitted(r, log, start)
    decreases |log|
  {
    if log != [] {
      NoOutageIsShared(r, log[..|log| - 1], start);
    }
  }

  /**
   Any interval of one window's length, wherever it starts, from any run in which the windows
   on the scope coexist: twice the bound of a window.
   */
  lemma IntervalBound(r: Rule, events: seq<Event>, now: nat, w: World, from: nat)
    requires r.Valid() && Reaches(r, Empty(now), events, w) && AllCoexist(r, events)
    ensures AdmittedBetween(w.log, from, from + r.window) <= 2 * (r.limit * (r.tasks + 1))
    ensures (forall i | 0 <= i < |w.log| :: w.log[i].admitted ==> w.log[i].fate.Answers?) ==>
              AdmittedBetween(w.log, from, from + r.window) <= 2 * r.limit
  {
    EmptyIsOk(r, now);
    RunKeepsInv(r, Empty(now), events, w);
    IntervalInTwoWindows(r, w.log, from);
    WindowBound(r, w, r.Start(from));
    WindowBound(r, w, r.Start(from) + r.window);
    if forall i | 0 <= i < |w.log| :: w.log[i].admitted ==> w.log[i].fate.Answers? {
      NoOutageIsShared(r, w.log, r.Start(from));
      NoOutageIsShared(r, w.log, r.Start(from) + r.window);
    }
  }

  // ---- two windows on one scope ----

  lemma {:induction false} Compose(r: Rule, w: World, a: seq<Event>, mid: World, b: seq<Event>, end: World)
    requires r.Valid() && Reaches(r, w, a, mid) && Reaches(r, mid, b, end)
    ensures Reaches(r, w, a + b, end)
    decreases |a|
  {
    if a == [] {
      assert a + b == b;
    } else {
      Compose(r, Next(r, w, a[0]), a[1..], mid, b, end);
      assert (a + b)[1..] == a[1..] + b;
    }
  }

  lemma OneEvent(r: Rule, w: World, e: Event)
    requires r.Valid() && Timed(r, w, e)
    ensures Reaches(r, w, [e], Next(r, w, e))
  {
    assert [e][1..] == [];
  }

  lemma QuotientsAreEqual(p: nat, q: nat, window: nat, k: nat)
    requires q * window <= p * window + k < q * window + window
    requires k < window
    ensures p == q
  {
    if q < p {
      MoreWindows(q + 1, p, window);
    } else if q > p {
      MoreWindows(p + 1, q, window);
    }
  }

  lemma StartWithin(start: nat, k: nat, window: nat)
    requires window > 0 && start % window == 0 && k < window
    ensures WindowStart(start + k, window) == start
  {
    assert start == start / window * window;
    QuotientsAreEqual(start / window, (start + k) / window, window, k);
  }

  /** So many calls in a row through the shared counter, while it has room: all admitted. */
  lemma {:induction false} CallsAreAdmitted(r: Rule, w: World, start: nat, now: nat, n: nat) returns (events: seq<Event>, end: World)
    requires r.Valid() && r.tasks > 0 && w.now <= now && r.Start(now) == start
    requires Hits(w.hits, r.SharedKey(start)) + n <= r.limit
    ensures Reaches(r, w, events, end) && (forall e | e in events :: e.Call?)
    ensures end.now == if n == 0 then w.now else now
    ensures Hits(end.hits, r.SharedKey(start)) == Hits(w.hits, r.SharedKey(start)) + n
    ensures r.SharedKey(start) in w.hits ==> r.SharedKey(start) in end.hits && end.hits[r.SharedKey(start)].expiresAt == w.hits[r.SharedKey(start)].expiresAt
    ensures SharedAdmitted(r, end.log, start) == SharedAdmitted(r, w.log, start) + n
    decreases n
  {
    if n == 0 {
      events, end := [], w;
    } else {
      var first := Call(0, now, Answers);
      var one := Next(r, w, first);
      assert one.log[..|w.log|] == w.log;
      var rest;
      rest, end := CallsAreAdmitted(r, one, start, now, n - 1);
      OneEvent(r, w, first);
      Compose(r, w, [first], one, rest, end);
      events := [first] + rest;
    }
  }

  /** The other rule opens the counter, this one fills it, and it expires with this rule's window still open. */
  lemma OpenedFilledExpired(r: Rule, other: nat, start: nat) returns (events: seq<Event>, w: World)
    requires r.Valid() && r.tasks > 0 && 0 < other < 1_000_000 && !Coexists(r, other)
    requires start % other == 0 && r.Start(start) == start
    ensures Reaches(r, Empty(start), events, w) && forall e | e in events :: SharesScope(r, e) ==> e.window == other
    ensures w.now == start + other + TtlGrace + 1 && r.SharedKey(start) !in w.hits
    ensures SharedAdmitted(r, w.log, start) == r.limit - 1
  {
    var key := r.SharedKey(start);
    var opening, gone := OtherCall(0, r.scope, r.client, start, other, Answers), Expire(key, start + other + TtlGrace + 1);
    StartWithin(start, 0, other);
    var w1 := Next(r, Empty(start), opening);
    assert w1.hits == map[key := Counter(1, start + other + TtlGrace)];
    OneEvent(r, Empty(start), opening);
    var calls, w2 := CallsAreAdmitted(r, w1, start, start, r.limit - 1);
    w := Next(r, w2, gone);
    OneEvent(r, w2, gone);
    Compose(r, Empty(start), [opening], w1, calls, w2);
    Compose(r, Empty(start), [opening] + calls, w2, [gone], w);
    events := [opening] + calls + [gone];
  }

  /** Otherwise the bound breaks, at any moment where both windows start: the count begins again in an open window. */
  lemma TwoWindowsBreakTheBound(r: Rule, other: nat, start: nat) returns (events: seq<Event>, w: World)
    requires r.Valid() && r.tasks > 0 && 0 < other < 1_000_000 && !Coexists(r, other)
    requires start % other == 0 && start % r.window == 0
    ensures Reaches(r, Empty(start), events, w) && forall e | e in events :: SharesScope(r, e) ==> e.window == other
    ensures SharedAdmitted(r, w.log, start) == 2 * r.limit - 1 > r.limit
  {
    StartWithin(start, 0, r.window);
    StartWithin(start, other + TtlGrace + 1, r.window);
    var first, mid := OpenedFilledExpired(r, other, start);
    var second;
    second, w := CallsAreAdmitted(r, mid, start, mid.now, r.limit);
    Compose(r, Empty(start), first, mid, second, w);
    events := first + second;
  }

  /** The shared counter keeps its limit in every run. */
  ghost predicate SharedLimitHolds(r: Rule, other: nat)
    requires r.Valid()
  {
    forall now, events, w, start |
      Reaches(r, Empty(now), events, w) && (forall e | e in events :: SharesScope(r, e) ==> e.window == other) ::
      SharedAdmitted(r, w.log, start) <= r.limit
  }

  /** Beside a second window of this length on its scope, a rule keeps its limit in every run if and only if the two coexist. */
  lemma TwoWindowsShareACounterIff(r: Rule, other: nat)
    requires r.Valid() && r.tasks > 0 && 0 < other < 1_000_000
    ensures SharedLimitHolds(r, other) <==> Coexists(r, other)
  {
    if Coexists(r, other) {
      forall now, events, w, start |
        Reaches(r, Empty(now), events, w) && (forall e | e in events :: SharesScope(r, e) ==> e.window == other)
        ensures SharedAdmitted(r, w.log, start) <= r.limit
      {
        EmptyIsOk(r, now);
        RunKeepsInv(r, Empty(now), events, w);
        assert SharedOk(r, w, start);
      }
    } else {
      var events, w := TwoWindowsBreakTheBound(r, other, 0);
      assert SharedAdmitted(r, w.log, 0) > r.limit;
    }
  }
}
