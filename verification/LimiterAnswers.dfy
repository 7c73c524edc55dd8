/** What the limiter answers to a call, decided by the calls before it: exactly the count, no more refused than that. */
module LimiterAnswers {
  import opened RateLimiter
  import opened LimiterRuns

  /** Calls of one window that the shared counter counted: all it answered, and those it counted though the answer was lost. */
  function CountedIn(r: Rule, log: seq<Entry>, start: nat): nat
    requires r.Valid()
  {
    if log == [] then 0
    else
      var e := log[|log| - 1];
      var counts := e.fate.Answers? || (e.fate.OutOfReach? && e.fate.counted);
      CountedIn(r, log[..|log| - 1], start) + if counts && r.Start(e.now) == start then 1 else 0
  }

  /** Calls of one window that a task had to count alone. */
  function CountedBy(r: Rule, log: seq<Entry>, start: nat, task: Task): nat
    requires r.Valid()
  {
    if log == [] then 0
    else
      var e := log[|log| - 1];
      CountedBy(r, log[..|log| - 1], start, task) + if e.fate.OutOfReach? && e.task == task && r.Start(e.now) == start then 1 else 0
  }

  ghost predicate SharedExact(r: Rule, w: World, start: nat)
    requires r.Valid()
  {
    var key := r.SharedKey(start);
    && (key in w.hits ==> w.hits[key].expiresAt == start + r.window + 60)
    && (start + r.window > w.now ==> Hits(w.hits, key) == CountedIn(r, w.log, start))
  }

  ghost predicate TaskExact(r: Rule, w: World, start: nat, task: Task)
    requires r.Valid()
  {
    var key, counts := r.LocalKeyAt(start), LocalOf(w, task);
    && (key in counts ==> counts[key].expiresAt == start + r.window)
    && (start + r.window > w.now ==> Hits(counts, key) == CountedBy(r, w.log, start, task))
  }

  ghost predicate Exact(r: Rule, w: World)
    requires r.Valid()
  {
    (forall start :: SharedExact(r, w, start)) && forall start, task :: TaskExact(r, w, start, task)
  }

  lemma SharedStaysExact(r: Rule, w: World, e: Event, start: nat)
    requires r.Valid() && SharedExact(r, w, start) && Timed(r, w, e) && !SharesScope(r, e)
    ensures SharedExact(r, Next(r, w, e), start)
  {
    if e.Call? {
      assert Next(r, w, e).log[..|w.log|] == w.log;
    }
  }

  lemma TaskStaysExact(r: Rule, w: World, e: Event, start: nat, task: Task)
    requires r.Valid() && TaskExact(r, w, start, task) && Timed(r, w, e) && !SharesScope(r, e)
    ensures TaskExact(r, Next(r, w, e), start, task)
  {
    if e.Call? {
      assert Next(r, w, e).log[..|w.log|] == w.log;
      TagsDiffer(r.Start(e.now), r.window, start, r.window);
    }
  }

  lemma {:induction false} RunStaysExact(r: Rule, w: World, events: seq<Event>, end: World)
    requires r.Valid() && Exact(r, w) && Reaches(r, w, events, end)
    requires forall e | e in events :: !SharesScope(r, e)
    ensures Exact(r, end)
    decreases |events|
  {
    if events != [] {
      var e := events[0];
      assert e in events && forall f | f in events[1..] :: f in events;
      forall start ensures SharedExact(r, Next(r, w, e), start) {
        SharedStaysExact(r, w, e, start);
      }
      forall start, task ensures TaskExact(r, Next(r, w, e), start, task) {
        TaskStaysExact(r, w, e, start, task);
      }
      RunStaysExact(r, Next(r, w, e), events[1..], end);
    }
  }

  /**
   Over every run in which no other rule shares the scope, through outages, pruning and expiry:
   an answered call is admitted if and only if the calls its window has counted, with it, are
   within the limit; a refusal admits nothing and counts nothing; and a task on its own
   admits exactly while its own count is.
   */
  lemma TheVerdictIsTheCount(r: Rule, events: seq<Event>, w: World, from: nat, task: Task, now: nat, fate: Fate)
    requires r.Valid() && Reaches(r, Empty(from), events, w) && forall e | e in events :: !SharesScope(r, e)
    requires Timed(r, w, Call(task, now, fate))
    ensures var next, start := Next(r, w, Call(task, now, fate)), r.Start(now);
            && next.log == w.log + [Entry(task, now, fate,
                 match fate
                 case Answers => CountedIn(r, w.log, start) + 1 <= r.limit
                 case OutOfReach(_) => CountedBy(r, w.log, start, task) + 1 <= r.limit
                 case Refuses => false)]
            && (fate.Refuses? ==> next.hits == w.hits && LocalOf(next, task) == LocalOf(w, task))
  {
    assert Exact(r, Empty(from));
    RunStaysExact(r, Empty(from), events, w);
    var start := r.Start(now);
    assert SharedExact(r, w, start) && TaskExact(r, w, start, task);
  }
}
