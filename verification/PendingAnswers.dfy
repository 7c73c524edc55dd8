/** What each step of the reference protocol answers and leaves, in every world its runs reach. */
module PendingAnswers {
  import opened Sums
  import opened PendingProtocol
  import opened PendingRuns

  /**
   The commit in every reachable world. A hold that is not PENDING is a no-op and one already
   debited is told so again, the pool left alone; otherwise it is debited if and only if the
   write reaches the pool, the pool is active, and all that is out, with this hold, fits the limit.
   */
  lemma CommitAnswers(limit: int, active: bool, actions: seq<Action>, id: HoldId, injection: Injection)
    requires limit >= 0 && LooselyLegal(Start(limit, active), actions)
    ensures var s := Run(Start(limit, active), actions).state;
            var (t, reply) := CommitDebit(s, id, injection);
            if id !in s.holds || s.holds[id].status != Pending then t == s && reply == Noop
            else if id in s.debited && s.debited[id] then t == s && reply == Committed
            else
              var amount := s.holds[id].amount;
              var fits := s.active && Sum(Outstanding(s)) + amount <= s.limit;
              && reply == (if injection.AmbiguousApplied? || injection.AmbiguousLost? then Ambiguous else if fits then Committed else Rejected)
              && if fits && !injection.AmbiguousLost? then
                   t == s.(reserved := s.reserved + amount, debited := s.debited[id := true],
                           holds := s.holds[id := Hold(amount, Pending, CommittedAt(s.tick))])
                 else t == s
  {
    StartInv(limit, active);
    RunKeepsInv(Start(limit, active), actions);
  }

  /**
   Settle and release: a debited hold that is PENDING or ACTIVE gives its amount back, loses
   its marker and ends; one that is not debited raises the alarm and moves nothing; any other
   is not theirs to end.
   */
  lemma ReturnAnswers(s: State, id: HoldId, terminal: Status)
    ensures var (t, answer) := ReturnReservation(s, id, terminal);
            if id !in s.holds || s.holds[id].status !in {Pending, Active} then t == s && answer == NotApplicable
            else if id !in s.debited || !s.debited[id] then t == s && answer == Oversell
            else
              var hold := s.holds[id];
              && answer == Returned
              && t == s.(reserved := s.reserved - hold.amount, debited := s.debited[id := false],
                         holds := s.holds[id := Hold(hold.amount, terminal, hold.committed)])
  {
  }

  /** The sweeper and the client's own moves: from one status each, and only the reap of an ACTIVE hold moves money. */
  lemma MovesAnswer(s: State, id: HoldId, to: Status)
    ensures Move(s, id, Pending, to) ==
              if id in s.holds && s.holds[id].status == Pending
              then s.(holds := s.holds[id := Hold(s.holds[id].amount, to, s.holds[id].committed)]) else s
    ensures ReapActive(s, id) ==
              if id in s.holds && s.holds[id].status == Active
              then s.(reserved := s.reserved - s.holds[id].amount, debited := s.debited[id := false],
                      holds := s.holds[id := Hold(s.holds[id].amount, Expired, s.holds[id].committed)]) else s
  {
  }

  /** The reconciler retires every fenced hold and clears its marker, leaves every other hold, and returns what the fenced ones had out. */
  lemma ReconcileAnswers(s: State, id: HoldId)
    requires s.holds.Keys == s.debited.Keys
    ensures var t := Reconciled(s);
            && t.limit == s.limit && t.active == s.active && t.tick == s.tick
            && t.holds.Keys == s.holds.Keys == t.debited.Keys
            && (id in s.holds ==>
                  if s.holds[id].status == ExpiredUncredited then
                    t.holds[id] == Hold(s.holds[id].amount, Reclaimed, s.holds[id].committed) && !t.debited[id]
                  else t.holds[id] == s.holds[id] && t.debited[id] == s.debited[id])
    ensures Reconciled(s).reserved == s.reserved - Sum(FencedAmounts(s))
  {
    assert FencedAmounts(s) == Leaks(s);
  }

  /** What each fenced hold has out: its amount if it was debited. */
  ghost function FencedAmounts(s: State): map<HoldId, int> {
    map id | id in s.holds ::
      if s.holds[id].status == ExpiredUncredited && id in s.debited && s.debited[id] then s.holds[id].amount else 0
  }

  /** A reachable world is quiescent if and only if no hold is PENDING and no fenced hold is debited. */
  lemma QuiescentIff(limit: int, active: bool, actions: seq<Action>)
    requires limit >= 0 && LooselyLegal(Start(limit, active), actions)
    ensures var s := Run(Start(limit, active), actions).state;
            Quiescent(s) <==> forall id | id in s.holds ::
              s.holds[id].status != Pending && !(s.holds[id].status == ExpiredUncredited && s.Marked(id))
  {
    StartInv(limit, active);
    RunKeepsInv(Start(limit, active), actions);
    var w := Run(Start(limit, active), actions);
    var s := w.state;
    forall id | id in s.holds ensures Leaks(s)[id] >= 0 && (Leaks(s)[id] == 0 <==> !(s.holds[id].status == ExpiredUncredited && s.Marked(id))) {
      assert HoldConsistent(w, id);
    }
    SumBounds(Leaks(s));
    if forall id | id in s.holds :: Leaks(s)[id] == 0 {
      SumZero(Leaks(s));
    }
  }
}
