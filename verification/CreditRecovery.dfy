/**
 The charge that a settle observed and could not post. The settler writes an owed note and
 then looks for a reclaim; the reaper reclaims and then looks for an owed note. Whatever the
 interleaving, with any other transactions on the same hold and on others, the later of the
 two looks sees the other's write.
 */
module CreditRecovery {
  import opened Options
  import opened CreditEvents
  import opened CreditRuns

  /** The settler after its retries ran out: the note, the look, the posting. */
  datatype Settler = Trying | Noted | SawReclaim | SettlerDone

  /** The reaper of one hold: the reclaim, the look, the posting; `Passed` if the reclaim did not commit. */
  datatype Reaper = Waiting | Reclaimed | SawOwed | ReaperDone | Passed

  datatype State = State(w: World, id: HoldId, settler: Settler, reaper: Reaper)

  datatype Step =
    | Note(actual: int)
    | LookForReclaim
    | SettlerPosts
    | ReclaimHold(held: int)
    | LookForOwed
    | ReaperPosts
    | Other(t: Txn)

  function OwedNote(s: State): Option<Event> {
    Lookup(s.w.ledger, Key(s.id, OwedSettleCell))
  }

  function Late(s: State): Option<Event> {
    Lookup(s.w.ledger, Key(s.id, LateSettleCell))
  }

  /** A note is worth a posting if its figure is positive. */
  predicate Owes(s: State) {
    OwedNote(s).Some? && OwedNote(s).value.settled > 0
  }

  function PostOwed(s: State): World
    requires OwedNote(s).Some?
  {
    CreditRuns.Next(s.w, LateSettle(s.id, OwedNote(s).value.settled))
  }

  /** Anybody may write anything else; the note and the reclaim of this hold are these two parties'. */
  predicate Enabled(s: State, step: Step) {
    match step
    case Note(_) => s.settler == Trying
    case LookForReclaim => s.settler == Noted
    case SettlerPosts => s.settler == SawReclaim && OwedNote(s).Some?
    case ReclaimHold(_) => s.reaper == Waiting
    case LookForOwed => s.reaper == Reclaimed
    case ReaperPosts => s.reaper == SawOwed && OwedNote(s).Some?
    case Other(t) => t.id == s.id ==> !t.PutOwed? && !t.Reclaim?
  }

  function Next(s: State, step: Step): State {
    if !Enabled(s, step) then s
    else
      match step
      case Note(actual) => s.(w := CreditRuns.Next(s.w, PutOwed(s.id, actual)), settler := Noted)
      case LookForReclaim => s.(settler := if HasTerminal(s.w, s.id, RECLAIM) && Owes(s) then SawReclaim else SettlerDone)
      case SettlerPosts => s.(w := PostOwed(s), settler := SettlerDone)
      case ReclaimHold(held) =>
        if Commits(s.w, Reclaim(s.id, held)) then s.(w := CreditRuns.Next(s.w, Reclaim(s.id, held)), reaper := Reclaimed)
        else s.(reaper := Passed)
      case LookForOwed => s.(reaper := if Owes(s) then SawOwed else ReaperDone)
      case ReaperPosts => s.(w := PostOwed(s), reaper := ReaperDone)
      case Other(t) => s.(w := CreditRuns.Next(s.w, t))
  }

  function Run(s: State, steps: seq<Step>): State
    decreases |steps|
  {
    if steps == [] then s else Next(Run(s, steps[..|steps| - 1]), steps[|steps| - 1])
  }

  ghost predicate Legal(s: State, steps: seq<Step>)
    decreases |steps|
  {
    steps != [] ==> Legal(s, steps[..|steps| - 1]) && Enabled(Run(s, steps[..|steps| - 1]), steps[|steps| - 1])
  }

  /** Nothing noted, nothing ended: the hold may be open, and may have its RESERVE event. */
  ghost predicate Fresh(s: State) {
    && s.settler == Trying && s.reaper == Waiting
    && Key(s.id, OwedSettleCell) !in s.w.ledger && Key(s.id, LateSettleCell) !in s.w.ledger
    && Key(s.id, TerminalCell) !in s.w.ledger
  }

  // ---- the order of events ----

  ghost predicate HasNote(steps: seq<Step>) {
    exists i :: 0 <= i < |steps| && steps[i].Note?
  }

  /** The reaper looked for a note after there was one. */
  ghost predicate LookedAfterNote(steps: seq<Step>) {
    exists i, j :: 0 <= i < j < |steps| && steps[i].Note? && steps[j].LookForOwed?
  }

  predicate IsOtherLate(step: Step, id: HoldId) {
    step.Other? && step.t.LateSettle? && step.t.id == id
  }

  ghost predicate AnyOtherLate(steps: seq<Step>, id: HoldId) {
    exists i :: 0 <= i < |steps| && IsOtherLate(steps[i], id)
  }

  /** Somebody else tried a late settle of the hold after it was reclaimed. */
  ghost predicate OtherLateAfterReclaim(steps: seq<Step>, id: HoldId) {
    exists i, j :: 0 <= i < j < |steps| && steps[i].ReclaimHold? && IsOtherLate(steps[j], id)
  }

  lemma OneMoreEvent(before: seq<Step>, last: Step, id: HoldId)
    ensures HasNote(before + [last]) <==> HasNote(before) || last.Note?
    ensures LookedAfterNote(before + [last]) <==> LookedAfterNote(before) || (last.LookForOwed? && HasNote(before))
    ensures AnyOtherLate(before + [last], id) <==> AnyOtherLate(before, id) || IsOtherLate(last, id)
    ensures OtherLateAfterReclaim(before + [last], id)
            <==> OtherLateAfterReclaim(before, id) || (IsOtherLate(last, id) && exists i :: 0 <= i < |before| && before[i].ReclaimHold?)
  {
    var after, n := before + [last], |before|;
    assert after[n] == last && forall i | 0 <= i < n :: after[i] == before[i];
    forall i | 0 <= i < n && before[i].Note? && last.LookForOwed? ensures LookedAfterNote(after) {
      assert after[i].Note? && after[n].LookForOwed?;
    }
    forall i | 0 <= i < n && before[i].ReclaimHold? && IsOtherLate(last, id) ensures OtherLateAfterReclaim(after, id) {
      assert after[i].ReclaimHold? && IsOtherLate(after[n], id);
    }
    forall i, j | 0 <= i < j < n && before[i].Note? && before[j].LookForOwed? ensures LookedAfterNote(after) {
      assert after[i].Note? && after[j].LookForOwed?;
    }
    forall i, j | 0 <= i < j < n && before[i].ReclaimHold? && IsOtherLate(before[j], id) ensures OtherLateAfterReclaim(after, id) {
      assert after[i].ReclaimHold? && IsOtherLate(after[j], id);
    }
  }

  // ---- the invariant ----

  /** All that the events so far say about the parties. */
  datatype Events = Events(noted: bool, reclaimTried: bool, lookedAfterNote: bool, otherLate: bool, otherLateAfterReclaim: bool)

  ghost function EventsOf(steps: seq<Step>, id: HoldId): Events {
    Events(HasNote(steps), exists i :: 0 <= i < |steps| && steps[i].ReclaimHold?, LookedAfterNote(steps),
           AnyOtherLate(steps, id), OtherLateAfterReclaim(steps, id))
  }

  function AddEvent(e: Events, step: Step, id: HoldId): Events {
    Events(e.noted || step.Note?, e.reclaimTried || step.ReclaimHold?,
           e.lookedAfterNote || (step.LookForOwed? && e.noted),
           e.otherLate || IsOtherLate(step, id),
           e.otherLateAfterReclaim || (IsOtherLate(step, id) && e.reclaimTried))
  }

  predicate Reclaiming(r: Reaper) {
    r.Reclaimed? || r.SawOwed? || r.ReaperDone?
  }

  predicate Inv(s: State, e: Events) {
    && (s.settler != Trying <==> e.noted) && (OwedNote(s).Some? <==> e.noted)
    && (s.reaper != Waiting <==> e.reclaimTried) && (e.lookedAfterNote ==> e.noted) && (e.otherLateAfterReclaim ==> e.reclaimTried)
    && (Reclaiming(s.reaper) <==> HasTerminal(s.w, s.id, RECLAIM))
    && (s.settler == SawReclaim ==> HasTerminal(s.w, s.id, RECLAIM) && Owes(s))
    && (s.reaper == SawOwed ==> Owes(s) && e.lookedAfterNote)
    && (e.lookedAfterNote && Owes(s) ==> s.reaper == SawOwed || Late(s).Some?)
    && (HasTerminal(s.w, s.id, RECLAIM) && Owes(s) && Late(s).None? ==>
          s.settler == Noted || s.settler == SawReclaim || s.reaper == Reclaimed || s.reaper == SawOwed)
    && (Late(s).Some? ==> s.settler == SettlerDone || (s.reaper == ReaperDone && e.lookedAfterNote) || e.otherLateAfterReclaim)
    && (e.otherLateAfterReclaim && Reclaiming(s.reaper) ==> Late(s).Some?)
    && (Late(s).Some? && !e.otherLate ==> OwedNote(s).Some? && Late(s).value.settled == OwedNote(s).value.settled)
  }

  lemma EventsGrow(steps: seq<Step>, id: HoldId)
    requires steps != []
    ensures EventsOf(steps, id) == AddEvent(EventsOf(steps[..|steps| - 1], id), steps[|steps| - 1], id)
  {
    var before, last := steps[..|steps| - 1], steps[|steps| - 1];
    assert steps == before + [last];
    OneMoreEvent(before, last, id);
    if exists i :: 0 <= i < |before| && before[i].ReclaimHold? {
      var i :| 0 <= i < |before| && before[i].ReclaimHold?;
      assert steps[i].ReclaimHold?;
    }
    if last.ReclaimHold? {
      assert steps[|before|].ReclaimHold?;
    }
  }

  /** What another transaction can do to what this hold's parties look at. */
  lemma OtherTxn(s: State, t: Txn)
    requires Enabled(s, Other(t))
    ensures var n := Next(s, Other(t));
            && OwedNote(n) == OwedNote(s)
            && (Late(s).Some? ==> Late(n) == Late(s))
            && (Late(s).None? && Late(n).Some? ==> t.LateSettle? && t.id == s.id && HasTerminal(s.w, s.id, RECLAIM))
            && (IsOtherLate(Other(t), s.id) && HasTerminal(s.w, s.id, RECLAIM) ==> Late(n).Some?)
            && (HasTerminal(n.w, s.id, RECLAIM) <==> HasTerminal(s.w, s.id, RECLAIM))
  {
  }

  lemma StepKeepsInv(s: State, e: Events, step: Step)
    requires Inv(s, e) && Enabled(s, step)
    ensures Inv(Next(s, step), AddEvent(e, step, s.id)) && Next(s, step).id == s.id
  {
    if step.Other? {
      OtherTxn(s, step.t);
    }
  }

  lemma {:induction false} RunKeepsInv(s: State, steps: seq<Step>)
    requires Fresh(s) && Legal(s, steps)
    ensures Inv(Run(s, steps), EventsOf(steps, s.id)) && Run(s, steps).id == s.id
    decreases |steps|
  {
    if steps != [] {
      var before := steps[..|steps| - 1];
      RunKeepsInv(s, before);
      StepKeepsInv(Run(s, before), EventsOf(before, s.id), steps[|steps| - 1]);
      EventsGrow(steps, s.id);
    }
  }

  /**
   Exactly when an owed charge is posted, once the reaper has done its part: it looked after
   the note was there, or the settler finished its own look, or somebody else posted one.
   */
  lemma TheChargeIsPostedIff(start: State, steps: seq<Step>, end: State)
    requires Fresh(start) && Legal(start, steps) && end == Run(start, steps)
    requires end.reaper == ReaperDone && Owes(end)
    ensures Late(end).Some? <==> LookedAfterNote(steps) || end.settler == SettlerDone || OtherLateAfterReclaim(steps, start.id)
  {
    RunKeepsInv(start, steps);
  }

  /**
   Once both have finished, a reclaimed hold with a positive owed note has its late settle, in
   every interleaving; at the figure first observed unless somebody else late-settled the hold.
   */
  lemma TheChargeIsRecovered(start: State, steps: seq<Step>, end: State)
    requires Fresh(start) && Legal(start, steps) && end == Run(start, steps)
    requires end.settler == SettlerDone && end.reaper == ReaperDone
    ensures HasTerminal(end.w, end.id, RECLAIM)
    ensures Owes(end) ==> Late(end).Some?
    ensures Owes(end) && !AnyOtherLate(steps, start.id) ==> Late(end).value.settled == OwedNote(end).value.settled
  {
    RunKeepsInv(start, steps);
  }

  /** A settler that stops between its note and its look, with a reaper that looked first, leaves the charge unposted. */
  lemma AStopBeforeTheLookLosesTheCharge(start: State, held: int, actual: int) returns (end: State)
    requires Fresh(start) && start.id in start.w.holds && actual > 0
    ensures Legal(start, [ReclaimHold(held), LookForOwed, Note(actual)])
    ensures end == Run(start, [ReclaimHold(held), LookForOwed, Note(actual)])
    ensures end.reaper == ReaperDone && end.settler == Noted && Owes(end) && Late(end).None?
  {
    var a, b, c := ReclaimHold(held), LookForOwed, Note(actual);
    assert [a, b, c][..2] == [a, b] && [a, b][..1] == [a] && [a][..0] == [];
    assert Run(start, [a]) == Next(start, a);
    assert Run(start, [a, b]) == Next(Next(start, a), b);
    assert Legal(start, [a, b, c][..2][..1]);
    assert Legal(start, [a, b, c][..2]);
    end := Run(start, [a, b, c]);
  }
}
