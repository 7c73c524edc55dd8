/**
 The fold against the counters: whatever the order of the rows and the cuts between pages,
 the derived totals differ from the pool's counters by exactly the named offsets.
 */
module CreditReconciliation {
  import opened Options
  import opened Sums
  import opened CreditEvents
  import opened DerivedTotals
  import opened CreditRuns

  // ---- reading the whole partition, in any order ----

  ghost predicate Lists(keys: seq<Key>, l: Ledger) {
    && (forall i, j | 0 <= i < j < |keys| :: keys[i] != keys[j])
    && (forall k :: k in keys <==> k in l)
  }

  function RowsOf(keys: seq<Key>, l: Ledger): seq<Event>
    requires forall k | k in keys :: k in l
  {
    if keys == [] then [] else RowsOf(keys[..|keys| - 1], l) + [l[keys[|keys| - 1]]]
  }

  lemma {:induction false} SameRows(keys: seq<Key>, l: Ledger, m: Ledger)
    requires forall k | k in keys :: k in l && k in m && l[k] == m[k]
    ensures RowsOf(keys, l) == RowsOf(keys, m)
  {
    if keys != [] {
      SameRows(keys[..|keys| - 1], l, m);
    }
  }

  lemma WithoutLast(keys: seq<Key>, l: Ledger)
    requires Lists(keys, l) && keys != []
    ensures var n := |keys| - 1;
            && Lists(keys[..n], l - {keys[n]})
            && RowsOf(keys, l) == RowsOf(keys[..n], l - {keys[n]}) + [l[keys[n]]]
            && keys[n] in l
  {
    var n := |keys| - 1;
    forall k ensures k in keys[..n] <==> k in l - {keys[n]} {
      assert k in keys <==> k in keys[..n] || k == keys[n];
    }
    SameRows(keys[..n], l, l - {keys[n]});
  }

  function Settlements(l: Ledger): map<Key, int> {
    map k | k in l :: l[k].settled
  }

  lemma SettlementsSplit(l: Ledger, k: Key)
    requires k in l
    ensures Sum(Settlements(l)) == Sum(Settlements(l - {k})) + l[k].settled
  {
    SumSplit(Settlements(l), k);
    assert Settlements(l) - {k} == Settlements(l - {k});
  }

  lemma {:induction false} SettledOfListing(keys: seq<Key>, l: Ledger)
    requires Lists(keys, l)
    ensures SettledIn(RowsOf(keys, l)) == Sum(Settlements(l))
  {
    if keys == [] {
      assert Settlements(l) == map[];
    } else {
      var n, k := |keys| - 1, keys[|keys| - 1];
      WithoutLast(keys, l);
      SettledOfListing(keys[..n], l - {k});
      OneMoreRow(RowsOf(keys[..n], l - {k}), l[k]);
      SettlementsSplit(l, k);
    }
  }

  function ReclaimedAt(l: Ledger, h: HoldId): int {
    if Key(h, TerminalCell) in l && l[Key(h, TerminalCell)].kind == RECLAIM then -ReservedAt(l, h, TerminalCell) else 0
  }

  lemma OneRowOfAHold(l: Ledger, k: Key, h: HoldId)
    requires WellKeyed(l) && k in l
    ensures WellKeyed(l - {k})
    ensures ReservedAt(l, h, ReserveCell) + ReservedAt(l, h, ShadowCell)
         == ReservedAt(l - {k}, h, ReserveCell) + ReservedAt(l - {k}, h, ShadowCell)
          + if l[k].kind == RESERVE && l[k].hold == h then l[k].reserved else 0
    ensures ReservedAt(l, h, TerminalCell)
         == ReservedAt(l - {k}, h, TerminalCell) + if IsTerminal(l[k].kind) && l[k].hold == h then l[k].reserved else 0
    ensures ReclaimedAt(l, h)
         == ReclaimedAt(l - {k}, h) + if l[k].kind == RECLAIM && l[k].hold == h then -l[k].reserved else 0
  {
  }

  lemma {:induction false} HoldInListing(keys: seq<Key>, l: Ledger, h: HoldId)
    requires Lists(keys, l) && WellKeyed(l)
    ensures ReserveIn(RowsOf(keys, l), h) == ReservedAt(l, h, ReserveCell) + ReservedAt(l, h, ShadowCell)
    ensures TerminalIn(RowsOf(keys, l), h) == ReservedAt(l, h, TerminalCell)
    ensures ReclaimedIn(RowsOf(keys, l), h) == ReclaimedAt(l, h)
  {
    if keys != [] {
      var n, k := |keys| - 1, keys[|keys| - 1];
      WithoutLast(keys, l);
      OneRowOfAHold(l, k, h);
      HoldInListing(keys[..n], l - {k}, h);
      OneMoreRow(RowsOf(keys[..n], l - {k}), l[k]);
    }
  }

  function ReservedIn(l: Ledger): set<HoldId> {
    set k | k in l && l[k].kind == RESERVE :: k.hold
  }

  function ReclaimsIn(l: Ledger): set<HoldId> {
    set k | k in l && l[k].kind == RECLAIM :: k.hold
  }

  lemma {:induction false} HoldsInListing(keys: seq<Key>, l: Ledger)
    requires Lists(keys, l) && WellKeyed(l)
    ensures ReservedHolds(RowsOf(keys, l)) == ReservedIn(l)
    ensures ReclaimHolds(RowsOf(keys, l)) == ReclaimsIn(l)
  {
    if keys != [] {
      var n, k := |keys| - 1, keys[|keys| - 1];
      WithoutLast(keys, l);
      HoldsInListing(keys[..n], l - {k});
      OneMoreRow(RowsOf(keys[..n], l - {k}), l[k]);
      SetsGrow(l, k);
      assert RowFits(k, l[k]);
    }
  }

  lemma SetsGrow(l: Ledger, k: Key)
    requires k in l
    ensures ReservedIn(l) == ReservedIn(l - {k}) + if l[k].kind == RESERVE then {k.hold} else {}
    ensures ReclaimsIn(l) == ReclaimsIn(l - {k}) + if l[k].kind == RECLAIM then {k.hold} else {}
  {
    forall j | j in l ensures j == k || (j in l - {k} && (l - {k})[j] == l[j]) {
    }
  }

  // ---- the offsets ----

  /** Usage noted as observed and not posted: the fold adds it beside the charge it announces. */
  function Owed(l: Ledger): map<Key, int> {
    map k | k in l :: if k.cell.OwedSettleCell? then l[k].settled else 0
  }

  /** The projector's copies of RESERVE events: the fold adds each beside the original. */
  function Shadows(l: Ledger): map<HoldId, int> {
    map h | h in ReservedIn(l) :: ReservedAt(l, h, ShadowCell)
  }

  /** Holds the ledger has no RESERVE event for: counted on the row, invisible to the fold. */
  function UnrecordedHolds(w: World): map<HoldId, int> {
    map h | h in w.holds && h !in ReservedIn(w.ledger) :: w.holds[h]
  }

  function UnrecordedReclaims(l: Ledger): map<Key, int> {
    map k | k in l :: if l[k].kind == RECLAIM && k.hold !in ReservedIn(l) then -l[k].reserved else 0
  }

  lemma SettledOffset(l: Ledger)
    ensures Sum(Settlements(l)) == Sum(Charges(l)) + Sum(Owed(l))
  {
    SumAdd(Charges(l), Owed(l), Settlements(l));
  }

  /** What a recorded hold still holds, by its own rows. */
  function Nets(l: Ledger): map<HoldId, int> {
    map h | h in ReservedIn(l) :: ReservedAt(l, h, ReserveCell) + ReservedAt(l, h, TerminalCell)
  }

  function NetsWithShadows(l: Ledger): map<HoldId, int> {
    map h | h in ReservedIn(l) ::
      ReservedAt(l, h, ReserveCell) + ReservedAt(l, h, ShadowCell) + ReservedAt(l, h, TerminalCell)
  }

  /** Two sums over overlapping keys that agree where both speak. */
  lemma {:induction false} SumUnion(nets: map<HoldId, int>, holds: map<HoldId, int>, rest: map<HoldId, int>)
    requires forall h | h in nets :: nets[h] == ValueOr0(holds, h)
    requires forall h :: h in rest <==> h in holds && h !in nets
    requires forall h | h in rest :: rest[h] == holds[h]
    ensures Sum(nets) == Sum(holds) - Sum(rest)
    decreases |nets|
  {
    if nets == map[] {
      assert rest == holds;
    } else {
      var h :| h in nets;
      SumSplit(nets, h);
      SumRemove(holds, h);
      SumUnion(nets - {h}, holds - {h}, rest);
    }
  }

  lemma ReservedOffset(w: World, base: World)
    requires Inv(w, base)
    ensures Sum(NetsWithShadows(w.ledger)) == Sum(w.holds) - Sum(UnrecordedHolds(w)) + Sum(Shadows(w.ledger))
  {
    SumAdd(Nets(w.ledger), Shadows(w.ledger), NetsWithShadows(w.ledger));
    forall h | h in ReservedIn(w.ledger) ensures Nets(w.ledger)[h] == ValueOr0(w.holds, h) {
      RecordedNet(w, base, h);
    }
    SumUnion(Nets(w.ledger), w.holds, UnrecordedHolds(w));
  }

  lemma RecordedNet(w: World, base: World, h: HoldId)
    requires Inv(w, base) && h in ReservedIn(w.ledger)
    ensures ReservedAt(w.ledger, h, ReserveCell) + ReservedAt(w.ledger, h, TerminalCell)
         == if h in w.holds then w.holds[h] else 0
  {
    var k :| k in w.ledger && w.ledger[k].kind == RESERVE && k.hold == h;
    assert RowFits(k, w.ledger[k]);
    assert LocalOf(w, h).Ok();
  }

  /** A sum over terminals is a sum over their holds. */
  lemma {:induction false} TerminalsByHold(byHold: map<HoldId, int>, byKey: map<Key, int>)
    requires forall h | h in byHold :: Key(h, TerminalCell) in byKey && byKey[Key(h, TerminalCell)] == byHold[h]
    requires forall k | k in byKey :: !k.cell.TerminalCell? || k.hold !in byHold ==> byKey[k] == 0
    ensures Sum(byKey) == Sum(byHold)
    decreases |byHold|
  {
    if byHold == map[] {
      SumZero(byKey);
    } else {
      var h :| h in byHold;
      SumSplit(byHold, h);
      SumSplit(byKey, Key(h, TerminalCell));
      TerminalsByHold(byHold - {h}, byKey - {Key(h, TerminalCell)});
    }
  }

  function RecordedReclaims(l: Ledger): map<HoldId, int> {
    map h | h in ReclaimsIn(l) :: if h in ReservedIn(l) then ReclaimedAt(l, h) else 0
  }

  lemma ReclaimedOffset(l: Ledger)
    requires WellKeyed(l)
    ensures Sum(RecordedReclaims(l)) == Sum(Reclaims(l)) - Sum(UnrecordedReclaims(l))
  {
    var recorded := map k | k in l :: if l[k].kind == RECLAIM && k.hold in ReservedIn(l) then -l[k].reserved else 0;
    SumAdd(recorded, UnrecordedReclaims(l), Reclaims(l));
    var byHold := RecordedReclaims(l);
    forall h | h in byHold ensures Key(h, TerminalCell) in recorded && recorded[Key(h, TerminalCell)] == byHold[h] {
      var k :| k in l && l[k].kind == RECLAIM && k.hold == h;
      assert RowFits(k, l[k]);
    }
    forall k | k in l ensures !k.cell.TerminalCell? || k.hold !in byHold ==> recorded[k] == 0 {
      assert RowFits(k, l[k]);
    }
    TerminalsByHold(byHold, recorded);
  }

  lemma OpenOfListing(keys: seq<Key>, l: Ledger)
    requires Lists(keys, l) && WellKeyed(l)
    ensures OpenByHold(RowsOf(keys, l)) == NetsWithShadows(l)
  {
    HoldsInListing(keys, l);
    forall h | h in ReservedIn(l) ensures OpenByHold(RowsOf(keys, l))[h] == NetsWithShadows(l)[h] {
      HoldInListing(keys, l, h);
    }
  }

  lemma ReclaimedOfListing(keys: seq<Key>, l: Ledger)
    requires Lists(keys, l) && WellKeyed(l)
    ensures ReclaimedByHold(RowsOf(keys, l)) == RecordedReclaims(l)
  {
    HoldsInListing(keys, l);
    forall h | h in ReclaimsIn(l) ensures ReclaimedByHold(RowsOf(keys, l))[h] == RecordedReclaims(l)[h] {
      HoldInListing(keys, l, h);
    }
  }

  /** The fold of a listing is a function of the ledger: the order of its rows does not matter. */
  lemma FoldOfListing(keys: seq<Key>, l: Ledger)
    requires Lists(keys, l) && WellKeyed(l)
    ensures SettledIn(RowsOf(keys, l)) == Sum(Settlements(l))
    ensures OpenByHold(RowsOf(keys, l)) == NetsWithShadows(l)
    ensures ReclaimedByHold(RowsOf(keys, l)) == RecordedReclaims(l)
  {
    SettledOfListing(keys, l);
    OpenOfListing(keys, l);
    ReclaimedOfListing(keys, l);
  }

  /**
   The derived totals of any listing of the ledger, in any order and cut into any pages,
   against the counters: each difference is one named offset.
   */
  lemma FoldRederivesCounters(w: World, base: World, keys: seq<Key>, pages: seq<seq<Event>>)
    requires Inv(w, base) && Lists(keys, w.ledger)
    requires Flatten(pages) == RowsOf(keys, w.ledger)
    ensures var totals := Fold(Flatten(pages));
            && totals.settled == w.settled - base.settled + Sum(Owed(w.ledger))
            && totals.reserved == w.reserved - Sum(UnrecordedHolds(w)) + Sum(Shadows(w.ledger))
            && totals.reclaimed == w.reclaimed - base.reclaimed - Sum(UnrecordedReclaims(w.ledger))
  {
    FoldOfListing(keys, w.ledger);
    SettledOffset(w.ledger);
    ReservedOffset(w, base);
    ReclaimedOffset(w.ledger);
  }

  // ---- when there is nothing to subtract ----

  /** Every hold that is open or ended has its RESERVE event. */
  ghost predicate Recorded(w: World) {
    forall h :: LocalOf(w, h).open.Some? || LocalOf(w, h).terminal.Some? ==> LocalOf(w, h).reserve.Some?
  }

  lemma {:induction false} RunStaysRecorded(w: World, ts: seq<Txn>)
    requires Recorded(w) && AllAllowed(w, ts)
    ensures Recorded(Run(w, ts))
    decreases |ts|
  {
    if ts != [] {
      var n := |ts| - 1;
      RunStaysRecorded(w, ts[..n]);
      var before := Run(w, ts[..n]);
      forall h ensures LocalOf(Next(before, ts[n]), h).open.Some? || LocalOf(Next(before, ts[n]), h).terminal.Some?
                       ==> LocalOf(Next(before, ts[n]), h).reserve.Some?
      {
        assert LocalOf(before, h).open.Some? || LocalOf(before, h).terminal.Some? ==> LocalOf(before, h).reserve.Some?;
        if h != Subject(ts[n]) {
          OthersUntouched(before, ts[n], h);
        }
      }
    }
  }

  predicate Fresh(w: World) {
    w == World(0, 0, 0, map[], map[])
  }

  lemma NothingUnrecorded(w: World, base: World)
    requires Inv(w, base) && Recorded(w)
    ensures UnrecordedHolds(w) == map[]
    ensures Sum(UnrecordedReclaims(w.ledger)) == 0
  {
    forall h | LocalOf(w, h).reserve.Some? ensures h in ReservedIn(w.ledger) {
      assert RowFits(Key(h, ReserveCell), w.ledger[Key(h, ReserveCell)]);
    }
    forall h | h in w.holds ensures h in ReservedIn(w.ledger) {
      assert LocalOf(w, h).open.Some?;
    }
    forall k | k in w.ledger ensures UnrecordedReclaims(w.ledger)[k] == 0 {
      assert RowFits(k, w.ledger[k]);
      if w.ledger[k].kind == RECLAIM {
        assert k == Key(k.hold, TerminalCell);
        assert LocalOf(w, k.hold).terminal.Some?;
      }
    }
    SumZero(UnrecordedReclaims(w.ledger));
  }

  lemma FreshRun(start: World, ts: seq<Txn>)
    requires Fresh(start) && AllAllowed(start, ts)
    ensures Inv(Run(start, ts), start) && Recorded(Run(start, ts))
  {
    assert Charges(start.ledger) == map[] && Reclaims(start.ledger) == map[];
    RunKeepsInv(start, start, ts);
    RunStaysRecorded(start, ts);
  }

  /** Where every hold has its RESERVE event, nothing is unrecorded. */
  lemma RecordedReconciles(w: World, base: World, keys: seq<Key>, pages: seq<seq<Event>>)
    requires Inv(w, base) && Recorded(w)
    requires Lists(keys, w.ledger) && Flatten(pages) == RowsOf(keys, w.ledger)
    ensures w.reserved == Sum(w.holds)
    ensures Fold(Flatten(pages)).settled == w.settled - base.settled + Sum(Owed(w.ledger))
    ensures Fold(Flatten(pages)).reserved == w.reserved + Sum(Shadows(w.ledger))
    ensures Fold(Flatten(pages)).reclaimed == w.reclaimed - base.reclaimed
  {
    NothingUnrecorded(w, base);
    FoldRederivesCounters(w, base, keys, pages);
  }

  /** What the fold of a listing says of the counters, where nothing was there before the ledger was. */
  ghost predicate Reconciles(w: World, keys: seq<Key>, pages: seq<seq<Event>>) {
    var totals := Fold(Flatten(pages));
    && w.reserved == Sum(w.holds)
    && totals.settled == w.settled + Sum(Owed(w.ledger))
    && totals.reserved == w.reserved + Sum(Shadows(w.ledger))
    && totals.reclaimed == w.reclaimed
  }

  lemma NothingBeforeReconciles(w: World, base: World, keys: seq<Key>, pages: seq<seq<Event>>)
    requires Inv(w, base) && Recorded(w) && base.settled == 0 && base.reclaimed == 0
    requires Lists(keys, w.ledger) && Flatten(pages) == RowsOf(keys, w.ledger)
    ensures Reconciles(w, keys, pages)
  {
    RecordedReconciles(w, base, keys, pages);
  }

  /**
   From an empty pool, over every run of allowed transactions, every order of the rows and
   every cut into pages: the fold re-derives the three counters exactly but for owed notes and
   shadow rows.
   */
  lemma FreshRunsReconcile(start: World, ts: seq<Txn>, w: World, keys: seq<Key>, pages: seq<seq<Event>>)
    requires Fresh(start) && AllAllowed(start, ts) && w == Run(start, ts)
    requires Lists(keys, w.ledger) && Flatten(pages) == RowsOf(keys, w.ledger)
    ensures Reconciles(w, keys, pages)
  {
    FreshRun(start, ts);
    NothingBeforeReconciles(w, start, keys, pages);
  }
}
