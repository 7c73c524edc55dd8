/**
 The append-only credit ledger of one tenant and period: one cell per hold and kind of
 record, and the fold that derives the pool's counters from the rows.
 */
module CreditEvents {
  import opened Sums

  type HoldId(!new, ==) = string

  /** `ShadowCell` is the projector's copy of a RESERVE event, kept under its own prefix. */
  datatype Cell = ReserveCell | TerminalCell | LateSettleCell | OwedSettleCell | RetainedCell | ShadowCell

  datatype Key = Key(hold: HoldId, cell: Cell)

  datatype EventType = RESERVE | SETTLE | RELEASE | RECLAIM | LATE_SETTLE | OWED_SETTLE | RETAINED

  datatype Event = Event(kind: EventType, hold: HoldId, reserved: int, settled: int)

  type Ledger = map<Key, Event>

  // ---- the keys ----

  function CellName(cell: Cell): string {
    match cell
    case ReserveCell | ShadowCell => "#RESERVE"
    case TerminalCell => "#TERMINAL"
    case LateSettleCell => "#LATE_SETTLE"
    case OwedSettleCell => "#OWED_SETTLE"
    case RetainedCell => "#RETAINED"
  }

  function Prefix(cell: Cell): string {
    if cell.ShadowCell? then "SHADOW#EV#HOLD#" else "EV#HOLD#"
  }

  function SortKey(k: Key): string {
    Prefix(k.cell) + (k.hold + CellName(k.cell))
  }

  lemma CellNamesDiffer(a: string, b: string, c: Cell, d: Cell)
    requires a + CellName(c) == b + CellName(d)
    ensures CellName(c) == CellName(d) && a == b
  {
    var n, m, s := CellName(c), CellName(d), a + CellName(c);
    assert s[|s| - 1] == n[|n| - 1] == m[|m| - 1];
    assert s[|s| - 3] == n[|n| - 3] == m[|m| - 3];
    assert s[|s| - 8] == n[|n| - 8] == m[|m| - 8];
    assert a == s[..|s| - |n|] && b == s[..|s| - |m|];
  }

  /** No two records share a sort key, whatever characters the hold ids are made of. */
  lemma KeysNeverAlias(k: Key, j: Key)
    requires SortKey(k) == SortKey(j)
    ensures k == j
  {
    assert SortKey(k)[0] == Prefix(k.cell)[0] && SortKey(j)[0] == Prefix(j.cell)[0];
    var p := Prefix(k.cell);
    assert SortKey(k)[|p|..] == k.hold + CellName(k.cell);
    assert SortKey(j)[|p|..] == j.hold + CellName(j.cell);
    CellNamesDiffer(k.hold, j.hold, k.cell, j.cell);
  }
}
