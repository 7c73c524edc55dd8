/**
 The tenant pool row: what its ceiling is made of, and every conditional write on it.
 A write computed from an earlier read carries the row it read, so that the write and
 its read are two separate moments with anything in between.
 */
module PoolRows {
  import opened Options

  /** `headroom`, `seats`, `rate`, `manual`, `granted` and `cap` may be absent, and absence means something. */
  datatype Row = Row(
    limit: int, headroom: Option<int>,
    reserved: int, settled: int, reclaimed: int, active: bool,
    seats: Option<int>, rate: Option<int>, manual: Option<int>,
    granted: Option<int>, cap: Option<int>)

  function Or0(v: Option<int>): int {
    if v.Some? then v.value else 0
  }

  /** The rate stored on the row, else the rate the process is configured with. */
  function RowRate(r: Row, configured: int): int {
    if r.rate.Some? then r.rate.value else configured
  }

  function SeatTerm(r: Row, configured: int): int {
    Or0(r.seats) * RowRate(r, configured)
  }

  predicate SeatTracked(r: Row) {
    r.manual.None?
  }

  function Baseline(r: Row, configured: int): int {
    if SeatTracked(r) then SeatTerm(r, configured) else r.manual.value
  }

  function ExpectedLimit(r: Row, configured: int): int {
    Baseline(r, configured) + Or0(r.granted)
  }

  function EffectiveCap(r: Row, configured: int): int {
    if r.cap.Some? then r.cap.value else Baseline(r, configured)
  }

  /** What breaks the identity `limit == baseline + granted`; zero when it holds. */
  function Gap(r: Row, configured: int): int {
    r.limit - ExpectedLimit(r, configured)
  }

  /** What `headroom` should be, and how far from it the stored one is. */
  function Target(r: Row): int {
    r.limit - r.reserved - r.settled
  }

  function Drift(r: Row): int {
    Or0(r.headroom) - Target(r)
  }

  /** ADD to headroom: an absent attribute is created at the amount added. */
  function AddHeadroom(r: Row, d: int): Row {
    r.(headroom := Some(Or0(r.headroom) + d))
  }

  /** The ceiling and the headroom the gate reads always move together. */
  function MoveCeiling(r: Row, d: int): Row {
    AddHeadroom(r, d).(limit := r.limit + d)
  }

  datatype Write =
    | Seed(manual0: Option<int>, seats0: int, rate0: int, active: bool, cap0: Option<int>)
    | SetManual(read: Row, asked: int, active: bool)
    | ClearManual(read: Row)
    | SeatsOnly(read: Row, seatDelta: int)
    | SeatsAndMoney(read: Row, seatDelta: int)
    | GrantApply(grant: int, capMinusGrant: int)
    | GrantRevoke(grant: int)
    | Recompute(read: Row, newRate: int)
    | RepairHeadroom(read: Row)
    | Reserve(amount: int)
    | Settle(held: int, actual: int)
    | Reclaim(amount: int)

  /** The three attributes the figure writers compare: nothing here mentions the seat rate. */
  predicate CeilingUnmoved(r: Row, read: Row) {
    r.limit == read.limit && r.seats == read.seats && r.manual == read.manual
  }

  /** The write's condition on an existing row. */
  predicate Admits(r: Row, w: Write) {
    match w
    case Seed(_, _, _, _, _) => false
    case SetManual(read, _, _) => CeilingUnmoved(r, read)
    case ClearManual(read) => CeilingUnmoved(r, read)
    case SeatsOnly(_, _) => true
    case SeatsAndMoney(read, _) => r.manual.None? && r.rate == read.rate
    case GrantApply(_, capMinusGrant) => r.granted.None? || r.granted.value <= capMinusGrant
    case GrantRevoke(grant) => r.granted.Some? && r.granted.value >= grant
    case Recompute(read, _) =>
      r.limit == read.limit && r.seats == Some(Or0(read.seats)) && r.manual.None?
    case RepairHeadroom(read) => r.headroom == read.headroom
    case Reserve(amount) => r.headroom.Some? && r.active && r.headroom.value >= amount
    case Settle(_, _) => true
    case Reclaim(_) => true
  }

  /** A write that landed; every amount is computed from the row that was read. */
  function Landed(r: Row, w: Write, configured: int): Row
    requires !w.Seed?
  {
    match w
    case SetManual(read, asked, active) =>
      MoveCeiling(r, asked - Baseline(read, configured)).(manual := Some(asked), active := active)
    case ClearManual(read) =>
      MoveCeiling(r, SeatTerm(read, configured) - Baseline(read, configured)).(manual := None)
    case SeatsOnly(_, d) => r.(seats := Some(Or0(r.seats) + d))
    case SeatsAndMoney(read, d) =>
      MoveCeiling(r, d * RowRate(read, configured)).(seats := Some(Or0(r.seats) + d))
    case GrantApply(g, _) => MoveCeiling(r, g).(granted := Some(Or0(r.granted) + g))
    case GrantRevoke(g) => MoveCeiling(r, -g).(granted := Some(Or0(r.granted) - g))
    case Recompute(read, newRate) =>
      MoveCeiling(r, Or0(read.seats) * newRate - read.limit).(rate := Some(newRate))
    case RepairHeadroom(read) => r.(headroom := Some(Target(read)))
    case Reserve(amount) => AddHeadroom(r, -amount).(reserved := r.reserved + amount)
    case Settle(held, actual) =>
      AddHeadroom(r, held - actual).(reserved := r.reserved - held, settled := r.settled + actual)
    case Reclaim(amount) =>
      AddHeadroom(r, amount).(reserved := r.reserved - amount, reclaimed := r.reclaimed + amount)
  }

  function Seeded(w: Write): Row
    requires w.Seed?
  {
    var baseline := if w.manual0.Some? then w.manual0.value else w.seats0 * w.rate0;
    Row(baseline, Some(baseline), 0, 0, 0, w.active, Some(w.seats0), Some(w.rate0), w.manual0, None, w.cap0)
  }

  /** The seed that rolls `source` into a new period: carried attributes, nothing spent, nothing granted. */
  function RolledForward(source: Row, configured: int): Write {
    Seed(source.manual, Or0(source.seats), RowRate(source, configured), source.active, source.cap)
  }

  predicate Lands(row: Option<Row>, w: Write) {
    if w.Seed? then row.None? else row.Some? && Admits(row.value, w)
  }

  /** One atomic write; a failed condition changes nothing. */
  function Apply(row: Option<Row>, w: Write, configured: int): Option<Row> {
    if !Lands(row, w) then row
    else if w.Seed? then Some(Seeded(w))
    else Some(Landed(row.value, w, configured))
  }

  function Run(row: Option<Row>, ws: seq<Write>, configured: int): Option<Row>
    decreases |ws|
  {
    if ws == [] then row
    else Apply(Run(row, ws[..|ws| - 1], configured), ws[|ws| - 1], configured)
  }

  lemma {:induction false} RunConcat(row: Option<Row>, a: seq<Write>, b: seq<Write>, configured: int)
    ensures Run(row, a + b, configured) == Run(Run(row, a, configured), b, configured)
    decreases |b|
  {
    if b == [] {
      assert a + b == a;
    } else {
      var n := |b| - 1;
      assert (a + b)[..|a + b| - 1] == a + b[..n];
      RunConcat(row, a, b[..n], configured);
    }
  }
}
