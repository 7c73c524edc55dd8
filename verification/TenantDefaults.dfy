/**
 A tenant's per-user money default: a history of defaults by effective period, the version
 that counts its writes, and the periods whose base has been sealed.
 */
module TenantDefaults {
  import opened Options

  /** Calendar months, counted from year zero. */
  type Period = nat

  const SealRetention: Period := 12
  const MaxRetries: nat := 8

  /** A map attribute, or the version, may not be there yet. */
  datatype Row = Row(defaults: Option<map<Period, int>>, version: Option<int>, seals: Option<map<Period, int>>)

  function MapOf(m: Option<map<Period, int>>): map<Period, int> {
    if m.Some? then m.value else map[]
  }

  predicate IsLatest(keys: set<Period>, p: Period, k: Period) {
    k in keys && k <= p && forall j | j in keys && j <= p :: j <= k
  }

  lemma {:induction false} LatestExists(keys: set<Period>, p: Period)
    requires exists k :: k in keys && k <= p
    ensures exists k :: IsLatest(keys, p, k)
    decreases |keys|
  {
    var k :| k in keys && k <= p;
    if j :| j in keys && k < j <= p {
      assert j in keys - {k};
      LatestExists(keys - {k}, p);
      var m :| IsLatest(keys - {k}, p, m);
      assert j <= m;
      assert forall i | i in keys && i <= p :: i == k || i in keys - {k};
      assert IsLatest(keys, p, m);
    } else {
      assert IsLatest(keys, p, k);
    }
  }

  /** The greatest key at or before `p`. */
  ghost function Latest(keys: set<Period>, p: Period): Option<Period> {
    if exists k :: IsLatest(keys, p, k) then
      var k :| IsLatest(keys, p, k);
      Some(k)
    else None
  }

  lemma LatestIs(keys: set<Period>, p: Period, k: Period)
    requires IsLatest(keys, p, k)
    ensures Latest(keys, p) == Some(k)
  {
  }

  lemma LatestIsLatest(keys: set<Period>, p: Period)
    ensures Latest(keys, p).Some? ==> IsLatest(keys, p, Latest(keys, p).value)
  {
  }

  lemma NoLatest(keys: set<Period>, p: Period)
    requires Latest(keys, p).None?
    ensures forall k | k in keys :: k > p
  {
    if k :| k in keys && k <= p {
      LatestExists(keys, p);
    }
  }

  ghost function ResolveIn(defaults: map<Period, int>, p: Period): Option<int> {
    var k := Latest(defaults.Keys, p);
    if k.Some? then Some(defaults[k.value]) else None
  }

  ghost function Resolve(r: Row, p: Period): Option<int> {
    ResolveIn(MapOf(r.defaults), p)
  }

  /** Seals older than the retention horizon. */
  function SealsToPrune(seals: set<Period>, current: Period): set<Period> {
    set p | p in seals && p < current - SealRetention
  }

  /** Every default already in effect but the latest one. */
  ghost function DefaultsToPrune(keys: set<Period>, current: Period): set<Period> {
    set p | p in keys && p <= current && Some(p) != Latest(keys, current)
  }

  /** Each write is computed from the row it read, and from the writer's own clock. */
  datatype Write =
    | SetDefault(read: Row, period: Period, amount: int, clock: Period)
    | Seal(read: Row, period: Period, clock: Period)

  ghost predicate Lands(r: Row, w: Write) {
    match w
    case SetDefault(read, period, _, clock) =>
      && period !in MapOf(r.seals)
      && r.defaults.Some? == read.defaults.Some?
      && period !in DefaultsToPrune(MapOf(read.defaults).Keys, clock)
    case Seal(read, period, clock) =>
      && read.version.Some? && r.version == read.version
      && Resolve(read, period).Some?
      && period !in MapOf(r.seals) && r.seals.Some? == read.seals.Some?
      && period !in SealsToPrune(MapOf(read.seals).Keys, clock)
  }

  ghost function Landed(r: Row, w: Write): Row
    requires Lands(r, w)
  {
    match w
    case SetDefault(read, period, amount, clock) =>
      r.(defaults := Some((MapOf(r.defaults) - DefaultsToPrune(MapOf(read.defaults).Keys, clock))[period := amount]),
         version := if read.defaults.Some? then Some((if r.version.Some? then r.version.value else 0) + 1) else Some(1))
    case Seal(read, period, clock) =>
      r.(seals := Some((MapOf(r.seals) - SealsToPrune(MapOf(read.seals).Keys, clock))[period := Resolve(read, period).value]))
  }

  ghost function Apply(r: Row, w: Write): Row {
    if Lands(r, w) then Landed(r, w) else r
  }

  ghost function ApplyAll(r: Row, ws: seq<Write>): Row
    decreases |ws|
  {
    if ws == [] then r else Apply(ApplyAll(r, ws[..|ws| - 1]), ws[|ws| - 1])
  }
}
