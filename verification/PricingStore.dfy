/** The pricing table: rate rows, one manifest per version, and the row that names the current version. */
module PricingStore {
  import opened Options

  type Version(!new, ==) = string
  type PricingKey(!new, ==) = string

  datatype Legs = Legs(input: int, output: int, cacheRead: int, cacheWrite: int)
  {
    predicate Valid() {
      input >= 0 && output >= 0 && cacheRead >= 0 && cacheWrite >= 0
    }
  }

  /** The four charge legs, and the provider's cost when it is known. */
  datatype Rate = Rate(charge: Legs, cost: Option<Legs>)
  {
    predicate Valid() {
      charge.Valid() && (cost.Some? ==> cost.value.Valid())
    }
  }

  /** The legs a rate has: the four of the charge, and those of a known cost. */
  function LegsOf(r: Rate): set<int> {
    {r.charge.input, r.charge.output, r.charge.cacheRead, r.charge.cacheWrite}
    + match r.cost
      case None => {}
      case Some(cost) => {cost.input, cost.output, cost.cacheRead, cost.cacheWrite}
  }

  /** A rate is valid if and only if none of its legs is negative; a free leg is valid. */
  lemma ValidIff(r: Rate)
    ensures r.Valid() <==> forall leg | leg in LegsOf(r) :: 0 <= leg
  {
    assert r.charge.input in LegsOf(r) && r.charge.output in LegsOf(r) && r.charge.cacheRead in LegsOf(r) && r.charge.cacheWrite in LegsOf(r);
    if r.cost.Some? {
      var cost := r.cost.value;
      assert cost.input in LegsOf(r) && cost.output in LegsOf(r) && cost.cacheRead in LegsOf(r) && cost.cacheWrite in LegsOf(r);
    }
  }

  datatype RowKey = RowKey(version: Version, key: PricingKey)

  datatype Store = Store(rows: map<RowKey, Rate>, manifest: map<Version, nat>, current: Option<Version>)

  // ---- sort keys ----

  function VersionPrefix(v: Version): string {
    "__ratever__" + v + "__"
  }

  function RowSk(k: RowKey): string {
    VersionPrefix(k.version) + k.key
  }

  predicate HasDelimiter(s: string) {
    exists i :: 0 <= i < |s| - 1 && s[i] == '_' && s[i + 1] == '_'
  }

  predicate AllowedChar(c: char) {
    'A' <= c <= 'Z' || 'a' <= c <= 'z' || '0' <= c <= '9' || c == '.' || c == '_' || c == ':' || c == '-'
  }

  predicate WellFormed(v: Version) {
    && v != "" && !HasDelimiter(v)
    && v[0] != '_' && v[|v| - 1] != '_'
    && forall i | 0 <= i < |v| :: AllowedChar(v[i])
  }

  predicate BeginsWith(s: string, prefix: string) {
    |prefix| <= |s| && s[..|prefix|] == prefix
  }

  lemma DelimiterIsNotInside(v: Version, rest: string, i: nat)
    requires WellFormed(v) && i < |v|
    ensures !((v + "__" + rest)[i] == '_' && (v + "__" + rest)[i + 1] == '_')
  {
  }

  lemma SplitAtDelimiter(v: Version, w: Version, k: string)
    requires WellFormed(v) && WellFormed(w)
    requires BeginsWith(w + "__" + k, v + "__")
    ensures v == w
  {
    var s := w + "__" + k;
    assert s[..|v| + 2] == v + "__";
    assert s == v + "__" + s[|v| + 2..];
    forall i | 0 <= i < |w| ensures !(s[i] == '_' && s[i + 1] == '_') {
      DelimiterIsNotInside(w, k, i);
    }
    forall i | 0 <= i < |v| ensures !(s[i] == '_' && s[i + 1] == '_') {
      DelimiterIsNotInside(v, s[|v| + 2..], i);
    }
    assert s[|v|] == '_' && s[|v| + 1] == '_' && s[|w|] == '_' && s[|w| + 1] == '_';
    assert v == s[..|v|] && w == s[..|w|];
  }

  /** One version's query never picks up another version's row: the delimiter cannot be forged. */
  lemma QueryIsOneVersion(v: Version, k: RowKey)
    requires WellFormed(v) && WellFormed(k.version)
    ensures BeginsWith(RowSk(k), VersionPrefix(v)) <==> k.version == v
  {
    var head := "__ratever__";
    assert RowSk(k) == head + (k.version + "__" + k.key);
    assert VersionPrefix(v) == head + (v + "__");
    if BeginsWith(RowSk(k), VersionPrefix(v)) {
      var n := |head| + |v| + 2;
      assert |VersionPrefix(v)| == n && RowSk(k)[..n] == VersionPrefix(v);
      assert RowSk(k)[..n][|head|..] == v + "__";
      assert RowSk(k)[|head|..] == k.version + "__" + k.key;
      assert RowSk(k)[|head|..][..|v| + 2] == RowSk(k)[..n][|head|..];
      SplitAtDelimiter(v, k.version, k.key);
    }
  }

  // ---- conditional writes ----

  datatype Put = PutRow(key: RowKey, rate: Rate) | PutManifest(version: Version, count: nat) | Flip(to: Version)

  /** Create, or find exactly the same thing there. */
  predicate Lands(s: Store, p: Put) {
    match p
    case PutRow(key, rate) => key in s.rows ==> s.rows[key] == rate
    case PutManifest(version, count) => version in s.manifest ==> s.manifest[version] == count
    case Flip(_) => true
  }

  function Apply(s: Store, p: Put): Store {
    if !Lands(s, p) then s
    else
      match p
      case PutRow(key, rate) => s.(rows := s.rows[key := rate])
      case PutManifest(version, count) => s.(manifest := s.manifest[version := count])
      case Flip(to) => s.(current := Some(to))
  }

  function ApplyAll(s: Store, ps: seq<Put>): Store
    decreases |ps|
  {
    if ps == [] then s else ApplyAll(Apply(s, ps[0]), ps[1..])
  }

  /** `t` is `s` later: rows and manifests are only ever added. */
  ghost predicate Grown(s: Store, t: Store) {
    && (forall k | k in s.rows :: k in t.rows && t.rows[k] == s.rows[k])
    && (forall v | v in s.manifest :: v in t.manifest && t.manifest[v] == s.manifest[v])
  }

  lemma GrownTransitive(s: Store, t: Store, u: Store)
    requires Grown(s, t) && Grown(t, u)
    ensures Grown(s, u)
  {
  }

  /** Whatever is written next, by whomever, rows and manifests stand. */
  lemma {:induction false} RatesAreImmutable(s: Store, ps: seq<Put>)
    ensures Grown(s, ApplyAll(s, ps))
    decreases |ps|
  {
    if ps != [] {
      RatesAreImmutable(Apply(s, ps[0]), ps[1..]);
    }
  }
}
