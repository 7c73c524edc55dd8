/**
 Sort keys: text compared character by character, and the fixed-width numbers that make
 that order the order of time.
 */
module SortKeys {

  /** The table's order on keys. */
  predicate Before(s: string, t: string) {
    if t == "" then false
    else if s == "" then true
    else s[0] < t[0] || (s[0] == t[0] && Before(s[1..], t[1..]))
  }

  predicate AtOrBefore(s: string, t: string) {
    s == t || Before(s, t)
  }

  lemma {:induction false} BeforeIsTotal(s: string, t: string)
    ensures s == t || Before(s, t) || Before(t, s)
    ensures !(Before(s, t) && Before(t, s)) && !Before(s, s)
    decreases |s|
  {
    if s != "" && t != "" {
      BeforeIsTotal(s[1..], t[1..]);
      BeforeIsTotal(s[1..], s[1..]);
      assert s[0] == t[0] && s[1..] == t[1..] ==> s == [s[0]] + s[1..] == t;
    } else if s != "" {
      BeforeIsTotal(s[1..], s[1..]);
    }
  }

  lemma {:induction false} CommonPrefix(p: string, s: string, t: string)
    ensures Before(p + s, p + t) <==> Before(s, t)
    decreases |p|
  {
    if p == "" {
      assert p + s == s && p + t == t;
    } else {
      CommonPrefix(p[1..], s, t);
      assert (p + s)[1..] == p[1..] + s && (p + t)[1..] == p[1..] + t;
    }
  }

  /** Of two texts of the same length, what follows them matters only if they are equal. */
  lemma {:induction false} SameLengthDecides(a: string, b: string, s: string, t: string)
    requires |a| == |b| && a != b
    ensures Before(a + s, b + t) <==> Before(a, b)
    decreases |a|
  {
    assert (a + s)[0] == a[0] && (b + t)[0] == b[0];
    assert (a + s)[1..] == a[1..] + s && (b + t)[1..] == b[1..] + t;
    if a[1..] != b[1..] {
      SameLengthDecides(a[1..], b[1..], s, t);
    } else {
      assert a[0] != b[0];
    }
  }

  /** Whatever sorts between a prefix and one of its extensions starts with that prefix. */
  lemma {:induction false} BetweenSharesPrefix(p: string, x: string, s: string)
    requires AtOrBefore(p, s) && AtOrBefore(s, p + x)
    ensures |p| <= |s| && s[..|p|] == p
    decreases |p|
  {
    if p != "" {
      if s == p + x {
        assert s[..|p|] == p;
      } else if s == p {
        assert s[..|p|] == p;
      } else {
        assert s != "" && (p + x)[0] == p[0] && (p + x)[1..] == p[1..] + x;
        assert s[0] == p[0];
        BetweenSharesPrefix(p[1..], x, s[1..]);
        assert s[..|p|] == [s[0]] + s[1..][..|p| - 1] == p;
      }
    }
  }

  // ---- fixed-width numbers ----

  function Pow10(w: nat): nat {
    if w == 0 then 1 else 10 * Pow10(w - 1)
  }

  function Digit(d: nat): char
    requires d < 10
  {
    '0' + d as char
  }

  /** `n` in exactly `w` digits, padded with zeros. */
  function Padded(n: nat, w: nat): (s: string)
    requires n < Pow10(w)
    ensures |s| == w
  {
    if w == 0 then "" else Padded(n / 10, w - 1) + [Digit(n % 10)]
  }

  lemma {:induction false} PaddedOrder(n: nat, m: nat, w: nat)
    requires n < m < Pow10(w)
    ensures Before(Padded(n, w), Padded(m, w))
    decreases w
  {
    if w > 0 {
      if n / 10 < m / 10 {
        PaddedOrder(n / 10, m / 10, w - 1);
        BeforeIsTotal(Padded(n / 10, w - 1), Padded(m / 10, w - 1));
        SameLengthDecides(Padded(n / 10, w - 1), Padded(m / 10, w - 1), [Digit(n % 10)], [Digit(m % 10)]);
      } else {
        assert n / 10 == m / 10 && n % 10 < m % 10;
        CommonPrefix(Padded(n / 10, w - 1), [Digit(n % 10)], [Digit(m % 10)]);
      }
    }
  }

  lemma PaddedOrderIff(n: nat, m: nat, w: nat)
    requires n < Pow10(w) && m < Pow10(w)
    ensures Before(Padded(n, w), Padded(m, w)) <==> n < m
    ensures Padded(n, w) == Padded(m, w) <==> n == m
  {
    BeforeIsTotal(Padded(n, w), Padded(m, w));
    BeforeIsTotal(Padded(n, w), Padded(n, w));
    if n < m {
      PaddedOrder(n, m, w);
    } else if m < n {
      PaddedOrder(m, n, w);
    }
  }

  // ---- hold keys ----

  const ExpiresWidth := 10

  function HoldSkPrefix(period: string): string {
    "HOLD#" + period + "#"
  }

  function HoldSk(period: string, expiresAt: nat, holdId: string): string
    requires expiresAt < Pow10(ExpiresWidth)
  {
    HoldSkPrefix(period) + (Padded(expiresAt, ExpiresWidth) + ("#" + holdId))
  }

  const Sentinel: char := '\U{FFFF}'

  function ExpiryCeiling(period: string, now: nat): string
    requires now < Pow10(ExpiresWidth)
  {
    HoldSkPrefix(period) + (Padded(now, ExpiresWidth) + ("#" + [Sentinel]))
  }

  predicate PlainId(id: string) {
    id == "" || id[0] < Sentinel
  }

  lemma TailOrder(a: nat, b: nat, s: string, t: string)
    requires a < Pow10(ExpiresWidth) && b < Pow10(ExpiresWidth)
    ensures Before(Padded(a, ExpiresWidth) + ("#" + s), Padded(b, ExpiresWidth) + ("#" + t)) <==> a < b || (a == b && Before(s, t))
  {
    PaddedOrderIff(a, b, ExpiresWidth);
    if a == b {
      CommonPrefix(Padded(a, ExpiresWidth), "#" + s, "#" + t);
      CommonPrefix("#", s, t);
    } else {
      SameLengthDecides(Padded(a, ExpiresWidth), Padded(b, ExpiresWidth), "#" + s, "#" + t);
    }
  }

  /** Key order is expiry order, for epochs of up to ten digits; ties fall to the hold id. */
  lemma HoldOrderIsExpiryOrder(period: string, a: nat, b: nat, id: string, other: string)
    requires a < Pow10(ExpiresWidth) && b < Pow10(ExpiresWidth)
    ensures Before(HoldSk(period, a, id), HoldSk(period, b, other)) <==> a < b || (a == b && Before(id, other))
  {
    TailOrder(a, b, id, other);
    CommonPrefix(HoldSkPrefix(period), Padded(a, ExpiresWidth) + ("#" + id), Padded(b, ExpiresWidth) + ("#" + other));
  }

  /** The range scan's ceiling takes in exactly the holds whose expiry has come, the whole second included. */
  lemma CeilingIsExpiry(period: string, expiresAt: nat, id: string, now: nat)
    requires expiresAt < Pow10(ExpiresWidth) && now < Pow10(ExpiresWidth) && PlainId(id)
    ensures AtOrBefore(HoldSk(period, expiresAt, id), ExpiryCeiling(period, now)) <==> expiresAt <= now
  {
    var p, hold, ceiling := HoldSkPrefix(period), Padded(expiresAt, ExpiresWidth) + ("#" + id), Padded(now, ExpiresWidth) + ("#" + [Sentinel]);
    assert Before(id, [Sentinel]) && !Before([Sentinel], id) by {
      BeforeIsTotal(id, [Sentinel]);
    }
    TailOrder(expiresAt, now, id, [Sentinel]);
    TailOrder(now, expiresAt, [Sentinel], id);
    CommonPrefix(p, hold, ceiling);
    CommonPrefix(p, ceiling, hold);
    BeforeIsTotal(p + hold, p + ceiling);
  }

  /** And it takes in no other row of the tenant: not the pool row, not a marker, not another period's hold. */
  lemma ScanStaysInPeriod(period: string, now: nat, sk: string)
    requires now < Pow10(ExpiresWidth)
    requires AtOrBefore(HoldSkPrefix(period), sk) && AtOrBefore(sk, ExpiryCeiling(period, now))
    ensures |HoldSkPrefix(period)| <= |sk| && sk[..|HoldSkPrefix(period)|] == HoldSkPrefix(period)
  {
    BetweenSharesPrefix(HoldSkPrefix(period), Padded(now, ExpiresWidth) + ("#" + [Sentinel]), sk);
  }

  // ---- periods ----

  /** A count of months as the text the tables use. */
  function PeriodText(months: nat): string
    requires months < 120_000
  {
    assert Pow10(4) == 10_000 && Pow10(2) == 100;
    Padded(months / 12, 4) + ("-" + Padded(months % 12 + 1, 2))
  }

  /** Comparing period texts compares periods: years of four digits, months of two. */
  lemma PeriodOrder(a: nat, b: nat)
    requires a < 120_000 && b < 120_000
    ensures Before(PeriodText(a), PeriodText(b)) <==> a < b
    ensures PeriodText(a) == PeriodText(b) <==> a == b
  {
    assert Pow10(4) == 10_000 && Pow10(2) == 100;
    PaddedOrderIff(a / 12, b / 12, 4);
    PaddedOrderIff(a % 12 + 1, b % 12 + 1, 2);
    var ya, yb, ma, mb := Padded(a / 12, 4), Padded(b / 12, 4), Padded(a % 12 + 1, 2), Padded(b % 12 + 1, 2);
    assert PeriodText(a)[..4] == ya && PeriodText(b)[..4] == yb;
    assert PeriodText(a)[5..] == ma && PeriodText(b)[5..] == mb;
    if ya == yb {
      CommonPrefix(ya, "-" + ma, "-" + mb);
      CommonPrefix("-", ma, mb);
    } else {
      SameLengthDecides(ya, yb, "-" + ma, "-" + mb);
    }
  }
}
