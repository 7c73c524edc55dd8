/**
 The budgets table's stream as the projector sees it: records with their source keys, and
 the RESERVE event derived from the image of an inserted hold.
 */
module StreamRecords {
  import opened Options

  datatype SourceKey = SourceKey(tenant: string, sk: string)

  /** An attribute of an image: absent, or its text; an empty text reads as absent. */
  type Attribute = Option<string>

  datatype Image = Image(sk: Attribute, holdId: Attribute, tenant: Attribute, period: Attribute, amount: Attribute,
                         source: Attribute, runId: Attribute, description: Attribute, rateSnapshot: Attribute,
                         runIdSource: Attribute)

  datatype Record = Record(sequence: Option<nat>, key: Option<SourceKey>, insert: bool, image: Option<Image>)

  datatype Cell = Cell(tenant: string, period: string, sk: string)

  datatype ReserveEvent = ReserveEvent(holdId: string, runId: string, amount: int, source: string,
                                       description: Attribute, rateSnapshot: Attribute, runIdIsFallback: bool)

  /** Nothing to project, something no attempt can parse, or one event for one cell. */
  datatype Derived = Nothing | Unparseable | Project(cell: Cell, event: ReserveEvent)

  function Text(a: Attribute): string {
    if a.Some? then a.value else ""
  }

  predicate AllDigits(s: string) {
    forall i | 0 <= i < |s| :: '0' <= s[i] <= '9'
  }

  predicate IsDigits(s: string) {
    s != "" && AllDigits(s)
  }

  function DigitsValue(s: string): nat
    requires AllDigits(s)
  {
    if s == "" then 0 else 10 * DigitsValue(s[..|s| - 1]) + (s[|s| - 1] as int - '0' as int)
  }

  /** A whole number, perhaps negative; anything else is an error the caller sees raised. */
  function ParseInt(s: string): Option<int> {
    if IsDigits(s) then Some(DigitsValue(s))
    else if |s| > 1 && s[0] == '-' && IsDigits(s[1..]) then Some(-(DigitsValue(s[1..]) as int))
    else None
  }

  predicate StartsWith(s: string, prefix: string) {
    |prefix| <= |s| && s[..|prefix|] == prefix
  }

  function ReserveSk(holdId: string, shadow: bool): string {
    (if shadow then "SHADOW#" else "") + "EV#HOLD#" + holdId + "#RESERVE"
  }

  /** The event of an enriched hold; an image without the enrichment is skipped, not failed. */
  function ReserveEventFromHold(image: Image, shadow: bool): Derived {
    if !StartsWith(Text(image.sk), "HOLD#") then Nothing
    else if Text(image.amount) != "" && ParseInt(Text(image.amount)).None? then Unparseable
    else if Text(image.holdId) == "" || Text(image.tenant) == "" || Text(image.period) == "" || Text(image.amount) == "" then Nothing
    else if Text(image.source) == "" then Nothing
    else
      Project(Cell(Text(image.tenant), Text(image.period), ReserveSk(Text(image.holdId), shadow)),
              ReserveEvent(Text(image.holdId),
                           if Text(image.runId) == "" then Text(image.holdId) else Text(image.runId),
                           ParseInt(Text(image.amount)).value, Text(image.source),
                           if Text(image.description) == "" then None else image.description,
                           if Text(image.rateSnapshot) == "" then None else image.rateSnapshot,
                           Text(image.runIdSource) == "hold_id_fallback"))
  }

  function Derive(r: Record, shadow: bool): Derived {
    if !r.insert || r.image.None? then Nothing else ReserveEventFromHold(r.image.value, shadow)
  }

  // ---- which records derive what ----

  predicate Present(a: Attribute) {
    a.Some? && a.value != ""
  }

  /** A whole number as it is written: digits, perhaps behind a minus sign. */
  predicate Numeral(s: string) {
    || (s != "" && forall i | 0 <= i < |s| :: s[i] in "0123456789")
    || (|s| > 1 && s[0] == '-' && forall i | 1 <= i < |s| :: s[i] in "0123456789")
  }

  lemma NumeralsParse(s: string)
    ensures ParseInt(s).Some? <==> Numeral(s)
  {
    forall c: char ensures c in "0123456789" <==> '0' <= c <= '9' {
    }
    if |s| > 1 {
      assert forall i | 1 <= i < |s| :: s[1..][i - 1] == s[i];
    }
  }

  /** A hold row of the stream. */
  ghost predicate OfHold(r: Record) {
    r.insert && r.image.Some? && r.image.value.sk.Some? && exists rest :: r.image.value.sk.value == "HOLD#" + rest
  }

  /**
   An inserted hold row derives an event if and only if it names its hold, tenant, period and
   source and its amount is a number; it is unparseable if and only if its amount is there and
   is no number, whatever else is missing. All else derives nothing.
   */
  lemma DerivesIff(r: Record, shadow: bool)
    ensures Derive(r, shadow).Project? <==>
              (OfHold(r) && var image := r.image.value;
               && Present(image.holdId) && Present(image.tenant) && Present(image.period) && Present(image.source)
               && Present(image.amount) && Numeral(image.amount.value))
    ensures Derive(r, shadow).Unparseable? <==> OfHold(r) && Present(r.image.value.amount) && !Numeral(r.image.value.amount.value)
  {
    if r.insert && r.image.Some? {
      var sk := Text(r.image.value.sk);
      NumeralsParse(Text(r.image.value.amount));
      if StartsWith(sk, "HOLD#") {
        assert sk == "HOLD#" + sk[|"HOLD#"|..];
      }
    }
  }

  /**
   The event is the hold's own: its cell lies in the hold's tenant and period under the
   hold's RESERVE key, a shadow under that key with its prefix; the run is the hold itself
   where none is named.
   */
  lemma DerivedEventIsTheHolds(r: Record, shadow: bool)
    requires Derive(r, shadow).Project?
    ensures var image := r.image.value; var Project(cell, event) := Derive(r, shadow);
            && image.holdId == Some(event.holdId) && image.source == Some(event.source)
            && image.tenant == Some(cell.tenant) && image.period == Some(cell.period)
            && cell.sk == (if shadow then "SHADOW#EV#HOLD#" else "EV#HOLD#") + event.holdId + "#RESERVE"
            && ParseInt(image.amount.value) == Some(event.amount)
            && (if Present(image.runId) then image.runId == Some(event.runId) else event.runId == event.holdId)
            && event.description == (if Present(image.description) then image.description else None)
            && event.rateSnapshot == (if Present(image.rateSnapshot) then image.rateSnapshot else None)
            && (event.runIdIsFallback <==> image.runIdSource == Some("hold_id_fallback"))
  {
    assert "" + "EV#HOLD#" == "EV#HOLD#" && "SHADOW#" + "EV#HOLD#" == "SHADOW#EV#HOLD#";
  }

  function Digits(n: nat): (s: string)
    ensures s != ""
  {
    (if n < 10 then "" else Digits(n / 10)) + [(n % 10) as char + '0']
  }

  /** The usual decimal text of a number. */
  function DecimalText(n: int): string {
    if n < 0 then "-" + Digits(-n) else Digits(n)
  }

  lemma OneMoreDigit(text: string, d: nat)
    requires AllDigits(text) && d < 10
    ensures AllDigits(text + [d as char + '0']) && DigitsValue(text + [d as char + '0']) == 10 * DigitsValue(text) + d
  {
    assert (text + [d as char + '0'])[..|text|] == text;
  }

  lemma {:induction false} DigitsReadBack(n: nat)
    ensures AllDigits(Digits(n)) && DigitsValue(Digits(n)) == n
    decreases n
  {
    if n < 10 {
      OneMoreDigit("", n);
      assert Digits(n) == "" + [n as char + '0'];
    } else {
      var tens, ones := n / 10, n % 10;
      DigitsReadBack(tens);
      OneMoreDigit(Digits(tens), ones);
      assert Digits(n) == Digits(tens) + [ones as char + '0'];
    }
  }

  lemma DigitsParse(text: string)
    requires IsDigits(text)
    ensures ParseInt(text) == Some(DigitsValue(text)) && ParseInt("-" + text) == Some(-(DigitsValue(text) as int))
  {
    var negative := "-" + text;
    assert negative[0] == '-' && negative[1..] == text;
    assert !AllDigits(negative);
  }

  /** An amount written as a number is read back as that number. */
  lemma AmountReadsBack(n: int)
    ensures ParseInt(DecimalText(n)) == Some(n)
  {
    var size := if n < 0 then -n else n;
    DigitsReadBack(size);
    DigitsParse(Digits(size));
  }
}
