/** The repository of rate documents: writing one, put by put, among other writers. */
module PricingConfigs {
  import opened Options
  import opened PricingStore

  datatype Written = Finished | Refused | Conflict

  /** A document's charge legs, as a reader returns them. */
  function Charges(doc: map<PricingKey, Rate>): map<PricingKey, Legs> {
    map k | k in doc :: doc[k].charge
  }

  /** Every row of the document is there as written, and the manifest counts them. */
  ghost predicate Passed(s: Store, v: Version, doc: map<PricingKey, Rate>) {
    && (forall k | k in doc :: RowKey(v, k) in s.rows && s.rows[RowKey(v, k)] == doc[k])
    && v in s.manifest && s.manifest[v] == |doc|
  }

  /** What set_rates refuses before it writes anything. */
  predicate Acceptable(v: Version, keys: set<PricingKey>, costKeys: set<PricingKey>, reserved: set<Version>, floorHolds: bool) {
    && v !in reserved && WellFormed(v)
    && (forall k | k in keys :: !HasDelimiter(k))
    && costKeys <= keys
    && ("default" in keys ==> floorHolds)
  }

  function DocOf(rates: map<PricingKey, Legs>, costs: map<PricingKey, Legs>): map<PricingKey, Rate> {
    map k | k in rates :: Rate(rates[k], Lookup(costs, k))
  }

  /** The sort key's delimiter occurs in `s`. */
  predicate Delimited(s: string) {
    exists i {:trigger s[i]} :: 0 <= i && i + 2 <= |s| && s[i..i + 2] == "__"
  }

  lemma DelimitedIs(s: string)
    ensures Delimited(s) <==> HasDelimiter(s)
  {
    if HasDelimiter(s) {
      var i :| 0 <= i < |s| - 1 && s[i] == '_' && s[i + 1] == '_';
      assert s[i..i + 2] == "__";
    }
    if Delimited(s) {
      var i :| 0 <= i && i + 2 <= |s| && s[i..i + 2] == "__";
      assert s[i] == s[i..i + 2][0] && s[i + 1] == s[i..i + 2][1];
    }
  }

  /** What is refused before anything is written, said of the texts: each mistake alone is enough. */
  lemma RefusedUpFrontIff(v: Version, keys: set<PricingKey>, costKeys: set<PricingKey>, reserved: set<Version>, floorHolds: bool)
    ensures !Acceptable(v, keys, costKeys, reserved, floorHolds) <==>
              (v == "" || v in reserved || Delimited(v) || v[0] == '_' || v[|v| - 1] == '_' || (exists c | c in v :: !AllowedChar(c))
               || (exists k | k in keys :: Delimited(k)) || (exists k | k in costKeys :: k !in keys) || ("default" in keys && !floorHolds))
  {
    DelimitedIs(v);
    forall k | k in keys ensures Delimited(k) <==> HasDelimiter(k) {
      DelimitedIs(k);
    }
    assert (exists c | c in v :: !AllowedChar(c)) <==> exists i | 0 <= i < |v| :: !AllowedChar(v[i]);
  }

  /** Two accepted documents of different versions never meet in a query, and every cost that was passed is on its row. */
  lemma AcceptedDocumentsAreApart(v: Version, rates: map<PricingKey, Legs>, costs: map<PricingKey, Legs>,
                                  w: Version, others: map<PricingKey, Legs>, otherCosts: map<PricingKey, Legs>,
                                  reserved: set<Version>, floorHolds: bool, otherFloorHolds: bool)
    requires Acceptable(v, rates.Keys, costs.Keys, reserved, floorHolds)
    requires Acceptable(w, others.Keys, otherCosts.Keys, reserved, otherFloorHolds)
    ensures forall k | k in others :: BeginsWith(RowSk(RowKey(w, k)), VersionPrefix(v)) <==> v == w
    ensures forall k | k in rates :: k in DocOf(rates, costs) && DocOf(rates, costs)[k].charge == rates[k]
    ensures forall k | k in rates :: DocOf(rates, costs)[k].cost == if k in costs then Some(costs[k]) else None
    ensures forall k | k in costs :: k in DocOf(rates, costs)
  {
    forall k | k in others ensures BeginsWith(RowSk(RowKey(w, k)), VersionPrefix(v)) <==> v == w {
      QueryIsOneVersion(v, RowKey(w, k));
    }
  }

  class PricingConfig {
    var rows: map<RowKey, Rate>
    var manifest: map<Version, nat>
    var current: Option<Version>

    function View(): Store
      reads this
    {
      Store(rows, manifest, current)
    }

    constructor ()
      ensures View() == Store(map[], map[], None)
    {
      rows, manifest, current := map[], map[], None;
    }

    method PutItem(p: Put) returns (ok: bool)
      modifies this
      ensures View() == Apply(old(View()), p) && ok == Lands(old(View()), p)
    {
      match p {
        case PutRow(key, rate) =>
          ok := key !in rows || rows[key] == rate;
          if ok {
            rows := rows[key := rate];
          }
        case PutManifest(version, count) =>
          ok := version !in manifest || manifest[version] == count;
          if ok {
            manifest := manifest[version := count];
          }
        case Flip(to) =>
          ok := true;
          current := Some(to);
      }
    }

    method OthersPut(ps: seq<Put>)
      modifies this
      ensures View() == ApplyAll(old(View()), ps)
      ensures Grown(old(View()), View())
    {
      RatesAreImmutable(View(), ps);
      ghost var before := View();
      for i := 0 to |ps|
        invariant ApplyAll(View(), ps[i..]) == ApplyAll(before, ps)
      {
        assert ps[i..][0] == ps[i] && ps[i..][1..] == ps[i + 1..];
        var _ := PutItem(ps[i]);
      }
    }

    /** The rows, one conditional put each; the first that is refused ends the walk. */
    method WriteRows(v: Version, keys: seq<PricingKey>, doc: map<PricingKey, Rate>, others: seq<seq<Put>>) returns (stopped: Option<Written>)
      requires |others| >= |keys| && forall k | k in keys :: k in doc
      modifies this
      ensures Grown(old(View()), View())
      ensures stopped.None? ==> RowsPut(View(), v, doc, keys, |keys|)
      ensures stopped.Some? ==> stopped.value != Finished
      ensures NobodyFlips(others) ==> current == old(current)
      ensures Silent(others) ==> OnlyAdds(old(View()), View(), v, doc)
      ensures Uncontradicted(old(View()), others, v, doc) && (forall k | k in keys :: doc[k].Valid()) ==>
                stopped.None? && Clear(View(), v, doc)
    {
      for i := 0 to |keys|
        invariant Grown(old(View()), View())
        invariant Uncontradicted(old(View()), others, v, doc) ==> Clear(View(), v, doc)
        invariant RowsPut(View(), v, doc, keys, i)
        invariant NobodyFlips(others) ==> current == old(current)
        invariant Silent(others) ==> OnlyAdds(old(View()), View(), v, doc)
      {
        Interfere(others, i);
        ghost var before := View();
        var key := keys[i];
        if !doc[key].Valid() {
          return Some(Refused);
        }
        var ok := PutItem(PutRow(RowKey(v, key), doc[key]));
        if !ok {
          return Some(Conflict);
        }
        OneRowPut(old(View()), before, v, doc, keys, i);
      }
      return None;
    }

    /**
     Write every row, then the manifest, then the CURRENT row, in the order of `keys`; before
     the i-th of these writes others land `others[i]`. A bad leg is met only at its row.
     Whatever the outcome nothing already there changes; a finished document is complete
     and current; one that did not finish never moved CURRENT itself.
     */
    method SetRates(v: Version, keys: seq<PricingKey>, rates: map<PricingKey, Legs>, costs: map<PricingKey, Legs>,
                    reserved: set<Version>, floorHolds: bool, others: seq<seq<Put>>) returns (outcome: Written)
      requires |others| == |keys| + 2
      requires forall k :: k in keys <==> k in rates
      modifies this
      ensures Grown(old(View()), View())
      ensures !Acceptable(v, rates.Keys, costs.Keys, reserved, floorHolds) ==> outcome == Refused && View() == old(View())
      ensures outcome == Finished ==> Passed(View(), v, DocOf(rates, costs)) && current == Some(v)
      ensures Acceptable(v, rates.Keys, costs.Keys, reserved, floorHolds) ==>
                (forall k | k in rates :: DocOf(rates, costs)[k].Valid()) && Uncontradicted(old(View()), others, v, DocOf(rates, costs)) ==>
                  outcome == Finished
      ensures outcome == Finished ==> forall k | k in rates :: DocOf(rates, costs)[k].Valid()
      ensures outcome != Finished && NobodyFlips(others) ==> current == old(current)
      ensures Silent(others) ==> OnlyAdds(old(View()), View(), v, DocOf(rates, costs))
    {
      if !Acceptable(v, rates.Keys, costs.Keys, reserved, floorHolds) {
        return Refused;
      }
      var doc := DocOf(rates, costs);
      assert doc.Keys == rates.Keys;
      var stopped := WriteCounted(v, keys, doc, others);
      if stopped.Some? {
        return stopped.value;
      }
      Interfere(others, |keys| + 1);
      var _ := PutItem(Flip(v));
      return Finished;
    }

    /** The rows, then the manifest that counts them. */
    method WriteCounted(v: Version, keys: seq<PricingKey>, doc: map<PricingKey, Rate>, others: seq<seq<Put>>) returns (stopped: Option<Written>)
      requires |others| > |keys| && forall k :: k in keys <==> k in doc
      modifies this
      ensures Grown(old(View()), View())
      ensures stopped.None? ==> Passed(View(), v, doc) && forall k | k in doc :: doc[k].Valid()
      ensures stopped.Some? ==> stopped.value != Finished
      ensures NobodyFlips(others) ==> current == old(current)
      ensures Silent(others) ==> OnlyAdds(old(View()), View(), v, doc)
      ensures Uncontradicted(old(View()), others, v, doc) && (forall k | k in doc :: doc[k].Valid()) ==> stopped.None?
    {
      stopped := WriteRows(v, keys, doc, others);
      if stopped.Some? {
        return;
      }
      Interfere(others, |keys|);
      var counted := PutItem(PutManifest(v, |doc|));
      if !counted {
        return Some(Conflict);
      }
      AllRowsPut(View(), v, doc, keys);
    }

    /** What others land before one of this writer's puts. */
    method Interfere(others: seq<seq<Put>>, i: nat)
      requires i < |others|
      modifies this
      ensures Grown(old(View()), View())
      ensures NobodyFlips(others) ==> current == old(current)
      ensures Silent(others) ==> View() == old(View())
      ensures forall v, doc | Clear(old(View()), v, doc) && AllAgree(others, v, doc) :: Clear(View(), v, doc)
    {
      assert others[i] in others;
      NoFlip(View(), others[i]);
      forall v, doc | Clear(View(), v, doc) && AllAgree(others, v, doc) ensures Clear(ApplyAll(View(), others[i]), v, doc) {
        StaysClear(View(), others[i], v, doc);
      }
      OthersPut(others[i]);
    }
  }

  /** Nothing stored contradicts the document. */
  ghost predicate Clear(s: Store, v: Version, doc: map<PricingKey, Rate>) {
    && (forall k | k in doc && RowKey(v, k) in s.rows :: s.rows[RowKey(v, k)] == doc[k])
    && (v in s.manifest ==> s.manifest[v] == |doc|)
  }

  /** A put that, landed, would not contradict the document. */
  predicate Agrees(p: Put, v: Version, doc: map<PricingKey, Rate>) {
    match p
    case PutRow(key, rate) => key.version == v && key.key in doc ==> rate == doc[key.key]
    case PutManifest(version, count) => version == v ==> count == |doc|
    case Flip(_) => true
  }

  ghost predicate AllAgree(others: seq<seq<Put>>, v: Version, doc: map<PricingKey, Rate>) {
    forall ps, p | ps in others && p in ps :: Agrees(p, v, doc)
  }

  /** Nobody contradicts the document, before or during its writing. */
  ghost predicate Uncontradicted(s: Store, others: seq<seq<Put>>, v: Version, doc: map<PricingKey, Rate>) {
    Clear(s, v, doc) && AllAgree(others, v, doc)
  }

  lemma {:induction false} StaysClear(s: Store, ps: seq<Put>, v: Version, doc: map<PricingKey, Rate>)
    requires Clear(s, v, doc) && forall p | p in ps :: Agrees(p, v, doc)
    ensures Clear(ApplyAll(s, ps), v, doc)
    decreases |ps|
  {
    if ps != [] {
      assert ps[0] in ps && forall p | p in ps[1..] :: p in ps;
      StaysClear(Apply(s, ps[0]), ps[1..], v, doc);
    }
  }

  ghost predicate NobodyFlips(others: seq<seq<Put>>) {
    forall ps, p | ps in others && p in ps :: !p.Flip?
  }

  ghost predicate Silent(others: seq<seq<Put>>) {
    forall ps | ps in others :: ps == []
  }

  /** Nothing new but rows of this document and this version's manifest. */
  ghost predicate OnlyAdds(s: Store, t: Store, v: Version, doc: map<PricingKey, Rate>) {
    && (forall k | k in t.rows && k !in s.rows :: k.version == v && k.key in doc && t.rows[k] == doc[k.key])
    && (forall w | w in t.manifest && w !in s.manifest :: w == v)
  }

  ghost predicate RowsPut(s: Store, v: Version, doc: map<PricingKey, Rate>, keys: seq<PricingKey>, n: nat)
    requires n <= |keys|
    requires forall k | k in keys :: k in doc
  {
    forall j | 0 <= j < n :: doc[keys[j]].Valid() && RowKey(v, keys[j]) in s.rows && s.rows[RowKey(v, keys[j])] == doc[keys[j]]
  }

  lemma OneRowPut(first: Store, before: Store, v: Version, doc: map<PricingKey, Rate>, keys: seq<PricingKey>, i: nat)
    requires i < |keys| && (forall k | k in keys :: k in doc)
    requires RowsPut(before, v, doc, keys, i) && doc[keys[i]].Valid() && Grown(first, before)
    requires Lands(before, PutRow(RowKey(v, keys[i]), doc[keys[i]]))
    ensures var after := Apply(before, PutRow(RowKey(v, keys[i]), doc[keys[i]]));
            && RowsPut(after, v, doc, keys, i + 1) && Grown(first, after)
            && (OnlyAdds(first, before, v, doc) ==> OnlyAdds(first, after, v, doc))
  {
  }

  lemma AllRowsPut(s: Store, v: Version, doc: map<PricingKey, Rate>, keys: seq<PricingKey>)
    requires forall k :: k in keys <==> k in doc
    requires RowsPut(s, v, doc, keys, |keys|) && v in s.manifest && s.manifest[v] == |doc|
    ensures Passed(s, v, doc)
    ensures forall k | k in doc :: doc[k].Valid()
  {
    forall k | k in doc ensures doc[k].Valid() && RowKey(v, k) in s.rows && s.rows[RowKey(v, k)] == doc[k] {
      var j :| 0 <= j < |keys| && keys[j] == k;
    }
  }

  lemma {:induction false} NoFlip(s: Store, ps: seq<Put>)
    ensures (forall p | p in ps :: !p.Flip?) ==> ApplyAll(s, ps).current == s.current
    decreases |ps|
  {
    if ps != [] {
      NoFlip(Apply(s, ps[0]), ps[1..]);
      assert ps[0] in ps;
      assert forall p | p in ps[1..] :: p in ps;
    }
  }
}
