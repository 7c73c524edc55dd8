/**
 Reading a rate document: page by page and then its count, each from the store as some
 moment showed it, and when what comes back is the document that was written.
 */
module PricingReads {
  import opened Options
  import opened PricingStore
  import opened PricingConfigs

  datatype Loaded = Ok(rates: map<PricingKey, Legs>) | RateDocumentInvalid

  /** Which page a key falls on; the last page takes whatever is left. */
  function PageOf(pageOf: PricingKey -> nat, pages: nat, k: PricingKey): nat
    requires pages > 0
  {
    if pageOf(k) < pages then pageOf(k) else pages - 1
  }

  /** The rows of one page, as the store stood when that page was read. */
  function Page(v: Version, views: seq<Store>, pageOf: PricingKey -> nat, i: nat): map<PricingKey, Legs>
    requires i < |views|
  {
    map x | x in views[i].rows && x.version == v && PageOf(pageOf, |views|, x.key) == i :: x.key := views[i].rows[x].charge
  }

  /** What a store shows of one row. */
  function ChargeAt(s: Store, v: Version, k: PricingKey): Option<Legs> {
    if RowKey(v, k) in s.rows then Some(s.rows[RowKey(v, k)].charge) else None
  }

  function KeysSeen(v: Version, views: seq<Store>): set<PricingKey> {
    set view, x | view in views && x in view.rows && x.version == v :: x.key
  }

  /** The first `n` pages put together: each key is read on its own page, at that page's moment. */
  function ReadPages(v: Version, views: seq<Store>, pageOf: PricingKey -> nat, n: nat): map<PricingKey, Legs>
    requires n <= |views|
  {
    if n == 0 then map[]
    else
      map k | k in KeysSeen(v, views) && PageOf(pageOf, |views|, k) < n && ChargeAt(views[PageOf(pageOf, |views|, k)], v, k).Some? ::
        ChargeAt(views[PageOf(pageOf, |views|, k)], v, k).value
  }

  /** A row without a key, or a recorded count that differs, refuses the whole document; no record checks nothing. */
  function Load(v: Version, views: seq<Store>, pageOf: PricingKey -> nat, last: Store): Loaded {
    var rates := ReadPages(v, views, pageOf, |views|);
    if "" in rates || (v in last.manifest && |rates| != last.manifest[v]) then RateDocumentInvalid else Ok(rates)
  }

  lemma PageAt(v: Version, views: seq<Store>, pageOf: PricingKey -> nat, i: nat, k: PricingKey)
    requires i < |views|
    ensures Lookup(Page(v, views, pageOf, i), k) == if PageOf(pageOf, |views|, k) == i then ChargeAt(views[i], v, k) else None
  {
    assert RowKey(v, k).version == v && RowKey(v, k).key == k;
  }

  lemma ReadAt(v: Version, views: seq<Store>, pageOf: PricingKey -> nat, n: nat, k: PricingKey)
    requires |views| > 0 && n <= |views|
    ensures var page := PageOf(pageOf, |views|, k);
            Lookup(ReadPages(v, views, pageOf, n), k) == if page < n then ChargeAt(views[page], v, k) else None
  {
    var page := PageOf(pageOf, |views|, k);
    if RowKey(v, k) in views[page].rows {
      assert views[page] in views && RowKey(v, k).key == k;
    }
  }

  lemma SameMap(a: map<PricingKey, Legs>, b: map<PricingKey, Legs>)
    requires forall k :: Lookup(a, k) == Lookup(b, k)
    ensures a == b
  {
    forall k ensures k in a <==> k in b {
      assert Lookup(a, k) == Lookup(b, k);
    }
    forall k | k in a ensures a[k] == b[k] {
      assert Lookup(a, k) == Lookup(b, k);
    }
  }

  lemma OneMorePage(v: Version, views: seq<Store>, pageOf: PricingKey -> nat, i: nat)
    requires i < |views|
    ensures ReadPages(v, views, pageOf, i) + Page(v, views, pageOf, i) == ReadPages(v, views, pageOf, i + 1)
  {
    var read, page := ReadPages(v, views, pageOf, i), Page(v, views, pageOf, i);
    forall k ensures Lookup(read + page, k) == Lookup(ReadPages(v, views, pageOf, i + 1), k) {
      PageAt(v, views, pageOf, i, k);
      ReadAt(v, views, pageOf, i, k);
      ReadAt(v, views, pageOf, i + 1, k);
      assert Lookup(read + page, k) == if k in page then Lookup(page, k) else Lookup(read, k);
    }
    SameMap(read + page, ReadPages(v, views, pageOf, i + 1));
  }

  method LoadRates(v: Version, views: seq<Store>, pageOf: PricingKey -> nat, last: Store) returns (loaded: Loaded)
    requires |views| > 0
    ensures loaded == Load(v, views, pageOf, last)
  {
    var rates: map<PricingKey, Legs> := map[];
    for i := 0 to |views|
      invariant rates == ReadPages(v, views, pageOf, i) && "" !in rates
    {
      var page := Page(v, views, pageOf, i);
      if "" in page {
        PageAt(v, views, pageOf, i, "");
        ReadAt(v, views, pageOf, |views|, "");
        return RateDocumentInvalid;
      }
      OneMorePage(v, views, pageOf, i);
      rates := rates + page;
    }
    if v in last.manifest && |rates| != last.manifest[v] {
      return RateDocumentInvalid;
    }
    return Ok(rates);
  }

  lemma SubsetOfSameSize<K(!new), V>(small: map<K, V>, big: map<K, V>)
    requires forall k | k in small :: k in big && big[k] == small[k]
    requires |small| == |big|
    ensures small == big
  {
    var rest := big.Keys - small.Keys;
    assert big.Keys == small.Keys + rest;
    assert |big.Keys| == |small.Keys| + |rest|;
    assert rest == {};
  }

  lemma ChargesSize(doc: map<PricingKey, Rate>)
    ensures Charges(doc).Keys == doc.Keys && |Charges(doc)| == |doc|
  {
    assert Charges(doc).Keys == doc.Keys;
    assert |Charges(doc)| == |Charges(doc).Keys|;
  }

  /** A row of the version, with a key, that is not in the document. */
  ghost predicate HasForeignRow(s: Store, v: Version, doc: map<PricingKey, Rate>) {
    exists k :: RowKey(v, k) in s.rows && k !in doc && k != ""
  }

  // ---- reads that see at least what was there when the load began ----

  ghost predicate Since(begun: Store, views: seq<Store>, last: Store) {
    |views| > 0 && (forall view | view in views :: Grown(begun, view)) && Grown(begun, last)
  }

  lemma DocumentIsRead(v: Version, doc: map<PricingKey, Rate>, begun: Store, views: seq<Store>, pageOf: PricingKey -> nat, last: Store)
    requires Passed(begun, v, doc) && Since(begun, views, last)
    ensures forall k | k in doc :: k in ReadPages(v, views, pageOf, |views|)
                                   && ReadPages(v, views, pageOf, |views|)[k] == doc[k].charge
  {
    forall k | k in doc ensures Lookup(ReadPages(v, views, pageOf, |views|), k) == Some(doc[k].charge) {
      ReadAt(v, views, pageOf, |views|, k);
      assert views[PageOf(pageOf, |views|, k)] in views && RowKey(v, k) in begun.rows;
    }
  }

  /** Nothing is read that the end of the load does not have. */
  lemma OnlyRowsAreRead(v: Version, end: Store, views: seq<Store>, pageOf: PricingKey -> nat)
    requires |views| > 0 && forall view | view in views :: Grown(view, end)
    ensures forall k | k in ReadPages(v, views, pageOf, |views|) ::
              RowKey(v, k) in end.rows && ReadPages(v, views, pageOf, |views|)[k] == end.rows[RowKey(v, k)].charge
  {
    forall k | k in ReadPages(v, views, pageOf, |views|)
      ensures RowKey(v, k) in end.rows && ReadPages(v, views, pageOf, |views|)[k] == end.rows[RowKey(v, k)].charge
    {
      ReadAt(v, views, pageOf, |views|, k);
      assert views[PageOf(pageOf, |views|, k)] in views;
    }
  }

  /**
   A load that succeeds returns exactly the document of every writer that passed its
   manifest check before the load began, although the manifest compares only the count.
   */
  lemma LoadIsTheDocument(v: Version, doc: map<PricingKey, Rate>, begun: Store, views: seq<Store>, pageOf: PricingKey -> nat, last: Store)
    requires Passed(begun, v, doc) && Since(begun, views, last)
    ensures Load(v, views, pageOf, last).Ok? ==> Load(v, views, pageOf, last).rates == Charges(doc)
  {
    DocumentIsRead(v, doc, begun, views, pageOf, last);
    ChargesSize(doc);
    if Load(v, views, pageOf, last).Ok? {
      SubsetOfSameSize(Charges(doc), ReadPages(v, views, pageOf, |views|));
    }
  }

  /** Two documents of different keys under one version: every such load refuses. */
  lemma TwoDocumentsAreRefused(v: Version, doc: map<PricingKey, Rate>, other: map<PricingKey, Rate>, begun: Store,
                               views: seq<Store>, pageOf: PricingKey -> nat, last: Store)
    requires Passed(begun, v, doc) && Passed(begun, v, other) && doc.Keys != other.Keys
    requires Since(begun, views, last)
    ensures Load(v, views, pageOf, last).RateDocumentInvalid?
  {
    ChargesSize(doc);
    ChargesSize(other);
    if Load(v, views, pageOf, last).Ok? {
      LoadIsTheDocument(v, doc, begun, views, pageOf, last);
      LoadIsTheDocument(v, other, begun, views, pageOf, last);
    }
  }

  lemma ReadIsTheDocument(v: Version, doc: map<PricingKey, Rate>, begun: Store, end: Store, views: seq<Store>, pageOf: PricingKey -> nat)
    requires Passed(begun, v, doc) && |views| > 0
    requires forall view | view in views :: Grown(begun, view) && Grown(view, end)
    requires forall k | RowKey(v, k) in end.rows :: k in doc
    ensures ReadPages(v, views, pageOf, |views|) == Charges(doc)
  {
    forall k ensures Lookup(ReadPages(v, views, pageOf, |views|), k) == Lookup(Charges(doc), k) {
      var view := views[PageOf(pageOf, |views|, k)];
      ReadAt(v, views, pageOf, |views|, k);
      assert view in views;
      assert k in doc ==> RowKey(v, k) in begun.rows;
    }
    SameMap(ReadPages(v, views, pageOf, |views|), Charges(doc));
  }

  /**
   And of a version with no row outside its document, every such load decides the same way:
   it succeeds, with the document, if and only if the document has no empty key.
   */
  lemma LoadSucceedsIff(v: Version, doc: map<PricingKey, Rate>, begun: Store, end: Store, views: seq<Store>,
                        pageOf: PricingKey -> nat, last: Store)
    requires Passed(begun, v, doc) && Since(begun, views, last)
    requires (forall view | view in views :: Grown(view, end)) && (forall k | RowKey(v, k) in end.rows :: k in doc)
    ensures Load(v, views, pageOf, last) == if "" in doc then RateDocumentInvalid else Ok(Charges(doc))
  {
    ReadIsTheDocument(v, doc, begun, end, views, pageOf);
    ChargesSize(doc);
  }

  /** A document with an empty pricing key, once written, is refused by every such load, whatever else is there. */
  lemma EmptyKeyIsUnreadable(v: Version, doc: map<PricingKey, Rate>, begun: Store, views: seq<Store>, pageOf: PricingKey -> nat, last: Store)
    requires Passed(begun, v, doc) && "" in doc && Since(begun, views, last)
    ensures Load(v, views, pageOf, last).RateDocumentInvalid?
  {
    DocumentIsRead(v, doc, begun, views, pageOf, last);
  }

  /** And nothing that is checked before the writing refuses it. */
  lemma EmptyKeyIsAccepted(v: Version, keys: set<PricingKey>, reserved: set<Version>, floorHolds: bool)
    requires Acceptable(v, keys, {}, reserved, floorHolds)
    ensures Acceptable(v, keys + {""}, {}, reserved, floorHolds)
  {
  }

  // ---- reads of any age ----

  /** If the count was seen and the version has no foreign row, a load that succeeds is the document, however stale its pages. */
  lemma StaleLoadIsTheDocument(v: Version, doc: map<PricingKey, Rate>, end: Store, views: seq<Store>, pageOf: PricingKey -> nat, last: Store)
    requires Passed(end, v, doc) && !HasForeignRow(end, v, doc)
    requires |views| > 0 && (forall view | view in views :: Grown(view, end)) && Grown(last, end)
    requires v in last.manifest
    ensures Load(v, views, pageOf, last).Ok? ==> Load(v, views, pageOf, last).rates == Charges(doc)
  {
    var rates := ReadPages(v, views, pageOf, |views|);
    OnlyRowsAreRead(v, end, views, pageOf);
    ChargesSize(doc);
    if Load(v, views, pageOf, last).Ok? {
      assert forall k | k in rates :: k in doc && end.rows[RowKey(v, k)] == doc[k];
      SubsetOfSameSize(rates, Charges(doc));
    }
  }

  /** What any set of a version's rows is read as, when only their pages are fresh. */
  function PickedBy(keys: set<PricingKey>): PricingKey -> nat {
    k => if k in keys then 1 else 0
  }

  function Picked(v: Version, end: Store, keys: set<PricingKey>): map<PricingKey, Legs>
    requires forall k | k in keys :: RowKey(v, k) in end.rows
  {
    map k | k in keys :: end.rows[RowKey(v, k)].charge
  }

  lemma StalePagesPickAnySet(v: Version, before: Store, end: Store, keys: set<PricingKey>)
    requires forall k :: RowKey(v, k) !in before.rows
    requires forall k | k in keys :: RowKey(v, k) in end.rows
    ensures ReadPages(v, [before, end], PickedBy(keys), 2) == Picked(v, end, keys)
    ensures |Picked(v, end, keys)| == |keys|
  {
    var rates, picked := ReadPages(v, [before, end], PickedBy(keys), 2), Picked(v, end, keys);
    forall k ensures Lookup(rates, k) == Lookup(picked, k) {
      ReadAt(v, [before, end], PickedBy(keys), 2, k);
    }
    SameMap(rates, picked);
    assert picked.Keys == keys && |picked| == |picked.Keys|;
  }

  lemma NothingIsRead(v: Version, empty: Store)
    requires v !in empty.manifest && forall k :: RowKey(v, k) !in empty.rows
    ensures Load(v, [empty], PickedBy({}), empty) == Ok(map[])
  {
    forall k ensures Lookup(ReadPages(v, [empty], PickedBy({}), 1), k) == None {
      ReadAt(v, [empty], PickedBy({}), 1, k);
    }
    SameMap(ReadPages(v, [empty], PickedBy({}), 1), map[]);
  }

  /** A load whose pages give `rates` returns them when no key is empty and the count, if seen, is theirs. */
  lemma LoadReturns(v: Version, views: seq<Store>, pageOf: PricingKey -> nat, last: Store, rates: map<PricingKey, Legs>)
    requires |views| > 0 && ReadPages(v, views, pageOf, |views|) == rates
    requires "" !in rates && (v in last.manifest ==> |rates| == last.manifest[v])
    ensures Load(v, views, pageOf, last) == Ok(rates)
  {
  }

  lemma PickedLoads(v: Version, before: Store, end: Store, keys: set<PricingKey>, last: Store)
    requires forall k :: RowKey(v, k) !in before.rows
    requires "" !in keys && forall k | k in keys :: RowKey(v, k) in end.rows
    requires v in last.manifest ==> |keys| == last.manifest[v]
    ensures Load(v, [before, end], PickedBy(keys), last) == Ok(Picked(v, end, keys))
  {
    StalePagesPickAnySet(v, before, end, keys);
    LoadReturns(v, [before, end], PickedBy(keys), last, Picked(v, end, keys));
  }

  /** When a load over pages of any age can only return the document: a check on the count that was read and on the version's rows. */
  ghost predicate StaleReadsAreSafe(v: Version, doc: map<PricingKey, Rate>, end: Store, last: Store) {
    if doc == map[] then v in last.manifest || !HasForeignRow(end, v, doc)
    else v in last.manifest && !HasForeignRow(end, v, doc)
  }

  lemma SafeReadIsRight(v: Version, doc: map<PricingKey, Rate>, end: Store, views: seq<Store>, pageOf: PricingKey -> nat, last: Store)
    requires Passed(end, v, doc) && StaleReadsAreSafe(v, doc, end, last)
    requires |views| > 0 && (forall view | view in views :: Grown(view, end)) && Grown(last, end)
    ensures Load(v, views, pageOf, last).Ok? ==> Load(v, views, pageOf, last).rates == Charges(doc)
  {
    var rates := ReadPages(v, views, pageOf, |views|);
    if doc != map[] {
      StaleLoadIsTheDocument(v, doc, end, views, pageOf, last);
    } else if !HasForeignRow(end, v, doc) {
      OnlyRowsAreRead(v, end, views, pageOf);
      assert Load(v, views, pageOf, last).Ok? ==> forall k :: k !in rates;
    }
  }

  /** Otherwise two moments are enough to assemble a document that was not written: before the version's first row, and the end. */
  lemma UnsafeReadsGoWrong(v: Version, doc: map<PricingKey, Rate>, before: Store, end: Store, last: Store) returns (keys: set<PricingKey>)
    requires Passed(end, v, doc) && (forall k :: RowKey(v, k) !in before.rows)
    requires v in last.manifest ==> last.manifest[v] == |doc|
    requires !StaleReadsAreSafe(v, doc, end, last)
    ensures var loaded := Load(v, [before, end], PickedBy(keys), last); loaded.Ok? && loaded.rates != Charges(doc)
  {
    if doc != map[] && v !in last.manifest {
      keys := {};
    } else {
      var x :| RowKey(v, x) in end.rows && x !in doc && x != "";
      keys := if doc == map[] then {x} else SwapOne(doc, x);
    }
    assert keys != doc.Keys;
    PickedLoads(v, before, end, keys, last);
    ChargesSize(doc);
    assert Picked(v, end, keys).Keys == keys;
  }

  /** The document's keys with one, the empty one if it is there, exchanged for another. */
  ghost function SwapOne(doc: map<PricingKey, Rate>, x: PricingKey): (keys: set<PricingKey>)
    requires doc != map[] && x !in doc && x != ""
    ensures x in keys && "" !in keys && |keys| == |doc| && forall k | k in keys :: k == x || k in doc
  {
    var d := if "" in doc then "" else var k :| k in doc; k;
    assert |doc.Keys - {d} + {x}| == |doc.Keys|;
    assert |doc| == |doc.Keys|;
    doc.Keys - {d} + {x}
  }
}
