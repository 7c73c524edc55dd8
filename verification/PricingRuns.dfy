/**
 Any number of writers at any point of their walk, any of which may stop for good: a version
 that has been made current is complete, and stays so.
 */
module PricingRuns {
  import opened Options
  import opened PricingStore
  import opened PricingConfigs
  import opened PricingReads

  type WriterId = nat

  /** `step` counts the puts that landed: the rows in the order of `keys`, then the manifest, then the CURRENT row. */
  datatype Writer = Writer(version: Version, doc: map<PricingKey, Rate>, keys: seq<PricingKey>, step: nat)
  {
    function Put(): PricingStore.Put
      requires step < |keys| ==> keys[step] in doc
    {
      if step < |keys| then PutRow(RowKey(version, keys[step]), doc[keys[step]])
      else if step == |keys| then PutManifest(version, |doc|)
      else Flip(version)
    }

    predicate PassedManifest() {
      step > |keys|
    }

    ghost predicate Walks() {
      step <= |keys| + 2 && forall k :: k in keys <==> k in doc
    }
  }

  datatype World = World(store: Store, writers: map<WriterId, Writer>)

  /** A writer starts, or one writer's next put lands or is refused; a crash is a writer never stepped again. */
  datatype Action = Start(id: WriterId, version: Version, doc: map<PricingKey, Rate>, keys: seq<PricingKey>) | Advance(id: WriterId)

  ghost predicate Enabled(w: World, a: Action) {
    match a
    case Start(id, version, doc, keys) => id !in w.writers && forall k :: k in keys <==> k in doc
    case Advance(id) => id in w.writers && w.writers[id].Walks() && w.writers[id].step < |w.writers[id].keys| + 2
  }

  ghost function Next(w: World, a: Action): World
    requires Enabled(w, a)
  {
    match a
    case Start(id, version, doc, keys) => w.(writers := w.writers[id := Writer(version, doc, keys, 0)])
    case Advance(id) =>
      var writer := w.writers[id];
      assert writer.step < |writer.keys| ==> writer.keys[writer.step] in writer.keys;
      if Lands(w.store, writer.Put()) then
        World(Apply(w.store, writer.Put()), w.writers[id := writer.(step := writer.step + 1)])
      else w
  }

  ghost predicate WriterOk(s: Store, writer: Writer) {
    && writer.Walks()
    && (forall j | 0 <= j < writer.step && j < |writer.keys| ::
          RowKey(writer.version, writer.keys[j]) in s.rows && s.rows[RowKey(writer.version, writer.keys[j])] == writer.doc[writer.keys[j]])
    && (writer.PassedManifest() ==> Passed(s, writer.version, writer.doc))
  }

  ghost predicate Inv(w: World) {
    && (forall id | id in w.writers :: WriterOk(w.store, w.writers[id]))
    && (w.store.current.Some? ==> exists id :: id in w.writers && w.writers[id].version == w.store.current.value && w.writers[id].PassedManifest())
  }

  lemma WriterStaysOk(s: Store, t: Store, writer: Writer)
    requires WriterOk(s, writer) && Grown(s, t)
    ensures WriterOk(t, writer)
  {
  }

  lemma AdvanceKeepsWriter(s: Store, writer: Writer)
    requires WriterOk(s, writer) && writer.step < |writer.keys| + 2
    requires writer.step < |writer.keys| ==> writer.keys[writer.step] in writer.doc
    requires Lands(s, writer.Put())
    ensures WriterOk(Apply(s, writer.Put()), writer.(step := writer.step + 1))
    ensures Grown(s, Apply(s, writer.Put()))
  {
    var t := Apply(s, writer.Put());
    if writer.step == |writer.keys| {
      forall k | k in writer.doc ensures RowKey(writer.version, k) in t.rows && t.rows[RowKey(writer.version, k)] == writer.doc[k] {
        var j :| 0 <= j < |writer.keys| && writer.keys[j] == k;
      }
    }
  }

  /** Whoever stands behind the current version still does when nothing flips. */
  lemma CurrentStays(w: World, n: World)
    requires Inv(w) && n.store.current == w.store.current
    requires forall j | j in w.writers :: j in n.writers && n.writers[j].version == w.writers[j].version
                                          && (w.writers[j].PassedManifest() ==> n.writers[j].PassedManifest())
    ensures n.store.current.Some? ==>
              exists id :: id in n.writers && n.writers[id].version == n.store.current.value && n.writers[id].PassedManifest()
  {
    if w.store.current.Some? {
      var j :| j in w.writers && w.writers[j].version == w.store.current.value && w.writers[j].PassedManifest();
      assert j in n.writers && n.writers[j].version == n.store.current.value && n.writers[j].PassedManifest();
    }
  }

  lemma AdvanceKeepsWriters(w: World, id: WriterId)
    requires Inv(w) && Enabled(w, Advance(id)) && Lands(w.store, w.writers[id].Put())
    ensures var n := Next(w, Advance(id));
            && (forall j | j in n.writers :: WriterOk(n.store, n.writers[j]))
            && Grown(w.store, n.store)
  {
    var writer, n := w.writers[id], Next(w, Advance(id));
    assert WriterOk(w.store, writer);
    assert writer.step < |writer.keys| ==> writer.keys[writer.step] in writer.keys;
    AdvanceKeepsWriter(w.store, writer);
    forall j | j in n.writers && j != id ensures WriterOk(n.store, n.writers[j]) {
      WriterStaysOk(w.store, n.store, w.writers[j]);
    }
  }

  lemma StepKeepsInv(w: World, a: Action)
    requires Inv(w) && Enabled(w, a)
    ensures Inv(Next(w, a))
    ensures Grown(w.store, Next(w, a).store)
  {
    var n := Next(w, a);
    match a {
      case Start(id, version, doc, keys) => CurrentStays(w, n);
      case Advance(id) =>
        var writer := w.writers[id];
        if Lands(w.store, writer.Put()) {
          AdvanceKeepsWriters(w, id);
          if writer.step == |writer.keys| + 1 {
            assert n.writers[id].PassedManifest();
          } else {
            CurrentStays(w, n);
          }
        }
    }
  }

  ghost predicate Reaches(w: World, actions: seq<Action>, end: World)
    decreases |actions|
  {
    if actions == [] then end == w
    else Enabled(w, actions[0]) && Reaches(Next(w, actions[0]), actions[1..], end)
  }

  lemma {:induction false} RunKeepsInv(w: World, actions: seq<Action>, end: World)
    requires Inv(w) && Reaches(w, actions, end)
    ensures Inv(end) && Grown(w.store, end.store)
    decreases |actions|
  {
    if actions != [] {
      StepKeepsInv(w, actions[0]);
      RunKeepsInv(Next(w, actions[0]), actions[1..], end);
      GrownTransitive(w.store, Next(w, actions[0]).store, end.store);
    }
  }

  lemma {:induction false} Compose(w: World, a: seq<Action>, w1: World, b: seq<Action>, w2: World)
    requires Reaches(w, a, w1) && Reaches(w1, b, w2)
    ensures Reaches(w, a + b, w2)
    decreases |a|
  {
    if a == [] {
      assert a + b == b;
    } else {
      Compose(Next(w, a[0]), a[1..], w1, b, w2);
      assert (a + b)[1..] == a[1..] + b;
    }
  }

  lemma OneMore(w: World, a: Action, rest: seq<Action>, end: World)
    requires Enabled(w, a) && Reaches(Next(w, a), rest, end)
    ensures Reaches(w, [a] + rest, end)
  {
    assert ([a] + rest)[1..] == rest;
  }

  const Empty := World(Store(map[], map[], None), map[])

  lemma EmptyIsOk()
    ensures Inv(Empty)
  {
  }

  // ---- reads that see at least what was there when the load began ----

  /** A store that some further steps of any writers lead to. */
  ghost predicate Later(w: World, s: Store) {
    exists actions, end :: Reaches(w, actions, end) && end.store == s
  }

  lemma LaterIsGrown(w: World, s: Store)
    requires Inv(w) && Later(w, s)
    ensures Grown(w.store, s)
  {
    var actions, end :| Reaches(w, actions, end) && end.store == s;
    RunKeepsInv(w, actions, end);
  }

  /**
   Consistent reads: a load of a version that has been current, begun then or later, returns
   the document of each writer that had passed its manifest check by then, or refuses.
   */
  lemma ConsistentLoadsAreWhole(w: World, v: Version, views: seq<Store>, pageOf: PricingKey -> nat, last: Store)
    requires Inv(w) && w.store.current == Some(v)
    requires |views| > 0 && (forall view | view in views :: Later(w, view)) && Later(w, last)
    ensures Load(v, views, pageOf, last).Ok? ==> forall id | id in w.writers && w.writers[id].version == v && w.writers[id].PassedManifest() ::
              Load(v, views, pageOf, last).rates == Charges(w.writers[id].doc)
    ensures exists id :: id in w.writers && w.writers[id].version == v && w.writers[id].PassedManifest()
  {
    forall view | view in views ensures Grown(w.store, view) {
      LaterIsGrown(w, view);
    }
    LaterIsGrown(w, last);
    forall id | id in w.writers && w.writers[id].version == v && w.writers[id].PassedManifest()
      ensures Load(v, views, pageOf, last).Ok? ==> Load(v, views, pageOf, last).rates == Charges(w.writers[id].doc)
    {
      assert WriterOk(w.store, w.writers[id]);
      LoadIsTheDocument(v, w.writers[id].doc, w.store, views, pageOf, last);
    }
  }

  // ---- the reads the code asks for: of any age ----

  /** A store that some earlier moment of a run from `start` to `w` showed. */
  ghost predicate Past(start: World, w: World, s: Store) {
    exists before, mid, after :: Reaches(start, before, mid) && Reaches(mid, after, w) && mid.store == s
  }

  lemma PastIsGrown(start: World, w: World, s: Store)
    requires Inv(start) && Past(start, w, s)
    ensures Grown(s, w.store)
    ensures forall v | v in s.manifest :: v in w.store.manifest && w.store.manifest[v] == s.manifest[v]
  {
    var before, mid, after :| Reaches(start, before, mid) && Reaches(mid, after, w) && mid.store == s;
    RunKeepsInv(start, before, mid);
    RunKeepsInv(mid, after, w);
  }

  lemma EndsArePast(start: World, actions: seq<Action>, w: World)
    requires Reaches(start, actions, w)
    ensures Past(start, w, start.store) && Past(start, w, w.store)
  {
    assert Reaches(start, [], start) && Reaches(w, [], w);
  }

  ghost predicate Untouched(s: Store, v: Version) {
    v !in s.manifest && forall k :: RowKey(v, k) !in s.rows
  }

  /** No choice of moments for the pages lets a load with this count come back with another document. */
  ghost predicate OnlyTheDocument(start: World, w: World, v: Version, doc: map<PricingKey, Rate>, last: Store) {
    forall views, pageOf | |views| > 0 && (forall view | view in views :: Past(start, w, view)) && Load(v, views, pageOf, last).Ok? ::
      Load(v, views, pageOf, last).rates == Charges(doc)
  }

  lemma SafeReadsAreTheDocument(start: World, w: World, v: Version, doc: map<PricingKey, Rate>, last: Store)
    requires Inv(start) && Passed(w.store, v, doc) && Grown(last, w.store)
    requires StaleReadsAreSafe(v, doc, w.store, last)
    ensures OnlyTheDocument(start, w, v, doc, last)
  {
    forall views, pageOf | |views| > 0 && (forall view | view in views :: Past(start, w, view)) && Load(v, views, pageOf, last).Ok?
      ensures Load(v, views, pageOf, last).rates == Charges(doc)
    {
      forall view | view in views ensures Grown(view, w.store) {
        PastIsGrown(start, w, view);
      }
      SafeReadIsRight(v, doc, w.store, views, pageOf, last);
    }
  }

  lemma OneBadReadRefutes(start: World, w: World, v: Version, doc: map<PricingKey, Rate>, last: Store, views: seq<Store>, pageOf: PricingKey -> nat)
    requires |views| > 0 && forall view | view in views :: Past(start, w, view)
    requires Load(v, views, pageOf, last).Ok? && Load(v, views, pageOf, last).rates != Charges(doc)
    ensures !OnlyTheDocument(start, w, v, doc, last)
  {
  }

  lemma BothArePast(start: World, w: World, a: Store, b: Store)
    requires Past(start, w, a) && Past(start, w, b)
    ensures forall view | view in [a, b] :: Past(start, w, view)
  {
  }

  lemma UnsafeReadsReachAnother(start: World, w: World, v: Version, doc: map<PricingKey, Rate>, last: Store)
    requires Past(start, w, start.store) && Past(start, w, w.store) && Untouched(start.store, v)
    requires Passed(w.store, v, doc) && Grown(last, w.store)
    requires !StaleReadsAreSafe(v, doc, w.store, last)
    ensures !OnlyTheDocument(start, w, v, doc, last)
  {
    var keys := UnsafeReadsGoWrong(v, doc, start.store, w.store, last);
    BothArePast(start, w, start.store, w.store);
    OneBadReadRefutes(start, w, v, doc, last, [start.store, w.store], PickedBy(keys));
  }

  /**
   Reads of any age: of a version first written in this run and made current, a load that
   succeeds is the document, whatever moments its pages showed, if and only if its read of
   the count found one and no row of the version is outside the document (a document with no
   rows at all needs only one of the two).
   */
  lemma CurrentVersionLoadsWholeIff(start: World, actions: seq<Action>, w: World, v: Version, id: WriterId, last: Store)
    requires Inv(start) && Reaches(start, actions, w) && Untouched(start.store, v)
    requires id in w.writers && w.writers[id].version == v && w.writers[id].PassedManifest()
    requires Past(start, w, last)
    ensures OnlyTheDocument(start, w, v, w.writers[id].doc, last) <==> StaleReadsAreSafe(v, w.writers[id].doc, w.store, last)
  {
    RunKeepsInv(start, actions, w);
    assert WriterOk(w.store, w.writers[id]);
    PastIsGrown(start, w, last);
    EndsArePast(start, actions, w);
    if StaleReadsAreSafe(v, w.writers[id].doc, w.store, last) {
      SafeReadsAreTheDocument(start, w, v, w.writers[id].doc, last);
    } else {
      UnsafeReadsReachAnother(start, w, v, w.writers[id].doc, last);
    }
  }

  // ---- runs that reach the bad reads ----

  ghost predicate AddsOnly(s: Store, t: Store, v: Version, doc: map<PricingKey, Rate>) {
    && (forall k | k in t.rows && k !in s.rows :: k.version == v && k.key in doc)
    && (forall u | u in t.manifest && u !in s.manifest :: u == v)
  }

  lemma AddsTransitive(s: Store, t: Store, u: Store, v: Version, doc: map<PricingKey, Rate>)
    requires AddsOnly(s, t, v, doc) && AddsOnly(t, u, v, doc)
    ensures AddsOnly(s, u, v, doc)
  {
  }

  lemma ClearPutLands(s: Store, writer: Writer)
    requires writer.Walks() && writer.step < |writer.keys| + 2 && Clear(s, writer.version, writer.doc)
    requires writer.step < |writer.keys| ==> writer.keys[writer.step] in writer.doc
    ensures Lands(s, writer.Put())
    ensures var t := Apply(s, writer.Put());
            && Clear(t, writer.version, writer.doc) && AddsOnly(s, t, writer.version, writer.doc)
            && (writer.step == |writer.keys| + 1 ==> t.current == Some(writer.version))
  {
  }

  lemma WriterAdvances(w: World, id: WriterId) returns (one: World)
    requires Inv(w) && id in w.writers && w.writers[id].step < |w.writers[id].keys| + 2
    requires Clear(w.store, w.writers[id].version, w.writers[id].doc)
    ensures Enabled(w, Advance(id)) && one == Next(w, Advance(id)) && Inv(one)
    ensures one.writers == w.writers[id := w.writers[id].(step := w.writers[id].step + 1)]
    ensures Clear(one.store, w.writers[id].version, w.writers[id].doc) && AddsOnly(w.store, one.store, w.writers[id].version, w.writers[id].doc)
    ensures w.writers[id].step == |w.writers[id].keys| + 1 ==> one.store.current == Some(w.writers[id].version)
  {
    var writer := w.writers[id];
    assert WriterOk(w.store, writer);
    assert writer.step < |writer.keys| ==> writer.keys[writer.step] in writer.keys;
    ClearPutLands(w.store, writer);
    one := Next(w, Advance(id));
    StepKeepsInv(w, Advance(id));
  }

  /** A writer at some step of its walk, in a sound world that does not contradict it. */
  ghost predicate Ready(w: World, id: WriterId, writer: Writer) {
    Inv(w) && id in w.writers && w.writers[id] == writer && Clear(w.store, writer.version, writer.doc)
  }

  lemma ReadyAdvances(w: World, id: WriterId, writer: Writer) returns (one: World)
    requires Ready(w, id, writer) && writer.step < |writer.keys| + 2
    ensures Enabled(w, Advance(id)) && one == Next(w, Advance(id)) && Ready(one, id, writer.(step := writer.step + 1))
    ensures one.writers == w.writers[id := writer.(step := writer.step + 1)]
    ensures AddsOnly(w.store, one.store, writer.version, writer.doc)
    ensures writer.step == |writer.keys| + 1 ==> one.store.current == Some(writer.version)
  {
    one := WriterAdvances(w, id);
  }

  /** It walks to its end: so many steps of it, from step to step. */
  lemma {:induction false} WriterWalks(w: World, id: WriterId, writer: Writer, left: nat) returns (actions: seq<Action>, end: World)
    requires Ready(w, id, writer) && writer.step + left == |writer.keys| + 2 && left > 0
    ensures Reaches(w, actions, end) && Ready(end, id, writer.(step := |writer.keys| + 2))
    ensures end.writers == w.writers[id := writer.(step := |writer.keys| + 2)]
    ensures AddsOnly(w.store, end.store, writer.version, writer.doc)
    ensures end.store.current == Some(writer.version)
    decreases left
  {
    var one := ReadyAdvances(w, id, writer);
    if left == 1 {
      end := one;
      OneMore(w, Advance(id), [], end);
      actions := [Advance(id)] + [];
    } else {
      var rest;
      rest, end := WriterWalks(one, id, writer.(step := writer.step + 1), left - 1);
      OneMore(w, Advance(id), rest, end);
      AddsTransitive(w.store, one.store, end.store, writer.version, writer.doc);
      LastUpdateWins(w.writers, id, writer.(step := writer.step + 1), writer.(step := |writer.keys| + 2));
      actions := [Advance(id)] + rest;
    }
  }

  lemma WriterStarts(w: World, id: WriterId, v: Version, doc: map<PricingKey, Rate>, keys: seq<PricingKey>) returns (started: World)
    requires Inv(w) && id !in w.writers && (forall k :: k in keys <==> k in doc)
    requires Clear(w.store, v, doc)
    ensures Enabled(w, Start(id, v, doc, keys)) && started == Next(w, Start(id, v, doc, keys))
    ensures started.store == w.store && started.writers == w.writers[id := Writer(v, doc, keys, 0)]
    ensures Ready(started, id, Writer(v, doc, keys, 0))
  {
    started := Next(w, Start(id, v, doc, keys));
    StepKeepsInv(w, Start(id, v, doc, keys));
  }

  lemma LastUpdateWins(writers: map<WriterId, Writer>, id: WriterId, first: Writer, last: Writer)
    ensures writers[id := first][id := last] == writers[id := last]
  {
  }

  lemma WriterAtEnd(w: World, id: WriterId, writer: Writer)
    requires Ready(w, id, writer) && writer.step == |writer.keys| + 2
    ensures Passed(w.store, writer.version, writer.doc)
  {
    assert WriterOk(w.store, writer);
  }

  /** A fresh writer nobody contradicts starts and walks to its end. */
  lemma WriterFinishes(w: World, id: WriterId, v: Version, doc: map<PricingKey, Rate>, keys: seq<PricingKey>)
    returns (actions: seq<Action>, end: World)
    requires Inv(w) && id !in w.writers && (forall k :: k in keys <==> k in doc)
    requires Clear(w.store, v, doc)
    ensures Reaches(w, actions, end) && Inv(end) && end.store.current == Some(v)
    ensures end.writers == w.writers[id := Writer(v, doc, keys, |keys| + 2)] && Passed(end.store, v, doc)
    ensures AddsOnly(w.store, end.store, v, doc)
  {
    var started := WriterStarts(w, id, v, doc, keys);
    var rest: seq<Action>;
    rest, end := WriterWalks(started, id, Writer(v, doc, keys, 0), |keys| + 2);
    OneMore(w, Start(id, v, doc, keys), rest, end);
    actions := [Start(id, v, doc, keys)] + rest;
    LastUpdateWins(w.writers, id, Writer(v, doc, keys, 0), Writer(v, doc, keys, |keys| + 2));
    WriterAtEnd(end, id, Writer(v, doc, keys, |keys| + 2));
  }

  /** One writer, one document, no crash: a load whose read of the count came too early takes an empty reading for the document. */
  lemma UnseenCountLoadsNothing(start: World, id: WriterId, v: Version, doc: map<PricingKey, Rate>, keys: seq<PricingKey>)
    returns (actions: seq<Action>, w: World)
    requires Inv(start) && id !in start.writers && Untouched(start.store, v)
    requires doc != map[] && forall k :: k in keys <==> k in doc
    ensures Reaches(start, actions, w) && w.store.current == Some(v)
    ensures Passed(w.store, v, doc) && !HasForeignRow(w.store, v, doc)
    ensures Past(start, w, start.store)
    ensures Load(v, [start.store], PickedBy({}), start.store) == Ok(map[]) && map[] != Charges(doc)
  {
    actions, w := WriterFinishes(start, id, v, doc, keys);
    EndsArePast(start, actions, w);
    NothingIsRead(v, start.store);
    ChargesSize(doc);
    assert |Charges(doc)| != 0;
  }

  /** Two writers whose documents agree where they overlap, and in size, both pass. */
  lemma TwoWritersPass(start: World, v: Version, doc: map<PricingKey, Rate>, keys: seq<PricingKey>, other: map<PricingKey, Rate>, others: seq<PricingKey>)
    returns (actions: seq<Action>, w: World)
    requires Inv(start) && start.writers == map[] && Untouched(start.store, v)
    requires (forall k :: k in keys <==> k in doc) && (forall k :: k in others <==> k in other)
    requires |doc| == |other| && forall k | k in doc && k in other :: doc[k] == other[k]
    ensures Reaches(start, actions, w) && w.store.current == Some(v)
    ensures Passed(w.store, v, doc) && Passed(w.store, v, other)
    ensures Past(start, w, start.store) && Past(start, w, w.store)
  {
    var first, mid := WriterFinishes(start, 0, v, doc, keys);
    var second;
    second, w := WriterFinishes(mid, 1, v, other, others);
    assert WriterOk(w.store, w.writers[0]);
    actions := first + second;
    Compose(start, first, mid, second, w);
    EndsArePast(start, actions, w);
  }

  /**
   Two writers of one version, each of two keys, both pass: from stale pages the count they
   share matches a mixture that neither wrote.
   */
  lemma StaleReadsMixDocuments(start: World, v: Version, a: PricingKey, b: PricingKey, c: PricingKey, rate: Rate)
    returns (doc: map<PricingKey, Rate>, other: map<PricingKey, Rate>, actions: seq<Action>, w: World)
    requires Inv(start) && start.writers == map[] && Untouched(start.store, v)
    requires a != b && b != c && a != c && a != "" && b != "" && c != ""
    ensures doc == map[a := rate, b := rate] && other == map[a := rate, c := rate]
    ensures Reaches(start, actions, w) && w.store.current == Some(v) && Passed(w.store, v, doc) && Passed(w.store, v, other)
    ensures Past(start, w, start.store) && Past(start, w, w.store)
    ensures Load(v, [start.store, w.store], PickedBy({b, c}), w.store) == Ok(Picked(v, w.store, {b, c}))
    ensures a !in Picked(v, w.store, {b, c}) && a in Charges(doc) && a in Charges(other)
  {
    doc, other := map[a := rate, b := rate], map[a := rate, c := rate];
    TwoKeys(a, b, rate);
    TwoKeys(a, c, rate);
    actions, w := TwoWritersPass(start, v, doc, [a, b], other, [a, c]);
    assert b in doc && c in other;
    PickedLoads(v, start.store, w.store, {b, c}, w.store);
  }

  lemma TwoKeys(a: PricingKey, b: PricingKey, rate: Rate)
    requires a != b
    ensures |map[a := rate, b := rate]| == 2 && map[a := rate, b := rate].Keys == {a, b}
    ensures a in Charges(map[a := rate, b := rate])
  {
    assert |map[a := rate, b := rate].Keys| == |{a, b}|;
  }
}
