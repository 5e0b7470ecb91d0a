/** The catalog of owners and series (resolve): ids are unique, a series keeps
    its kind for good, and the cardinality caps hold. */
module MetricsCatalog {
  import opened Options
  import opened Points
  import opened MetricsModel
  import opened MetricsSums

  ghost predicate OwnersOK(cat: Catalog) {
    && (forall n :: n in cat.owners ==> 0 < cat.owners[n] <= cat.nextOwner)
    && (forall m, n :: m in cat.owners && n in cat.owners && cat.owners[m] == cat.owners[n] ==> m == n)
  }

  ghost predicate SeriesOK(cat: Catalog) {
    && (forall k :: k in cat.series ==>
          && k.owner in cat.owners.Values
          && cat.series[k].id in cat.refs && cat.refs[cat.series[k].id] == Ref(k.owner, k.name, cat.series[k].kind))
    && (forall id :: id in cat.refs ==>
          && 0 < id <= cat.nextSeries
          && SeriesKey(cat.refs[id].owner, cat.refs[id].name) in cat.series
          && cat.series[SeriesKey(cat.refs[id].owner, cat.refs[id].name)] == Meta(id, cat.refs[id].kind))
  }

  ghost predicate CapsOK(c: Config, cat: Catalog) {
    && |cat.series| <= c.maxSeries
    && OwnerCapsOK(c, cat.series)
  }

  ghost predicate OwnerCapsOK(c: Config, series: map<SeriesKey, Meta>) {
    forall o: nat :: |OwnerSeries(series, o)| <= c.maxSeriesPerOwner
  }

  ghost predicate CatalogOK(c: Config, cat: Catalog) {
    OwnersOK(cat) && SeriesOK(cat) && CapsOK(c, cat)
  }

  /** Nothing the old catalog names has moved. */
  ghost predicate Extends(old_: Catalog, new_: Catalog) {
    && (forall n :: n in old_.owners ==> n in new_.owners && new_.owners[n] == old_.owners[n])
    && (forall id :: id in old_.refs ==> id in new_.refs && new_.refs[id] == old_.refs[id])
  }

  ghost function Kinds(cat: Catalog): map<nat, Kind> {
    map id | id in cat.refs :: cat.refs[id].kind
  }

  lemma OwnerSeriesAdd(series: map<SeriesKey, Meta>, k: SeriesKey, m: Meta, o: nat)
    requires k !in series
    ensures |OwnerSeries(series[k := m], o)| == |OwnerSeries(series, o)| + (if o == k.owner then 1 else 0)
  {
    assert OwnerSeries(series[k := m], o) == OwnerSeries(series, o) + (if o == k.owner then {k} else {});
  }

  lemma AddSeriesCaps(c: Config, series: map<SeriesKey, Meta>, k: SeriesKey, m: Meta)
    requires k !in series && |OwnerSeries(series, k.owner)| < c.maxSeriesPerOwner && OwnerCapsOK(c, series)
    ensures |series[k := m]| == |series| + 1 && OwnerCapsOK(c, series[k := m])
  {
    var series' := series[k := m];
    assert series'.Keys == series.Keys + {k};
    forall o: nat ensures |OwnerSeries(series', o)| <= c.maxSeriesPerOwner {
      OwnerSeriesAdd(series, k, m, o);
    }
  }

  lemma OwnerIsFresh(cat: Catalog, owner: string)
    requires OwnersOK(cat) && SeriesOK(cat)
    ensures owner !in cat.owners ==> OwnerSeries(cat.series, OwnerIDFor(cat, owner)) == {}
  {
    forall k | k in cat.series ensures k.owner <= cat.nextOwner {
      var n :| n in cat.owners && cat.owners[n] == k.owner;
    }
  }

  lemma RegisterOwners(cat: Catalog, owner: string, name: string, kind: Kind)
    requires OwnersOK(cat)
    ensures var cat' := Register(cat, owner, name, kind);
            OwnersOK(cat') && cat.owners.Values <= cat'.owners.Values && OwnerIDFor(cat, owner) in cat'.owners.Values
  {
    var cat' := Register(cat, owner, name, kind);
    assert cat'.owners[owner] == OwnerIDFor(cat, owner);
    forall v | v in cat.owners.Values ensures v in cat'.owners.Values {
      var n :| n in cat.owners && cat.owners[n] == v;
      assert cat'.owners[n] == v;
    }
  }

  lemma RegisterSeries(cat: Catalog, owner: string, name: string, kind: Kind)
    requires OwnersOK(cat) && SeriesOK(cat) && SeriesKey(OwnerIDFor(cat, owner), name) !in cat.series
    ensures SeriesOK(Register(cat, owner, name, kind)) && Extends(cat, Register(cat, owner, name, kind))
  {
    hide OwnersOK;
    var cat' := Register(cat, owner, name, kind);
    RegisterOwners(cat, owner, name, kind);
    var id, sid := OwnerIDFor(cat, owner), cat.nextSeries + 1;
    SeriesAdd(cat, SeriesKey(id, name), sid, kind, cat'.owners);
  }

  lemma SeriesAdd(cat: Catalog, k0: SeriesKey, sid: nat, kind: Kind, owners: map<string, nat>)
    requires SeriesOK(cat) && k0 !in cat.series && sid == cat.nextSeries + 1
    requires cat.owners.Values <= owners.Values && k0.owner in owners.Values
    ensures SeriesOK(cat.(owners := owners, series := cat.series[k0 := Meta(sid, kind)], refs := cat.refs[sid := Ref(k0.owner, k0.name, kind)], nextSeries := sid))
  {}

  /** Resolving keeps the catalog sound, moves nothing, and answers ids registered
      for exactly this owner, name and kind; it refuses exactly a series of the
      other kind and a new one past a cap. */
  lemma ResolveOK(c: Config, cat: Catalog, owner: string, name: string, kind: Kind)
    requires ValidConfig(c) && CatalogOK(c, cat)
    ensures var (cat', r) := Resolve(c, cat, owner, name, kind);
            && CatalogOK(c, cat') && Extends(cat, cat')
            && (r.Found? ==> owner in cat'.owners && cat'.owners[owner] == r.owner &&
                             r.series in cat'.refs && cat'.refs[r.series] == Ref(r.owner, name, kind))
            && (r.Refused? ==> cat' == cat)
            && (r == Refused(KindMismatch) <==> Known(cat, owner, name) && SeriesKind(cat, owner, name) != kind)
            && (r == Refused(OwnerCap) || r == Refused(TotalCap) <==>
                !Known(cat, owner, name) && (|OwnerSeries(cat.series, OwnerIDFor(cat, owner))| >= c.maxSeriesPerOwner || |cat.series| >= c.maxSeries))
  {
    hide CatalogOK, Extends, Register, OwnerSeries;
    var id := OwnerIDFor(cat, owner);
    KnownOK(c, cat, owner, name);
    if Known(cat, owner, name) {
      ExtendsItself(cat);
    } else if |OwnerSeries(cat.series, id)| < c.maxSeriesPerOwner && |cat.series| < c.maxSeries {
      RegisterOK(c, cat, owner, name, kind);
      Registered(cat, owner, name, kind);
    } else {
      ExtendsItself(cat);
    }
  }

  ghost predicate Known(cat: Catalog, owner: string, name: string) {
    owner in cat.owners && SeriesKey(cat.owners[owner], name) in cat.series
  }

  ghost function SeriesKind(cat: Catalog, owner: string, name: string): Kind
    requires Known(cat, owner, name)
  {
    cat.series[SeriesKey(cat.owners[owner], name)].kind
  }

  lemma ExtendsItself(cat: Catalog)
    ensures Extends(cat, cat)
  {}

  lemma KnownOK(c: Config, cat: Catalog, owner: string, name: string)
    requires ValidConfig(c) && CatalogOK(c, cat)
    ensures Known(cat, owner, name) <==> SeriesKey(OwnerIDFor(cat, owner), name) in cat.series
    ensures Known(cat, owner, name) ==>
              var m := cat.series[SeriesKey(cat.owners[owner], name)];
              m.id in cat.refs && cat.refs[m.id] == Ref(cat.owners[owner], name, m.kind)
    ensures owner !in cat.owners ==> |OwnerSeries(cat.series, OwnerIDFor(cat, owner))| == 0
  {
    hide CapsOK;
    OwnerIsFresh(cat, owner);
    var id := OwnerIDFor(cat, owner);
    assert SeriesKey(id, name) in cat.series ==> SeriesKey(id, name) in OwnerSeries(cat.series, id);
  }

  lemma Registered(cat: Catalog, owner: string, name: string, kind: Kind)
    ensures var cat', id, sid := Register(cat, owner, name, kind), OwnerIDFor(cat, owner), cat.nextSeries + 1;
            owner in cat'.owners && cat'.owners[owner] == id && sid in cat'.refs && cat'.refs[sid] == Ref(id, name, kind)
  {}

  lemma RegisterOK(c: Config, cat: Catalog, owner: string, name: string, kind: Kind)
    requires CatalogOK(c, cat)
    requires var k := SeriesKey(OwnerIDFor(cat, owner), name);
             k !in cat.series && |OwnerSeries(cat.series, k.owner)| < c.maxSeriesPerOwner && |cat.series| < c.maxSeries
    ensures CatalogOK(c, Register(cat, owner, name, kind)) && Extends(cat, Register(cat, owner, name, kind))
  {
    hide OwnersOK, SeriesOK, OwnerCapsOK;
    RegisterOwners(cat, owner, name, kind);
    RegisterSeries(cat, owner, name, kind);
    AddSeriesCaps(c, cat.series, SeriesKey(OwnerIDFor(cat, owner), name), Meta(cat.nextSeries + 1, kind));
  }

  ghost predicate BatchOK(cat: Catalog, batch: seq<Accepted>, minute: nat) {
    forall x :: x in batch ==> x.minute == minute && x.owner in OwnerIDs(cat) && KindedSample(Kinds(cat), x)
  }

  lemma ExtendsKeeps(a: Catalog, b: Catalog, x: Accepted)
    requires Extends(a, b) && x.owner in OwnerIDs(a) && KindedSample(Kinds(a), x)
    ensures x.owner in OwnerIDs(b) && KindedSample(Kinds(b), x)
  {
    var n :| n in a.owners && a.owners[n] == x.owner;
    assert b.owners[n] == x.owner;
  }

  lemma RegisteredSample(cat: Catalog, owner: string, x: Accepted, name: string)
    requires owner in cat.owners && cat.owners[owner] == x.owner && !x.point.Empty()
    requires x.series in cat.refs && cat.refs[x.series] == Ref(x.owner, name, x.point.Kind())
    ensures BatchOK(cat, [x], x.minute)
  {}

  lemma AdmitOK(c: Config, cat: Catalog, minute: nat, s: Sample)
    requires ValidConfig(c) && CatalogOK(c, cat)
    ensures var (cat', a, _) := Admit(c, cat, minute, s);
            CatalogOK(c, cat') && Extends(cat, cat') && (a.Some? ==> BatchOK(cat', [a.value], minute))
  {
    var p := SamplePoint(s);
    if p.Some? && ValidName(s.owner) && ValidName(s.name) && !p.value.Empty() {
      ResolveOK(c, cat, s.owner, s.name, p.value.Kind());
      var (cat', r) := Resolve(c, cat, s.owner, s.name, p.value.Kind());
      if r.Found? {
        RegisteredSample(cat', s.owner, Accepted(minute, r.owner, r.series, p.value), s.name);
      }
    }
  }

  lemma {:induction false} AdmitAllOK(c: Config, cat: Catalog, minute: nat, samples: seq<Sample>)
    requires ValidConfig(c) && CatalogOK(c, cat)
    ensures var (cat', batch) := AdmitAll(c, cat, minute, samples);
            CatalogOK(c, cat') && Extends(cat, cat') && BatchOK(cat', batch, minute)
    decreases |samples|
  {
    if samples != [] {
      var init, s := samples[..|samples| - 1], samples[|samples| - 1];
      AdmitAllOK(c, cat, minute, init);
      var (mid, acc) := AdmitAll(c, cat, minute, init);
      AdmitOK(c, mid, minute, s);
      var (cat', a, _) := Admit(c, mid, minute, s);
      var batch := if a.Some? then acc + [a.value] else acc;
      forall x | x in batch ensures x.minute == minute && x.owner in OwnerIDs(cat') && KindedSample(Kinds(cat'), x) {
        if x in acc { ExtendsKeeps(mid, cat', x); } else { assert x in [a.value]; }
      }
    }
  }
}
