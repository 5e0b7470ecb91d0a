/** The metrics store itself (internal/metricsdb/metricsdb.go and query.go): what the
    file holds, what memory holds, and the operations that change both together. */
module MetricsDB {
  import opened Options
  import opened Points
  import opened Buckets
  import opened MetricsModel
  import opened MetricsCatalog
  import opened MetricsInvariant
  import opened MetricsTx
  import opened MetricsQuery
  import opened MetricsPoints
  import opened MetricsTheorems
  import opened MetricsFates

  /** What one committed transaction leaves in the file. */
  datatype File = File(rows: seq<Rows>, owners: map<string, nat>, series: map<SeriesKey, Meta>, rolled: seq<nat>, horizon: nat)

  ghost predicate FileHolds(f: File, st: State) {
    f.rows == st.rows && f.owners == st.cat.owners && f.series == st.cat.series && f.rolled == st.rolled && f.horizon == st.horizon
  }

  /** The next ids are the largest ones in use, which is what lets a reopen recover them. */
  ghost predicate Tight(cat: Catalog) {
    (cat.nextOwner == 0 || cat.nextOwner in cat.owners.Values) && (cat.nextSeries == 0 || cat.nextSeries in cat.refs)
  }

  lemma {:induction false} AdmitAllTight(c: Config, cat: Catalog, minute: nat, samples: seq<Sample>)
    requires Tight(cat)
    ensures Tight(AdmitAll(c, cat, minute, samples).0)
    decreases |samples|
  {
    if samples != [] {
      AdmitAllTight(c, cat, minute, samples[..|samples| - 1]);
      AdmitTight(c, AdmitAll(c, cat, minute, samples[..|samples| - 1]).0, minute, samples[|samples| - 1]);
    }
  }

  lemma AdmitTight(c: Config, cat: Catalog, minute: nat, s: Sample)
    requires Tight(cat)
    ensures Tight(Admit(c, cat, minute, s).0)
  {
    hide OwnerSeries;
    if SamplePoint(s).Some? {
      var kind := SamplePoint(s).value.Kind();
      var cat' := Register(cat, s.owner, s.name, kind);
      assert cat'.owners[s.owner] == OwnerIDFor(cat, s.owner);
      if cat.nextOwner in cat.owners.Values {
        var n :| n in cat.owners && cat.owners[n] == cat.nextOwner;
        assert cat'.owners[n] == cat.nextOwner || n == s.owner;
      }
    }
  }

  class DB {
    const c: Config
    var file: File
    var cat: Catalog
    var counts: map<nat, nat>
    var rolled: seq<nat>
    var horizon: nat
    /** The model's state the file stands for. */
    ghost var committed: State

    ghost predicate FileOK()
      reads this
    {
      ValidConfig(c) && Inv(c, committed) && Tight(committed.cat) && FileHolds(file, committed)
    }

    ghost predicate Valid()
      reads this
    {
      && FileOK() && cat == committed.cat && rolled == committed.rolled && horizon == committed.horizon
      && CountsOK(counts, cat.series)
    }

    /** A store over a new file. */
    constructor (config: Config)
      requires ValidConfig(config)
      ensures Valid() && c == config && committed == InitState(config)
    {
      c := config;
      var st := InitState(config);
      file := File(seq(|config.tiers|, i => map[]), map[], map[], seq(|config.tiers|, i => 0), 0);
      cat, counts, rolled, horizon, committed := Catalog(map[], map[], map[], 0, 0), map[], seq(|config.tiers|, i => 0), 0, st;
      new;
      InitInv(c);
      forall o: nat ensures OwnerSeries(cat.series, o) == {} {}
    }

    /** One write is one transaction: a write too late changes nothing, any other
        moves the store exactly as the model's Write does. */
    method Write(at: nat, samples: seq<Sample>) returns (late: bool, refused: nat)
      requires Valid()
      modifies this
      ensures Valid() && late == Late(c, old(committed), at)
      ensures committed == MetricsModel.Write(c, old(committed), at, samples)
      ensures refused == if late then 0 else |Fated(c, old(committed).cat, Floor(at, c.tiers[0].res), samples, Refuse)|
    {
      hide Inv, CatalogOK, CountsOK, TooLate, AdmitAll, RefusedOf, Fated, Kept, StandForAll, Extends, PutBatch, RollUpTo, TrimRows, Floor, Tight, TrimmedNow, MetricsModel.Write;
      InvParts(c, committed);
      InvCatalog(c, committed);
      var res := c.tiers[0].res;
      var minute := MetricsTx.FloorUnix(at, res);
      var writeEnd := minute + res;
      var prev := if horizon == 0 then writeEnd else horizon;
      refused := 0;
      late := TooLateFor(c, minute, prev);
      if late {
        LateChangesNothing(c, committed, at, samples);
        return;
      }
      var h := if writeEnd <= prev + MAX_HORIZON_ADVANCE then writeEnd else prev + MAX_HORIZON_ADVANCE;
      // The transaction works on its own copy of the file.
      ghost var t := Txn(c, committed, at, samples);
      var rows, cat', counts', rolled';
      WriteFates(c, cat, minute, samples);
      rows, cat', counts', rolled', refused := Transact(t, c, file.rows, cat, counts, rolled, minute, h, samples);
      var next := if prev <= h then h else prev;
      // Commit, then take the staged catalog over.
      file := File(rows, cat'.owners, cat'.series, rolled', next);
      cat, counts, rolled, horizon := cat', counts', rolled', next;
      committed := MetricsModel.Write(c, committed, at, samples);
      t.AfterIsResult();
      assert file.rows == committed.rows;
      t.Keeps();
    }

    /** Memory is lost and rebuilt from the file: nothing the model knows changes. */
    method Reopen()
      requires FileOK()
      modifies `cat, `counts, `rolled, `horizon
      ensures Valid()
    {
      hide Inv, CountsOK, CatalogOK, RefsOf, Tight, ValidConfig;
      InvCatalog(c, committed);
      rolled, horizon := file.rolled, file.horizon;
      var nextOwner := LargestOwner(file.owners);
      var refs, nextSeries;
      refs, counts, nextSeries := LoadSeries(file.series);
      cat := Catalog(file.owners, file.series, refs, nextOwner, nextSeries);
      LoadedIs(c, committed.cat, cat);
    }

    /** collect: the owner's wanted series over [from, to), the rolled part from tier ti
        and the rest from the finest, each row folded into its result bucket. */
    method Collect(owner: nat, want: set<nat>, ti: nat, from: nat, to: nat, bucket: nat -> nat) returns (points: map<nat, Row>)
      requires Valid() && ti < |c.tiers|
      ensures forall b :: PointsAt(points, b) == Restrict(Collected(c, committed, owner, ti, from, to, bucket, b), want)
    {
      hide Inv, CountsOK, ScanInto, Floor, Restrict;
      InvParts(c, committed);
      var lo := MetricsTx.FloorUnix(from, c.tiers[ti].res);
      var rolledEnd := if ti > 0 && rolled[ti] != 0 then rolled[ti] + c.tiers[ti].res else 0;
      var split := to;
      if ti > 0 && rolledEnd < split { split := if rolledEnd < lo then lo else rolledEnd; }
      assert split == Split(c, committed, ti, from, to);
      points := ScanTier(map[], file.rows[ti], owner, want, lo, split, bucket);
      var fine := MetricsTx.FloorUnix(from, c.tiers[0].res);
      ghost var rolledPart := points;
      points := ScanTier(points, file.rows[0], owner, want, if split < fine then fine else split, to, bucket);
      forall b ensures PointsAt(points, b) == Restrict(Collected(c, committed, owner, ti, from, to, bucket, b), want) {
        ScanRestrict(EMPTY_ROW, want, file.rows[ti], owner, lo, split, bucket, b);
        ScanRestrict(Scan(file.rows[ti], owner, lo, split, bucket, b), want, file.rows[0], owner,
                     if split < fine then fine else split, to, bucket, b);
        assert PointsAt(rolledPart, b) == Restrict(Scan(file.rows[ti], owner, lo, split, bucket, b), want) by { RestrictEmpty(want); }
      }
    }

    /** Query: the range clamped to the clock, the tier picked, the step widened until the
        points fit, and each wanted series folded into buckets of that step. */
    method Query(owner: string, names: seq<string>, from0: nat, to0: nat, asked: int, now: nat)
      returns (ti: nat, step: nat, from: nat, to: nat, points: map<nat, Row>)
      requires Valid()
      ensures to <= to0 && to <= now && (to == to0 || to == now)
      ensures var start := if from0 < to then from0 else if to < c.tiers[0].res then 0 else to - c.tiers[0].res;
              && Picked(c, ti, now, start, to, ClampPoints(asked))
              && step == QueryStep(c.tiers[ti].res, to - start, ClampPoints(asked)) && step > 0 && from == Floor(start, step)
      ensures owner !in cat.owners ==> points == map[]
      ensures owner in cat.owners ==>
                forall b :: PointsAt(points, b) ==
                            Restrict(Collected(c, committed, cat.owners[owner], ti, from, to, StepBucket(step), b), WantedIDs(cat.series, cat.owners[owner], names))
      ensures forall id: nat :: |BucketsOf(points, id)| <= ClampPoints(asked) + 2
      ensures to <= from + ClampPoints(asked) * step ==> forall id: nat :: |BucketsOf(points, id)| <= ClampPoints(asked)
    {
      hide Inv, CountsOK, Collected, Restrict, Floor, FileHolds, CatalogOK, QueryStep, PickTier, Picked;
      to := if to0 < now then to0 else now;
      var start := if from0 < to then from0 else if to < c.tiers[0].res then 0 else to - c.tiers[0].res;
      ti := PickTier(c, now, start, to, ClampPoints(asked));
      PickTierIsFinest(c, now, start, to, ClampPoints(asked), 0);
      step := QueryStep(c.tiers[ti].res, to - start, ClampPoints(asked));
      StepCovers(c.tiers[ti].res, to - start, ClampPoints(asked));
      from := MetricsTx.FloorUnix(start, step);
      points := map[];
      if owner in cat.owners {
        var want := SelectSeries(cat.series, cat.owners[owner], names);
        points := Collect(cat.owners[owner], want, ti, from, to, StepBucket(step));
        InvCatalog(c, committed);
        CountPoints(c, committed, cat.owners[owner], want, Ask(ti, start, to, ClampPoints(asked)), step, from, points);
      }
      assert owner !in cat.owners ==> forall id: nat :: BucketsOf(points, id) == {};
    }

    /** Aggregate: each wanted series over the range as one point, from the finest tier that still holds its start. */
    method Aggregate(owner: string, names: seq<string>, from: nat, to0: nat, now: nat) returns (ti: nat, point: Row)
      requires Valid()
      ensures Picked(c, ti, now, from, from, 0)
      ensures owner !in cat.owners ==> point == EMPTY_ROW
      ensures owner in cat.owners ==>
                point == Restrict(Collected(c, committed, cat.owners[owner], ti, from, if to0 < now then to0 else now, (u: nat) => 0, 0),
                                  WantedIDs(cat.series, cat.owners[owner], names))
    {
      hide Inv, CountsOK, Collected, Restrict, Floor, FileHolds, CatalogOK, PickTier;
      ti := PickTier(c, now, from, from, 0);
      PickTierIsFinest(c, now, from, from, 0, 0);
      point := EMPTY_ROW;
      if owner in cat.owners {
        var want := SelectSeries(cat.series, cat.owners[owner], names);
        var points := Collect(cat.owners[owner], want, ti, from, if to0 < now then to0 else now, (u: nat) => 0);
        point := PointsAt(points, 0);
      }
    }
  }

  lemma LateChangesNothing(c: Config, st: State, at: nat, samples: seq<Sample>)
    requires ValidConfig(c) && Shaped(c, st) && Late(c, st, at)
    ensures MetricsModel.Write(c, st, at, samples) == st
  {}

  /** What the transaction does to its copy: the sample loop, the rows, rolling, trimming. */
  method Transact(ghost t: Txn, c: Config, rows0: seq<Rows>, cat0: Catalog, counts0: map<nat, nat>, rolled0: seq<nat>,
                  minute: nat, h: nat, samples: seq<Sample>)
    returns (rows: seq<Rows>, cat: Catalog, counts: map<nat, nat>, rolled: seq<nat>, refused: nat)
    requires t.Ok() && t == Txn(c, t.st, t.at, samples) && rows0 == t.st.rows && cat0 == t.st.cat && rolled0 == t.st.rolled
    requires minute == t.Minute() && h == t.H() && CountsOK(counts0, cat0.series) && Tight(cat0)
    ensures Shaped(c, t.st) && cat == t.Cat() && rolled == t.Mid().1 && CountsOK(counts, cat.series) && Tight(cat)
    ensures |rows| == |c.tiers| && forall i :: 0 <= i < |c.tiers| ==> rows[i] == TrimRows(t.Mid().0[i], h - c.tiers[i].keep)
    ensures refused == RefusedOf(c, cat0, minute, samples)
  {
    hide Inv, CatalogOK, CountsOK, Late, AdmitAll, RefusedOf, PutBatch, RollUpTo, TrimRows, Floor, Gathered, Tight;
    InvParts(c, t.st);
    InvCatalog(c, t.st);
    var byOwner: map<nat, Row>;
    ghost var batch: seq<Accepted>;
    cat, counts, byOwner, refused, batch := AdmitSamples(c, cat0, counts0, minute, samples);
    AdmitAllTight(c, cat0, minute, samples);
    var fb := PutRows(rows0[0], byOwner, minute, batch);
    var owners := set n | n in cat.owners :: cat.owners[n];
    assert owners == OwnerIDs(cat);
    rows, rolled := RollAll(c, rows0[0 := fb], rolled0, owners, minute, h);
    assert fb == t.Fresh() && owners == t.Owners();
    assert (rows, rolled) == t.Mid();
    OwnersCover(t);
    rows := TrimTx(c, rows, owners, h);
  }

  lemma InvCatalog(c: Config, st: State)
    requires ValidConfig(c) && Inv(c, st)
    ensures CatalogOK(c, st.cat) && Shaped(c, st)
  {}

  /** After rolling, every row belongs to a known owner. */
  lemma OwnersCover(t: Txn)
    requires t.Ok()
    ensures Shaped(t.c, t.st) && forall i, k :: 0 <= i < |t.c.tiers| && k in t.Mid().0[i] ==> k.owner in t.Owners()
  {
    hide RollUpTo, AdmitAll, PutBatch, Floor, InvAt, Kinds;
    InvCatalog(t.c, t.st);
    forall i | 0 <= i < |t.c.tiers| ensures forall k :: k in t.Mid().0[i] ==> k.owner in t.Owners() {
      t.TierAfter(i);
    }
  }

  /*** Reopening ***/

  method LargestOwner(owners: map<string, nat>) returns (m: nat)
    ensures forall n :: n in owners ==> owners[n] <= m
    ensures m == 0 || m in owners.Values
  {
    m := 0;
    var todo := owners.Keys;
    while todo != {}
      invariant todo <= owners.Keys
      invariant forall n :: n in owners && n !in todo ==> owners[n] <= m
      invariant m == 0 || m in owners.Values
      decreases todo
    {
      var n :| n in todo;
      if owners[n] > m { m := owners[n]; }
      todo := todo - {n};
    }
  }

  ghost predicate RefsOf(refs: map<nat, Ref>, series: map<SeriesKey, Meta>) {
    && (forall k :: k in series ==> series[k].id in refs)
    && (forall id :: id in refs ==>
          exists k :: k in series && series[k].id == id && refs[id] == Ref(k.owner, k.name, series[k].kind))
  }

  /** The by-id index, the per-owner counts and the largest id, rebuilt from the series. */
  method LoadSeries(series: map<SeriesKey, Meta>) returns (refs: map<nat, Ref>, counts: map<nat, nat>, m: nat)
    ensures RefsOf(refs, series) && CountsOK(counts, series)
    ensures (forall id :: id in refs ==> id <= m) && (m == 0 || m in refs)
  {
    hide CountsOK;
    refs, counts, m := map[], map[], 0;
    var seen: map<SeriesKey, Meta> := map[];
    var todo := series.Keys;
    assert CountsOK(counts, seen) by { CountNone(); }
    while todo != {}
      invariant todo <= series.Keys && seen.Keys == series.Keys - todo && forall k :: k in seen ==> seen[k] == series[k]
      invariant RefsOf(refs, seen) && CountsOK(counts, seen)
      invariant (forall id :: id in refs ==> id <= m) && (m == 0 || m in refs)
      decreases todo
    {
      var k :| k in todo;
      var meta := series[k];
      CountOne(counts, seen, k, meta);
      RefsOne(refs, seen, k, meta);
      refs := refs[meta.id := Ref(k.owner, k.name, meta.kind)];
      counts := counts[k.owner := CountOf(counts, k.owner) + 1];
      if meta.id > m { m := meta.id; }
      seen := seen[k := meta];
      todo := todo - {k};
    }
    assert seen == series;
  }

  lemma CountNone()
    ensures CountsOK(map[], map[])
  {
    forall o: nat ensures OwnerSeries(map[], o) == {} {}
  }

  lemma RefsOne(refs: map<nat, Ref>, series: map<SeriesKey, Meta>, k: SeriesKey, m: Meta)
    requires RefsOf(refs, series) && k !in series
    ensures RefsOf(refs[m.id := Ref(k.owner, k.name, m.kind)], series[k := m])
  {
    var refs', series' := refs[m.id := Ref(k.owner, k.name, m.kind)], series[k := m];
    forall id | id in refs' ensures exists q :: q in series' && series'[q].id == id && refs'[id] == Ref(q.owner, q.name, series'[q].kind) {
      if id == m.id {
        assert k in series';
      } else {
        var q :| q in series && series[q].id == id && refs[id] == Ref(q.owner, q.name, series[q].kind);
        assert q in series';
      }
    }
  }

  /** A catalog rebuilt from the owners and series of a sound one is that one. */
  lemma LoadedIs(c: Config, cat: Catalog, loaded: Catalog)
    requires CatalogOK(c, cat) && Tight(cat) && loaded.owners == cat.owners && loaded.series == cat.series && RefsOf(loaded.refs, cat.series)
    requires (forall n :: n in loaded.owners ==> loaded.owners[n] <= loaded.nextOwner) && (loaded.nextOwner == 0 || loaded.nextOwner in loaded.owners.Values)
    requires (forall id :: id in loaded.refs ==> id <= loaded.nextSeries) && (loaded.nextSeries == 0 || loaded.nextSeries in loaded.refs)
    ensures loaded == cat
  {
    hide CapsOK;
    forall id | id in loaded.refs ensures id in cat.refs && cat.refs[id] == loaded.refs[id] {
      var k :| k in cat.series && cat.series[k].id == id && loaded.refs[id] == Ref(k.owner, k.name, cat.series[k].kind);
    }
    forall id | id in cat.refs ensures id in loaded.refs {
      assert SeriesKey(cat.refs[id].owner, cat.refs[id].name) in cat.series;
    }
    assert loaded.refs == cat.refs;
    if cat.nextOwner in cat.owners.Values {
      var n :| n in cat.owners && cat.owners[n] == cat.nextOwner;
    }
  }

  /*** Querying ***/

  ghost function WantedIDs(series: map<SeriesKey, Meta>, owner: nat, names: seq<string>): set<nat> {
    set k | k in series && k.owner == owner && (names == [] || k.name in names) :: series[k].id
  }

  /** Told by the series' own records: those of the owner, with one of the names unless none is asked for. */
  lemma WantedByName(c: Config, cat: Catalog, owner: nat, names: seq<string>, id: nat)
    requires CatalogOK(c, cat)
    ensures id in WantedIDs(cat.series, owner, names) <==> id in cat.refs && cat.refs[id].owner == owner && (names == [] || cat.refs[id].name in names)
  {
    hide OwnersOK, CapsOK;
    if id in cat.refs && cat.refs[id].owner == owner && (names == [] || cat.refs[id].name in names) {
      var k := SeriesKey(cat.refs[id].owner, cat.refs[id].name);
      assert k in cat.series && cat.series[k].id == id;
    }
  }

  /** The ids of the owner's named series, or of all of them when none is named. */
  method SelectSeries(series: map<SeriesKey, Meta>, owner: nat, names: seq<string>) returns (want: set<nat>)
    ensures want == WantedIDs(series, owner, names)
  {
    want := {};
    if names == [] {
      var todo := series.Keys;
      while todo != {}
        invariant todo <= series.Keys
        invariant want == set k | k in series && k !in todo && k.owner == owner :: series[k].id
        decreases todo
      {
        var k :| k in todo;
        if k.owner == owner { want := want + {series[k].id}; }
        todo := todo - {k};
      }
    } else {
      for i := 0 to |names|
        invariant want == set k | k in series && k.owner == owner && k.name in names[..i] :: series[k].id
      {
        var k := SeriesKey(owner, names[i]);
        assert names[..i + 1] == names[..i] + [names[i]];
        if k in series { want := want + {series[k].id}; }
      }
      assert names[..|names|] == names;
    }
  }

  /** Leaving series out of the result counts only their samples. */
  lemma {:induction false} RestrictSum(ss: seq<Accepted>, p: Accepted -> bool, q: Accepted -> bool, want: set<nat>)
    requires forall x :: x in ss ==> q(x) == (p(x) && x.series in want)
    ensures Restrict(SumIf(ss, p), want) == SumIf(ss, q)
    decreases |ss|
  {
    if ss == [] {
      RestrictEmpty(want);
    } else {
      var init, x := ss[..|ss| - 1], ss[|ss| - 1];
      assert x in ss && forall y :: y in init ==> y in ss;
      RestrictSum(init, p, q, want);
      RestrictMerge(SumIf(init, p), map[x.series := x.point], want);
      assert x.series in want ==> Restrict(map[x.series := x.point], want) == map[x.series := x.point];
      assert x.series !in want ==> Restrict(map[x.series := x.point], want) == EMPTY_ROW;
      assert MergeRow(SumIf(init, q), EMPTY_ROW) == SumIf(init, q);
    }
  }

  /** What Query and Aggregate return, over every run whose instants never go backwards:
      per result bucket, the merge of exactly the accepted samples of the wanted series
      that the range holds and the serving tier retains, each counted once. */
  lemma QueriesAreExact(c: Config, run: seq<Op>, owner: nat, want: set<nat>, ti: nat, from: nat, to: nat, bucket: nat -> nat, b: nat)
    requires ValidConfig(c) && NeverBackwards(c, run) && ti < |c.tiers| && c.tiers[0].keep >= c.tiers[ti].res
    requires PastEpoch(c, ti, from)
    ensures var st := Exec(c, run);
            Restrict(Collected(c, st, owner, ti, from, to, bucket, b), want) ==
            SumIf(st.accepted, (x: Accepted) => Wanted(c, st, owner, ti, from, to, bucket, b)(x) && x.series in want)
  {
    hide Exec, NeverBackwards, Collected, SumIf, Restrict, Floor, Served, ServedStart;
    var st := Exec(c, run);
    SpliceIsExact(c, run, owner, ti, from, to, bucket, b);
    RestrictSum(st.accepted, Wanted(c, st, owner, ti, from, to, bucket, b),
                (x: Accepted) => Wanted(c, st, owner, ti, from, to, bucket, b)(x) && x.series in want, want);
  }

  /** How many points Collect's result has for any one series. */
  lemma CountPoints(c: Config, st: State, owner: nat, want: set<nat>, q: Ask, step: nat, from: nat, points: map<nat, Row>)
    requires ValidConfig(c) && Shaped(c, st) && q.ti < |c.tiers| && q.maxPoints > 0 && step > 0
    requires q.start < q.to || (q.start == 0 && q.to == 0)
    requires step == QueryStep(c.tiers[q.ti].res, q.to - q.start, q.maxPoints) && from == Floor(q.start, step)
    requires forall b :: PointsAt(points, b) == Restrict(Collected(c, st, owner, q.ti, from, q.to, StepBucket(step), b), want)
    ensures forall id: nat :: |BucketsOf(points, id)| <= q.maxPoints + 2
    ensures q.to <= from + q.maxPoints * step ==> forall id: nat :: |BucketsOf(points, id)| <= q.maxPoints
  {
    hide Collected, QueryStep;
    forall b, id: nat | b in points && id in points[b] ensures id in Collected(c, st, owner, q.ti, from, q.to, StepBucket(step), b) {
      assert PointsAt(points, b) == points[b];
    }
    forall id: nat
      ensures |BucketsOf(points, id)| <= q.maxPoints + 2 && (q.to <= from + q.maxPoints * step ==> |BucketsOf(points, id)| <= q.maxPoints)
    {
      if q.start < q.to {
        PointsOfQuery(c, st, owner, q, points, id);
      } else {
        forall b | b in points ensures id !in points[b] { NothingBeforeEpoch(c, st, owner, q.ti, StepBucket(step), b); }
        assert BucketsOf(points, id) == {};
      }
    }
  }

  /*** Scanning ***/

  function Restrict(r: Row, want: set<nat>): Row { map id | id in r && id in want :: r[id] }

  function PointsAt(points: map<nat, Row>, b: nat): Row { if b in points then points[b] else EMPTY_ROW }

  lemma RestrictEmpty(want: set<nat>)
    ensures Restrict(EMPTY_ROW, want) == EMPTY_ROW
  {}

  lemma RestrictMerge(a: Row, b: Row, want: set<nat>)
    ensures Restrict(MergeRow(a, b), want) == MergeRow(Restrict(a, want), Restrict(b, want))
  {}

  ghost function Keep(rows: Rows, want: set<nat>): Rows { map k | k in rows :: Restrict(rows[k], want) }

  /** Leaving series out of every row leaves them out of the result. */
  lemma {:induction false} ScanRestrict(acc: Row, want: set<nat>, rows: Rows, owner: nat, lo: nat, hi: nat, bucket: nat -> nat, b: nat)
    ensures ScanInto(Restrict(acc, want), Keep(rows, want), owner, lo, hi, bucket, b) == Restrict(ScanInto(acc, rows, owner, lo, hi, bucket, b), want)
    decreases hi
  {
    if hi > lo {
      ScanRestrict(acc, want, rows, owner, lo, hi - 1, bucket, b);
      RestrictMerge(ScanInto(acc, rows, owner, lo, hi - 1, bucket, b), Get(rows, owner, hi - 1), want);
      RestrictEmpty(want);
    }
  }

  /** One tier's rows in [lo, hi), read oldest first; only the wanted series are folded. */
  method ScanTier(points0: map<nat, Row>, rows: Rows, owner: nat, want: set<nat>, lo: nat, hi: nat, bucket: nat -> nat) returns (points: map<nat, Row>)
    ensures forall b :: PointsAt(points, b) == ScanInto(PointsAt(points0, b), Keep(rows, want), owner, lo, hi, bucket, b)
  {
    hide Restrict;
    points := points0;
    var t := lo;
    while t < hi
      invariant t <= hi || t == lo
      invariant forall b :: PointsAt(points, b) == ScanInto(PointsAt(points0, b), Keep(rows, want), owner, lo, t, bucket, b)
      decreases hi - t
    {
      ghost var was := points;
      if Key(owner, t) in rows {
        var b := bucket(t);
        points := points[b := MergeRow(PointsAt(points, b), Restrict(rows[Key(owner, t)], want))];
      }
      forall b ensures PointsAt(points, b) == ScanInto(PointsAt(points0, b), Keep(rows, want), owner, lo, t + 1, bucket, b) {
        assert PointsAt(was, b) == ScanInto(PointsAt(points0, b), Keep(rows, want), owner, lo, t, bucket, b);
        if Key(owner, t) !in rows { assert MergeRow(PointsAt(was, b), EMPTY_ROW) == PointsAt(was, b); }
      }
      t := t + 1;
    }
  }
}
