/** What becomes of each sample of a write (internal/metricsdb/metricsdb.go), told from the sample's own
    fields and the catalog it meets: stored once under its own names, left out because it is empty, or
    refused. Over a run, what the store has accepted is the kept samples, one for one. */
module MetricsFates {
  import opened Options
  import opened Points
  import opened Buckets
  import opened MetricsModel
  import opened MetricsCatalog
  import opened MetricsInvariant
  import opened MetricsTheorems
  import opened MetricsTx

  datatype Fate = Keep | Skip | Refuse

  predicate WellNamed(n: string) { 1 <= |n| <= 200 && forall i :: 0 <= i < |n| ==> n[i] != '\0' }

  /** A kind this version stores, and both names fit to be keys. */
  predicate WellFormedSample(s: Sample) { (s.kind == 1 || s.kind == 2) && WellNamed(s.owner) && WellNamed(s.name) }

  /** How many observations the sample stands for. */
  function Observations(s: Sample): nat {
    if s.kind == 1 then s.gauge.count else if s.event.Some? then s.event.value.count else 0
  }

  function KindOf(s: Sample): Kind { if s.kind == 1 then GaugeKind else EventKind }

  /** There is room for one more series of this owner. */
  ghost predicate RoomFor(c: Config, cat: Catalog, owner: string) {
    && |cat.series| < c.maxSeries
    && (owner in cat.owners ==> |set k | k in cat.series && k.owner == cat.owners[owner]| < c.maxSeriesPerOwner)
  }

  /** An empty sample is left out before its series is looked up, so it is never refused for its kind or a cap. */
  ghost function FateOf(c: Config, cat: Catalog, s: Sample): Fate {
    if !WellFormedSample(s) then Refuse
    else if Observations(s) == 0 then Skip
    else if Known(cat, s.owner, s.name) then if SeriesKind(cat, s.owner, s.name) == KindOf(s) then Keep else Refuse
    else if RoomFor(c, cat, s.owner) then Keep else Refuse
  }

  /** x holds s's own value, under the ids the catalog gives s's owner and name. */
  ghost predicate StandsFor(cat: Catalog, x: Accepted, minute: nat, s: Sample) {
    && x.minute == minute
    && s.owner in cat.owners && cat.owners[s.owner] == x.owner
    && x.series in cat.refs && cat.refs[x.series] == Ref(x.owner, s.name, KindOf(s))
    && if s.kind == 1 then x.point == GaugePoint(s.gauge) else s.event.Some? && x.point == EventPoint(s.event.value)
  }

  lemma NamedAlike(n: string)
    ensures WellNamed(n) == ValidName(n)
  {
    assert '\0' in n <==> exists i :: 0 <= i < |n| && n[i] == '\0';
  }

  /*** One sample ***/

  lemma ResolveFate(c: Config, cat: Catalog, owner: string, name: string, kind: Kind)
    requires ValidConfig(c) && CatalogOK(c, cat)
    ensures var (cat', r) := Resolve(c, cat, owner, name, kind);
            && (r.Found? <==> if Known(cat, owner, name) then SeriesKind(cat, owner, name) == kind else RoomFor(c, cat, owner))
            && (r.Refused? ==> cat' == cat)
            && (r.Found? ==>
                && owner in cat'.owners && cat'.owners[owner] == r.owner
                && r.series in cat'.refs && cat'.refs[r.series] == Ref(r.owner, name, kind)
                && cat'.owners.Keys == cat.owners.Keys + {owner}
                && cat'.series.Keys == cat.series.Keys + {SeriesKey(r.owner, name)})
  {
    hide CatalogOK, Extends, OwnerSeries, RoomFor, Resolve, Known, SeriesKind;
    ResolveOK(c, cat, owner, name, kind);
    RoomIs(c, cat, owner, name);
    ResolveKeys(c, cat, owner, name, kind);
    var r := Resolve(c, cat, owner, name, kind).1;
    assert r.Refused? ==> r == Refused(KindMismatch) || r == Refused(OwnerCap) || r == Refused(TotalCap);
  }

  lemma RoomIs(c: Config, cat: Catalog, owner: string, name: string)
    requires ValidConfig(c) && CatalogOK(c, cat)
    ensures RoomFor(c, cat, owner) <==> |OwnerSeries(cat.series, OwnerIDFor(cat, owner))| < c.maxSeriesPerOwner && |cat.series| < c.maxSeries
  {
    hide CatalogOK;
    KnownOK(c, cat, owner, name);
    assert owner in cat.owners ==> OwnerSeries(cat.series, cat.owners[owner]) == set k | k in cat.series && k.owner == cat.owners[owner];
  }

  lemma ResolveIs(c: Config, cat: Catalog, owner: string, name: string, kind: Kind)
    ensures var (cat', r) := Resolve(c, cat, owner, name, kind);
            var id := OwnerIDFor(cat, owner);
            && (r.Refused? ==> r.reason != Invalid)
            && (r.Found? ==> r.owner == id &&
                             cat' == if owner in cat.owners && SeriesKey(id, name) in cat.series then cat else Register(cat, owner, name, kind))
  {
    hide OwnerSeries, Register;
  }

  lemma ResolveKeys(c: Config, cat: Catalog, owner: string, name: string, kind: Kind)
    ensures var (cat', r) := Resolve(c, cat, owner, name, kind);
            && (r.Refused? ==> r.reason != Invalid)
            && (r.Found? ==> cat'.owners.Keys == cat.owners.Keys + {owner} && cat'.series.Keys == cat.series.Keys + {SeriesKey(r.owner, name)})
  {
    hide Resolve, Register, OwnerIDFor;
    ResolveIs(c, cat, owner, name, kind);
    RegisterKeys(cat, owner, name, kind);
  }

  lemma RegisterKeys(cat: Catalog, owner: string, name: string, kind: Kind)
    ensures Register(cat, owner, name, kind).owners.Keys == cat.owners.Keys + {owner}
    ensures Register(cat, owner, name, kind).series.Keys == cat.series.Keys + {SeriesKey(OwnerIDFor(cat, owner), name)}
  {}

  /** A sample is refused, left out or stored exactly as its fate says; only a stored one touches the
      catalog, which then holds its owner and series and nothing else new. */
  lemma AdmitFate(c: Config, cat: Catalog, minute: nat, s: Sample)
    requires ValidConfig(c) && CatalogOK(c, cat)
    ensures var (cat', a, refused) := Admit(c, cat, minute, s);
            var fate := FateOf(c, cat, s);
            && (refused <==> fate == Refuse)
            && (a.Some? <==> fate == Keep)
            && (fate != Keep ==> cat' == cat)
            && (fate == Keep ==>
                && StandsFor(cat', a.value, minute, s)
                && cat'.owners.Keys == cat.owners.Keys + {s.owner}
                && cat'.series.Keys == cat.series.Keys + {SeriesKey(cat'.owners[s.owner], s.name)})
  {
    hide CatalogOK, Resolve, Known, RoomFor;
    NamedAlike(s.owner);
    NamedAlike(s.name);
    if WellFormedSample(s) && Observations(s) > 0 {
      ResolveFate(c, cat, s.owner, s.name, KindOf(s));
      var (cat', r) := Resolve(c, cat, s.owner, s.name, KindOf(s));
      assert Admit(c, cat, minute, s).0 == cat';
      assert r.Refused? ==> cat' == cat;
      assert r.Found? <==> FateOf(c, cat, s) == Keep;
    }
  }

  /*** One write ***/

  /** The samples of a write that are kept, in order, each against the catalog the ones before it left. */
  ghost function Kept(c: Config, cat: Catalog, minute: nat, samples: seq<Sample>): seq<Sample> {
    Fated(c, cat, minute, samples, Keep)
  }

  ghost function Fated(c: Config, cat: Catalog, minute: nat, samples: seq<Sample>, fate: Fate): seq<Sample> {
    if samples == [] then []
    else
      var init, s := samples[..|samples| - 1], samples[|samples| - 1];
      Fated(c, cat, minute, init, fate) + if FateOf(c, AdmitAll(c, cat, minute, init).0, s) == fate then [s] else []
  }

  ghost predicate StandForAll(cat: Catalog, batch: seq<Accepted>, minute: nat, samples: seq<Sample>) {
    |batch| == |samples| && forall i :: 0 <= i < |batch| ==> StandsFor(cat, batch[i], minute, samples[i])
  }

  lemma StandsStill(a: Catalog, b: Catalog, batch: seq<Accepted>, minute: nat, samples: seq<Sample>)
    requires StandForAll(a, batch, minute, samples) && Extends(a, b)
    ensures StandForAll(b, batch, minute, samples)
  {}

  /** A write stores the kept samples, each once and in order, under ids its catalog gives their names;
      it counts the refused ones; and every sample has one of the three fates. */
  lemma {:induction false} WriteFates(c: Config, cat: Catalog, minute: nat, samples: seq<Sample>)
    requires ValidConfig(c) && CatalogOK(c, cat)
    ensures var (cat', batch) := AdmitAll(c, cat, minute, samples);
            && StandForAll(cat', batch, minute, Kept(c, cat, minute, samples))
            && CatalogOK(c, cat') && Extends(cat, cat')
    ensures RefusedOf(c, cat, minute, samples) == |Fated(c, cat, minute, samples, Refuse)|
    ensures |Kept(c, cat, minute, samples)| + |Fated(c, cat, minute, samples, Skip)| + |Fated(c, cat, minute, samples, Refuse)| == |samples|
    decreases |samples|
  {
    hide CatalogOK, Admit, FateOf;
    AdmitAllOK(c, cat, minute, samples);
    if samples != [] {
      var init, s := samples[..|samples| - 1], samples[|samples| - 1];
      WriteFates(c, cat, minute, init);
      var (mid, acc) := AdmitAll(c, cat, minute, init);
      AdmitOK(c, mid, minute, s);
      AdmitFate(c, mid, minute, s);
      var (cat', _, _) := Admit(c, mid, minute, s);
      StandsStill(mid, cat', acc, minute, Kept(c, cat, minute, init));
    }
  }

  /*** Whole runs ***/

  datatype Stored = Stored(minute: nat, sample: Sample)

  ghost function At(minute: nat, samples: seq<Sample>): (r: seq<Stored>)
    ensures |r| == |samples| && forall i :: 0 <= i < |r| ==> r[i] == Stored(minute, samples[i])
  {
    seq(|samples|, i requires 0 <= i < |samples| => Stored(minute, samples[i]))
  }

  /** Every sample a run keeps, with the start of the finest bucket of its write; a write too late keeps none. */
  ghost function RunKept(c: Config, run: seq<Op>): seq<Stored>
    requires ValidConfig(c)
  {
    if run == [] then []
    else
      var init, op := run[..|run| - 1], run[|run| - 1];
      var st := Exec(c, init);
      RunKept(c, init) +
      if op.DoWrite? && !Late(c, st, op.at)
      then var minute := Floor(op.at, c.tiers[0].res); At(minute, Kept(c, st.cat, minute, op.samples))
      else []
  }

  ghost predicate RunStands(cat: Catalog, acc: seq<Accepted>, kept: seq<Stored>) {
    |acc| == |kept| && forall i :: 0 <= i < |acc| ==> StandsFor(cat, acc[i], kept[i].minute, kept[i].sample)
  }

  lemma RunStandsNext(a: Catalog, b: Catalog, acc: seq<Accepted>, kept: seq<Stored>, batch: seq<Accepted>, minute: nat, samples: seq<Sample>)
    requires RunStands(a, acc, kept) && Extends(a, b) && StandForAll(b, batch, minute, samples)
    ensures RunStands(b, acc + batch, kept + At(minute, samples))
  {}

  lemma StepKeeps(c: Config, st: State, op: Op, kept: seq<Stored>)
    requires ValidConfig(c) && Inv(c, st) && RunStands(st.cat, st.accepted, kept)
    ensures var minute := if op.DoWrite? then Floor(op.at, c.tiers[0].res) else 0;
            var more := if op.DoWrite? && !Late(c, st, op.at) then At(minute, Kept(c, st.cat, minute, op.samples)) else [];
            RunStands(Step(c, st, op).cat, Step(c, st, op).accepted, kept + more)
  {
    hide Inv, RunStands, StandForAll, Kept, Late, TrimmedNow, TrimAll, RolledUp, At;
    if op.DoWrite? && !Late(c, st, op.at) {
      var minute := Floor(op.at, c.tiers[0].res);
      assert CatalogOK(c, st.cat) by { StateCatalog(c, st); }
      WriteFates(c, st.cat, minute, op.samples);
      var (cat, batch) := AdmitAll(c, st.cat, minute, op.samples);
      RunStandsNext(st.cat, cat, st.accepted, kept, batch, minute, Kept(c, st.cat, minute, op.samples));
    } else {
      assert kept + [] == kept;
    }
  }

  lemma StateCatalog(c: Config, st: State)
    requires ValidConfig(c) && Inv(c, st)
    ensures CatalogOK(c, st.cat)
  {}

  /** After any run of writes and restarts, what the store has accepted is the kept samples of the writes that
      were not late, one for one and in order, each with its own value under the ids its names have now. */
  lemma {:induction false} AcceptedIsKept(c: Config, run: seq<Op>)
    requires ValidConfig(c)
    ensures RunStands(Exec(c, run).cat, Exec(c, run).accepted, RunKept(c, run))
    decreases |run|
  {
    hide Inv, RunStands, Kept, Late, Step, At;
    if run == [] {
      assert RunStands(Exec(c, run).cat, [], []) by { NothingStands(Exec(c, run).cat); }
    } else {
      var init, op := run[..|run| - 1], run[|run| - 1];
      AcceptedIsKept(c, init);
      ExecInv(c, init);
      StepKeeps(c, Exec(c, init), op, RunKept(c, init));
    }
  }

  lemma NothingStands(cat: Catalog)
    ensures RunStands(cat, [], [])
  {}

  /*** Lateness and the horizon ***/

  /** A write is too late exactly when its own minute, or some instant that shares a coarser bucket with it,
      is already past what the tier that bucket is rebuilt from retains. */
  lemma LateExactly(c: Config, minute: nat, horizon: nat)
    requires ValidConfig(c)
    ensures TooLate(c, minute, horizon) <==>
            || minute < horizon - c.tiers[0].keep
            || exists i, u: nat :: 0 < i < |c.tiers| && Floor(u, c.tiers[i].res) == Floor(minute, c.tiers[i].res) && u < horizon - c.tiers[i - 1].keep
  {
    hide Floor;
    if i :| 0 < i < |c.tiers| && Floor(minute, c.tiers[i].res) < horizon - c.tiers[i - 1].keep {
      var u := Floor(minute, c.tiers[i].res);
      FloorProps(minute, c.tiers[i].res);
      FloorUnique(u, u, c.tiers[i].res);
    }
    if i, u: nat :| 0 < i < |c.tiers| && Floor(u, c.tiers[i].res) == Floor(minute, c.tiers[i].res) && u < horizon - c.tiers[i - 1].keep {
      FloorProps(u, c.tiers[i].res);
    }
  }

  /** Where a write leaves the horizon: a late one where it was; the first one at the end of its minute; any
      other at the end of its minute, but never back and never more than an hour on. */
  lemma HorizonAfter(c: Config, st: State, at: nat, samples: seq<Sample>)
    requires ValidConfig(c) && Shaped(c, st)
    ensures var end, h, h' := Floor(at, c.tiers[0].res) + c.tiers[0].res, st.horizon, Write(c, st, at, samples).horizon;
            if Late(c, st, at) then h' == h
            else if h == 0 then h' == end
            else (end <= h ==> h' == h) && (h < end <= h + 3600 ==> h' == end) && (end > h + 3600 ==> h' == h + 3600)
  {
    hide TrimmedNow, TrimAll, RolledUp, AdmitAll, Late, Floor;
  }
}
