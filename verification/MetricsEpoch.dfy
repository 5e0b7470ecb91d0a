/** The epoch's own bucket of the second tier. A last rolled bucket of 0 also reads as
    "nothing rolled yet", so catch-up rebuilds bucket 0 on every write until a later one
    is rolled. When the finest resolution divides the hour a write may advance the
    horizon by, those rebuilds are whole in every run exactly when the finest tier keeps
    two second-tier buckets less one of its own. */
module MetricsEpoch {
  import opened Options
  import opened Points
  import opened Buckets
  import opened MetricsModel
  import opened MetricsSums
  import opened MetricsCatalog
  import opened MetricsRoll
  import opened MetricsInvariant
  import opened MetricsTheorems

  ghost predicate TwoTiers(c: Config) {
    ValidConfig(c) && |c.tiers| > 1 && Aligned(MAX_HORIZON_ADVANCE, c.tiers[0].res)
  }

  /*** Enough is kept ***/

  /** Horizons fall on minutes, so a row trimmed while bucket 0 is the last one rolled lies
      one minute further back than the next bucket's end allows. */
  ghost predicate MinuteBehind(c: Config, st: State)
    requires TwoTiers(c) && Shaped(c, st)
  {
    && Aligned(st.horizon, c.tiers[0].res)
    && forall t :: t in st.trimmed && t.tier == 0 ==> t.key.start + c.tiers[0].keep + c.tiers[0].res < st.rolled[1] + 2 * c.tiers[1].res
  }

  lemma HorizonAligned(t: Txn)
    requires t.Ok() && TwoTiers(t.c) && Aligned(t.st.horizon, t.c.tiers[0].res)
    ensures Aligned(t.H(), t.c.tiers[0].res) && Aligned(t.Next(), t.c.tiers[0].res)
  {
    hide Inv, Floor;
    var r0 := t.c.tiers[0].res;
    t.Parts();
    AlignedNext(t.Minute(), r0);
    AlignedSum(t.Prev(), MAX_HORIZON_ADVANCE, r0);
  }

  lemma TrimmedBehind(t: Txn, x: Trimmed)
    requires t.Ok() && TwoTiers(t.c) && MinuteBehind(t.c, t.st) && x in t.st.trimmed + TrimmedNow(t.c, t.Mid().0, t.H()) && x.tier == 0
    ensures x.key.start + t.c.tiers[0].keep + t.c.tiers[0].res < t.Mid().1[1] + 2 * t.c.tiers[1].res
  {
    assert Shaped(t.c, t.st);
    hide RollUpTo, RollTier, FoldRange, AdmitAll, PutBatch, CatalogOK, WellFormed, Floor, Inv;
    t.TierAfter(1);
    if x !in t.st.trimmed {
      hide Aligned;
      TierOrder(t.c, 1);
      FloorProps(x.key.start, t.c.tiers[1].res);
      t.RollPre(1);
      t.TierIs(1);
      t.RollAt(1).Reaches(x.key);
      HorizonAligned(t);
      LastMinuteOf(t.H(), t.Mid().1[1], t.c.tiers[0].res, t.c.tiers[1].res);
    }
  }

  lemma LastMinuteOf(h: nat, last: nat, r0: nat, r1: nat)
    requires r0 > 0 && r1 > 0 && Aligned(r1, r0) && Aligned(h, r0) && Aligned(last, r1) && h < last + 2 * r1
    ensures h + r0 <= last + 2 * r1
  {
    hide Aligned;
    AlignedNext(last, r1);
    AlignedNext(last + r1, r1);
    AlignedCoarse(last + r1 + r1, r0, r1);
    AlignedGap(h, last + r1 + r1, r0);
  }

  lemma BehindKeeps(t: Txn)
    requires t.Ok() && TwoTiers(t.c) && MinuteBehind(t.c, t.st)
    ensures MinuteBehind(t.c, t.After())
  {
    assert Shaped(t.c, t.st);
    hide RollUpTo, AdmitAll, PutBatch, Write, Inv, TrimmedNow, TrimRows;
    t.AfterIsResult();
    HorizonAligned(t);
    forall x | x in t.After().trimmed && x.tier == 0
      ensures x.key.start + t.c.tiers[0].keep + t.c.tiers[0].res < t.After().rolled[1] + 2 * t.c.tiers[1].res
    {
      TrimmedBehind(t, x);
    }
  }

  lemma {:induction false} ExecBehind(c: Config, run: seq<Op>)
    requires TwoTiers(c)
    ensures MinuteBehind(c, Exec(c, run))
    decreases |run|
  {
    hide Inv, Write, MinuteBehind;
    if run == [] {
      assert MinuteBehind(c, InitState(c)) by { StartsBehind(c); }
    } else {
      var st, op := Exec(c, run[..|run| - 1]), run[|run| - 1];
      ExecBehind(c, run[..|run| - 1]);
      ExecInv(c, run[..|run| - 1]);
      if op.DoWrite? { WriteBehind(c, st, op.at, op.samples); }
    }
  }

  lemma StartsBehind(c: Config)
    requires TwoTiers(c)
    ensures MinuteBehind(c, InitState(c))
  {}

  lemma WriteBehind(c: Config, st: State, at: nat, samples: seq<Sample>)
    requires TwoTiers(c) && Inv(c, st) && MinuteBehind(c, st)
    ensures MinuteBehind(c, Write(c, st, at, samples))
  {
    hide Inv, MinuteBehind, RolledUp, AdmitAll, TrimAll, TrimmedNow;
    if !Late(c, st, at) { BehindKeeps(Txn(c, st, at, samples)); }
  }

  ghost predicate EpochIsWhole(c: Config, run: seq<Op>, at: nat, samples: seq<Sample>, k: Key)
    requires TwoTiers(c)
  {
    Rebuilds(c, Exec(c, run), at, samples, 1, 0) && Trimmed(0, k) in Exec(c, run).trimmed ==> k.start >= c.tiers[1].res
  }

  lemma EnoughIsKept(c: Config, run: seq<Op>, at: nat, samples: seq<Sample>, k: Key)
    requires TwoTiers(c) && c.tiers[0].keep + c.tiers[0].res >= 2 * c.tiers[1].res
    ensures EpochIsWhole(c, run, at, samples, k)
  {
    hide Exec, Rebuilds;
    var st := Exec(c, run);
    if Rebuilds(c, st, at, samples, 1, 0) && Trimmed(0, k) in st.trimmed {
      ExecBehind(c, run);
      assert st.rolled[1] != 0;
      RebuildsAreWhole(c, run, at, samples, 1, 0, k);
    }
  }

  /*** Too little is kept ***/

  ghost predicate Short(c: Config) { TwoTiers(c) && c.tiers[0].keep + c.tiers[0].res < 2 * c.tiers[1].res }

  /** The last minute boundary the finest tier still reaches back from to the epoch. */
  ghost function Edge(c: Config): nat
    requires TwoTiers(c)
  {
    Floor(c.tiers[0].keep, c.tiers[0].res)
  }

  lemma EdgeFacts(c: Config)
    requires Short(c)
    ensures var r0, r1, keep, h := c.tiers[0].res, c.tiers[1].res, c.tiers[0].keep, Edge(c);
            && Aligned(h, r0) && 2 * r0 <= r1 <= h <= keep < h + r0 && h + 2 * r0 <= 2 * r1 && r0 <= MAX_HORIZON_ADVANCE
            && Floor(h, r0) == h && Floor(h - r0, r0) == h - r0 && Floor(0, r0) == 0 && Floor(r0, r0) == r0 && Floor(h, r1) == r1
  {
    hide Floor, Aligned;
    var r0, r1, keep, h := c.tiers[0].res, c.tiers[1].res, c.tiers[0].keep, Edge(c);
    TierOrder(c, 1);
    FloorProps(keep, r0);
    assert Aligned(0, r0) && Aligned(0, r1) by { Zero(r0); Zero(r1); }
    AlignedNext(0, r0);
    AlignedNext(0, r1);
    AlignedNext(r1, r1);
    AlignedCoarse(r1 + r1, r0, r1);
    AlignedGap(r0, r1, r0);
    AlignedGap(h + r0, r1, r0) by { AlignedNext(h, r0); }
    AlignedNext(h, r0);
    AlignedGap(h + r0, r1 + r1, r0);
    AlignedGap(0, MAX_HORIZON_ADVANCE, r0);
    AlignedPrev(h, r0);
    FloorUnique(h, h, r0);
    FloorUnique(h - r0, h - r0, r0);
    FloorUnique(0, 0, r0);
    FloorUnique(r0, r0, r0);
    FloorUnique(h, r1, r1);
  }

  lemma Zero(step: nat)
    requires step > 0
    ensures Aligned(0, step)
  {}

  lemma {:induction false} KeepsGrow(c: Config, i: nat)
    requires ValidConfig(c) && i < |c.tiers|
    ensures c.tiers[i].keep >= c.tiers[0].keep
    ensures 0 < i < |c.tiers| - 1 ==> c.tiers[i].keep >= 2 * c.tiers[1].res
    decreases i
  {
    if i > 0 {
      KeepsGrow(c, i - 1);
      TierOrder(c, i);
      if i == 1 && |c.tiers| > 2 {
        TierOrder(c, 2);
        Twice(c.tiers[1].res, c.tiers[2].res);
      }
    }
  }

  lemma Twice(a: nat, b: nat)
    requires 0 < a < b && Aligned(b, a)
    ensures 2 * a <= b
  {}

  /** No write of the run is late: nothing in reach of the epoch has left any tier. */
  lemma NotLate(c: Config, minute: nat, h: nat)
    requires Short(c)
    requires h <= c.tiers[0].keep || (minute == Edge(c) && h == Edge(c) + c.tiers[0].res)
    ensures !TooLate(c, minute, h)
  {
    EdgeFacts(c);
    hide Floor, Aligned;
    forall i | 0 < i < |c.tiers|
      ensures Floor(minute, c.tiers[i].res) >= h - c.tiers[i - 1].keep
    {
      KeepsGrow(c, i - 1);
    }
  }

  const ONE: Sample := Sample("o", "n", 1, Gauge(1, 0.0, 0.0, 0.0), None)
  const NEW_CATALOG: Catalog := Catalog(map[], map[], map[], 0, 0)

  function OneCatalog(): Catalog { Register(NEW_CATALOG, "o", "n", GaugeKind) }

  function OneAt(minute: nat): Accepted { Accepted(minute, 1, 1, GaugePoint(ONE.gauge)) }

  lemma AdmitOne(c: Config, cat: Catalog, minute: nat)
    requires ValidConfig(c) && (cat == NEW_CATALOG || cat == OneCatalog())
    ensures AdmitAll(c, cat, minute, [ONE]) == (OneCatalog(), [OneAt(minute)])
  {
    assert [ONE][..0] == [];
    assert AdmitAll(c, cat, minute, []) == (cat, []);
    assert ValidName("o") && ValidName("n");
    assert Resolve(c, cat, "o", "n", GaugeKind) == (OneCatalog(), Found(1, 1));
    assert Admit(c, cat, minute, ONE) == (OneCatalog(), Some(OneAt(minute)), false);
    var none: seq<Accepted> := [];
    assert none + [OneAt(minute)] == [OneAt(minute)];
  }

  /** What a write that is not late leaves of the horizon, the catalog and the samples. */
  lemma WriteLeaves(c: Config, st: State, at: nat, samples: seq<Sample>)
    requires ValidConfig(c) && Inv(c, st) && !Late(c, st, at)
    ensures var t := Txn(c, st, at, samples); var a := Write(c, st, at, samples);
            && Inv(c, a) && a.horizon == t.Next() && a.cat == AdmitAll(c, st.cat, t.Minute(), samples).0
            && a.accepted == st.accepted + AdmitAll(c, st.cat, t.Minute(), samples).1
  {
    assert Shaped(c, st);
    hide RollUpTo, AdmitAll, PutBatch, Write, Inv, TrimmedNow, TrimRows, Late, Floor;
    var t := Txn(c, st, at, samples);
    t.Keeps();
    t.AfterIsResult();
  }

  /** Two samples in bucket 0, written late; then the horizon passes the first one. */
  ghost function EpochRun(c: Config): seq<Op>
    requires Short(c)
  {
    EdgeFacts(c);
    [DoWrite(Edge(c) - c.tiers[0].res, []), DoWrite(0, [ONE]), DoWrite(c.tiers[0].res, [ONE]), DoWrite(Edge(c), [])]
  }

  ghost predicate Stage(c: Config, st: State, h: nat, cat: Catalog, accepted: seq<Accepted>)
    requires ValidConfig(c)
  {
    Inv(c, st) && st.horizon == h && st.cat == cat && st.accepted == accepted
  }

  /** How far a write of the run moves the horizon. */
  lemma Moves(c: Config, st: State, at: nat, samples: seq<Sample>)
    requires Short(c)
    requires (st.horizon == 0 && at + c.tiers[0].res == Edge(c)) || (st.horizon == Edge(c) && (at == 0 || at == c.tiers[0].res || at == Edge(c)))
    ensures !Late(c, st, at)
    ensures var t := Txn(c, st, at, samples); t.Minute() == at && t.Prev() == Edge(c) && t.Next() == (if at == Edge(c) then Edge(c) + c.tiers[0].res else Edge(c))
  {
    EdgeFacts(c);
    NotLate(c, at, Edge(c));
    hide Floor, Aligned, TooLate, Edge;
  }

  lemma First(c: Config, st: State)
    requires Short(c) && Inv(c, st) && st.horizon == 0 && st.cat == NEW_CATALOG && st.accepted == []
    ensures Edge(c) >= c.tiers[0].res && Stage(c, Write(c, st, Edge(c) - c.tiers[0].res, []), Edge(c), NEW_CATALOG, [])
  {
    hide Inv, Write, Floor, Aligned, TooLate, Edge, Late, Txn.Minute, Txn.Next, Txn.Prev;
    EdgeFacts(c);
    var at := Edge(c) - c.tiers[0].res;
    Moves(c, st, at, []);
    WriteLeaves(c, st, at, []);
  }

  lemma Second(c: Config, st: State, at: nat, cat: Catalog)
    requires Short(c) && Stage(c, st, Edge(c), cat, st.accepted) && (cat == NEW_CATALOG || cat == OneCatalog())
    requires at == 0 || at == c.tiers[0].res
    ensures Stage(c, Write(c, st, at, [ONE]), Edge(c), OneCatalog(), st.accepted + [OneAt(at)])
  {
    hide Inv, Write, Floor, Aligned, TooLate, Edge, Late, AdmitAll, Txn.Minute, Txn.Next, Txn.Prev;
    EdgeFacts(c);
    AdmitOne(c, cat, at);
    Moves(c, st, at, [ONE]);
    WriteLeaves(c, st, at, [ONE]);
  }

  lemma Third(c: Config, st: State)
    requires Short(c) && Stage(c, st, Edge(c), OneCatalog(), [OneAt(0), OneAt(c.tiers[0].res)])
    ensures Stage(c, Write(c, st, Edge(c), []), Edge(c) + c.tiers[0].res, OneCatalog(), [OneAt(0), OneAt(c.tiers[0].res)])
    ensures Trimmed(0, Key(1, 0)) in Write(c, st, Edge(c), []).trimmed
  {
    EdgeFacts(c);
    NotLate(c, Edge(c), Edge(c));
    assert Shaped(c, st);
    hide Inv, Write, Floor, Aligned, TooLate, RollUpTo, PutBatch, TrimRows;
    WriteLeaves(c, st, Edge(c), []);
    var t := Txn(c, st, Edge(c), []);
    t.HasRow(OneAt(0));
    t.FinestIs();
    t.AfterIsResult();
  }

  lemma Rebuilt(c: Config, st: State)
    requires Short(c) && Stage(c, st, Edge(c) + c.tiers[0].res, OneCatalog(), [OneAt(0), OneAt(c.tiers[0].res)])
    ensures Rebuilds(c, st, Edge(c), [], 1, 0)
  {
    EdgeFacts(c);
    NotLate(c, Edge(c), Edge(c) + c.tiers[0].res);
    var r0, r1 := c.tiers[0].res, c.tiers[1].res;
    assert Shaped(c, st) && RolledOK(c, st, st.horizon);
    NoneRolled(st.rolled[1], r1, st.horizon);
    hide Inv, Floor, TooLate, RollUpTo, PutBatch;
    var t := Txn(c, st, Edge(c), []);
    t.HasRow(OneAt(r0));
    t.FinestIs();
    ZeroIsFirst(t.Fresh(), t.Owners(), Key(1, r0), r1);
  }

  lemma NoneRolled(rolled: nat, step: nat, h: nat)
    requires step > 0 && Aligned(rolled, step) && h < 2 * step && (rolled != 0 ==> rolled + step <= h)
    ensures rolled == 0
  {
    Zero(step);
    AlignedGap(0, rolled, step);
  }

  lemma ZeroIsFirst(fine: Rows, owners: set<nat>, k: Key, step: nat)
    requires step > 0 && k in fine && k.owner in owners && k.start < step
    ensures Starts(fine, owners) != {} && FirstBucket(fine, owners, 0, step) == 0
  {
    assert k.start in Starts(fine, owners);
  }

  lemma RunIs(c: Config, st1: State, st2: State, st3: State)
    requires Short(c) && Edge(c) >= c.tiers[0].res
    requires st1 == Write(c, InitState(c), Edge(c) - c.tiers[0].res, []) && Shaped(c, st1) && st2 == Write(c, st1, 0, [ONE])
    requires Shaped(c, st2) && st3 == Write(c, st2, c.tiers[0].res, [ONE])
    ensures Shaped(c, st3) && Exec(c, EpochRun(c)) == Write(c, st3, Edge(c), [])
  {
    hide Write, Edge;
    var run := EpochRun(c);
    assert run[..3][..2] == run[..2] && run[..2][..1] == run[..1] && run[..1][..0] == [];
    assert Exec(c, run[..1]) == st1;
    assert Exec(c, run[..2]) == st2;
    assert Exec(c, run[..3]) == st3;
  }

  /** With less kept, bucket 0 is rebuilt after its first row was trimmed. */
  lemma EpochBucketIsNotWhole(c: Config)
    requires Short(c)
    ensures !EpochIsWhole(c, EpochRun(c), Edge(c), [], Key(1, 0))
  {
    hide Inv, Write, Edge, Exec, Rebuilds, Stage;
    var st0 := InitState(c);
    InitInv(c);
    First(c, st0);
    var st1 := Write(c, st0, Edge(c) - c.tiers[0].res, []);
    StageIs(c, st1, Edge(c), NEW_CATALOG, []);
    Second(c, st1, 0, NEW_CATALOG);
    var st2 := Write(c, st1, 0, [ONE]);
    StageIs(c, st2, Edge(c), OneCatalog(), [] + [OneAt(0)]);
    Second(c, st2, c.tiers[0].res, OneCatalog());
    var st3 := Write(c, st2, c.tiers[0].res, [ONE]);
    assert [] + [OneAt(0)] + [OneAt(c.tiers[0].res)] == [OneAt(0), OneAt(c.tiers[0].res)];
    RunIs(c, st1, st2, st3);
    Third(c, st3);
    Rebuilt(c, Write(c, st3, Edge(c), []));
  }

  lemma StageIs(c: Config, st: State, h: nat, cat: Catalog, accepted: seq<Accepted>)
    requires ValidConfig(c) && Stage(c, st, h, cat, accepted)
    ensures Shaped(c, st) && st.accepted == accepted
  {}

  /** Rebuilds of the epoch's own bucket are whole in every run exactly when the finest tier
      keeps two second-tier buckets less one of its own. */
  lemma EpochBucketIsWholeExactly(c: Config)
    requires TwoTiers(c)
    ensures (forall run, at: nat, samples, k :: EpochIsWhole(c, run, at, samples, k))
            <==> c.tiers[0].keep + c.tiers[0].res >= 2 * c.tiers[1].res
  {
    hide EpochIsWhole;
    if c.tiers[0].keep + c.tiers[0].res >= 2 * c.tiers[1].res {
      forall run, at: nat, samples, k ensures EpochIsWhole(c, run, at, samples, k) { EnoughIsKept(c, run, at, samples, k); }
    } else {
      EpochBucketIsNotWhole(c);
    }
  }
}
