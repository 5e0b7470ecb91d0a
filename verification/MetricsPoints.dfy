/** How many points a query gives one series (Query in internal/metricsdb/query.go). Its
    documentation promises at most maxPoints; it gives at most two more, and the promise is
    kept by every store exactly when the range, measured from the start of its first result
    bucket, is no longer than maxPoints steps. */
module MetricsPoints {
  import opened Sets
  import opened Points
  import opened Buckets
  import opened MetricsModel
  import opened MetricsSums
  import opened MetricsInvariant
  import opened MetricsMonotone
  import opened MetricsTheorems
  import opened MetricsQuery
  import opened MetricsEpoch

  /*** Slots: where result buckets can be ***/

  /** How many steps from one instant reach another. */
  function Count(from: nat, to: nat, step: nat): nat
    requires step > 0
    decreases if from < to then to - from else 0
  {
    if to <= from then 0 else 1 + Count(from + step, to, step)
  }

  lemma {:induction false} CountIs(from: nat, to: nat, step: nat, n: nat)
    requires step > 0
    ensures Count(from, to, step) <= n <==> to <= from + n * step
    decreases n
  {
    if from < to && n > 0 {
      CountIs(from + step, to, step, n - 1);
      assert from + n * step == from + step + (n - 1) * step;
    }
  }

  /** The first n bucket starts from an instant on. */
  function Slots(from: nat, step: nat, n: nat): set<nat> {
    if n == 0 then {} else Slots(from, step, n - 1) + {from + (n - 1) * step}
  }

  lemma {:induction false} SlotsBelow(from: nat, step: nat, n: nat)
    requires step > 0
    ensures |Slots(from, step, n)| == n && forall b :: b in Slots(from, step, n) ==> b < from + n * step
    decreases n
  {
    if n > 0 {
      SlotsBelow(from, step, n - 1);
      assert from + n * step == from + (n - 1) * step + step;
    }
  }

  lemma {:induction false} OnSlot(from: nat, step: nat, n: nat, b: nat)
    requires step > 0 && Aligned(from, step) && Aligned(b, step) && from <= b < from + n * step
    ensures b in Slots(from, step, n)
    decreases n
  {
    if n > 0 {
      hide Aligned;
      var last := from + (n - 1) * step;
      assert from + n * step == last + step;
      SlotAligned(from, step, n - 1);
      AlignedGap(last, b, step);
      if b < last { OnSlot(from, step, n - 1, b); }
    }
  }

  lemma SlotAligned(from: nat, step: nat, k: nat)
    requires step > 0 && Aligned(from, step)
    ensures Aligned(from + k * step, step)
  {
    AlignedTimes(step, k);
    AlignedSum(from, k * step, step);
  }

  /*** A query and its result buckets ***/

  /** The range a query reads once clamped, the tier that answers, and the points asked for. */
  datatype Ask = Ask(ti: nat, start: nat, to: nat, maxPoints: nat) {
    predicate Valid(c: Config) { ValidConfig(c) && ti < |c.tiers| && start < to && maxPoints > 0 }

    function Step(c: Config): (step: nat)
      requires Valid(c)
      ensures step > 0
    {
      StepCovers(c.tiers[ti].res, to - start, maxPoints);
      QueryStep(c.tiers[ti].res, to - start, maxPoints)
    }

    /** The start of the first result bucket. */
    function From(c: Config): nat
      requires Valid(c)
    {
      Floor(start, Step(c))
    }

    function Reach(c: Config): nat
      requires Valid(c)
    {
      Count(From(c), to, Step(c))
    }
  }

  function StepBucket(step: nat): nat -> nat
    requires step > 0
  {
    (u: nat) => Floor(u, step)
  }

  /** The buckets in which the query has a point for the series. */
  ghost function ResultBuckets(c: Config, st: State, owner: nat, q: Ask, series: nat): set<nat>
    requires q.Valid(c) && Shaped(c, st)
  {
    set b: nat | b < q.to && series in Collected(c, st, owner, q.ti, q.From(c), q.to, StepBucket(q.Step(c)), b)
  }

  /** Steps, tiers and minutes nest, so the first result bucket is a bucket of every one of them. */
  lemma AskAligned(c: Config, q: Ask)
    requires q.Valid(c)
    ensures var step, from, res, fine := q.Step(c), q.From(c), c.tiers[q.ti].res, c.tiers[0].res;
            && Aligned(from, step) && from <= q.start < from + step && Aligned(step, res) && Aligned(step, fine) && Aligned(from, fine)
            && Floor(from, res) == from && Floor(from, fine) == from
  {
    hide Floor, Aligned;
    var step, from, res, fine := q.Step(c), q.From(c), c.tiers[q.ti].res, c.tiers[0].res;
    FloorProps(q.start, step);
    StepAligned(res, q.to - q.start, q.maxPoints);
    DividesFinest(c, q.ti);
    AlignedCoarse(step, fine, res);
    AlignedCoarse(from, res, step);
    AlignedCoarse(from, fine, step);
    FloorUnique(from, from, res);
    FloorUnique(from, from, fine);
  }

  lemma StepAligned(res: nat, span: nat, maxPoints: nat)
    requires res > 0 && maxPoints > 0
    ensures Aligned(QueryStep(res, span, maxPoints), res)
  {
    hide Aligned;
    AlignedTimes(res, 1);
    if span / res > maxPoints { AlignedTimes(res, (span / res + maxPoints - 1) / maxPoints); }
  }

  /*** At most two more ***/

  /** A point in a result bucket comes from a row that starts in the range and belongs to it. */
  lemma {:induction false} ScanComesFrom(acc: Row, rows: Rows, owner: nat, lo: nat, hi: nat, bucket: nat -> nat, b: nat, id: nat)
    requires id in ScanInto(acc, rows, owner, lo, hi, bucket, b)
    ensures id in acc || exists t: nat :: lo <= t < hi && bucket(t) == b
    decreases hi
  {
    if hi > lo && !(bucket(hi - 1) == b) { ScanComesFrom(acc, rows, owner, lo, hi - 1, bucket, b, id); }
  }

  lemma BucketIsSlot(c: Config, st: State, owner: nat, q: Ask, series: nat, b: nat)
    requires q.Valid(c) && Shaped(c, st) && series in Collected(c, st, owner, q.ti, q.From(c), q.to, StepBucket(q.Step(c)), b)
    ensures b < q.to && b in Slots(q.From(c), q.Step(c), q.Reach(c))
  {
    hide Floor, Aligned, Scan, ScanInto, Slots, QueryStep, Split;
    var step, from, bucket := q.Step(c), q.From(c), StepBucket(q.Step(c));
    AskAligned(c, q);
    var lo, split, tail := from, Split(c, st, q.ti, from, q.to), TailFrom(c, st, q.ti, from, q.to);
    var rolledPart := Scan(st.rows[q.ti], owner, lo, split, bucket, b);
    SplitBelow(c, st, q.ti, from, q.to);
    ScanComesFrom(rolledPart, st.rows[0], owner, tail, q.to, bucket, b, series);
    if series in rolledPart { ScanIsInto(st.rows[q.ti], owner, lo, split, bucket, b, series); }
    var t: nat :| from <= t < (if split < q.to then q.to else split) && bucket(t) == b;
    FloorProps(t, step);
    FloorMono(from, t, step);
    FloorUnique(from, from, step);
    CountIs(from, q.to, step, q.Reach(c));
    OnSlot(from, step, q.Reach(c), b);
  }

  lemma ScanIsInto(rows: Rows, owner: nat, lo: nat, hi: nat, bucket: nat -> nat, b: nat, id: nat)
    requires id in Scan(rows, owner, lo, hi, bucket, b)
    ensures exists t: nat :: lo <= t < hi && bucket(t) == b
  {
    ScanComesFrom(EMPTY_ROW, rows, owner, lo, hi, bucket, b, id);
  }

  lemma SplitBelow(c: Config, st: State, ti: nat, from: nat, to: nat)
    requires ValidConfig(c) && Shaped(c, st) && ti < |c.tiers| && Floor(from, c.tiers[0].res) == from && Floor(from, c.tiers[ti].res) == from
    ensures TailFrom(c, st, ti, from, to) >= from
    ensures Split(c, st, ti, from, to) <= to || Split(c, st, ti, from, to) == from
  {}

  /** In every store, no series gets more than two points above those asked for. */
  lemma PointsBound(c: Config, st: State, owner: nat, q: Ask, series: nat)
    requires q.Valid(c) && Shaped(c, st)
    ensures |ResultBuckets(c, st, owner, q, series)| <= q.Reach(c) <= q.maxPoints + 2
  {
    hide Floor, Aligned, Collected, Slots, QueryStep;
    var step, from := q.Step(c), q.From(c);
    forall b | b in ResultBuckets(c, st, owner, q, series) ensures b in Slots(from, step, q.Reach(c)) {
      BucketIsSlot(c, st, owner, q, series, b);
    }
    SlotsBelow(from, step, q.Reach(c));
    SubsetSize(ResultBuckets(c, st, owner, q, series), Slots(from, step, q.Reach(c)));
    AskAligned(c, q);
    StepCovers(c.tiers[q.ti].res, q.to - q.start, q.maxPoints);
    assert (q.maxPoints + 2) * step == q.maxPoints * step + 2 * step;
    CountIs(from, q.to, step, q.maxPoints + 2);
  }

  /*** A store with a point in every slot ***/

  /** The range starts late enough that filling it leaves the horizon behind: with the default
      tiers and the most points that can be asked for, 84 days after the epoch. */
  predicate Far(c: Config, q: Ask)
    requires q.Valid(c)
  {
    q.From(c) >= c.tiers[0].res + (q.maxPoints + 2) * MAX_HORIZON_ADVANCE
  }

  /** A first write at the epoch, then one sample in each of the first n slots. */
  function FillRun(from: nat, step: nat, n: nat): seq<Op> {
    if n == 0 then [DoWrite(0, [])] else FillRun(from, step, n - 1) + [DoWrite(from + (n - 1) * step, [ONE])]
  }

  ghost predicate Filled(c: Config, st: State, from: nat, step: nat, n: nat)
    requires ValidConfig(c)
  {
    && Inv(c, st) && 0 < st.horizon <= c.tiers[0].res + n * MAX_HORIZON_ADVANCE
    && st.cat == (if n == 0 then NEW_CATALOG else OneCatalog())
    && forall b :: b in Slots(from, step, n) ==> OneAt(b) in st.accepted
  }

  /** A write at or past the horizon is never late. */
  lemma AheadIsNotLate(c: Config, minute: nat, h: nat)
    requires ValidConfig(c) && h <= minute
    ensures !TooLate(c, minute, h)
  {
    hide Floor;
    forall i | 0 < i < |c.tiers| ensures Floor(minute, c.tiers[i].res) >= h - c.tiers[i - 1].keep {
      TierOrder(c, i);
      FloorProps(minute, c.tiers[i].res);
    }
  }

  lemma FillStarts(c: Config, from: nat, step: nat)
    requires ValidConfig(c)
    ensures Filled(c, Exec(c, FillRun(from, step, 0)), from, step, 0)
  {
    var st, res := InitState(c), c.tiers[0].res;
    InitInv(c);
    assert FillRun(from, step, 0)[..0] == [];
    assert !Late(c, st, 0) && Txn(c, st, 0, []).Next() == res by {
      assert Floor(0, res) == 0;
      EpochIsNotLate(c);
    }
    hide Inv, Write, Late, Txn.Next;
    WriteLeaves(c, st, 0, []);
  }

  lemma EpochIsNotLate(c: Config)
    requires ValidConfig(c)
    ensures !TooLate(c, 0, c.tiers[0].res)
  {
    forall i | 0 < i < |c.tiers| ensures Floor(0, c.tiers[i].res) >= c.tiers[0].res - c.tiers[i - 1].keep { KeepsGrow(c, i - 1); }
  }

  lemma FillMoves(c: Config, st: State, at: nat)
    requires ValidConfig(c) && Floor(at, c.tiers[0].res) == at && 0 < st.horizon <= at
    ensures !Late(c, st, at)
    ensures var t := Txn(c, st, at, [ONE]); t.Minute() == at && 0 < t.Next() <= st.horizon + MAX_HORIZON_ADVANCE
  {
    AheadIsNotLate(c, at, st.horizon);
    hide Floor, TooLate;
  }

  lemma FillStep(c: Config, st: State, from: nat, step: nat, n: nat)
    requires ValidConfig(c) && step > 0 && Aligned(from, c.tiers[0].res) && Aligned(step, c.tiers[0].res)
    requires Filled(c, st, from, step, n) && from >= c.tiers[0].res + n * MAX_HORIZON_ADVANCE
    ensures Filled(c, Write(c, st, from + n * step, [ONE]), from, step, n + 1)
  {
    hide Inv, Write, Late, Floor, AdmitAll, Aligned, Register, Txn.Next, Txn.Minute;
    var at := from + n * step;
    SlotOnMinute(from, step, c.tiers[0].res, n);
    FillMoves(c, st, at);
    AdmitOne(c, st.cat, at);
    WriteLeaves(c, st, at, [ONE]);
  }

  lemma SlotOnMinute(from: nat, step: nat, res: nat, k: nat)
    requires res > 0 && step > 0 && Aligned(from, res) && Aligned(step, res)
    ensures Aligned(from + k * step, res) && Floor(from + k * step, res) == from + k * step
  {
    hide Aligned, Floor;
    AlignedTimes(step, k);
    AlignedCoarse(k * step, res, step);
    AlignedSum(from, k * step, res);
    FloorUnique(from + k * step, from + k * step, res);
  }

  lemma {:induction false} FillRuns(c: Config, from: nat, step: nat, n: nat)
    requires ValidConfig(c) && step > 0 && Aligned(from, c.tiers[0].res) && Aligned(step, c.tiers[0].res)
    requires from >= c.tiers[0].res + n * MAX_HORIZON_ADVANCE
    ensures Filled(c, Exec(c, FillRun(from, step, n)), from, step, n)
    decreases n
  {
    hide Write, Filled, Aligned;
    if n == 0 {
      FillStarts(c, from, step);
    } else {
      var run := FillRun(from, step, n);
      assert run[..|run| - 1] == FillRun(from, step, n - 1);
      FillRuns(c, from, step, n - 1);
      FillStep(c, Exec(c, FillRun(from, step, n - 1)), from, step, n - 1);
    }
  }

  lemma {:induction false} ScanHas(acc: Row, rows: Rows, owner: nat, lo: nat, hi: nat, bucket: nat -> nat, b: nat, t: nat, id: nat)
    requires id in acc || (lo <= t < hi && bucket(t) == b && id in Get(rows, owner, t))
    ensures id in ScanInto(acc, rows, owner, lo, hi, bucket, b)
    decreases hi
  {
    if hi > lo && (id in acc || t < hi - 1) { ScanHas(acc, rows, owner, lo, hi - 1, bucket, b, t, id); }
  }

  /** A sample past the horizon has its row in the finest tier. */
  lemma RowAhead(c: Config, st: State, x: Accepted)
    requires ValidConfig(c) && Inv(c, st) && x in st.accepted && x.minute >= st.horizon
    ensures x.series in Get(st.rows[0], x.owner, x.minute)
  {
    hide SumIf;
    assert Aligned(x.minute, c.tiers[0].res) && FineExact(c, st, st.horizon);
    assert Exact(st.rows[0], st.accepted, x.owner, x.minute, c.tiers[0].res);
    SumSome(st.accepted, InBucket(x.owner, x.minute, x.minute + c.tiers[0].res), x);
  }

  /** Nothing the chosen tier has rolled lies in a range past the horizon. */
  lemma NothingRolledAhead(c: Config, st: State, q: Ask)
    requires q.Valid(c) && Inv(c, st) && st.horizon <= q.From(c) < q.to
    ensures q.ti > 0 ==> TailFrom(c, st, q.ti, q.From(c), q.to) == q.From(c)
    ensures q.ti == 0 ==> Split(c, st, q.ti, q.From(c), q.to) == q.to
  {
    hide Floor, QueryStep;
    AskAligned(c, q);
    assert RolledOK(c, st, st.horizon);
  }

  lemma {:induction false} SlotsInRange(from: nat, to: nat, step: nat, n: nat, b: nat)
    requires step > 0 && Aligned(from, step) && n <= Count(from, to, step) && b in Slots(from, step, n)
    ensures from <= b < to && Aligned(b, step)
    decreases n
  {
    hide Aligned;
    if b == from + (n - 1) * step {
      CountIs(from, to, step, n - 1);
      SlotAligned(from, step, n - 1);
    } else {
      SlotsInRange(from, to, step, n - 1, b);
    }
  }

  lemma SlotHasPoint(c: Config, st: State, q: Ask, b: nat)
    requires q.Valid(c) && Inv(c, st) && st.horizon <= q.From(c) <= b < q.to && Aligned(b, q.Step(c)) && OneAt(b) in st.accepted
    ensures b in ResultBuckets(c, st, 1, q, 1)
  {
    var step, from := q.Step(c), q.From(c);
    AskAligned(c, q);
    FloorUnique(b, b, step);
    RowAhead(c, st, OneAt(b));
    NothingRolledAhead(c, st, q);
    assert Shaped(c, st);
    hide Floor, Aligned, QueryStep, Inv, Count;
    CollectedHas(c, st, q.ti, from, q.to, StepBucket(step), b);
  }

  lemma CollectedHas(c: Config, st: State, ti: nat, from: nat, to: nat, bucket: nat -> nat, b: nat)
    requires ValidConfig(c) && Shaped(c, st) && ti < |c.tiers| && from <= b < to && bucket(b) == b && 1 in Get(st.rows[0], 1, b)
    requires Floor(from, c.tiers[ti].res) == from && (if ti > 0 then TailFrom(c, st, ti, from, to) == from else Split(c, st, ti, from, to) == to)
    ensures 1 in Collected(c, st, 1, ti, from, to, bucket, b)
  {
    hide Floor, ScanInto, Split, TailFrom;
    var split, tail := Split(c, st, ti, from, to), TailFrom(c, st, ti, from, to);
    var rolledPart := Scan(st.rows[ti], 1, from, split, bucket, b);
    if ti == 0 { ScanHas(EMPTY_ROW, st.rows[0], 1, from, split, bucket, b, b, 1); }
    ScanHas(rolledPart, st.rows[0], 1, tail, to, bucket, b, b, 1);
  }

  lemma SlotsHavePoints(c: Config, st: State, q: Ask)
    requires q.Valid(c) && st.horizon <= q.From(c) && Filled(c, st, q.From(c), q.Step(c), q.Reach(c))
    ensures Slots(q.From(c), q.Step(c), q.Reach(c)) <= ResultBuckets(c, st, 1, q, 1)
  {
    assert Shaped(c, st);
    hide Floor, QueryStep, ResultBuckets, Inv, Slots, Aligned;
    AskAligned(c, q);
    forall b | b in Slots(q.From(c), q.Step(c), q.Reach(c)) ensures b in ResultBuckets(c, st, 1, q, 1) {
      SlotsInRange(q.From(c), q.to, q.Step(c), q.Reach(c), b);
      SlotHasPoint(c, st, q, b);
    }
  }

  ghost function FullStore(c: Config, q: Ask): State
    requires q.Valid(c)
  {
    Exec(c, FillRun(q.From(c), q.Step(c), q.Reach(c)))
  }

  /** A run after which the series has a point in every slot of the range. */
  lemma FullStoreIsFull(c: Config, q: Ask)
    requires q.Valid(c) && Far(c, q)
    ensures |ResultBuckets(c, FullStore(c, q), 1, q, 1)| == q.Reach(c)
  {
    hide Floor, Aligned, QueryStep, ResultBuckets, Exec, Slots, Inv;
    var step, from, n := q.Step(c), q.From(c), q.Reach(c);
    AskAligned(c, q);
    PointsBound(c, FullStore(c, q), 1, q, 1);
    assert n * MAX_HORIZON_ADVANCE <= (q.maxPoints + 2) * MAX_HORIZON_ADVANCE;
    FillRuns(c, from, step, n);
    SlotsHavePoints(c, FullStore(c, q), q);
    SlotsBelow(from, step, n);
    SubsetSize(Slots(from, step, n), ResultBuckets(c, FullStore(c, q), 1, q, 1));
  }

  /** Every reachable store gives every series at most the points asked for exactly when the range,
      measured from the start of its first result bucket, is no longer than that many steps. */
  lemma PointsFitExactly(c: Config, q: Ask)
    requires q.Valid(c) && Far(c, q)
    ensures (forall run, owner: nat, series: nat :: |ResultBuckets(c, Exec(c, run), owner, q, series)| <= q.maxPoints)
            <==> q.to <= q.From(c) + q.maxPoints * q.Step(c)
  {
    hide Floor, QueryStep, ResultBuckets, Exec;
    CountIs(q.From(c), q.to, q.Step(c), q.maxPoints);
    if q.to <= q.From(c) + q.maxPoints * q.Step(c) {
      forall run, owner: nat, series: nat ensures |ResultBuckets(c, Exec(c, run), owner, q, series)| <= q.maxPoints {
        PointsBound(c, Exec(c, run), owner, q, series);
      }
    } else {
      FullStoreIsFull(c, q);
      var run := FillRun(q.From(c), q.Step(c), q.Reach(c));
      assert |ResultBuckets(c, Exec(c, run), 1, q, 1)| > q.maxPoints;
    }
  }

  /** The promise is broken by its two points in full: two points asked for over one second short of
      three minutes, starting a second before a minute, give a reachable store's series four. */
  lemma MorePointsThanAsked(c: Config)
    requires ValidConfig(c) && c.tiers[0].res == 60
    ensures var q := Ask(0, 14519, 14698, 2); q.Valid(c) && Far(c, q) && |ResultBuckets(c, FullStore(c, q), 1, q, 1)| == 4
  {
    var q := Ask(0, 14519, 14698, 2);
    assert q.Step(c) == 60;
    AlignedTimes(60, 241);
    FloorUnique(14519, 14460, 60);
    hide ResultBuckets, FullStore, Floor;
    FullStoreIsFull(c, q);
    CountIs(14460, 14698, 60, 4);
    CountIs(14460, 14698, 60, 3);
  }

  /*** The points a query hands out ***/

  /** The result buckets in which a series has a point. */
  function BucketsOf(points: map<nat, Row>, id: nat): set<nat> { set b | b in points && id in points[b] }

  /** Points no bucket of which holds more than the store gives it are bounded like the store's. */
  lemma PointsOfQuery(c: Config, st: State, owner: nat, q: Ask, points: map<nat, Row>, id: nat)
    requires q.Valid(c) && Shaped(c, st)
    requires forall b :: b in points && id in points[b] ==> id in Collected(c, st, owner, q.ti, q.From(c), q.to, StepBucket(q.Step(c)), b)
    ensures |BucketsOf(points, id)| <= q.maxPoints + 2
    ensures q.to <= q.From(c) + q.maxPoints * q.Step(c) ==> |BucketsOf(points, id)| <= q.maxPoints
  {
    hide Collected, Floor, QueryStep, Slots;
    forall b | b in BucketsOf(points, id) ensures b in ResultBuckets(c, st, owner, q, id) { BucketIsSlot(c, st, owner, q, id, b); }
    SubsetSize(BucketsOf(points, id), ResultBuckets(c, st, owner, q, id));
    PointsBound(c, st, owner, q, id);
    CountIs(q.From(c), q.to, q.Step(c), q.maxPoints);
  }

  lemma NothingBeforeEpoch(c: Config, st: State, owner: nat, ti: nat, bucket: nat -> nat, b: nat)
    requires ValidConfig(c) && Shaped(c, st) && ti < |c.tiers|
    ensures Collected(c, st, owner, ti, 0, 0, bucket, b) == EMPTY_ROW
  {}
}
