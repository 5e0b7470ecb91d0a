/** Reading the store (internal/metricsdb/query.go): a query reads what the chosen
    tier has rolled from that tier and the rest from the finest. */
module MetricsQuery {
  import opened Points
  import opened Buckets
  import opened MetricsModel
  import opened MetricsSums
  import opened MetricsCatalog
  import opened MetricsInvariant
  import opened MetricsMonotone
  import opened MetricsTheorems

  /*** Which tier answers ***/

  const DEFAULT_MAX_POINTS: nat := 360
  const MAX_POINTS: nat := 2000
  const READ_BUDGET: nat := 8

  function ClampPoints(n: int): (r: nat)
    ensures 1 <= r <= 2000 && (1 <= n <= 2000 ==> r == n) && (n <= 0 ==> r == 360)
  {
    if n <= 0 then DEFAULT_MAX_POINTS else if n < MAX_POINTS then n else MAX_POINTS
  }

  /** The tier reaches back to within one bucket of from, and the range costs at most the read budget. */
  predicate Suits(c: Config, i: nat, now: nat, from: nat, to: int, maxPoints: nat)
    requires ValidConfig(c) && i < |c.tiers|
  {
    from >= now - c.tiers[i].keep - c.tiers[i].res && to - from < (READ_BUDGET * maxPoints + 1) * c.tiers[i].res
  }

  function PickFrom(c: Config, now: nat, from: nat, to: int, maxPoints: nat, i: nat): nat
    requires ValidConfig(c) && i <= |c.tiers|
    decreases |c.tiers| - i
  {
    if i == |c.tiers| then |c.tiers| - 1
    else if Suits(c, i, now, from, to, maxPoints) then i
    else PickFrom(c, now, from, to, maxPoints, i + 1)
  }

  function PickTier(c: Config, now: nat, from: nat, to: int, maxPoints: nat): nat
    requires ValidConfig(c)
  {
    PickFrom(c, now, from, to, maxPoints, 0)
  }

  lemma {:induction false} PickFromIs(c: Config, now: nat, from: nat, to: int, maxPoints: nat, i: nat)
    requires ValidConfig(c) && i <= |c.tiers|
    ensures var ti := PickFrom(c, now, from, to, maxPoints, i);
            && ti < |c.tiers| && (i < |c.tiers| ==> i <= ti)
            && (forall j: nat :: i <= j < ti ==> !Suits(c, j, now, from, to, maxPoints))
            && (i <= ti < |c.tiers| - 1 ==> Suits(c, ti, now, from, to, maxPoints))
    decreases |c.tiers| - i
  {
    if i < |c.tiers| && !Suits(c, i, now, from, to, maxPoints) { PickFromIs(c, now, from, to, maxPoints, i + 1); }
  }

  /** The tier still reaches to within one of its buckets of from, and the range is at most eight of its buckets a point. */
  predicate CanServe(t: Tier, now: nat, from: nat, to: nat, maxPoints: nat)
    requires t.res > 0 && from <= to
  {
    now <= from + t.keep + t.res && (to - from) / t.res <= 8 * maxPoints
  }

  /** Tier ti is the first that can serve the range, or the last when none can. */
  ghost predicate Picked(c: Config, ti: nat, now: nat, from: nat, to: nat, maxPoints: nat)
    requires ValidConfig(c) && from <= to
  {
    && ti < |c.tiers|
    && (forall j: nat :: j < ti ==> !CanServe(c.tiers[j], now, from, to, maxPoints))
    && (ti < |c.tiers| - 1 ==> CanServe(c.tiers[ti], now, from, to, maxPoints))
  }

  lemma WithinBudget(span: nat, res: nat, n: nat)
    requires res > 0
    ensures span < (n + 1) * res <==> span / res <= n
  {
    var q := span / res;
    assert q * res <= span < (q + 1) * res;
    if q <= n { MulMono(q + 1, n + 1, res); } else { MulMono(n + 1, q, res); }
  }

  lemma SuitsIs(c: Config, i: nat, now: nat, from: nat, to: nat, maxPoints: nat)
    requires ValidConfig(c) && i < |c.tiers| && from <= to
    ensures Suits(c, i, now, from, to, maxPoints) <==> CanServe(c.tiers[i], now, from, to, maxPoints)
  {
    WithinBudget(to - from, c.tiers[i].res, 8 * maxPoints);
  }

  /** The finest tier that can serve; the coarsest when none can, and then no tier reaches further back than it. */
  lemma PickTierIsFinest(c: Config, now: nat, from: nat, to: nat, maxPoints: nat, j: nat)
    requires ValidConfig(c) && from <= to && j < |c.tiers|
    ensures var ti := PickTier(c, now, from, to, maxPoints);
            && ti < |c.tiers| && Picked(c, ti, now, from, to, maxPoints)
            && (j >= ti ==> c.tiers[j].keep + c.tiers[j].res >= c.tiers[ti].keep + c.tiers[ti].res)
  {
    hide Suits, CanServe;
    PickFromIs(c, now, from, to, maxPoints, 0);
    forall i: nat | i < |c.tiers| ensures Suits(c, i, now, from, to, maxPoints) <==> CanServe(c.tiers[i], now, from, to, maxPoints) {
      SuitsIs(c, i, now, from, to, maxPoints);
    }
    Coarser(c, PickTier(c, now, from, to, maxPoints), j);
  }

  lemma {:induction false} Coarser(c: Config, i: nat, j: nat)
    requires ValidConfig(c) && i < |c.tiers| && j < |c.tiers|
    ensures i <= j ==> c.tiers[i].res <= c.tiers[j].res && c.tiers[i].keep <= c.tiers[j].keep
    decreases j
  {
    if i < j {
      Coarser(c, i, j - 1);
      assert Follows(c.tiers[j - 1], c.tiers[j]);
    }
  }

  /** The width of a result bucket. */
  function QueryStep(res: nat, span: nat, maxPoints: nat): nat
    requires res > 0 && maxPoints > 0
  {
    var buckets := span / res;
    if buckets > maxPoints then (buckets + maxPoints - 1) / maxPoints * res else res
  }

  lemma StepCovers(res: nat, span: nat, maxPoints: nat)
    requires res > 0 && maxPoints > 0
    ensures QueryStep(res, span, maxPoints) >= res && span < maxPoints * QueryStep(res, span, maxPoints) + res
  {
    var buckets := span / res;
    assert span < buckets * res + res;
    if buckets > maxPoints {
      var mult := (buckets + maxPoints - 1) / maxPoints;
      assert buckets <= maxPoints * mult;
      MulMono(buckets, maxPoints * mult, res);
      assert maxPoints * mult * res == maxPoints * (mult * res);
      assert mult >= 1;
      MulMono(1, mult, res);
    } else {
      MulMono(buckets, maxPoints, res);
    }
  }

  /** The step is the least whole number of the tier's buckets, at least one, of which the points asked for
      cover the whole buckets of the range. */
  lemma StepIsLeast(res: nat, span: nat, maxPoints: nat, k: nat)
    requires res > 0 && maxPoints > 0
    ensures var step := QueryStep(res, span, maxPoints);
            && (exists n: nat {:trigger n * res} :: n > 0 && step == n * res && span / res <= n * maxPoints)
            && (k > 0 && span / res <= k * maxPoints ==> step <= k * res)
  {
    var buckets := span / res;
    var n := if buckets > maxPoints then (buckets + maxPoints - 1) / maxPoints else 1;
    assert QueryStep(res, span, maxPoints) == n * res;
    LeastQuotient(buckets, maxPoints, n, k);
    if k > 0 && buckets <= k * maxPoints { MulMono(n, k, res); }
  }

  lemma LeastQuotient(b: nat, m: nat, n: nat, k: nat)
    requires m > 0 && n == if b > m then (b + m - 1) / m else 1
    ensures n > 0 && b <= n * m && (k > 0 && b <= k * m ==> n <= k)
  {
    if b > m {
      assert n * m <= b + m - 1 < n * m + m;
      if k > 0 && b <= k * m && k < n {
        MulMono(k + 1, n, m);
      }
    }
  }

  lemma {:induction false} AlignedTimes(step: nat, k: nat)
    requires step > 0
    ensures Aligned(k * step, step)
    decreases k
  {
    if k > 0 {
      AlignedTimes(step, k - 1);
      assert k * step == (k - 1) * step + step;
      AlignedNext((k - 1) * step, step);
    }
  }

  /*** What a scan adds up to ***/

  /** The owner's rows that start in [lo, hi) and belong to result bucket b, merged oldest first. */
  ghost function Scan(rows: Rows, owner: nat, lo: nat, hi: nat, bucket: nat -> nat, b: nat): Row {
    ScanInto(EMPTY_ROW, rows, owner, lo, hi, bucket, b)
  }

  /** The same, merged into what the result bucket already holds. */
  ghost function ScanInto(acc: Row, rows: Rows, owner: nat, lo: nat, hi: nat, bucket: nat -> nat, b: nat): Row
    decreases hi
  {
    if hi <= lo then acc
    else
      var r := ScanInto(acc, rows, owner, lo, hi - 1, bucket, b);
      if bucket(hi - 1) == b then MergeRow(r, Get(rows, owner, hi - 1)) else r
  }

  lemma {:induction false} ScanIntoIs(acc: Row, rows: Rows, owner: nat, lo: nat, hi: nat, bucket: nat -> nat, b: nat, owners: set<nat>, res: nat, kinds: map<nat, Kind>)
    requires res > 0 && WellFormed(rows, owners, res, kinds) && Kinded(kinds, acc)
    ensures ScanInto(acc, rows, owner, lo, hi, bucket, b) == MergeRow(acc, Scan(rows, owner, lo, hi, bucket, b))
    decreases hi
  {
    if hi > lo {
      ScanIntoIs(acc, rows, owner, lo, hi - 1, bucket, b, owners, res, kinds);
      ScanKinded(rows, owner, lo, hi - 1, bucket, b, owners, res, kinds);
      MergeRowAssoc(kinds, acc, Scan(rows, owner, lo, hi - 1, bucket, b), Get(rows, owner, hi - 1));
    }
  }

  /** Where the chosen tier's part ends. */
  function Split(c: Config, st: State, ti: nat, from: nat, to: nat): nat
    requires ValidConfig(c) && Shaped(c, st) && ti < |c.tiers|
  {
    var res := c.tiers[ti].res;
    var rolledEnd := if st.rolled[ti] != 0 then st.rolled[ti] + res else 0;
    if ti == 0 || to <= rolledEnd then to
    else if rolledEnd < Floor(from, res) then Floor(from, res) else rolledEnd
  }

  function TailFrom(c: Config, st: State, ti: nat, from: nat, to: nat): nat
    requires ValidConfig(c) && Shaped(c, st) && ti < |c.tiers|
  {
    var split, fine := Split(c, st, ti, from, to), Floor(from, c.tiers[0].res);
    if split < fine then fine else split
  }

  /** What collect leaves in result bucket b for one owner. */
  ghost function Collected(c: Config, st: State, owner: nat, ti: nat, from: nat, to: nat, bucket: nat -> nat, b: nat): Row
    requires ValidConfig(c) && Shaped(c, st) && ti < |c.tiers|
  {
    var rolledPart := Scan(st.rows[ti], owner, Floor(from, c.tiers[ti].res), Split(c, st, ti, from, to), bucket, b);
    ScanInto(rolledPart, st.rows[0], owner, TailFrom(c, st, ti, from, to), to, bucket, b)
  }

  /*** The reference: which samples a query counts, and where ***/

  /** The start of the stored bucket a sample is read from: its own minute past the split, the chosen tier's bucket before it. */
  ghost function ServedStart(c: Config, st: State, ti: nat, from: nat, to: nat, minute: nat): nat
    requires ValidConfig(c) && Shaped(c, st) && ti < |c.tiers|
  {
    var start := Floor(minute, c.tiers[ti].res);
    if start < Split(c, st, ti, from, to) then start else minute
  }

  /** The sample lies in the range and the tier that serves it still keeps it. */
  ghost predicate Served(c: Config, st: State, ti: nat, from: nat, to: nat, minute: nat)
    requires ValidConfig(c) && Shaped(c, st) && ti < |c.tiers|
  {
    var start := Floor(minute, c.tiers[ti].res);
    if start < Split(c, st, ti, from, to)
    then start >= Floor(from, c.tiers[ti].res) && start >= st.horizon - c.tiers[ti].keep
    else Floor(from, c.tiers[0].res) <= minute < to && minute >= st.horizon - c.tiers[0].keep
  }

  ghost function Wanted(c: Config, st: State, owner: nat, ti: nat, from: nat, to: nat, bucket: nat -> nat, b: nat): Accepted -> bool
    requires ValidConfig(c) && Shaped(c, st) && ti < |c.tiers|
  {
    (x: Accepted) => x.owner == owner && Served(c, st, ti, from, to, x.minute) && bucket(ServedStart(c, st, ti, from, to, x.minute)) == b
  }

  /*** One scan ***/

  ghost function InScan(owner: nat, res: nat, lo: nat, hi: nat, cut: int, bucket: nat -> nat, b: nat): Accepted -> bool
    requires res > 0
  {
    (x: Accepted) => x.owner == owner && lo <= Floor(x.minute, res) < hi && Floor(x.minute, res) >= cut && bucket(Floor(x.minute, res)) == b
  }

  lemma {:induction false} ScanKinded(rows: Rows, owner: nat, lo: nat, hi: nat, bucket: nat -> nat, b: nat, owners: set<nat>, res: nat, kinds: map<nat, Kind>)
    requires res > 0 && WellFormed(rows, owners, res, kinds)
    ensures Kinded(kinds, Scan(rows, owner, lo, hi, bucket, b))
    decreases hi
  {
    if hi > lo {
      ScanKinded(rows, owner, lo, hi - 1, bucket, b, owners, res, kinds);
      MergeRowLaws(kinds, Scan(rows, owner, lo, hi - 1, bucket, b), Get(rows, owner, hi - 1));
    }
  }

  /** A scan over buckets that are exact from the cut on and absent before it counts each sample of them once. */
  lemma {:induction false} ScanExact(rows: Rows, ss: seq<Accepted>, owner: nat, res: nat, lo: nat, hi: nat, cut: int,
                                     bucket: nat -> nat, b: nat, owners: set<nat>, kinds: map<nat, Kind>)
    requires res > 0 && WellFormed(rows, owners, res, kinds) && KindedSamples(kinds, ss)
    requires forall s: nat :: lo <= s < hi && Aligned(s, res) && s >= cut ==> Exact(rows, ss, owner, s, res)
    requires forall k :: k in rows && k.owner == owner && lo <= k.start < hi ==> k.start >= cut
    ensures Scan(rows, owner, lo, hi, bucket, b) == SumIf(ss, InScan(owner, res, lo, hi, cut, bucket, b))
    decreases hi
  {
    var p := InScan(owner, res, lo, hi, cut, bucket, b);
    if hi <= lo {
      SumNone(ss, p);
    } else {
      ScanExact(rows, ss, owner, res, lo, hi - 1, cut, bucket, b, owners, kinds);
      ScanOne(rows, ss, owner, res, lo, hi - 1, cut, bucket, b, owners, kinds);
    }
  }

  lemma ScanOne(rows: Rows, ss: seq<Accepted>, owner: nat, res: nat, lo: nat, s: nat, cut: int,
                bucket: nat -> nat, b: nat, owners: set<nat>, kinds: map<nat, Kind>)
    requires res > 0 && WellFormed(rows, owners, res, kinds) && KindedSamples(kinds, ss) && lo <= s
    requires Aligned(s, res) && s >= cut ==> Exact(rows, ss, owner, s, res)
    requires Key(owner, s) in rows ==> s >= cut
    requires Scan(rows, owner, lo, s, bucket, b) == SumIf(ss, InScan(owner, res, lo, s, cut, bucket, b))
    ensures Scan(rows, owner, lo, s + 1, bucket, b) == SumIf(ss, InScan(owner, res, lo, s + 1, cut, bucket, b))
  {
    hide WellFormed, Floor, Aligned, SumIf;
    var p, q, r := InScan(owner, res, lo, s + 1, cut, bucket, b), InScan(owner, res, lo, s, cut, bucket, b), InBucket(owner, s, s + res);
    if bucket(s) == b && Aligned(s, res) && s >= cut {
      forall x | x in ss ensures p(x) == (q(x) || r(x)) && !(q(x) && r(x)) { FloorIs(x.minute, s, res); }
      SumSplit(kinds, ss, p, q, r);
    } else {
      forall x | x in ss ensures p(x) == q(x) { FloorIs(x.minute, s, res); }
      SumCong(ss, p, q);
      ScanKinded(rows, owner, lo, s, bucket, b, owners, res, kinds);
      MergeRowLaws(kinds, Scan(rows, owner, lo, s, bucket, b), EMPTY_ROW);
      NoRow(rows, owner, s, owners, res, kinds);
    }
  }

  lemma NoRow(rows: Rows, owner: nat, s: nat, owners: set<nat>, res: nat, kinds: map<nat, Kind>)
    requires res > 0 && WellFormed(rows, owners, res, kinds)
    ensures !Aligned(s, res) ==> Key(owner, s) !in rows
  {}

  lemma FloorIs(m: nat, s: nat, res: nat)
    requires res > 0
    ensures Aligned(s, res) ==> (Floor(m, res) == s <==> s <= m < s + res)
    ensures Floor(m, res) == s ==> Aligned(s, res)
  {
    FloorProps(m, res);
    if Aligned(s, res) && s <= m < s + res { FloorUnique(m, s, res); }
  }

  /*** The splice ***/

  /** A range read from a coarser tier starts past the epoch's own bucket, or every tier keeps two
      buckets of the next and the finest two of that tier, as the default tiers do. */
  predicate PastEpoch(c: Config, ti: nat, from: nat)
    requires ValidConfig(c) && ti < |c.tiers|
  {
    ti > 0 ==> Floor(from, c.tiers[ti].res) > 0 || (Roomy(c) && TwoBuckets(c.tiers[0], c.tiers[ti]))
  }

  /** A store whose writes never went backwards, read from tier ti. */
  ghost predicate Splices(c: Config, st: State, last: nat, ti: nat, from: nat) {
    && ValidConfig(c) && Shaped(c, st) && Inv(c, st) && Mono(c, st, last) && ti < |c.tiers| && c.tiers[0].keep >= c.tiers[ti].res
    && PastEpoch(c, ti, from)
  }

  lemma SplitFacts(c: Config, st: State, last: nat, ti: nat, from: nat, to: nat)
    requires Splices(c, st, last, ti, from)
    ensures var split := Split(c, st, ti, from, to);
            && (split == to || Aligned(split, c.tiers[ti].res))
            && (split < to ==> split >= Floor(from, c.tiers[ti].res))
            && (ti > 0 ==> forall s: nat :: Floor(from, c.tiers[ti].res) <= s < split && Aligned(s, c.tiers[ti].res)
                            ==> RolledPast(c, s, st.rolled[ti]) && s + c.tiers[ti].res <= st.horizon)
            && (ti > 0 && split < to ==> split > st.rolled[ti] || (split == st.rolled[ti] == 0 && Roomy(c) && TwoBuckets(c.tiers[0], c.tiers[ti])))
  {
    hide Inv, Mono, Floor, Roomy;
    var res := c.tiers[ti].res;
    FloorProps(from, res);
    assert RolledOK(c, st, st.horizon) by { InvParts(c, st); }
    AlignedNext(st.rolled[ti], res);
    forall s: nat | Aligned(s, res) ensures Aligned(st.rolled[ti], res) && s > st.rolled[ti] ==> s >= st.rolled[ti] + res {
      AlignedGap(st.rolled[ti], s, res);
    }
  }

  lemma InvParts(c: Config, st: State)
    requires ValidConfig(c) && Inv(c, st)
    ensures Shaped(c, st) && SamplesOK(c, st) && RowsOK(c, st) && RolledOK(c, st, st.horizon) && FineRetained(c, st, st.horizon) && FineExact(c, st, st.horizon)
  {
    hide CatalogOK, SamplesOK, RowsOK, RolledOK, FineRetained, FineExact;
  }

  lemma CoarsePart(c: Config, st: State, last: nat, owner: nat, ti: nat, from: nat, to: nat, bucket: nat -> nat, b: nat)
    requires Splices(c, st, last, ti, from)
    ensures var res, lo, hi := c.tiers[ti].res, Floor(from, c.tiers[ti].res), Split(c, st, ti, from, to);
            Scan(st.rows[ti], owner, lo, hi, bucket, b) == SumIf(st.accepted, InScan(owner, res, lo, hi, st.horizon - c.tiers[ti].keep, bucket, b))
  {
    hide Inv, Floor, Scan, SumIf, Exact, WellFormed, KindedSamples, Split;
    var res, lo, hi, cut := c.tiers[ti].res, Floor(from, c.tiers[ti].res), Split(c, st, ti, from, to), st.horizon - c.tiers[ti].keep;
    SplitFacts(c, st, last, ti, from, to);
    InvParts(c, st);
    assert WellFormed(st.rows[ti], OwnerIDs(st.cat), res, Kinds(st.cat));
    forall s: nat | lo <= s < hi && Aligned(s, res) && s >= cut ensures Exact(st.rows[ti], st.accepted, owner, s, res) {
      if ti > 0 { assert ClosedBucket(c, ti, s, st.horizon); }
    }
    ScanExact(st.rows[ti], st.accepted, owner, res, lo, hi, cut, bucket, b, OwnerIDs(st.cat), Kinds(st.cat));
  }

  lemma TailPart(c: Config, st: State, owner: nat, lo: nat, hi: nat, bucket: nat -> nat, b: nat)
    requires ValidConfig(c) && Inv(c, st)
    ensures Scan(st.rows[0], owner, lo, hi, bucket, b) == SumIf(st.accepted, InScan(owner, c.tiers[0].res, lo, hi, st.horizon - c.tiers[0].keep, bucket, b))
  {
    hide Inv, Floor, Scan, SumIf, Exact, WellFormed, KindedSamples;
    InvParts(c, st);
    assert WellFormed(st.rows[0], OwnerIDs(st.cat), c.tiers[0].res, Kinds(st.cat));
    ScanExact(st.rows[0], st.accepted, owner, c.tiers[0].res, lo, hi, st.horizon - c.tiers[0].keep, bucket, b, OwnerIDs(st.cat), Kinds(st.cat));
  }

  /** A sample is served by exactly one of the two scans or by neither. */
  lemma ServedOnce(c: Config, st: State, last: nat, ti: nat, from: nat, to: nat, m: nat)
    requires Splices(c, st, last, ti, from) && Aligned(m, c.tiers[0].res)
    ensures var start, split, tail := Floor(m, c.tiers[ti].res), Split(c, st, ti, from, to), TailFrom(c, st, ti, from, to);
            var coarse := Floor(from, c.tiers[ti].res) <= start < split && start >= st.horizon - c.tiers[ti].keep;
            var fine := tail <= m < to && m >= st.horizon - c.tiers[0].keep;
            && Served(c, st, ti, from, to, m) == (coarse || fine) && !(coarse && fine)
            && (coarse ==> ServedStart(c, st, ti, from, to, m) == start)
            && (fine ==> ServedStart(c, st, ti, from, to, m) == m)
  {
    hide Inv, Mono, Floor, Split;
    SplitFacts(c, st, last, ti, from, to);
    var split, res := Split(c, st, ti, from, to), c.tiers[ti].res;
    FloorProps(m, res);
    FloorIs(m, Floor(m, res), res);
    if Aligned(split, res) { AlignedGap(Floor(m, res), split, res); }
  }

  lemma NoGapAt(c: Config, st: State, last: nat, ti: nat, from: nat, to: nat, x: Accepted)
    requires Splices(c, st, last, ti, from) && x in st.accepted
    requires Floor(from, c.tiers[0].res) <= x.minute < to && Floor(x.minute, c.tiers[ti].res) >= st.horizon - c.tiers[ti].keep
    ensures Served(c, st, ti, from, to, x.minute)
  {
    hide Inv, Floor, Split, Roomy;
    SplitFacts(c, st, last, ti, from, to);
    FloorProps(x.minute, c.tiers[ti].res);
    Coarser(c, 0, ti);
    DividesFinest(c, ti);
    Nested(from, c.tiers[0].res, c.tiers[ti].res);
    FloorMono(Floor(from, c.tiers[0].res), x.minute, c.tiers[ti].res);
    if Floor(x.minute, c.tiers[ti].res) >= Split(c, st, ti, from, to) && ti > 0 {
      assert UnrolledOpen(c, st, st.horizon) && ZeroOpen(c, st, st.horizon);
    }
    if ti == 0 {
      InvParts(c, st);
      FloorUnique(x.minute, x.minute, c.tiers[0].res);
    }
  }

  /** A served sample is read from a bucket of the range: one that holds its minute, is no wider than the
      chosen tier's, and starts inside the range rounded out to that tier's buckets. */
  lemma ServedWithin(c: Config, st: State, ti: nat, from: nat, to: nat, minute: nat)
    requires ValidConfig(c) && Shaped(c, st) && ti < |c.tiers| && Served(c, st, ti, from, to, minute)
    ensures var start := ServedStart(c, st, ti, from, to, minute);
            start <= minute < start + c.tiers[ti].res && Floor(from, c.tiers[ti].res) <= start < to
  {
    hide Floor;
    FloorProps(minute, c.tiers[ti].res);
    FloorProps(from, c.tiers[0].res);
    Coarser(c, 0, ti);
    DividesFinest(c, ti);
    Nested(from, c.tiers[0].res, c.tiers[ti].res);
  }

  /** Nothing falls between the tiers: every accepted sample of the range whose bucket
      the chosen tier would retain is served, past the split as well as before it. */
  lemma NothingFallsBetween(c: Config, run: seq<Op>, ti: nat, from: nat, to: nat, x: Accepted)
    requires ValidConfig(c) && NeverBackwards(c, run) && ti < |c.tiers| && c.tiers[0].keep >= c.tiers[ti].res
    requires PastEpoch(c, ti, from)
    requires x in Exec(c, run).accepted && Floor(from, c.tiers[0].res) <= x.minute < to
    requires Floor(x.minute, c.tiers[ti].res) >= Exec(c, run).horizon - c.tiers[ti].keep
    ensures Served(c, Exec(c, run), ti, from, to, x.minute)
  {
    hide Exec, NeverBackwards, Inv, Mono;
    ExecInv(c, run);
    ExecMono(c, run);
    NoGapAt(c, Exec(c, run), LastMinute(c, run), ti, from, to, x);
  }

  /** When write instants never go backwards and the finest tier keeps at least one
      bucket of the chosen tier, a query from any tier, over any range PastEpoch
      allows and for any result buckets, counts each accepted sample the
      range holds and the serving tier retains exactly once, rounded to the buckets
      of the tier that served it. */
  lemma SpliceIsExact(c: Config, run: seq<Op>, owner: nat, ti: nat, from: nat, to: nat, bucket: nat -> nat, b: nat)
    requires ValidConfig(c) && NeverBackwards(c, run) && ti < |c.tiers| && c.tiers[0].keep >= c.tiers[ti].res
    requires PastEpoch(c, ti, from)
    ensures var st := Exec(c, run);
            Collected(c, st, owner, ti, from, to, bucket, b) == SumIf(st.accepted, Wanted(c, st, owner, ti, from, to, bucket, b))
  {
    hide Exec, NeverBackwards, Inv, Mono;
    ExecInv(c, run);
    ExecMono(c, run);
    SpliceAt(c, Exec(c, run), LastMinute(c, run), owner, ti, from, to, bucket, b);
  }

  lemma SpliceAt(c: Config, st: State, last: nat, owner: nat, ti: nat, from: nat, to: nat, bucket: nat -> nat, b: nat)
    requires Splices(c, st, last, ti, from)
    ensures Collected(c, st, owner, ti, from, to, bucket, b) == SumIf(st.accepted, Wanted(c, st, owner, ti, from, to, bucket, b))
  {
    hide Inv, Mono, Floor, Split, TailFrom, Scan, SumIf, Served, ServedStart, MergeRow, KindedSamples, ScanInto, WellFormed, Kinded;
    var tail := TailFrom(c, st, ti, from, to);
    var res, lo, hi := c.tiers[ti].res, Floor(from, c.tiers[ti].res), Split(c, st, ti, from, to);
    CoarsePart(c, st, last, owner, ti, from, to, bucket, b);
    TailPart(c, st, owner, tail, to, bucket, b);
    InvParts(c, st);
    assert WellFormed(st.rows[ti], OwnerIDs(st.cat), res, Kinds(st.cat)) && WellFormed(st.rows[0], OwnerIDs(st.cat), c.tiers[0].res, Kinds(st.cat));
    var rolledPart := Scan(st.rows[ti], owner, lo, hi, bucket, b);
    ScanKinded(st.rows[ti], owner, lo, hi, bucket, b, OwnerIDs(st.cat), res, Kinds(st.cat));
    ScanIntoIs(rolledPart, st.rows[0], owner, tail, to, bucket, b, OwnerIDs(st.cat), c.tiers[0].res, Kinds(st.cat));
    var p := Wanted(c, st, owner, ti, from, to, bucket, b);
    var q := InScan(owner, res, lo, hi, st.horizon - c.tiers[ti].keep, bucket, b);
    var r := InScan(owner, c.tiers[0].res, tail, to, st.horizon - c.tiers[0].keep, bucket, b);
    forall x | x in st.accepted ensures p(x) == (q(x) || r(x)) && !(q(x) && r(x)) {
      ServedOnce(c, st, last, ti, from, to, x.minute);
      FloorUnique(x.minute, x.minute, c.tiers[0].res);
    }
    SumSplit(Kinds(st.cat), st.accepted, p, q, r);
  }
}
