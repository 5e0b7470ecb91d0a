/** What the stored and queried values are, told sample by sample: the smallest minimum, the largest
    maximum, and the totals of everything counted (Gauge.Merge and Event.Merge in
    internal/metricsdb/point.go). */
module MetricsValues {
  import opened Points
  import opened Buckets
  import opened MetricsModel
  import opened MetricsSums
  import opened MetricsCatalog
  import opened MetricsInvariant
  import opened MetricsTheorems
  import opened MetricsQuery
  import opened MetricsDB
  import opened MetricsFates

  /*** Reading a point ***/

  function MinOf(p: Point): real { if p.GaugePoint? then p.gauge.min else p.event.min }

  function MaxOf(p: Point): real { if p.GaugePoint? then p.gauge.max else p.event.max }

  function SumOf(p: Point): real { if p.GaugePoint? then p.gauge.sum else p.event.sum }

  function ErrorsOf(p: Point): nat { if p.GaugePoint? then 0 else p.event.errors }

  function BinOf(p: Point, j: nat): nat
    requires j < EVENT_BINS
  {
    if p.GaugePoint? then 0 else p.event.bins[j]
  }

  function TotalSum(ps: seq<Point>): real { if ps == [] then 0.0 else TotalSum(ps[..|ps| - 1]) + SumOf(ps[|ps| - 1]) }

  function TotalErrors(ps: seq<Point>): nat { if ps == [] then 0 else TotalErrors(ps[..|ps| - 1]) + ErrorsOf(ps[|ps| - 1]) }

  function TotalBin(ps: seq<Point>, j: nat): nat
    requires j < EVENT_BINS
  {
    if ps == [] then 0 else TotalBin(ps[..|ps| - 1], j) + BinOf(ps[|ps| - 1], j)
  }

  ghost predicate LeastMin(p: Point, ps: seq<Point>) {
    (forall i :: 0 <= i < |ps| ==> MinOf(p) <= MinOf(ps[i])) && exists i :: 0 <= i < |ps| && MinOf(p) == MinOf(ps[i])
  }

  ghost predicate GreatestMax(p: Point, ps: seq<Point>) {
    (forall i :: 0 <= i < |ps| ==> MaxOf(p) >= MaxOf(ps[i])) && exists i :: 0 <= i < |ps| && MaxOf(p) == MaxOf(ps[i])
  }

  ghost predicate Totals(p: Point, ps: seq<Point>) {
    && p.Count() == TotalCount(ps) && SumOf(p) == TotalSum(ps) && ErrorsOf(p) == TotalErrors(ps)
    && forall j: nat :: j < EVENT_BINS ==> BinOf(p, j) == TotalBin(ps, j)
  }

  /** p is of the points' kind, its minimum is the least of theirs and its maximum the greatest, and
      its count, sum, failures and every bin are the totals of theirs. */
  ghost predicate Summarises(p: Point, ps: seq<Point>) {
    ps != [] && (forall i :: 0 <= i < |ps| ==> ps[i].Kind() == p.Kind()) && LeastMin(p, ps) && GreatestMax(p, ps) && Totals(p, ps)
  }

  /*** Merging keeps a summary ***/

  lemma OneSummary(q: Point)
    ensures Summarises(q, [q])
  {
    var ps := [q];
    assert ps[..0] == [] && ps[0] == q;
    assert MinOf(q) == MinOf(ps[0]) && MaxOf(q) == MaxOf(ps[0]);
  }

  lemma MergeTotals(p: Point, ps: seq<Point>, q: Point)
    requires Totals(p, ps) && p.Kind() == q.Kind() && !p.Empty() && !q.Empty()
    ensures Totals(MergePoint(p, q), ps + [q])
  {
    var all := ps + [q];
    assert all[..|all| - 1] == ps;
  }

  lemma MergeMin(p: Point, ps: seq<Point>, q: Point)
    requires LeastMin(p, ps) && p.Kind() == q.Kind() && !p.Empty() && !q.Empty()
    ensures LeastMin(MergePoint(p, q), ps + [q])
  {
    var all := ps + [q];
    var i :| 0 <= i < |ps| && MinOf(p) == MinOf(ps[i]);
    assert all[i] == ps[i] && all[|ps|] == q;
    assert MinOf(MergePoint(p, q)) == MinOf(all[if MinOf(p) <= MinOf(q) then i else |ps|]);
  }

  lemma MergeMax(p: Point, ps: seq<Point>, q: Point)
    requires GreatestMax(p, ps) && p.Kind() == q.Kind() && !p.Empty() && !q.Empty()
    ensures GreatestMax(MergePoint(p, q), ps + [q])
  {
    var all := ps + [q];
    var i :| 0 <= i < |ps| && MaxOf(p) == MaxOf(ps[i]);
    assert all[i] == ps[i] && all[|ps|] == q;
    assert MaxOf(MergePoint(p, q)) == MaxOf(all[if MaxOf(p) >= MaxOf(q) then i else |ps|]);
  }

  lemma MergeSummary(p: Point, ps: seq<Point>, q: Point)
    requires Summarises(p, ps) && p.Kind() == q.Kind() && !p.Empty() && !q.Empty()
    ensures Summarises(MergePoint(p, q), ps + [q])
  {
    hide LeastMin, GreatestMax, Totals;
    MergeTotals(p, ps, q);
    MergeMin(p, ps, q);
    MergeMax(p, ps, q);
  }

  /** Folding points of one kind, none of them empty, summarises them. */
  lemma {:induction false} FoldSummary(ps: seq<Point>, k: Kind)
    requires |ps| > 0 && forall i :: 0 <= i < |ps| ==> ps[i].Kind() == k && !ps[i].Empty()
    ensures Summarises(FoldPoints(ps), ps) && !FoldPoints(ps).Empty() && FoldPoints(ps).Kind() == k
    decreases |ps|
  {
    hide LeastMin, GreatestMax, Totals;
    if |ps| == 1 {
      OneSummary(ps[0]);
      assert ps == [ps[0]];
    } else {
      var init, last := ps[..|ps| - 1], ps[|ps| - 1];
      FoldSummary(init, k);
      MergeSummary(FoldPoints(init), init, last);
      MergePointComm(FoldPoints(init), last);
      assert init + [last] == ps;
    }
  }

  /*** The values of a sum over samples ***/

  /** The points of the selected samples of one series, oldest accepted first. */
  ghost function Chosen(ss: seq<Accepted>, p: Accepted -> bool, id: nat): seq<Point> {
    if ss == [] then []
    else
      var x := ss[|ss| - 1];
      Chosen(ss[..|ss| - 1], p, id) + if p(x) && x.series == id then [x.point] else []
  }

  /** The sum has a value for a series exactly when a sample of it is selected, and that value
      summarises the selected ones. */
  lemma {:induction false} SumSummary(kinds: map<nat, Kind>, ss: seq<Accepted>, p: Accepted -> bool, id: nat)
    requires KindedSamples(kinds, ss)
    ensures id in SumIf(ss, p) <==> Chosen(ss, p, id) != []
    ensures id in SumIf(ss, p) ==> Summarises(SumIf(ss, p)[id], Chosen(ss, p, id))
    decreases |ss|
  {
    hide Summarises;
    if ss != [] {
      var init, x := ss[..|ss| - 1], ss[|ss| - 1];
      KindedInit(kinds, ss);
      SumSummary(kinds, init, p, id);
      SumKinded(kinds, init, p);
      var ps := Chosen(init, p, id);
      if p(x) && x.series == id {
        if ps == [] {
          OneSummary(x.point);
          assert ps + [x.point] == [x.point];
        } else {
          MergeSummary(SumIf(init, p)[id], ps, x.point);
        }
      } else {
        assert ps + [] == ps;
      }
    }
  }

  lemma {:induction false} ChosenIff(ss: seq<Accepted>, p: Accepted -> bool, id: nat)
    ensures Chosen(ss, p, id) != [] <==> exists x :: x in ss && p(x) && x.series == id
    decreases |ss|
  {
    if ss != [] {
      var init, x := ss[..|ss| - 1], ss[|ss| - 1];
      ChosenIff(init, p, id);
      assert forall y :: y in ss <==> y in init || y == x;
    }
  }

  /*** Stored values ***/

  /** A row whose values are those of the owner's samples with a minute in [lo, hi). */
  ghost predicate RowSummarises(r: Row, ss: seq<Accepted>, owner: nat, lo: nat, hi: nat) {
    && (forall id: nat :: id in r <==> exists x :: x in ss && x.owner == owner && lo <= x.minute < hi && x.series == id)
    && (forall id: nat :: id in r ==> Summarises(r[id], Chosen(ss, InBucket(owner, lo, hi), id)))
  }

  lemma SumRow(kinds: map<nat, Kind>, ss: seq<Accepted>, owner: nat, lo: nat, hi: nat)
    requires KindedSamples(kinds, ss)
    ensures RowSummarises(Sum(ss, owner, lo, hi), ss, owner, lo, hi)
  {
    hide Summarises, SumIf, Chosen;
    var p := InBucket(owner, lo, hi);
    forall id: nat
      ensures id in SumIf(ss, p) <==> exists x :: x in ss && x.owner == owner && lo <= x.minute < hi && x.series == id
      ensures id in SumIf(ss, p) ==> Summarises(SumIf(ss, p)[id], Chosen(ss, p, id))
    {
      SumSummary(kinds, ss, p, id);
      ChosenIff(ss, p, id);
    }
  }

  lemma RunKinded(c: Config, run: seq<Op>)
    requires ValidConfig(c)
    ensures KindedSamples(Kinds(Exec(c, run).cat), Exec(c, run).accepted)
  {
    hide Exec;
    ExecInv(c, run);
    InvParts(c, Exec(c, run));
  }

  /** In every run, clock faults included, a retained minute and a rolled and retained bucket of the
      second tier hold, for exactly the series with a sample there, the least minimum, the greatest
      maximum and the totals of the accepted samples. */
  lemma SecondTierValues(c: Config, run: seq<Op>, o: nat, s: nat)
    requires ValidConfig(c)
    ensures var st := Exec(c, run);
            && (Aligned(s, c.tiers[0].res) && s >= st.horizon - c.tiers[0].keep
                ==> RowSummarises(Get(st.rows[0], o, s), st.accepted, o, s, s + c.tiers[0].res))
            && (|c.tiers| > 1 && Aligned(s, c.tiers[1].res) && RolledPast(c, s, st.rolled[1]) && s >= st.horizon - c.tiers[1].keep
                ==> RowSummarises(Get(st.rows[1], o, s), st.accepted, o, s, s + c.tiers[1].res))
  {
    hide Exec, Sum, RowSummarises, Roomy;
    SecondTierIsExact(c, run, o, s);
    RunKinded(c, run);
    var st := Exec(c, run);
    SumRow(Kinds(st.cat), st.accepted, o, s, s + c.tiers[0].res);
    if |c.tiers| > 1 { SumRow(Kinds(st.cat), st.accepted, o, s, s + c.tiers[1].res); }
  }

  /** When instants never go backwards, so does every closed and retained bucket of every tier. */
  lemma RollupValues(c: Config, run: seq<Op>, i: nat, o: nat, s: nat)
    requires ValidConfig(c) && NeverBackwards(c, run) && 0 < i < |c.tiers|
    ensures var st := Exec(c, run);
            Aligned(s, c.tiers[i].res) && s + c.tiers[i].res <= st.horizon && (0 < s || Roomy(c)) && s >= st.horizon - c.tiers[i].keep
            ==> RowSummarises(Get(st.rows[i], o, s), st.accepted, o, s, s + c.tiers[i].res)
  {
    hide Exec, Sum, RowSummarises, Roomy, NeverBackwards;
    RollupsAreExact(c, run, i, o, s);
    RunKinded(c, run);
    SumRow(Kinds(Exec(c, run).cat), Exec(c, run).accepted, o, s, s + c.tiers[i].res);
  }

  /*** Queried values ***/

  /** What Query and Aggregate return in a result bucket, over every run whose instants never go
      backwards: a point for exactly the wanted series with a sample the bucket serves, and in it the
      least minimum, the greatest maximum and the totals of those samples. */
  lemma QueryValues(c: Config, run: seq<Op>, owner: nat, want: set<nat>, ti: nat, from: nat, to: nat, bucket: nat -> nat, b: nat, id: nat)
    requires ValidConfig(c) && NeverBackwards(c, run) && ti < |c.tiers| && c.tiers[0].keep >= c.tiers[ti].res
    requires PastEpoch(c, ti, from)
    ensures var st := Exec(c, run);
            var p := (x: Accepted) => Wanted(c, st, owner, ti, from, to, bucket, b)(x) && x.series in want;
            var r := Restrict(Collected(c, st, owner, ti, from, to, bucket, b), want);
            && (id in r <==> id in want && exists x :: x in st.accepted && Wanted(c, st, owner, ti, from, to, bucket, b)(x) && x.series == id)
            && (id in r ==> Summarises(r[id], Chosen(st.accepted, p, id)))
  {
    hide Exec, NeverBackwards, Collected, SumIf, Restrict, Summarises, Served, ServedStart, Chosen, PastEpoch;
    QueriesAreExact(c, run, owner, want, ti, from, to, bucket, b);
    RunKinded(c, run);
    var st := Exec(c, run);
    var p := (x: Accepted) => Wanted(c, st, owner, ti, from, to, bucket, b)(x) && x.series in want;
    SumSummary(Kinds(st.cat), st.accepted, p, id);
    ChosenIff(st.accepted, p, id);
  }

  /*** By the names the samples came with ***/

  /** The values of the kept samples of one named series whose minute p selects, in the order they came. */
  ghost function Named(kept: seq<Stored>, owner: string, name: string, p: nat -> bool): seq<Point> {
    if kept == [] then []
    else
      var k := kept[|kept| - 1];
      Named(kept[..|kept| - 1], owner, name, p) +
      if k.sample.owner == owner && k.sample.name == name && p(k.minute) then [Value(k.sample)] else []
  }

  ghost function Value(s: Sample): Point {
    if s.kind == 1 || s.event.None? then GaugePoint(s.gauge) else EventPoint(s.event.value)
  }

  lemma OneSeries(c: Config, cat: Catalog, x: Accepted, minute: nat, s: Sample, owner: string, name: string)
    requires CatalogOK(c, cat) && Known(cat, owner, name) && StandsFor(cat, x, minute, s)
    ensures x.owner == cat.owners[owner] && x.series == cat.series[SeriesKey(cat.owners[owner], name)].id <==> s.owner == owner && s.name == name
    ensures x.series == cat.series[SeriesKey(cat.owners[owner], name)].id ==> x.owner == cat.owners[owner]
    ensures x.point == Value(s)
  {
    hide CapsOK;
    var k := SeriesKey(cat.owners[owner], name);
    assert cat.refs[cat.series[k].id] == Ref(k.owner, k.name, cat.series[k].kind);
    assert SeriesKey(cat.refs[x.series].owner, cat.refs[x.series].name) in cat.series;
  }

  /** The samples a row's sum ranges over are the kept samples of that name. */
  lemma {:induction false} ChosenIsNamed(c: Config, cat: Catalog, acc: seq<Accepted>, kept: seq<Stored>, owner: string, name: string, p: nat -> bool, q: Accepted -> bool)
    requires CatalogOK(c, cat) && Known(cat, owner, name) && RunStands(cat, acc, kept)
    requires forall x :: x in acc && x.owner == cat.owners[owner] && x.series == cat.series[SeriesKey(cat.owners[owner], name)].id ==> q(x) == p(x.minute)
    ensures Chosen(acc, q, cat.series[SeriesKey(cat.owners[owner], name)].id) == Named(kept, owner, name, p)
    decreases |acc|
  {
    hide CatalogOK, StandsFor;
    if acc != [] {
      var n := |acc| - 1;
      ChosenIsNamed(c, cat, acc[..n], kept[..n], owner, name, p, q);
      OneSeries(c, cat, acc[n], kept[n].minute, kept[n].sample, owner, name);
      assert acc[n] in acc && acc[n].minute == kept[n].minute by { StandsMinute(cat, acc[n], kept[n].minute, kept[n].sample); }
    }
  }

  lemma StandsMinute(cat: Catalog, x: Accepted, minute: nat, s: Sample)
    requires StandsFor(cat, x, minute, s)
    ensures x.minute == minute
  {}

  ghost predicate Holds(r: Row, id: nat, ps: seq<Point>) { (id in r <==> ps != []) && (id in r ==> Summarises(r[id], ps)) }

  /** In every run, a retained minute of the finest tier holds a point for a named series exactly when a sample of
      that name was kept in it, and the point has the least minimum, the greatest maximum and the totals of those. */
  lemma StoredByName(c: Config, run: seq<Op>, owner: string, name: string, s: nat)
    requires ValidConfig(c) && Known(Exec(c, run).cat, owner, name)
    ensures var st, res := Exec(c, run), c.tiers[0].res;
            var o := st.cat.owners[owner];
            Aligned(s, res) && s >= st.horizon - c.tiers[0].keep ==>
              Holds(Get(st.rows[0], o, s), st.cat.series[SeriesKey(o, name)].id,
                    Named(RunKept(c, run), owner, name, (m: nat) => s <= m < s + res))
  {
    hide Exec, Sum, Summarises, CatalogOK, RunStands, RunKept, Roomy;
    var st, res := Exec(c, run), c.tiers[0].res;
    var o := st.cat.owners[owner];
    var id := st.cat.series[SeriesKey(o, name)].id;
    SecondTierIsExact(c, run, o, s);
    RunKinded(c, run);
    assert Sum(st.accepted, o, s, s + res) == SumIf(st.accepted, InBucket(o, s, s + res)) by { SumIs(st.accepted, o, s, s + res); }
    SumSummary(Kinds(st.cat), st.accepted, InBucket(o, s, s + res), id);
    AcceptedIsKept(c, run);
    RunCatalog(c, run);
    ChosenIsNamed(c, st.cat, st.accepted, RunKept(c, run), owner, name, (m: nat) => s <= m < s + res, InBucket(o, s, s + res));
  }

  lemma SumIs(ss: seq<Accepted>, owner: nat, lo: nat, hi: nat)
    ensures Sum(ss, owner, lo, hi) == SumIf(ss, InBucket(owner, lo, hi))
  {}

  lemma RunCatalog(c: Config, run: seq<Op>)
    requires ValidConfig(c)
    ensures CatalogOK(c, Exec(c, run).cat)
  {
    hide Exec;
    ExecInv(c, run);
    StateCatalog(c, Exec(c, run));
  }

  /** What a query returns for a named series in a result bucket, over every run whose instants never go backwards:
      a point exactly when a sample of that name was kept that the range holds, the serving tier retains and the
      bucket takes, with the least minimum, the greatest maximum and the totals of those. */
  lemma QueryByName(c: Config, run: seq<Op>, owner: string, name: string, want: set<nat>, ti: nat, from: nat, to: nat, bucket: nat -> nat, b: nat)
    requires ValidConfig(c) && NeverBackwards(c, run) && ti < |c.tiers| && c.tiers[0].keep >= c.tiers[ti].res
    requires PastEpoch(c, ti, from)
    requires var cat := Exec(c, run).cat; Known(cat, owner, name) && cat.series[SeriesKey(cat.owners[owner], name)].id in want
    ensures var st := Exec(c, run);
            var o := st.cat.owners[owner];
            Holds(Restrict(Collected(c, st, o, ti, from, to, bucket, b), want), st.cat.series[SeriesKey(o, name)].id,
                  Named(RunKept(c, run), owner, name, (m: nat) => Served(c, st, ti, from, to, m) && bucket(ServedStart(c, st, ti, from, to, m)) == b))
  {
    hide Exec, NeverBackwards, Collected, SumIf, Restrict, Summarises, Served, ServedStart, PastEpoch, CatalogOK, RunStands, RunKept;
    var st := Exec(c, run);
    var o := st.cat.owners[owner];
    var id := st.cat.series[SeriesKey(o, name)].id;
    QueriesAreExact(c, run, o, want, ti, from, to, bucket, b);
    RunKinded(c, run);
    var p := (x: Accepted) => Wanted(c, st, o, ti, from, to, bucket, b)(x) && x.series in want;
    SumSummary(Kinds(st.cat), st.accepted, p, id);
    AcceptedIsKept(c, run);
    RunCatalog(c, run);
    var inBucket := (m: nat) => Served(c, st, ti, from, to, m) && bucket(ServedStart(c, st, ti, from, to, m)) == b;
    forall x: Accepted | x.owner == o && x.series == id ensures p(x) == inBucket(x.minute) {
      assert Wanted(c, st, o, ti, from, to, bucket, b)(x) == inBucket(x.minute);
    }
    ChosenIsNamed(c, st.cat, st.accepted, RunKept(c, run), owner, name, inBucket, p);
  }
}
