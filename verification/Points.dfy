/** The value one bucket of one series holds, and how two such values merge
    (internal/metricsdb/point.go). Float fields are reals, so merging is exact;
    counters are unbounded here and `WrapAgreesExactlyBelowLimit` says when the
    32-bit counters of the store give the same answer. */
module Points {

  const EVENT_BINS: nat := 88

  datatype Kind = GaugeKind | EventKind

  type Bins = b: seq<nat> | |b| == EVENT_BINS witness seq(EVENT_BINS, i => 0)

  datatype Gauge = Gauge(count: nat, min: real, max: real, sum: real)

  datatype Event = Event(count: nat, errors: nat, sum: real, min: real, max: real, bins: Bins)

  datatype Point = GaugePoint(gauge: Gauge) | EventPoint(event: Event) {
    function Kind(): Kind { if GaugePoint? then GaugeKind else EventKind }
    function Count(): nat { if GaugePoint? then gauge.count else event.count }
    predicate Empty() { Count() == 0 }
  }

  function MinReal(a: real, b: real): real { if a <= b then a else b }

  function MaxReal(a: real, b: real): real { if a >= b then a else b }

  function MergeGauge(g: Gauge, o: Gauge): Gauge {
    if o.count == 0 then g
    else if g.count == 0 then o
    else Gauge(g.count + o.count, MinReal(g.min, o.min), MaxReal(g.max, o.max), g.sum + o.sum)
  }

  function AddBins(a: Bins, b: Bins): (r: Bins)
    ensures forall i :: 0 <= i < EVENT_BINS ==> r[i] == a[i] + b[i]
  {
    seq(EVENT_BINS, i requires 0 <= i < EVENT_BINS => a[i] + b[i])
  }

  function MergeEvent(e: Event, o: Event): Event {
    if o.count == 0 then e
    else if e.count == 0 then o
    else Event(e.count + o.count, e.errors + o.errors, e.sum + o.sum,
               MinReal(e.min, o.min), MaxReal(e.max, o.max), AddBins(e.bins, o.bins))
  }

  /** Points of different kinds never merge: the receiver keeps its value. */
  function MergePoint(p: Point, o: Point): Point {
    match (p, o)
    case (GaugePoint(g), GaugePoint(h)) => GaugePoint(MergeGauge(g, h))
    case (EventPoint(e), EventPoint(f)) => EventPoint(MergeEvent(e, f))
    case _ => p
  }

  lemma MergePointComm(p: Point, q: Point)
    requires p.Kind() == q.Kind() && !p.Empty() && !q.Empty()
    ensures MergePoint(p, q) == MergePoint(q, p)
    ensures MergePoint(p, q).Kind() == p.Kind() && !MergePoint(p, q).Empty()
  {
    if p.EventPoint? {
      assert AddBins(p.event.bins, q.event.bins) == AddBins(q.event.bins, p.event.bins);
    }
  }

  lemma MergePointAssoc(p: Point, q: Point, r: Point)
    requires p.Kind() == q.Kind() == r.Kind() && !p.Empty() && !q.Empty() && !r.Empty()
    ensures MergePoint(MergePoint(p, q), r) == MergePoint(p, MergePoint(q, r))
  {
    if p.EventPoint? {
      var a, b, c := p.event.bins, q.event.bins, r.event.bins;
      assert AddBins(AddBins(a, b), c) == AddBins(a, AddBins(b, c));
    }
  }

  /*** Rows: every point one owner has in one bucket, by series id. ***/

  type Row = map<nat, Point>

  const EMPTY_ROW: Row := map[]

  function MergeRow(a: Row, b: Row): Row {
    map id | id in a.Keys + b.Keys ::
      if id in a then (if id in b then MergePoint(a[id], b[id]) else a[id]) else b[id]
  }

  /** Every point of the row is non-empty and of the kind its series has. */
  ghost predicate Kinded(kinds: map<nat, Kind>, r: Row) {
    forall id :: id in r ==> id in kinds && r[id].Kind() == kinds[id] && !r[id].Empty()
  }

  lemma MergeRowLaws(kinds: map<nat, Kind>, a: Row, b: Row)
    requires Kinded(kinds, a) && Kinded(kinds, b)
    ensures MergeRow(a, b) == MergeRow(b, a)
    ensures Kinded(kinds, MergeRow(a, b))
    ensures MergeRow(a, EMPTY_ROW) == a && MergeRow(EMPTY_ROW, a) == a
    ensures MergeRow(a, b) == EMPTY_ROW <==> a == EMPTY_ROW && b == EMPTY_ROW
  {
    forall id | id in a && id in b
      ensures MergePoint(a[id], b[id]) == MergePoint(b[id], a[id])
      ensures MergePoint(a[id], b[id]).Kind() == kinds[id] && !MergePoint(a[id], b[id]).Empty()
    {
      MergePointComm(a[id], b[id]);
    }
    assert MergeRow(a, b).Keys == a.Keys + b.Keys;
    if MergeRow(a, b) == EMPTY_ROW {
      assert a.Keys + b.Keys == {};
      assert a.Keys == {} && b.Keys == {};
    }
  }

  lemma MergeRowAssoc(kinds: map<nat, Kind>, a: Row, b: Row, c: Row)
    requires Kinded(kinds, a) && Kinded(kinds, b) && Kinded(kinds, c)
    ensures MergeRow(MergeRow(a, b), c) == MergeRow(a, MergeRow(b, c))
  {
    var l, r := MergeRow(MergeRow(a, b), c), MergeRow(a, MergeRow(b, c));
    assert l.Keys == r.Keys;
    forall id | id in l ensures l[id] == r[id] {
      if id in a && id in b && id in c { MergePointAssoc(a[id], b[id], c[id]); }
    }
  }

  /*** The 32-bit counters the store keeps. ***/

  const WRAP: nat := 0x1_0000_0000

  function Wrap(n: nat): nat { n % WRAP }

  function WrapBins(b: Bins): Bins { seq(EVENT_BINS, i requires 0 <= i < EVENT_BINS => Wrap(b[i])) }

  /** MergePoint with the counters held in 32 bits, as the store's Go types do. */
  function MergePoint32(p: Point, o: Point): Point {
    if p.Kind() != o.Kind() || p.Empty() || o.Empty() then MergePoint(p, o)
    else match MergePoint(p, o)
      case GaugePoint(g) => GaugePoint(g.(count := Wrap(g.count)))
      case EventPoint(e) => EventPoint(e.(count := Wrap(e.count), errors := Wrap(e.errors), bins := WrapBins(e.bins)))
  }

  /** What Observe keeps: failures and bins never outnumber the events. */
  predicate Observed(p: Point) {
    0 < p.Count() < WRAP &&
    (p.EventPoint? ==> p.event.errors <= p.event.count && forall i :: 0 <= i < EVENT_BINS ==> p.event.bins[i] <= p.event.count)
  }

  function FoldPoints(ps: seq<Point>): Point
    requires |ps| > 0
  {
    if |ps| == 1 then ps[0] else MergePoint(FoldPoints(ps[..|ps| - 1]), ps[|ps| - 1])
  }

  function FoldPoints32(ps: seq<Point>): Point
    requires |ps| > 0
  {
    if |ps| == 1 then ps[0] else MergePoint32(FoldPoints32(ps[..|ps| - 1]), ps[|ps| - 1])
  }

  function TotalCount(ps: seq<Point>): nat {
    if ps == [] then 0 else TotalCount(ps[..|ps| - 1]) + ps[|ps| - 1].Count()
  }

  lemma {:induction false} FoldBounds(ps: seq<Point>, k: Kind)
    requires |ps| > 0 && forall p :: p in ps ==> p.Kind() == k && Observed(p)
    ensures FoldPoints(ps).Kind() == k && FoldPoints(ps).Count() == TotalCount(ps) > 0
    ensures FoldPoints(ps).EventPoint? ==>
              && FoldPoints(ps).event.errors <= TotalCount(ps)
              && forall i :: 0 <= i < EVENT_BINS ==> FoldPoints(ps).event.bins[i] <= TotalCount(ps)
    ensures FoldPoints32(ps).Kind() == k && FoldPoints32(ps).Count() < WRAP
  {
    var last := ps[|ps| - 1];
    assert last in ps;
    if |ps| == 1 {
      assert ps[..0] == [];
    } else {
      var init := ps[..|ps| - 1];
      assert forall p :: p in init ==> p in ps;
      FoldBounds(init, k);
      assert Observed(last);
      var f, q := FoldPoints(init), last;
      if q.EventPoint? {
        assert MergePoint(f, q).event.errors == f.event.errors + q.event.errors;
        forall i | 0 <= i < EVENT_BINS ensures MergePoint(f, q).event.bins[i] <= TotalCount(ps) {
          assert MergePoint(f, q).event.bins[i] == f.event.bins[i] + q.event.bins[i];
        }
      }
    }
  }

  /** Folding with 32-bit counters gives the exact fold exactly when the
      bucket's events number less than 2^32. */
  lemma {:induction false} WrapAgreesExactlyBelowLimit(ps: seq<Point>, k: Kind)
    requires |ps| > 0 && forall p :: p in ps ==> p.Kind() == k && Observed(p)
    ensures FoldPoints32(ps) == FoldPoints(ps) <==> TotalCount(ps) < WRAP
  {
    FoldBounds(ps, k);
    var last := ps[|ps| - 1];
    assert last in ps;
    if |ps| == 1 {
      assert ps[..0] == [];
    } else if TotalCount(ps) < WRAP {
      var init := ps[..|ps| - 1];
      assert forall p :: p in init ==> p in ps;
      WrapAgreesExactlyBelowLimit(init, k);
      FoldBounds(init, k);
      WrapIsIdentity(FoldPoints(init), last, TotalCount(ps));
    }
  }

  lemma WrapIsIdentity(p: Point, q: Point, n: nat)
    requires p.Kind() == q.Kind() && !p.Empty() && !q.Empty() && n < WRAP
    requires MergePoint(p, q).Count() <= n
    requires p.EventPoint? ==>
               var e := MergePoint(p, q).event; e.errors <= n && forall i :: 0 <= i < EVENT_BINS ==> e.bins[i] <= n
    ensures MergePoint32(p, q) == MergePoint(p, q)
  {
    if p.EventPoint? {
      var e := MergePoint(p, q).event;
      assert WrapBins(e.bins) == e.bins;
    }
  }
}
