/** The tiered metrics store as a state machine (internal/metricsdb/metricsdb.go):
    one `Write` is one bbolt transaction. Beside what the file holds, the state
    keeps two histories the code does not: the samples accepted so far and the
    rows retention has trimmed. */
module MetricsModel {
  import opened Options
  import opened Points
  import opened Buckets

  /** One resolution kept for a fixed time, both in whole seconds. */
  datatype Tier = Tier(res: nat, keep: nat)

  datatype Config = Config(tiers: seq<Tier>, maxSeries: nat, maxSeriesPerOwner: nat)

  predicate ValidTier(t: Tier) { t.res > 0 && t.keep >= t.res }

  predicate Follows(prev: Tier, t: Tier) {
    ValidTier(prev) && prev.res < t.res && Aligned(t.res, prev.res) && prev.keep <= t.keep && t.res <= prev.keep
  }

  /** What Options.withDefaults accepts. */
  predicate ValidConfig(c: Config) {
    && |c.tiers| > 0
    && (forall i :: 0 <= i < |c.tiers| ==> ValidTier(c.tiers[i]))
    && (forall i :: 0 < i < |c.tiers| ==> Follows(c.tiers[i - 1], c.tiers[i]))
    && c.maxSeries > 0 && c.maxSeriesPerOwner > 0
  }

  const MAX_HORIZON_ADVANCE: nat := 3600
  const MAX_NAME_BYTES: nat := 200

  /*** Rows ***/

  datatype Key = Key(owner: nat, start: nat)

  type Rows = map<Key, Row>

  /** The row at (owner, start); an absent row reads as the empty one. */
  function Get(rows: Rows, owner: nat, start: nat): Row {
    if Key(owner, start) in rows then rows[Key(owner, start)] else EMPTY_ROW
  }

  /** The merge of an owner's rows that start in [lo, hi), oldest first. */
  function FoldRange(rows: Rows, owner: nat, lo: nat, hi: nat): Row
    decreases hi
  {
    if hi <= lo then EMPTY_ROW
    else MergeRow(FoldRange(rows, owner, lo, hi - 1), Get(rows, owner, hi - 1))
  }

  /*** Samples and the catalog ***/

  datatype Sample = Sample(owner: string, name: string, kind: nat, gauge: Gauge, event: Option<Event>)

  /** A sample that was stored: which minute, under which ids, with which value. */
  datatype Accepted = Accepted(minute: nat, owner: nat, series: nat, point: Point)

  datatype SeriesKey = SeriesKey(owner: nat, name: string)

  datatype Meta = Meta(id: nat, kind: Kind)

  datatype Ref = Ref(owner: nat, name: string, kind: Kind)

  datatype Catalog = Catalog(
    owners: map<string, nat>,
    series: map<SeriesKey, Meta>,
    refs: map<nat, Ref>,
    nextOwner: nat,
    nextSeries: nat)

  datatype Reason = OwnerCap | TotalCap | Invalid | KindMismatch

  datatype Resolved = Found(owner: nat, series: nat) | Refused(reason: Reason)

  predicate ValidName(s: string) { s != "" && |s| <= MAX_NAME_BYTES && '\0' !in s }

  /** The point a sample carries, for a kind this version knows. */
  function SamplePoint(s: Sample): Option<Point> {
    if s.kind == 1 then Some(GaugePoint(s.gauge))
    else if s.kind == 2 then
      Some(match s.event
           case None => EventPoint(Event(0, 0, 0.0, 0.0, 0.0, seq(EVENT_BINS, i => 0)))
           case Some(e) => EventPoint(e))
    else None
  }

  function OwnerSeries(series: map<SeriesKey, Meta>, owner: nat): set<SeriesKey> {
    set k | k in series && k.owner == owner
  }

  function OwnerIDFor(cat: Catalog, owner: string): nat {
    if owner in cat.owners then cat.owners[owner] else cat.nextOwner + 1
  }

  /** The catalog with a new series, and a new owner when it has none. */
  function Register(cat: Catalog, owner: string, name: string, kind: Kind): Catalog {
    var id, sid := OwnerIDFor(cat, owner), cat.nextSeries + 1;
    Catalog(cat.owners[owner := id],
            cat.series[SeriesKey(id, name) := Meta(sid, kind)],
            cat.refs[sid := Ref(id, name, kind)],
            if owner in cat.owners then cat.nextOwner else id,
            sid)
  }

  /** Finds or creates the ids of (owner, name), honouring the caps. */
  function Resolve(c: Config, cat: Catalog, owner: string, name: string, kind: Kind): (Catalog, Resolved) {
    var id := OwnerIDFor(cat, owner);
    if owner in cat.owners && SeriesKey(id, name) in cat.series then
      var meta := cat.series[SeriesKey(id, name)];
      (cat, if meta.kind != kind then Refused(KindMismatch) else Found(id, meta.id))
    else if owner in cat.owners && |OwnerSeries(cat.series, id)| >= c.maxSeriesPerOwner then (cat, Refused(OwnerCap))
    else if |cat.series| >= c.maxSeries then (cat, Refused(TotalCap))
    else (Register(cat, owner, name, kind), Found(id, cat.nextSeries + 1))
  }

  /** One sample of a write: refused, left out because it is empty, or accepted. */
  function Admit(c: Config, cat: Catalog, minute: nat, s: Sample): (Catalog, Option<Accepted>, bool) {
    var p := SamplePoint(s);
    if p.None? || !ValidName(s.owner) || !ValidName(s.name) then (cat, None, true)
    else if p.value.Empty() then (cat, None, false)
    else
      var (cat', r) := Resolve(c, cat, s.owner, s.name, p.value.Kind());
      match r
      case Refused(_) => (cat', None, true)
      case Found(o, sid) => (cat', Some(Accepted(minute, o, sid, p.value)), false)
  }

  function AdmitAll(c: Config, cat: Catalog, minute: nat, samples: seq<Sample>): (Catalog, seq<Accepted>) {
    if samples == [] then (cat, [])
    else
      var (mid, acc) := AdmitAll(c, cat, minute, samples[..|samples| - 1]);
      var (cat', a, _) := Admit(c, mid, minute, samples[|samples| - 1]);
      (cat', if a.Some? then acc + [a.value] else acc)
  }

  /*** What a list of samples adds up to ***/

  /** The merge, per series, of the samples p selects. */
  ghost function SumIf(ss: seq<Accepted>, p: Accepted -> bool): Row {
    if ss == [] then EMPTY_ROW
    else
      var x := ss[|ss| - 1];
      var r := SumIf(ss[..|ss| - 1], p);
      if p(x) then MergeRow(r, map[x.series := x.point]) else r
  }

  ghost function InBucket(owner: nat, lo: nat, hi: nat): Accepted -> bool {
    (x: Accepted) => x.owner == owner && lo <= x.minute < hi
  }

  /** The truth a stored row is measured against: the merge of all accepted
      samples of the owner whose minute lies in [lo, hi). */
  ghost function Sum(ss: seq<Accepted>, owner: nat, lo: nat, hi: nat): Row {
    SumIf(ss, InBucket(owner, lo, hi))
  }

  /*** The transaction ***/

  datatype Trimmed = Trimmed(tier: nat, key: Key)

  datatype State = State(
    rows: seq<Rows>,
    cat: Catalog,
    rolled: seq<nat>,
    horizon: nat,
    accepted: seq<Accepted>,
    trimmed: set<Trimmed>)

  function InitState(c: Config): State {
    State(seq(|c.tiers|, i => map[]), Catalog(map[], map[], map[], 0, 0), seq(|c.tiers|, i => 0), 0, [], {})
  }

  /** Whether a write into minute can no longer be stored exactly. */
  predicate TooLate(c: Config, minute: nat, horizon: nat)
    requires ValidConfig(c)
  {
    || minute < horizon - c.tiers[0].keep
    || exists i :: 0 < i < |c.tiers| && Floor(minute, c.tiers[i].res) < horizon - c.tiers[i - 1].keep
  }

  ghost function OwnerIDs(cat: Catalog): set<nat> { cat.owners.Values }

  /** The finest tier after a write: each owner's batch merged with the row the minute already holds. */
  ghost function PutBatch(rows: Rows, batch: seq<Accepted>, minute: nat): Rows {
    var touched := set x | x in batch :: Key(x.owner, minute);
    map k | k in rows.Keys + touched ::
      if k in touched
      then MergeRow(SumIf(batch, InBucket(k.owner, minute, minute + 1)), Get(rows, k.owner, minute))
      else rows[k]
  }

  /** What rebuilding an owner's coarse bucket s from the finer tier gives. */
  ghost function Folds(fine: Rows, step: nat): (nat, nat) -> Row {
    (owner: nat, s: nat) => FoldRange(fine, owner, s, s + step)
  }

  /** Coarse bucket s of every owner, rebuilt from the finer tier; an empty rebuild deletes the row. */
  ghost function RollBucket(fold: (nat, nat) -> Row, coarse: Rows, owners: set<nat>, s: nat): Rows {
    (map k | k in coarse && !(k.start == s && k.owner in owners) :: coarse[k]) +
    (map o | o in owners && fold(o, s) != EMPTY_ROW :: Key(o, s) := fold(o, s))
  }

  /** Catch-up: every bucket from s on that ends by the horizon. */
  ghost function RollRange(fold: (nat, nat) -> Row, coarse: Rows, owners: set<nat>, s: nat, step: nat, horizon: nat): Rows
    requires step > 0
    decreases horizon - s
  {
    if s + step <= horizon
    then RollRange(fold, RollBucket(fold, coarse, owners, s), owners, s + step, step, horizon)
    else coarse
  }

  ghost function Starts(rows: Rows, owners: set<nat>): set<nat> {
    set k | k in rows && k.owner in owners :: k.start
  }

  ghost predicate IsLeast(m: nat, s: set<nat>) { m in s && forall x :: x in s ==> m <= x }

  lemma {:induction false} LeastExists(s: set<nat>)
    requires s != {}
    ensures exists m: nat :: IsLeast(m, s)
  {
    var y :| y in s;
    var rest := s - {y};
    if rest == {} {
      assert s == {y};
      assert IsLeast(y, s);
    } else {
      LeastExists(rest);
      var m: nat :| IsLeast(m, rest);
      assert forall x :: x in s ==> x == y || x in rest;
      assert IsLeast(if y <= m then y else m, s);
    }
  }

  ghost function Oldest(s: set<nat>): (m: nat)
    requires s != {}
    ensures IsLeast(m, s)
  {
    LeastExists(s);
    var m: nat :| IsLeast(m, s);
    m
  }

  /** Where catch-up starts: past the last rolled bucket, and no earlier than the oldest finer row. */
  ghost function FirstBucket(fine: Rows, owners: set<nat>, rolled: nat, step: nat): nat
    requires step > 0 && Starts(fine, owners) != {}
  {
    var first := Floor(Oldest(Starts(fine, owners)), step);
    if rolled != 0 && rolled + step > first then rolled + step else first
  }

  /** A write that landed in a bucket already rolled. */
  predicate LateRoll(rolled: nat, step: nat, written: nat)
    requires step > 0
  {
    rolled != 0 && Floor(written, step) <= rolled
  }

  /** The last bucket that ends by the horizon. */
  function LastClosed(horizon: nat, step: nat): nat
    requires step > 0
  {
    if Floor(horizon, step) >= step then Floor(horizon, step) - step else 0
  }

  /** One coarser tier's part of rollTx: its rows and its last rolled bucket afterwards. */
  ghost function RollTier(fine: Rows, coarse: Rows, owners: set<nat>, rolled: nat, step: nat, written: nat, horizon: nat): (Rows, nat)
    requires step > 0
  {
    var again := if LateRoll(rolled, step, written) then RollBucket(Folds(fine, step), coarse, owners, Floor(written, step)) else coarse;
    if Starts(fine, owners) == {} then
      (again, if LastClosed(horizon, step) > rolled then LastClosed(horizon, step) else rolled)
    else
      var first := FirstBucket(fine, owners, rolled, step);
      (RollRange(Folds(fine, step), again, owners, first, step, horizon),
       if first + step <= horizon then LastClosed(horizon, step) else rolled)
  }

  /** The coarser tiers below index n, rolled in order, finest first. */
  ghost function RollUpTo(c: Config, rows: seq<Rows>, rolled: seq<nat>, owners: set<nat>, written: nat, horizon: nat, n: nat): (r: (seq<Rows>, seq<nat>))
    requires ValidConfig(c) && |rows| == |rolled| == |c.tiers| && n <= |c.tiers|
    ensures |r.0| == |rows| && |r.1| == |rolled|
    ensures n <= 1 ==> r == (rows, rolled)
    ensures forall i :: n <= i < |rows| ==> r.0[i] == rows[i] && r.1[i] == rolled[i]
    ensures |rows| > 0 ==> r.0[0] == rows[0] && r.1[0] == rolled[0]
  {
    if n <= 1 then (rows, rolled)
    else
      var (rs, q) := RollUpTo(c, rows, rolled, owners, written, horizon, n - 1);
      var (coarse, last) := RollTier(rs[n - 2], rs[n - 1], owners, q[n - 1], c.tiers[n - 1].res, written, horizon);
      (rs[n - 1 := coarse], q[n - 1 := last])
  }

  function TrimRows(rows: Rows, cutoff: int): Rows {
    map k | k in rows && k.start >= cutoff :: rows[k]
  }

  ghost function TrimAll(c: Config, rows: seq<Rows>, horizon: nat): seq<Rows>
    requires |rows| == |c.tiers|
  {
    seq(|rows|, i requires 0 <= i < |rows| => TrimRows(rows[i], horizon - c.tiers[i].keep))
  }

  ghost function TrimmedNow(c: Config, rows: seq<Rows>, horizon: nat): set<Trimmed>
    requires |rows| == |c.tiers|
  {
    set i, k | 0 <= i < |rows| && k in rows[i] && k.start < horizon - c.tiers[i].keep :: Trimmed(i, k)
  }

  function WriteEnd(c: Config, at: nat): nat
    requires ValidConfig(c)
  {
    Floor(at, c.tiers[0].res) + c.tiers[0].res
  }

  function PrevHorizon(c: Config, st: State, at: nat): nat
    requires ValidConfig(c)
  {
    if st.horizon == 0 then WriteEnd(c, at) else st.horizon
  }

  predicate Late(c: Config, st: State, at: nat)
    requires ValidConfig(c)
  {
    TooLate(c, Floor(at, c.tiers[0].res), PrevHorizon(c, st, at))
  }

  /** How far this write may trim and roll. */
  function WriteHorizon(c: Config, st: State, at: nat): nat
    requires ValidConfig(c)
  {
    var prev := PrevHorizon(c, st, at);
    if WriteEnd(c, at) <= prev + MAX_HORIZON_ADVANCE then WriteEnd(c, at) else prev + MAX_HORIZON_ADVANCE
  }

  predicate Shaped(c: Config, st: State) { |st.rows| == |st.rolled| == |c.tiers| }

  /** The state after the write's rows are in and the coarser tiers are rolled, before trimming. */
  ghost function RolledUp(c: Config, st: State, at: nat, samples: seq<Sample>): (seq<Rows>, seq<nat>)
    requires ValidConfig(c) && Shaped(c, st)
  {
    var minute := Floor(at, c.tiers[0].res);
    var (cat, batch) := AdmitAll(c, st.cat, minute, samples);
    RollUpTo(c, st.rows[0 := PutBatch(st.rows[0], batch, minute)], st.rolled, OwnerIDs(cat), minute, WriteHorizon(c, st, at), |c.tiers|)
  }

  ghost function Write(c: Config, st: State, at: nat, samples: seq<Sample>): (st': State)
    requires ValidConfig(c) && Shaped(c, st)
    ensures Shaped(c, st')
  {
    if Late(c, st, at) then st
    else
      var minute := Floor(at, c.tiers[0].res);
      var horizon := WriteHorizon(c, st, at);
      var prev := PrevHorizon(c, st, at);
      var (cat, batch) := AdmitAll(c, st.cat, minute, samples);
      var (rows, rolled) := RolledUp(c, st, at, samples);
      State(TrimAll(c, rows, horizon), cat, rolled, if prev <= horizon then horizon else prev,
            st.accepted + batch, st.trimmed + TrimmedNow(c, rows, horizon))
  }

  /** Coarse bucket s of tier i is rebuilt from tier i - 1 by this write. */
  ghost predicate Rebuilds(c: Config, st: State, at: nat, samples: seq<Sample>, i: nat, s: nat)
    requires ValidConfig(c) && Shaped(c, st) && 0 < i < |c.tiers|
  {
    var minute := Floor(at, c.tiers[0].res);
    var fine := RolledUp(c, st, at, samples).0[i - 1];
    var owners := OwnerIDs(AdmitAll(c, st.cat, minute, samples).0);
    !Late(c, st, at) && RebuildsTier(fine, owners, st.rolled[i], c.tiers[i].res, minute, WriteHorizon(c, st, at), s)
  }

  /** The buckets RollTier rebuilds: the late one, and the catch-up range. */
  ghost predicate RebuildsTier(fine: Rows, owners: set<nat>, rolled: nat, step: nat, written: nat, horizon: nat, s: nat)
    requires step > 0
  {
    || (LateRoll(rolled, step, written) && s == Floor(written, step))
    || (Starts(fine, owners) != {} && Aligned(s, step) && FirstBucket(fine, owners, rolled, step) <= s && s + step <= horizon)
  }
}
