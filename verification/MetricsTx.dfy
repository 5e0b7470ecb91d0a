/** The loops of one write transaction (internal/metricsdb/metricsdb.go): each
    method computes the step of the model it is named after. */
module MetricsTx {
  import opened Points
  import opened Buckets
  import opened MetricsModel
  import opened MetricsSums
  import opened MetricsCatalog
  import opened MetricsRoll

  method FloorUnix(unix: nat, step: nat) returns (s: nat)
    requires step > 0
    ensures s == Floor(unix, step)
  {
    FloorUnixRoundsDown(unix, step, Buckets.FloorUnix(unix, step));
    FloorProps(unix, step);
    s := Buckets.FloorUnix(unix, step);
  }

  method TooLateFor(c: Config, minute: nat, horizon: nat) returns (late: bool)
    requires ValidConfig(c)
    ensures late == TooLate(c, minute, horizon)
  {
    if minute < horizon - c.tiers[0].keep { return true; }
    for i := 1 to |c.tiers|
      invariant forall j :: 0 < j < i ==> Floor(minute, c.tiers[j].res) >= horizon - c.tiers[j - 1].keep
    {
      var s := FloorUnix(minute, c.tiers[i].res);
      if s < horizon - c.tiers[i - 1].keep { return true; }
    }
    return false;
  }

  /*** The catalog ***/

  /** How many series each owner has, kept as a running count. */
  ghost predicate CountsOK(counts: map<nat, nat>, series: map<SeriesKey, Meta>) {
    forall o: nat :: CountOf(counts, o) == |OwnerSeries(series, o)|
  }

  function CountOf(counts: map<nat, nat>, o: nat): nat { if o in counts then counts[o] else 0 }

  method ResolveSeries(c: Config, cat: Catalog, counts: map<nat, nat>, owner: string, name: string, kind: Kind)
    returns (cat': Catalog, counts': map<nat, nat>, r: Resolved)
    requires ValidConfig(c) && CatalogOK(c, cat) && CountsOK(counts, cat.series)
    ensures (cat', r) == Resolve(c, cat, owner, name, kind) && CountsOK(counts', cat'.series)
  {
    hide CatalogOK, OwnerSeries, CountsOK;
    KnownOK(c, cat, owner, name);
    assert forall o: nat :: CountOf(counts, o) == |OwnerSeries(cat.series, o)| by { CountIs(counts, cat.series); }
    cat', counts' := cat, counts;
    var id := if owner in cat.owners then cat.owners[owner] else cat.nextOwner + 1;
    var key := SeriesKey(id, name);
    if owner in cat.owners && key in cat.series {
      r := if cat.series[key].kind != kind then Refused(KindMismatch) else Found(id, cat.series[key].id);
      return;
    }
    if CountOf(counts, id) >= c.maxSeriesPerOwner { r := Refused(OwnerCap); return; }
    if |cat.series| >= c.maxSeries { r := Refused(TotalCap); return; }
    var sid := cat.nextSeries + 1;
    if owner !in cat.owners { cat' := cat'.(owners := cat.owners[owner := id], nextOwner := id); }
    cat' := cat'.(series := cat.series[key := Meta(sid, kind)], refs := cat.refs[sid := Ref(id, name, kind)], nextSeries := sid);
    counts' := counts[id := CountOf(counts, id) + 1];
    r := Found(id, sid);
    assert cat'.owners == cat.owners[owner := id];
    CountOne(counts, cat.series, key, Meta(sid, kind));
  }

  lemma CountIs(counts: map<nat, nat>, series: map<SeriesKey, Meta>)
    requires CountsOK(counts, series)
    ensures forall o: nat :: CountOf(counts, o) == |OwnerSeries(series, o)|
  {}

  lemma CountOne(counts: map<nat, nat>, series: map<SeriesKey, Meta>, k: SeriesKey, m: Meta)
    requires CountsOK(counts, series) && k !in series
    ensures CountsOK(counts[k.owner := CountOf(counts, k.owner) + 1], series[k := m])
  {
    var counts' := counts[k.owner := CountOf(counts, k.owner) + 1];
    forall o: nat ensures CountOf(counts', o) == |OwnerSeries(series[k := m], o)| {
      OwnerSeriesAdd(series, k, m, o);
    }
  }

  ghost predicate Gathered(byOwner: map<nat, Row>, batch: seq<Accepted>, minute: nat) {
    && byOwner.Keys == (set x | x in batch :: x.owner)
    && forall o :: o in byOwner ==> byOwner[o] == SumIf(batch, InBucket(o, minute, minute + 1))
  }

  lemma GatherOne(byOwner: map<nat, Row>, batch: seq<Accepted>, minute: nat, x: Accepted)
    requires Gathered(byOwner, batch, minute) && x.minute == minute
    ensures Gathered(byOwner[x.owner := MergeRow(if x.owner in byOwner then byOwner[x.owner] else EMPTY_ROW, map[x.series := x.point])],
                     batch + [x], minute)
  {
    var next := batch + [x];
    assert next[..|next| - 1] == batch && next[|next| - 1] == x;
    assert forall y :: y in next <==> y in batch || y == x;
    if x.owner !in byOwner { SumNone(batch, InBucket(x.owner, minute, minute + 1)); }
  }

  /** How many samples of a write are refused: Admit's third result counted over the batch. */
  function RefusedOf(c: Config, cat: Catalog, minute: nat, samples: seq<Sample>): nat {
    if samples == [] then 0
    else
      var init := samples[..|samples| - 1];
      RefusedOf(c, cat, minute, init) + if Admit(c, AdmitAll(c, cat, minute, init).0, minute, samples[|samples| - 1]).2 then 1 else 0
  }

  /** The sample loop: samples resolved, refused or skipped, and merged per owner; the refused are counted. */
  method AdmitSamples(c: Config, cat0: Catalog, counts0: map<nat, nat>, minute: nat, samples: seq<Sample>)
    returns (cat: Catalog, counts: map<nat, nat>, byOwner: map<nat, Row>, refused: nat, ghost batch: seq<Accepted>)
    requires ValidConfig(c) && CatalogOK(c, cat0) && CountsOK(counts0, cat0.series)
    ensures (cat, batch) == AdmitAll(c, cat0, minute, samples) && CountsOK(counts, cat.series)
    ensures CatalogOK(c, cat) && Gathered(byOwner, batch, minute) && refused == RefusedOf(c, cat0, minute, samples)
  {
    hide CatalogOK, CountsOK, Gathered, Resolve;
    cat, counts, byOwner, refused, batch := cat0, counts0, map[], 0, [];
    assert Gathered(byOwner, batch, minute) by { GatheredNone(minute); }
    for n := 0 to |samples|
      invariant (cat, batch) == AdmitAll(c, cat0, minute, samples[..n]) && CountsOK(counts, cat.series)
      invariant CatalogOK(c, cat) && Gathered(byOwner, batch, minute) && refused == RefusedOf(c, cat0, minute, samples[..n])
    {
      var s := samples[n];
      assert samples[..n + 1][..n] == samples[..n] && samples[..n + 1][n] == s;
      AdmitOK(c, cat, minute, s);
      if (s.kind != 1 && s.kind != 2) || !ValidName(s.owner) || !ValidName(s.name) {
        refused := refused + 1;
        continue;
      }
      var p := SamplePoint(s).value;
      if p.Empty() { continue; }
      var r;
      cat, counts, r := ResolveSeries(c, cat, counts, s.owner, s.name, p.Kind());
      if r.Found? {
        ghost var x := Accepted(minute, r.owner, r.series, p);
        GatherOne(byOwner, batch, minute, x);
        var pts := if r.owner in byOwner then byOwner[r.owner] else EMPTY_ROW;
        byOwner := byOwner[r.owner := MergeRow(pts, map[r.series := p])];
        batch := batch + [x];
      } else {
        refused := refused + 1;
      }
    }
    assert samples[..|samples|] == samples;
  }

  lemma GatheredNone(minute: nat)
    ensures Gathered(map[], [], minute)
  {}

  /** The finest tier once the given owners' points are stored. */
  ghost function PutSome(rows: Rows, byOwner: map<nat, Row>, owners: set<nat>, minute: nat): Rows {
    var puts := set o | o in owners && o in byOwner :: Key(o, minute);
    map k | k in rows.Keys + puts :: if k in puts then MergeRow(byOwner[k.owner], Get(rows, k.owner, minute)) else rows[k]
  }

  lemma PutSomeKey(rows: Rows, byOwner: map<nat, Row>, owners: set<nat>, minute: nat, k: Key)
    ensures var r := PutSome(rows, byOwner, owners, minute);
            if k.start == minute && k.owner in owners && k.owner in byOwner
            then k in r && r[k] == MergeRow(byOwner[k.owner], Get(rows, k.owner, minute))
            else (k in r <==> k in rows) && (k in r ==> r[k] == rows[k])
  {
    hide MergeRow;
    assert k.start == minute ==> k == Key(k.owner, minute);
  }

  lemma PutSomeOne(rows: Rows, byOwner: map<nat, Row>, owners: set<nat>, minute: nat, o: nat)
    requires o !in owners && o in byOwner
    ensures PutSome(rows, byOwner, owners + {o}, minute) ==
            PutSome(rows, byOwner, owners, minute)[Key(o, minute) := MergeRow(byOwner[o], Get(rows, o, minute))]
    ensures Get(PutSome(rows, byOwner, owners, minute), o, minute) == Get(rows, o, minute)
  {
    hide PutSome, MergeRow;
    var l, r := PutSome(rows, byOwner, owners + {o}, minute), PutSome(rows, byOwner, owners, minute)[Key(o, minute) := MergeRow(byOwner[o], Get(rows, o, minute))];
    forall k ensures (k in l <==> k in r) && (k in l ==> l[k] == r[k]) {
      PutSomeKey(rows, byOwner, owners, minute, k);
      PutSomeKey(rows, byOwner, owners + {o}, minute, k);
    }
    PutSomeKey(rows, byOwner, owners, minute, Key(o, minute));
  }

  lemma PutAllIs(rows: Rows, byOwner: map<nat, Row>, batch: seq<Accepted>, minute: nat)
    requires Gathered(byOwner, batch, minute)
    ensures PutSome(rows, byOwner, byOwner.Keys, minute) == PutBatch(rows, batch, minute)
  {
    hide PutSome, MergeRow, SumIf;
    var l, r := PutSome(rows, byOwner, byOwner.Keys, minute), PutBatch(rows, batch, minute);
    forall k ensures (k in l <==> k in r) && (k in l ==> l[k] == r[k]) {
      PutSomeKey(rows, byOwner, byOwner.Keys, minute, k);
      var touched := set x | x in batch :: Key(x.owner, minute);
      if k.owner in byOwner {
        var x :| x in batch && x.owner == k.owner;
        assert Key(x.owner, minute) in touched;
      }
    }
  }

  /** Each owner's points merged with the row its minute already holds, and stored. */
  method PutRows(rows: Rows, byOwner: map<nat, Row>, minute: nat, ghost batch: seq<Accepted>) returns (fb: Rows)
    requires Gathered(byOwner, batch, minute)
    ensures fb == PutBatch(rows, batch, minute)
  {
    hide PutBatch, PutSome, Gathered;
    fb := rows;
    var todo := byOwner.Keys;
    assert byOwner.Keys - todo == {} && PutSome(rows, byOwner, {}, minute) == rows by { PutNone(rows, byOwner, minute); }
    while todo != {}
      invariant todo <= byOwner.Keys && fb == PutSome(rows, byOwner, byOwner.Keys - todo, minute)
      decreases todo
    {
      var o :| o in todo;
      var key := Key(o, minute);
      PutSomeOne(rows, byOwner, byOwner.Keys - todo, minute, o);
      assert byOwner.Keys - todo + {o} == byOwner.Keys - (todo - {o});
      var pts := byOwner[o];
      if key in fb { pts := MergeRow(pts, fb[key]); } else { assert MergeRow(pts, EMPTY_ROW) == pts; }
      fb := fb[key := pts];
      todo := todo - {o};
    }
    assert byOwner.Keys - todo == byOwner.Keys;
    PutAllIs(rows, byOwner, batch, minute);
  }

  lemma PutNone(rows: Rows, byOwner: map<nat, Row>, minute: nat)
    ensures PutSome(rows, byOwner, {}, minute) == rows
  {}

  /*** Rolling ***/

  /** The rows of one owner in [lo, hi), read oldest first and merged. */
  method FoldRows(rows: Rows, owner: nat, lo: nat, hi: nat) returns (pts: Row)
    requires lo <= hi
    ensures pts == FoldRange(rows, owner, lo, hi)
  {
    pts := EMPTY_ROW;
    for t := lo to hi
      invariant pts == FoldRange(rows, owner, lo, t)
    {
      if Key(owner, t) in rows { pts := MergeRow(pts, rows[Key(owner, t)]); } else { assert MergeRow(pts, EMPTY_ROW) == pts; }
    }
  }

  lemma RollBucketOne(fold: (nat, nat) -> Row, coarse: Rows, owners: set<nat>, s: nat, o: nat)
    requires o !in owners
    ensures RollBucket(fold, coarse, owners + {o}, s) ==
            (if fold(o, s) == EMPTY_ROW then RollBucket(fold, coarse, owners, s) - {Key(o, s)}
             else RollBucket(fold, coarse, owners, s)[Key(o, s) := fold(o, s)])
  {
    hide RollBucket;
    var was := RollBucket(fold, coarse, owners, s);
    var l, r := RollBucket(fold, coarse, owners + {o}, s), if fold(o, s) == EMPTY_ROW then was - {Key(o, s)} else was[Key(o, s) := fold(o, s)];
    forall k ensures (k in l <==> k in r) && (k in l ==> l[k] == r[k]) {
      RollBucketKey(fold, coarse, owners, s, k);
      RollBucketKey(fold, coarse, owners + {o}, s, k);
    }
  }

  lemma RollBucketNone(fold: (nat, nat) -> Row, coarse: Rows, s: nat)
    ensures RollBucket(fold, coarse, {}, s) == coarse
  {}

  /** Coarse bucket s of every owner rebuilt from the finer tier. */
  method RollOneBucket(fine: Rows, coarse: Rows, owners: set<nat>, s: nat, step: nat) returns (cb: Rows)
    ensures cb == RollBucket(Folds(fine, step), coarse, owners, s)
  {
    hide FoldRange, RollBucket;
    cb := coarse;
    var todo := owners;
    ghost var fold := Folds(fine, step);
    assert owners - todo == {} && RollBucket(fold, coarse, {}, s) == coarse by { RollBucketNone(fold, coarse, s); }
    while todo != {}
      invariant todo <= owners && cb == RollBucket(fold, coarse, owners - todo, s)
      decreases todo
    {
      var o :| o in todo;
      RollBucketOne(fold, coarse, owners - todo, s, o);
      assert owners - todo + {o} == owners - (todo - {o});
      var pts := FoldRows(fine, o, s, s + step);
      assert pts == fold(o, s) && (|pts| == 0 <==> pts == EMPTY_ROW);
      if |pts| == 0 { cb := cb - {Key(o, s)}; } else { cb := cb[Key(o, s) := pts]; }
      todo := todo - {o};
    }
    assert owners - todo == owners;
  }

  /** The first row of one owner, by time. */
  method FirstRow(rows: Rows, owner: nat) returns (found: bool, at: nat)
    ensures found <==> exists k :: k in rows && k.owner == owner
    ensures found ==> Key(owner, at) in rows && forall k :: k in rows && k.owner == owner ==> at <= k.start
  {
    found, at := false, 0;
    var todo := rows.Keys;
    while todo != {}
      invariant todo <= rows.Keys
      invariant found <==> exists k :: k in rows.Keys - todo && k.owner == owner
      invariant found ==> Key(owner, at) in rows && forall k :: k in rows.Keys - todo && k.owner == owner ==> at <= k.start
      decreases todo
    {
      var k :| k in todo;
      ghost var before := rows.Keys - todo;
      assert rows.Keys - (todo - {k}) == before + {k};
      if k.owner == owner && (!found || k.start < at) { found, at := true, k.start; }
      todo := todo - {k};
    }
    assert rows.Keys - todo == rows.Keys;
  }

  /** The start of the oldest row any of the owners has. */
  method OldestRow(rows: Rows, owners: set<nat>) returns (any: bool, oldest: nat)
    ensures any <==> Starts(rows, owners) != {}
    ensures any ==> oldest == Oldest(Starts(rows, owners))
  {
    any, oldest := false, 0;
    var todo := owners;
    while todo != {}
      invariant todo <= owners
      invariant any <==> Starts(rows, owners - todo) != {}
      invariant any ==> IsLeast(oldest, Starts(rows, owners - todo))
      decreases todo
    {
      var o :| o in todo;
      ghost var before := owners - todo;
      assert owners - (todo - {o}) == before + {o};
      var found, at := FirstRow(rows, o);
      StartsOne(rows, before, o, found, at);
      if found && (!any || at < oldest) { any, oldest := true, at; }
      todo := todo - {o};
    }
    assert owners - todo == owners;
  }

  lemma StartsOne(rows: Rows, owners: set<nat>, o: nat, found: bool, at: nat)
    requires found <==> exists k :: k in rows && k.owner == o
    requires found ==> Key(o, at) in rows && forall k :: k in rows && k.owner == o ==> at <= k.start
    ensures forall x :: x in Starts(rows, owners) ==> x in Starts(rows, owners + {o})
    ensures found ==> at in Starts(rows, owners + {o})
    ensures forall x :: x in Starts(rows, owners + {o}) ==> x in Starts(rows, owners) || (found && at <= x)
  {
    if found { assert Key(o, at).owner in owners + {o}; }
    forall x | x in Starts(rows, owners + {o}) ensures x in Starts(rows, owners) || (found && at <= x) {
      var k :| k in rows && k.owner in owners + {o} && k.start == x;
    }
    forall x | x in Starts(rows, owners) ensures x in Starts(rows, owners + {o}) {
      var k :| k in rows && k.owner in owners && k.start == x;
      assert k.owner in owners + {o};
    }
  }

  /** One coarser tier: a late write's bucket again, then every bucket closed since. */
  method RollOneTier(fine: Rows, coarse: Rows, owners: set<nat>, rolled: nat, step: nat, written: nat, horizon: nat) returns (cb: Rows, last: nat)
    requires step > 0 && Aligned(rolled, step)
    ensures (cb, last) == RollTier(fine, coarse, owners, rolled, step, written, horizon)
  {
    hide RollBucket, FoldRange, Floor;
    cb, last := coarse, rolled;
    var s := FloorUnix(written, step);
    if rolled != 0 && s <= rolled { cb := RollOneBucket(fine, cb, owners, s, step); }
    ghost var again := cb;
    var closedEnd := FloorUnix(horizon, step);
    var any, oldest := OldestRow(fine, owners);
    if !any {
      if closedEnd - step > last { last := closedEnd - step; }
    } else {
      var first := FloorUnix(oldest, step);
      FloorProps(oldest, step);
      AlignedNext(rolled, step);
      if rolled != 0 && rolled + step > first { first := rolled + step; }
      s := first;
      while s + step <= horizon
        invariant first <= s && Aligned(s, step)
        invariant RollRange(Folds(fine, step), cb, owners, s, step, horizon) == RollRange(Folds(fine, step), again, owners, first, step, horizon)
        invariant s == first ==> last == rolled
        invariant s > first ==> s <= horizon && last == s - step && first + step <= horizon
        decreases horizon - s
      {
        AlignedNext(s, step);
        cb := RollOneBucket(fine, cb, owners, s, step);
        last := s;
        s := s + step;
      }
      if s > first { FloorUnique(horizon, s, step); }
    }
  }

  /** rollTx: the coarser tiers in order, each from the tier below. */
  method RollAll(c: Config, rows0: seq<Rows>, rolled0: seq<nat>, owners: set<nat>, written: nat, horizon: nat) returns (rows: seq<Rows>, rolled: seq<nat>)
    requires ValidConfig(c) && |rows0| == |rolled0| == |c.tiers|
    requires forall i :: 0 <= i < |c.tiers| ==> Aligned(rolled0[i], c.tiers[i].res)
    ensures (rows, rolled) == RollUpTo(c, rows0, rolled0, owners, written, horizon, |c.tiers|)
  {
    hide RollTier, Aligned;
    rows, rolled := rows0, rolled0;
    for i := 1 to |c.tiers|
      invariant (rows, rolled) == RollUpTo(c, rows0, rolled0, owners, written, horizon, i)
    {
      var cb, last := RollOneTier(rows[i - 1], rows[i], owners, rolled[i], c.tiers[i].res, written, horizon);
      rows, rolled := rows[i := cb], rolled[i := last];
    }
  }

  /*** Trimming ***/

  /** One owner's rows that start before the cutoff, deleted oldest first. */
  method TrimOwner(rows: Rows, owner: nat, cutoff: int) returns (b: Rows)
    ensures b == map k | k in rows && (k.owner != owner || k.start >= cutoff) :: rows[k]
  {
    b := rows;
    var found: bool, at: nat;
    found, at := FirstRow(b, owner);
    while found && at < cutoff
      invariant found <==> exists k :: k in b && k.owner == owner
      invariant found ==> Key(owner, at) in b && forall k :: k in b && k.owner == owner ==> at <= k.start
      invariant b.Keys <= rows.Keys && forall k :: k in b ==> b[k] == rows[k]
      invariant forall k :: k in rows && k !in b ==> k.owner == owner && k.start < cutoff
      decreases b.Keys
    {
      ghost var was := b;
      b := b - {Key(owner, at)};
      assert Key(owner, at) in was.Keys && Key(owner, at) !in b.Keys;
      found, at := FirstRow(b, owner);
    }
  }

  method TrimTier(rows: Rows, owners: set<nat>, cutoff: int) returns (b: Rows)
    requires forall k :: k in rows ==> k.owner in owners
    ensures b == TrimRows(rows, cutoff)
  {
    b := rows;
    var todo := owners;
    while todo != {}
      invariant todo <= owners
      invariant b == map k | k in rows && (k.owner in todo || k.start >= cutoff) :: rows[k]
      decreases todo
    {
      var o :| o in todo;
      b := TrimOwner(b, o, cutoff);
      todo := todo - {o};
    }
  }

  /** trimTx: every tier measured back from the horizon. */
  method TrimTx(c: Config, rows0: seq<Rows>, owners: set<nat>, horizon: nat) returns (rows: seq<Rows>)
    requires |rows0| == |c.tiers| && forall i, k :: 0 <= i < |rows0| && k in rows0[i] ==> k.owner in owners
    ensures rows == TrimAll(c, rows0, horizon)
  {
    hide TrimRows;
    rows := rows0;
    for i := 0 to |c.tiers|
      invariant |rows| == |rows0|
      invariant forall j :: 0 <= j < i ==> rows[j] == TrimRows(rows0[j], horizon - c.tiers[j].keep)
      invariant forall j :: i <= j < |rows0| ==> rows[j] == rows0[j]
    {
      var b := TrimTier(rows[i], owners, horizon - c.tiers[i].keep);
      rows := rows[i := b];
    }
  }
}
