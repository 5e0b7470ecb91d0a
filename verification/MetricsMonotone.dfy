/** When write instants never go backwards, every tier is exact, however long
    the store was down in between. */
module MetricsMonotone {
  import opened Points
  import opened Buckets
  import opened MetricsModel
  import opened MetricsSums
  import opened MetricsCatalog
  import opened MetricsRoll
  import opened MetricsInvariant

  /** Closed and retained buckets of tier i, the epoch's own only with room. */
  ghost predicate ClosedBucket(c: Config, i: nat, s: nat, h: nat)
    requires ValidConfig(c) && 0 < i < |c.tiers|
  {
    Aligned(s, c.tiers[i].res) && (0 < s || Roomy(c)) && s + c.tiers[i].res <= h && s >= h - c.tiers[i].keep
  }

  ghost predicate AllExact(c: Config, st: State, h: nat)
    requires ValidConfig(c) && Shaped(c, st)
  {
    forall i, o: nat, s: nat :: 0 < i < |c.tiers| && ClosedBucket(c, i, s, h) ==> Exact(st.rows[i], st.accepted, o, s, c.tiers[i].res)
  }

  /** A sample whose bucket is past the last rolled one lies in a bucket still open. */
  ghost predicate UnrolledOpen(c: Config, st: State, h: nat)
    requires ValidConfig(c) && Shaped(c, st)
  {
    forall i, x :: 0 < i < |c.tiers| && x in st.accepted && Floor(x.minute, c.tiers[i].res) > st.rolled[i]
                   ==> Floor(x.minute, c.tiers[i].res) + c.tiers[i].res > h
  }

  ghost predicate AllRetained(c: Config, st: State, h: nat)
    requires ValidConfig(c) && Shaped(c, st)
  {
    forall i, k :: 0 <= i < |c.tiers| && k in st.rows[i] ==> k.start >= h - c.tiers[i].keep
  }

  /** A sample in bucket 0 of a tier that has rolled no later one: the next bucket is still open. */
  ghost predicate ZeroOpen(c: Config, st: State, h: nat)
    requires ValidConfig(c) && Shaped(c, st)
  {
    Roomy(c) ==> forall i, x :: 0 < i < |c.tiers| && x in st.accepted && x.minute < c.tiers[i].res && st.rolled[i] == 0 ==> h < 2 * c.tiers[i].res
  }

  /** Only closed buckets have a coarser row. */
  ghost predicate ClosedRows(c: Config, st: State, h: nat)
    requires ValidConfig(c) && Shaped(c, st)
  {
    forall i, k :: 0 < i < |c.tiers| && k in st.rows[i] ==> k.start + c.tiers[i].res <= h
  }

  ghost predicate MonoAt(c: Config, st: State, h: nat)
    requires ValidConfig(c) && Shaped(c, st)
  {
    AllExact(c, st, h) && UnrolledOpen(c, st, h) && AllRetained(c, st, h) && ZeroOpen(c, st, h) && ClosedRows(c, st, h)
  }

  /** The invariant of a run whose last write went into minute `last`. */
  ghost predicate Mono(c: Config, st: State, last: nat)
    requires ValidConfig(c) && Shaped(c, st)
  {
    MonoAt(c, st, st.horizon) && st.horizon <= last + c.tiers[0].res
  }

  lemma BlankMono(c: Config, st: State, h: nat)
    requires ValidConfig(c) && Blank(c, st)
    ensures MonoAt(c, st, h)
  {
    forall o: nat, s: nat, step: nat ensures Exact(map[], [], o, s, step) {}
  }

  ghost predicate MonoTxn(t: Txn, last: nat) {
    t.Ok() && Mono(t.c, t.st, last) && last <= t.Minute()
  }

  lemma Ahead(t: Txn, last: nat)
    requires MonoTxn(t, last)
    ensures t.Prev() <= t.H() == t.Next() <= t.Minute() + t.c.tiers[0].res
    ensures MonoAt(t.c, t.st, t.Prev())
  {
    if t.st.horizon == 0 { BlankMono(t.c, t.st, t.Prev()); }
  }

  /** A clock that never goes back never has a write refused as late. */
  lemma NeverLate(c: Config, st: State, at: nat, last: nat)
    requires ValidConfig(c) && Shaped(c, st) && Mono(c, st, last) && last <= Floor(at, c.tiers[0].res)
    ensures !Late(c, st, at)
  {
    var minute, prev := Floor(at, c.tiers[0].res), PrevHorizon(c, st, at);
    FloorProps(at, c.tiers[0].res);
    forall i | 0 < i < |c.tiers| ensures Floor(minute, c.tiers[i].res) >= prev - c.tiers[i - 1].keep {
      TierOrder(c, i);
      DividesFinest(c, i);
      Nested(minute, c.tiers[0].res, c.tiers[i].res);
      FloorUnique(minute, minute, c.tiers[0].res);
    }
  }

  lemma {:induction false} DividesFinest(c: Config, i: nat)
    requires ValidConfig(c) && i < |c.tiers|
    ensures Aligned(c.tiers[i].res, c.tiers[0].res)
  {
    if i > 0 {
      DividesFinest(c, i - 1);
      TierOrder(c, i);
      AlignedCoarse(c.tiers[i].res, c.tiers[0].res, c.tiers[i - 1].res);
    }
  }

  /** A bucket of tier i that is final once everything up to h is rolled, given retention behind prev. */
  ghost predicate Settled(c: Config, i: nat, s: nat, prev: nat, h: nat)
    requires ValidConfig(c) && i < |c.tiers|
  {
    && Aligned(s, c.tiers[i].res) && s >= prev - c.tiers[i].keep
    && (i > 0 ==> (s > 0 || Roomy(c)) && s + c.tiers[i].res <= h)
  }

  /** Rows of tier i whose settled buckets are exact and which hold nothing retention should have dropped. */
  ghost predicate RowsDone(c: Config, i: nat, rows: Rows, acc: seq<Accepted>, prev: nat, h: nat)
    requires ValidConfig(c) && i < |c.tiers|
  {
    && (forall k :: k in rows && (k.start > 0 || Roomy(c)) ==> k.start >= prev - c.tiers[i].keep)
    && (i > 0 ==> forall k :: k in rows ==> k.start + c.tiers[i].res <= h)
    && (forall o: nat, s: nat :: Settled(c, i, s, prev, h) ==> Exact(rows, acc, o, s, c.tiers[i].res))
  }

  lemma FoldSettled(c: Config, i: nat, rows: Rows, acc: seq<Accepted>, o: nat, s: nat, prev: nat, h: nat, owners: set<nat>, kinds: map<nat, Kind>)
    requires ValidConfig(c) && 0 < i < |c.tiers| && RowsDone(c, i - 1, rows, acc, prev, h)
    requires WellFormed(rows, owners, c.tiers[i - 1].res, kinds) && KindedSamples(kinds, acc)
    requires Aligned(s, c.tiers[i].res) && (0 < s || Roomy(c)) && s + c.tiers[i].res <= h
    requires s >= prev - c.tiers[i - 1].keep || forall x :: x in acc ==> Floor(x.minute, c.tiers[i].res) != s
    ensures FoldsTo(rows, acc, o, s, c.tiers[i].res)
  {
    var fine, coarse := c.tiers[i - 1].res, c.tiers[i].res;
    var cut := prev - c.tiers[i - 1].keep;
    TierOrder(c, i);
    forall b: nat | s <= b < s + coarse && Aligned(b, fine) && b >= cut ensures Exact(rows, acc, o, b, fine) {
      AlignedNext(s, coarse);
      AlignedCoarse(s + coarse, fine, coarse);
      AlignedGap(b, s + coarse, fine);
      assert Settled(c, i - 1, b, prev, h);
    }
    forall k | k in rows && Floor(k.start, coarse) == s ensures k.start >= cut {
      FloorProps(k.start, coarse);
    }
    FoldFromCut(rows, acc, o, s, fine, coarse, cut, owners, kinds);
  }

  ghost predicate TierDone(t: Txn, i: nat)
    requires t.Ok() && i < |t.c.tiers|
  {
    RowsDone(t.c, i, t.Mid().0[i], t.Acc(), t.Prev(), t.H())
  }

  /** A sample in an unrolled bucket of tier i, old or new, is past what the tier below has trimmed. */
  lemma UnrolledPastCut(t: Txn, last: nat, i: nat, x: Accepted)
    requires MonoTxn(t, last) && 0 < i < |t.c.tiers| && x in t.Acc()
    ensures var s := Floor(x.minute, t.c.tiers[i].res);
            s > t.st.rolled[i] ==> s >= t.Prev() - t.c.tiers[i - 1].keep
  {
    t.Parts();
    t.BatchFacts();
    Ahead(t, last);
    TierOrder(t.c, i);
    assert x in t.st.accepted || x in t.Batch();
  }

  lemma FoldBucket(t: Txn, last: nat, i: nat, o: nat, s: nat)
    requires MonoTxn(t, last) && 0 < i < |t.c.tiers| && TierDone(t, i - 1)
    requires Aligned(s, t.c.tiers[i].res) && (0 < s || Roomy(t.c)) && s + t.c.tiers[i].res <= t.H()
    requires Unrolled(t.c, s, t.st.rolled[i]) || s >= t.Prev() - t.c.tiers[i - 1].keep
    ensures FoldsTo(t.Mid().0[i - 1], t.Acc(), o, s, t.c.tiers[i].res)
  {
    hide RollUpTo, RollTier, FoldRange, SumIf, AdmitAll, PutBatch, MergeRow, CatalogOK, FoldsTo, Floor, Aligned, Roomy;
    t.BatchFacts();
    t.RollPre(i);
    if s < t.Prev() - t.c.tiers[i - 1].keep {
      forall x | x in t.Acc() ensures Floor(x.minute, t.c.tiers[i].res) != s {
        if s > t.st.rolled[i] { UnrolledPastCut(t, last, i, x); } else { ZeroPastCut(t, last, i, x); }
      }
    }
    FoldSettled(t.c, i, t.Mid().0[i - 1], t.Acc(), o, s, t.Prev(), t.H(), t.Owners(), t.K());
  }

  /** While tier i has rolled no bucket past 0, a sample in bucket 0 means the tier below has trimmed nothing. */
  lemma ZeroPastCut(t: Txn, last: nat, i: nat, x: Accepted)
    requires MonoTxn(t, last) && 0 < i < |t.c.tiers| && x in t.Acc() && Roomy(t.c) && t.st.rolled[i] == 0
    ensures Floor(x.minute, t.c.tiers[i].res) == 0 ==> t.Prev() < 2 * t.c.tiers[i].res <= t.c.tiers[i - 1].keep
  {
    hide RollUpTo, AdmitAll, PutBatch, CatalogOK, Floor, Roomy;
    var res := t.c.tiers[i].res;
    t.Parts();
    t.BatchFacts();
    Ahead(t, last);
    t.RoomIsLeft(i);
    TierOrder(t.c, i);
    DividesFinest(t.c, i);
    FloorProps(x.minute, res);
    MinuteInside(t.Minute(), t.c.tiers[0].res, res);
  }

  lemma MinuteInside(m: nat, fine: nat, res: nat)
    requires fine > 0 && res > 0 && Aligned(m, fine) && Aligned(res, fine)
    ensures m < res ==> m + fine <= res
  {
    AlignedGap(m, res, fine);
  }

  lemma BucketDone(t: Txn, last: nat, i: nat, o: nat, s: nat)
    requires MonoTxn(t, last) && 0 < i < |t.c.tiers| && TierDone(t, i - 1) && Settled(t.c, i, s, t.Prev(), t.H())
    ensures Exact(t.Mid().0[i], t.Acc(), o, s, t.c.tiers[i].res)
  {
    hide RollUpTo, RollTier, FoldRange, SumIf, AdmitAll, PutBatch, MergeRow, CatalogOK, FoldsTo, FoldsToNothing, Floor, Exact, Roomy;
    var r, res := t.RollAt(i), t.c.tiers[i].res;
    t.Parts();
    t.BatchFacts();
    t.RollPre(i);
    t.TierIs(i);
    Ahead(t, last);
    if o !in t.Owners() {
      t.Stranger(t.Mid().0[i], o, s, res, res);
    } else {
      if s == 0 { ZeroCases(t, last, i, o); } else if r.Rebuilds(s) { r.Range(s); }
      if r.Rebuilds(s) || s > t.st.rolled[i] {
        FoldBucket(t, last, i, o, s);
      } else if s > 0 {
        assert ClosedBucket(t.c, i, s, t.Prev());
      }
      assert s > t.st.rolled[i] ==> Key(o, s) !in t.st.rows[i];
      r.ExactAfter(t.st.accepted, t.Batch(), o, s);
    }
  }

  /** What this write makes of bucket 0: it is rolled again only while no later bucket is, and left
      alone it was exact and stays so. */
  lemma ZeroCases(t: Txn, last: nat, i: nat, o: nat)
    requires MonoTxn(t, last) && 0 < i < |t.c.tiers| && TierDone(t, i - 1) && Settled(t.c, i, 0, t.Prev(), t.H()) && o in t.Owners()
    ensures t.RollAt(i).Rebuilds(0) ==> t.st.rolled[i] == 0
    ensures !t.RollAt(i).Rebuilds(0) ==> Exact(t.st.rows[i], t.st.accepted, o, 0, t.c.tiers[i].res)
    ensures !t.RollAt(i).Rebuilds(0) ==> t.Batch() == [] || Floor(t.Minute(), t.c.tiers[i].res) != 0
  {
    hide RollUpTo, RollTier, FoldRange, SumIf, AdmitAll, PutBatch, MergeRow, CatalogOK, FoldsTo, FoldsToNothing, Floor, Exact, Roomy, Aligned;
    if t.st.rolled[i] != 0 { ZeroBehind(t, last, i, o); } else if !t.RollAt(i).Rebuilds(0) { ZeroPassed(t, last, i, o); }
  }

  lemma ZeroBehind(t: Txn, last: nat, i: nat, o: nat)
    requires MonoTxn(t, last) && 0 < i < |t.c.tiers| && Settled(t.c, i, 0, t.Prev(), t.H()) && t.st.rolled[i] != 0
    ensures !t.RollAt(i).Rebuilds(0) && Floor(t.Minute(), t.c.tiers[i].res) != 0
    ensures Exact(t.st.rows[i], t.st.accepted, o, 0, t.c.tiers[i].res)
  {
    hide RollUpTo, RollTier, FoldRange, SumIf, AdmitAll, PutBatch, CatalogOK, Floor, Exact, Roomy;
    var r, res := t.RollAt(i), t.c.tiers[i].res;
    t.Parts();
    t.RollPre(i);
    Ahead(t, last);
    assert Aligned(t.st.rolled[i], res) && t.st.rolled[i] + res <= t.Prev();
    AlignedGap(0, t.st.rolled[i], res);
    assert ClosedBucket(t.c, i, 0, t.Prev());
    FloorProps(t.Minute(), res);
    DividesFinest(t.c, i);
    MinuteInside(t.Minute(), t.c.tiers[0].res, res);
    if Starts(r.fine, r.owners) != {} { FirstBucketFacts(r.fine, r.owners, r.rolled, r.step); }
  }

  /** Bucket 0 closed and passed over while nothing was rolled: it holds neither a sample nor a row. */
  lemma ZeroPassed(t: Txn, last: nat, i: nat, o: nat)
    requires MonoTxn(t, last) && 0 < i < |t.c.tiers| && TierDone(t, i - 1) && Settled(t.c, i, 0, t.Prev(), t.H())
    requires t.st.rolled[i] == 0 && !t.RollAt(i).Rebuilds(0)
    ensures Exact(t.st.rows[i], t.st.accepted, o, 0, t.c.tiers[i].res)
    ensures t.Batch() == [] || Floor(t.Minute(), t.c.tiers[i].res) != 0
  {
    hide RollUpTo, RollTier, FoldRange, SumIf, AdmitAll, PutBatch, MergeRow, CatalogOK, FoldsTo, FoldsToNothing, Floor, Roomy, Settled;
    var res := t.c.tiers[i].res;
    forall x | x in t.Acc() ensures x.minute >= res { NoZeroSample(t, last, i, x); }
    t.Parts();
    t.BatchFacts();
    Ahead(t, last);
    SumNone(t.st.accepted, InBucket(o, 0, res));
    if Key(o, 0) in t.st.rows[i] { NoZeroRow(t, last, i, o); }
    if t.Batch() != [] {
      var x := t.Batch()[0];
      assert x in t.Batch();
      FloorProps(t.Minute(), res);
    }
  }

  lemma NoZeroSample(t: Txn, last: nat, i: nat, x: Accepted)
    requires MonoTxn(t, last) && 0 < i < |t.c.tiers| && TierDone(t, i - 1) && Settled(t.c, i, 0, t.Prev(), t.H())
    requires t.st.rolled[i] == 0 && !t.RollAt(i).Rebuilds(0) && x in t.Acc()
    ensures x.minute >= t.c.tiers[i].res
  {
    hide RollUpTo, RollTier, FoldRange, SumIf, AdmitAll, PutBatch, MergeRow, CatalogOK, FoldsTo, FoldsToNothing, Roomy;
    var r, res := t.RollAt(i), t.c.tiers[i].res;
    t.RollPre(i);
    if x.minute < res {
      FoldBucket(t, last, i, x.owner, 0);
      SampleFolds(t.Mid().0[i - 1], t.Acc(), x, 0, res);
      forall k | k in r.fine ensures Floor(k.start, res) != 0 {
        assert k.start in Starts(r.fine, r.owners);
        FirstBucketFacts(r.fine, r.owners, 0, res);
      }
      NoFineRows(r.fine, x.owner, 0, res, t.Owners(), t.c.tiers[i - 1].res, t.K());
    }
  }

  /** A row of bucket 0 is exact once there is one, so it comes from a sample. */
  lemma NoZeroRow(t: Txn, last: nat, i: nat, o: nat)
    requires MonoTxn(t, last) && 0 < i < |t.c.tiers| && Settled(t.c, i, 0, t.Prev(), t.H())
    requires (forall x :: x in t.Acc() ==> x.minute >= t.c.tiers[i].res)
    ensures Key(o, 0) !in t.st.rows[i]
  {
    hide RollUpTo, RollTier, AdmitAll, PutBatch, MergeRow, CatalogOK, Floor, Roomy, SumIf;
    var res := t.c.tiers[i].res;
    t.BatchFacts();
    Ahead(t, last);
    SumNone(t.st.accepted, InBucket(o, 0, res));
    assert WellFormed(t.st.rows[i], t.Owners(), res, t.K());
    assert Key(o, 0) in t.st.rows[i] ==> ClosedBucket(t.c, i, 0, t.Prev());
    assert Key(o, 0) in t.st.rows[i] ==> Exact(t.st.rows[i], t.st.accepted, o, 0, res);
  }

  /** A bucket that folds to something and is not rolled yet holds a sample, so it is not behind the tier below's retention. */
  lemma NewBucketRetained(t: Txn, last: nat, i: nat, o: nat, s: nat)
    requires MonoTxn(t, last) && 0 < i < |t.c.tiers| && TierDone(t, i - 1)
    requires Aligned(s, t.c.tiers[i].res) && Unrolled(t.c, s, t.st.rolled[i]) && s + t.c.tiers[i].res <= t.H()
    requires !FoldsToNothing(t.Mid().0[i - 1], o, s, t.c.tiers[i].res)
    ensures s >= t.Prev() - t.c.tiers[i - 1].keep
  {
    hide RollUpTo, RollTier, AdmitAll, PutBatch, CatalogOK, Floor, Roomy, FoldsTo, FoldsToNothing;
    FoldBucket(t, last, i, o, s);
    var x := FindSample(t.Mid().0[i - 1], t.Acc(), o, s, t.c.tiers[i].res);
    FloorUnique(x.minute, s, t.c.tiers[i].res);
    if s > t.st.rolled[i] { UnrolledPastCut(t, last, i, x); } else { ZeroPastCut(t, last, i, x); }
  }

  lemma RebuiltRetained(t: Txn, last: nat, i: nat, k: Key)
    requires MonoTxn(t, last) && 0 < i < |t.c.tiers| && TierDone(t, i - 1)
    requires k in t.Mid().0[i]
    ensures k.start > 0 || Roomy(t.c) ==> k.start >= t.Prev() - t.c.tiers[i].keep
    ensures k.start + t.c.tiers[i].res <= t.H()
  {
    hide RollUpTo, RollTier, FoldRange, SumIf, AdmitAll, PutBatch, MergeRow, CatalogOK, FoldsTo, FoldsToNothing, Floor, Aligned, Roomy;
    t.Parts();
    Ahead(t, last);
    TierOrder(t.c, i);
    t.RollPre(i);
    t.TierIs(i);
    if k !in t.st.rows[i] {
      t.RollAt(i).NewRow(k);
      NewRowBucket(t, i, k.start);
      if Unrolled(t.c, k.start, t.st.rolled[i]) { NewBucketRetained(t, last, i, k.owner, k.start); }
    }
  }

  /** A rebuilt bucket is closed; if it was rolled before, it is the one written. */
  lemma NewRowBucket(t: Txn, i: nat, s: nat)
    requires t.Ok() && 0 < i < |t.c.tiers| && t.RollAt(i).Rebuilds(s) && t.Prev() <= t.H()
    ensures Aligned(s, t.c.tiers[i].res) && s + t.c.tiers[i].res <= t.H()
    ensures s <= t.st.rolled[i] ==> t.st.rolled[i] == 0 || s == Floor(t.Minute(), t.c.tiers[i].res)
  {
    hide RollUpTo, RollTier, FoldRange, AdmitAll, PutBatch, CatalogOK, Floor;
    var r := t.RollAt(i);
    t.Parts();
    t.RollPre(i);
    r.Last();
    assert Aligned(t.st.rolled[i], r.step) && (t.st.rolled[i] != 0 ==> t.st.rolled[i] + r.step <= t.Prev());
    if Starts(r.fine, r.owners) != {} { FirstBucketFacts(r.fine, r.owners, r.rolled, r.step); }
  }

  lemma {:induction false} TierIsDone(t: Txn, last: nat, i: nat)
    requires MonoTxn(t, last) && i < |t.c.tiers|
    ensures TierDone(t, i)
  {
    hide RollUpTo, RollTier, FoldRange, SumIf, AdmitAll, PutBatch, MergeRow, CatalogOK, Floor, Aligned, Exact;
    if i == 0 {
      t.FinestIs();
      t.FreshOK();
      forall o: nat, s: nat | Settled(t.c, 0, s, t.Prev(), t.H()) ensures Exact(t.Mid().0[0], t.Acc(), o, s, t.c.tiers[0].res) { t.FreshExact(o, s); }
    } else {
      TierIsDone(t, last, i - 1);
      forall k | k in t.Mid().0[i]
        ensures (k.start > 0 || Roomy(t.c) ==> k.start >= t.Prev() - t.c.tiers[i].keep) && k.start + t.c.tiers[i].res <= t.H()
      {
        RebuiltRetained(t, last, i, k);
      }
      forall o: nat, s: nat | Settled(t.c, i, s, t.Prev(), t.H()) ensures Exact(t.Mid().0[i], t.Acc(), o, s, t.c.tiers[i].res) { BucketDone(t, last, i, o, s); }
    }
  }

  /** A closed bucket that holds a sample is behind the last rolled one. */
  lemma ClosedIsRolled(t: Txn, last: nat, i: nat, x: Accepted)
    requires MonoTxn(t, last) && 0 < i < |t.c.tiers| && x in t.Acc()
    ensures var s := Floor(x.minute, t.c.tiers[i].res);
            s > t.Mid().1[i] ==> s + t.c.tiers[i].res > t.H()
  {
    hide RollUpTo, RollTier, FoldRange, SumIf, AdmitAll, PutBatch, MergeRow, CatalogOK, FoldsTo, FoldsToNothing, Floor, Aligned;
    var r, res := t.RollAt(i), t.c.tiers[i].res;
    var s := Floor(x.minute, res);
    t.RollPre(i);
    t.TierIs(i);
    r.Last();
    FloorProps(x.minute, res);
    if s > t.Mid().1[i] && s + res <= t.H() {
      TierIsDone(t, last, i - 1);
      FoldBucket(t, last, i, x.owner, s);
      SampleFolds(t.Mid().0[i - 1], t.Acc(), x, s, res);
      r.Skipped(x.owner, s);
    }
  }

  lemma ExactAt(t: Txn, last: nat, a: State, i: nat, o: nat, s: nat)
    requires MonoTxn(t, last) && t.Result(a) && 0 < i < |t.c.tiers| && ClosedBucket(t.c, i, s, t.H()) && t.Prev() <= t.H()
    ensures Exact(a.rows[i], a.accepted, o, s, t.c.tiers[i].res)
  {
    assert Shaped(t.c, t.st);
    hide RollUpTo, RollTier, FoldRange, SumIf, AdmitAll, PutBatch, MergeRow, CatalogOK, Floor, Exact, TrimmedNow, Inv, Mono, Roomy;
    TierIsDone(t, last, i);
    assert Settled(t.c, i, s, t.Prev(), t.H());
    TrimKeepsExact(t.Mid().0[i], t.H() - t.c.tiers[i].keep, t.Acc(), o, s, t.c.tiers[i].res);
  }

  lemma ExactAfterWrite(t: Txn, last: nat, a: State)
    requires MonoTxn(t, last) && t.Result(a)
    ensures AllExact(t.c, a, a.horizon)
  {
    hide RollUpTo, AdmitAll, PutBatch, CatalogOK, Floor, Exact, TrimmedNow, TrimRows, Roomy, ClosedBucket;
    Ahead(t, last);
    forall i, o: nat, s: nat | 0 < i < |t.c.tiers| && ClosedBucket(t.c, i, s, a.horizon)
      ensures Exact(a.rows[i], a.accepted, o, s, t.c.tiers[i].res)
    {
      ExactAt(t, last, a, i, o, s);
    }
  }

  lemma OpenAfterWrite(t: Txn, last: nat, a: State)
    requires MonoTxn(t, last) && t.Result(a)
    ensures UnrolledOpen(t.c, a, a.horizon)
  {
    hide RollUpTo, RollTier, FoldRange, SumIf, AdmitAll, PutBatch, MergeRow, CatalogOK, Floor, TrimmedNow, TrimRows;
    Ahead(t, last);
    forall i, x | 0 < i < |t.c.tiers| && x in a.accepted && Floor(x.minute, t.c.tiers[i].res) > a.rolled[i]
      ensures Floor(x.minute, t.c.tiers[i].res) + t.c.tiers[i].res > a.horizon
    {
      ClosedIsRolled(t, last, i, x);
    }
  }

  lemma ZeroAfterWrite(t: Txn, last: nat, a: State)
    requires MonoTxn(t, last) && t.Result(a)
    ensures ZeroOpen(t.c, a, a.horizon) && ClosedRows(t.c, a, a.horizon)
  {
    hide RollUpTo, RollTier, FoldRange, SumIf, AdmitAll, PutBatch, MergeRow, CatalogOK, Floor, TrimmedNow, Roomy;
    Ahead(t, last);
    if Roomy(t.c) {
      forall i, x | 0 < i < |t.c.tiers| && x in a.accepted && x.minute < t.c.tiers[i].res && a.rolled[i] == 0
        ensures a.horizon < 2 * t.c.tiers[i].res
      {
        ZeroStaysOpen(t, last, i, x);
      }
    }
    forall i, k | 0 < i < |t.c.tiers| && k in a.rows[i] ensures k.start + t.c.tiers[i].res <= a.horizon {
      TierIsDone(t, last, i - 1);
      RebuiltRetained(t, last, i, k);
    }
  }

  lemma ZeroStaysOpen(t: Txn, last: nat, i: nat, x: Accepted)
    requires MonoTxn(t, last) && 0 < i < |t.c.tiers| && x in t.Acc() && Roomy(t.c) && x.minute < t.c.tiers[i].res && t.Mid().1[i] == 0
    ensures t.H() < 2 * t.c.tiers[i].res
  {
    hide RollUpTo, RollTier, FoldRange, SumIf, AdmitAll, PutBatch, MergeRow, CatalogOK, FoldsTo, FoldsToNothing, Roomy;
    var r, res := t.RollAt(i), t.c.tiers[i].res;
    t.RollPre(i);
    t.TierIs(i);
    r.Last();
    if res <= t.H() {
      TierIsDone(t, last, i - 1);
      FoldBucket(t, last, i, x.owner, 0);
      SampleFolds(t.Mid().0[i - 1], t.Acc(), x, 0, res);
      if forall k :: k in r.fine ==> Floor(k.start, res) != 0 {
        NoFineRows(r.fine, x.owner, 0, res, t.Owners(), t.c.tiers[i - 1].res, t.K());
      }
      var k :| k in r.fine && Floor(k.start, res) == 0;
      r.Reaches(k);
    }
  }

  /** Every write at or after the last one keeps all tiers exact. */
  lemma MonoKeeps(t: Txn, last: nat)
    requires MonoTxn(t, last)
    ensures Mono(t.c, t.After(), t.Minute())
  {
    hide RollUpTo, RollTier, AdmitAll, PutBatch, CatalogOK, Floor, TrimmedNow, AllExact, UnrolledOpen, ZeroOpen, ClosedRows, Roomy;
    var a := t.After();
    t.AfterIsResult();
    Ahead(t, last);
    ExactAfterWrite(t, last, a);
    OpenAfterWrite(t, last, a);
    ZeroAfterWrite(t, last, a);
  }
}
