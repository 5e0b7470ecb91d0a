/** The invariant every write keeps, whatever the clock does: what the finest
    and the second tier hold is exact, retention never outruns rolling, and
    nothing is rolled ahead of the horizon. */
module MetricsInvariant {
  import opened Points
  import opened Buckets
  import opened MetricsModel
  import opened MetricsSums
  import opened MetricsCatalog
  import opened MetricsRoll

  ghost predicate SamplesOK(c: Config, st: State)
    requires ValidConfig(c)
  {
    && KindedSamples(Kinds(st.cat), st.accepted)
    && (forall x :: x in st.accepted ==> x.owner in OwnerIDs(st.cat) && Aligned(x.minute, c.tiers[0].res))
  }

  ghost predicate RowsOK(c: Config, st: State)
    requires ValidConfig(c) && Shaped(c, st)
  {
    forall i :: 0 <= i < |c.tiers| ==> WellFormed(st.rows[i], OwnerIDs(st.cat), c.tiers[i].res, Kinds(st.cat))
  }

  ghost predicate RolledOK(c: Config, st: State, h: nat)
    requires ValidConfig(c) && Shaped(c, st)
  {
    forall i :: 0 <= i < |c.tiers| ==> Aligned(st.rolled[i], c.tiers[i].res) && (st.rolled[i] != 0 ==> st.rolled[i] + c.tiers[i].res <= h)
  }

  /** Retention of the finest tier: nothing older than the horizon allows is left. */
  ghost predicate FineRetained(c: Config, st: State, h: nat)
    requires ValidConfig(c) && Shaped(c, st)
  {
    forall k :: k in st.rows[0] ==> k.start >= h - c.tiers[0].keep
  }

  ghost predicate NoneAhead(c: Config, st: State)
    requires Shaped(c, st)
  {
    forall i, k :: 0 < i < |c.tiers| && k in st.rows[i] ==> k.start <= st.rolled[i]
  }

  /** A trimmed row was behind the retention line, and its bucket in the next tier had been rolled. */
  ghost predicate TrimmedOK(c: Config, st: State, h: nat, t: Trimmed)
    requires ValidConfig(c) && Shaped(c, st)
  {
    && t.tier < |c.tiers| && t.key.start < h - c.tiers[t.tier].keep
    && (t.tier + 1 < |c.tiers| ==>
          && Floor(t.key.start, c.tiers[t.tier + 1].res) <= st.rolled[t.tier + 1]
          && t.key.start + c.tiers[t.tier].keep < st.rolled[t.tier + 1] + 2 * c.tiers[t.tier + 1].res)
  }

  ghost predicate TrimOK(c: Config, st: State, h: nat)
    requires ValidConfig(c) && Shaped(c, st)
  {
    forall t :: t in st.trimmed ==> TrimmedOK(c, st, h, t)
  }

  ghost predicate FineExact(c: Config, st: State, h: nat)
    requires ValidConfig(c) && Shaped(c, st)
  {
    forall o: nat, m: nat :: Aligned(m, c.tiers[0].res) && m >= h - c.tiers[0].keep ==> Exact(st.rows[0], st.accepted, o, m, c.tiers[0].res)
  }

  /** Every tier keeps at least two buckets of the next, as the default tiers do. Then the epoch's
      own bucket, which a last rolled bucket of 0 does not tell from none, is like any other. */
  predicate Roomy(c: Config) { forall i :: 0 < i < |c.tiers| ==> TwoBuckets(c.tiers[i - 1], c.tiers[i]) }

  predicate TwoBuckets(finer: Tier, t: Tier) { finer.keep >= 2 * t.res }

  /** Not rolled, as far as the last rolled bucket of its tier tells. */
  predicate Unrolled(c: Config, s: nat, rolled: nat) { s > rolled || (rolled == 0 && Roomy(c)) }

  /** A sample whose second-tier bucket is not rolled yet is still in the finest tier. */
  ghost predicate UnrolledKept(c: Config, st: State, h: nat)
    requires ValidConfig(c) && Shaped(c, st)
  {
    |c.tiers| > 1 ==>
      forall x :: x in st.accepted && Unrolled(c, Floor(x.minute, c.tiers[1].res), st.rolled[1]) ==> x.minute >= h - c.tiers[0].keep
  }

  /** Rolled for certain. */
  predicate RolledPast(c: Config, s: nat, rolled: nat) { s <= rolled && 0 < rolled && (0 < s || Roomy(c)) }

  /** Every rolled and retained bucket of the second tier is the merge of the accepted samples in it. */
  ghost predicate SecondExact(c: Config, st: State, h: nat)
    requires ValidConfig(c) && Shaped(c, st)
  {
    |c.tiers| > 1 ==>
      forall o: nat, s: nat :: Aligned(s, c.tiers[1].res) && RolledPast(c, s, st.rolled[1]) && s >= h - c.tiers[1].keep
                               ==> Exact(st.rows[1], st.accepted, o, s, c.tiers[1].res)
  }

  ghost predicate HasSample(acc: seq<Accepted>, o: nat, end: nat) { exists x :: x in acc && x.owner == o && x.minute < end }

  /** A second-tier row from before any later bucket was rolled comes from a sample. */
  ghost predicate ZeroRows(c: Config, st: State)
    requires ValidConfig(c) && Shaped(c, st)
  {
    |c.tiers| > 1 && Roomy(c) && st.rolled[1] == 0 ==> forall k :: k in st.rows[1] ==> HasSample(st.accepted, k.owner, c.tiers[1].res)
  }

  ghost predicate InvAt(c: Config, st: State, h: nat)
    requires ValidConfig(c)
  {
    && Shaped(c, st) && CatalogOK(c, st.cat) && SamplesOK(c, st) && RowsOK(c, st) && RolledOK(c, st, h)
    && FineRetained(c, st, h) && NoneAhead(c, st) && TrimOK(c, st, h)
    && FineExact(c, st, h) && UnrolledKept(c, st, h) && SecondExact(c, st, h) && ZeroRows(c, st)
  }

  /** Before the first write the horizon is zero and the store holds nothing. */
  ghost predicate Blank(c: Config, st: State) {
    && Shaped(c, st) && st.accepted == [] && st.trimmed == {}
    && (forall i :: 0 <= i < |c.tiers| ==> st.rows[i] == map[] && st.rolled[i] == 0)
  }

  ghost predicate Inv(c: Config, st: State)
    requires ValidConfig(c)
  {
    InvAt(c, st, st.horizon) && (st.horizon == 0 ==> Blank(c, st))
  }

  lemma BlankInv(c: Config, st: State, h: nat)
    requires ValidConfig(c) && Blank(c, st) && CatalogOK(c, st.cat)
    ensures InvAt(c, st, h)
  {
    forall o: nat, s: nat, step: nat ensures Exact(map[], [], o, s, step) {}
  }

  lemma InitInv(c: Config)
    requires ValidConfig(c)
    ensures Inv(c, InitState(c))
  {
    var st := InitState(c);
    forall o: nat ensures |OwnerSeries(st.cat.series, o)| == 0 { assert OwnerSeries(st.cat.series, o) == {}; }
    BlankInv(c, st, 0);
  }

  lemma TierOrder(c: Config, i: nat)
    requires ValidConfig(c) && 0 < i < |c.tiers|
    ensures Follows(c.tiers[i - 1], c.tiers[i])
  {}

  /** One accepted write, step by step. */
  datatype Txn = Txn(c: Config, st: State, at: nat, samples: seq<Sample>) {
    ghost predicate Ok() { ValidConfig(c) && Inv(c, st) && !Late(c, st, at) }

    ghost function Minute(): nat requires ValidConfig(c) { Floor(at, c.tiers[0].res) }
    ghost function Prev(): nat requires ValidConfig(c) { PrevHorizon(c, st, at) }
    ghost function H(): nat requires ValidConfig(c) { WriteHorizon(c, st, at) }
    ghost function Next(): nat requires ValidConfig(c) { if Prev() <= H() then H() else Prev() }
    ghost function Cat(): Catalog requires ValidConfig(c) { AdmitAll(c, st.cat, Minute(), samples).0 }
    ghost function Batch(): seq<Accepted> requires ValidConfig(c) { AdmitAll(c, st.cat, Minute(), samples).1 }
    ghost function Acc(): seq<Accepted> requires ValidConfig(c) { st.accepted + Batch() }
    ghost function Owners(): set<nat> requires ValidConfig(c) { OwnerIDs(Cat()) }
    ghost function K(): map<nat, Kind> requires ValidConfig(c) { Kinds(Cat()) }
    ghost function Fresh(): Rows requires ValidConfig(c) && Shaped(c, st) { PutBatch(st.rows[0], Batch(), Minute()) }
    ghost function UpTo(n: nat): (seq<Rows>, seq<nat>)
      requires ValidConfig(c) && Shaped(c, st) && n <= |c.tiers|
    {
      RollUpTo(c, st.rows[0 := Fresh()], st.rolled, Owners(), Minute(), H(), n)
    }
    ghost function Mid(): (r: (seq<Rows>, seq<nat>))
      requires ValidConfig(c) && Shaped(c, st)
      ensures |r.0| == |r.1| == |c.tiers|
    {
      UpTo(|c.tiers|)
    }
    ghost function RollAt(i: nat): Roll
      requires ValidConfig(c) && Shaped(c, st) && 0 < i < |c.tiers|
    {
      Roll(Mid().0[i - 1], st.rows[i], Owners(), st.rolled[i], c.tiers[i].res, c.tiers[i - 1].res, Minute(), H(), K())
    }
    ghost function After(): State requires ValidConfig(c) && Shaped(c, st) { Write(c, st, at, samples) }

    /** a is the state after the write, field by field. */
    ghost predicate Result(a: State)
      requires ValidConfig(c) && Shaped(c, st)
    {
      && Shaped(c, a) && a.cat == Cat() && a.rolled == Mid().1 && a.horizon == Next() && a.accepted == Acc()
      && (forall i :: 0 <= i < |c.tiers| ==> a.rows[i] == TrimRows(Mid().0[i], H() - c.tiers[i].keep))
      && a.trimmed == st.trimmed + TrimmedNow(c, Mid().0, H())
    }

    lemma AfterIsResult()
      requires Ok()
      ensures Result(After())
    {
      hide RollUpTo, PutBatch, AdmitAll, Inv, TrimRows, Floor;
    }

    lemma Parts()
      requires Ok()
      ensures Minute() <= at < Minute() + c.tiers[0].res && Aligned(Minute(), c.tiers[0].res)
      ensures Minute() >= Prev() - c.tiers[0].keep
      ensures forall i :: 0 < i < |c.tiers| ==> Floor(Minute(), c.tiers[i].res) >= Prev() - c.tiers[i - 1].keep
      ensures Prev() <= Next() && H() <= Next() && Next() > 0 && st.horizon <= Prev()
      ensures InvAt(c, st, Prev())
    {
      FloorProps(at, c.tiers[0].res);
      if st.horizon == 0 { BlankInv(c, st, Prev()); }
    }

    lemma {:induction false} Stable(n: nat, m: nat, i: nat)
      requires ValidConfig(c) && Shaped(c, st) && i < n <= m <= |c.tiers|
      ensures UpTo(n).0[i] == UpTo(m).0[i] && UpTo(n).1[i] == UpTo(m).1[i]
      decreases m - n
    {
      if n < m { Stable(n + 1, m, i); }
    }

    /** Tier i after rolling is RollTier applied to tier i - 1 after rolling. */
    lemma TierIs(i: nat)
      requires ValidConfig(c) && Shaped(c, st) && 0 < i < |c.tiers|
      ensures Mid().0[i] == RollAt(i).After().0 && Mid().1[i] == RollAt(i).After().1
    {
      hide RollTier, PutBatch, AdmitAll, Floor;
      Stable(i + 1, |c.tiers|, i);
      Stable(i, |c.tiers|, i - 1);
    }

    lemma FinestIs()
      requires ValidConfig(c) && Shaped(c, st)
      ensures Mid().0[0] == Fresh() && Mid().1[0] == st.rolled[0]
    {}

    /*** What the batch adds ***/

    lemma BatchFacts()
      requires Ok()
      ensures CatalogOK(c, Cat()) && Extends(st.cat, Cat()) && BatchOK(Cat(), Batch(), Minute())
      ensures KindedSamples(K(), st.accepted) && KindedSamples(K(), Batch()) && KindedSamples(K(), Acc())
      ensures OwnerIDs(st.cat) <= Owners()
      ensures forall x :: x in Acc() ==> x.owner in Owners() && Aligned(x.minute, c.tiers[0].res)
      ensures forall i :: 0 <= i < |c.tiers| ==> WellFormed(st.rows[i], Owners(), c.tiers[i].res, K())
    {
      Parts();
      AdmitAllOK(c, st.cat, Minute(), samples);
      forall x | x in st.accepted ensures x.owner in Owners() && KindedSample(K(), x) { ExtendsKeeps(st.cat, Cat(), x); }
      forall o | o in OwnerIDs(st.cat) ensures o in Owners() {
        var n :| n in st.cat.owners && st.cat.owners[n] == o;
        assert Cat().owners[n] == o;
      }
      forall i | 0 <= i < |c.tiers| ensures WellFormed(st.rows[i], Owners(), c.tiers[i].res, K()) {
        assert WellFormed(st.rows[i], OwnerIDs(st.cat), c.tiers[i].res, Kinds(st.cat));
        forall k | k in st.rows[i] ensures Kinded(K(), st.rows[i][k]) {}
      }
    }

    lemma FreshOK()
      requires Ok()
      ensures WellFormed(Fresh(), Owners(), c.tiers[0].res, K())
      ensures forall k :: k in Fresh() ==> k.start >= Prev() - c.tiers[0].keep
    {
      Parts();
      BatchFacts();
      assert WellFormed(st.rows[0], Owners(), c.tiers[0].res, K());
      forall k | k in Fresh()
        ensures k.owner in Owners() && Aligned(k.start, c.tiers[0].res) && Fresh()[k] != EMPTY_ROW && Kinded(K(), Fresh()[k])
        ensures k.start >= Prev() - c.tiers[0].keep
      {
        PutBatchRow(st.rows[0], Batch(), Minute(), k.owner, k.start, K());
        assert k == Key(k.owner, k.start);
        if k !in st.rows[0] {
          var x :| x in Batch() && Key(x.owner, Minute()) == k;
        }
      }
    }

    /** Every minute the finest tier retains is exact once the batch is in. */
    lemma FreshExact(o: nat, m: nat)
      requires Ok() && Aligned(m, c.tiers[0].res) && m >= Prev() - c.tiers[0].keep
      ensures Exact(Fresh(), Acc(), o, m, c.tiers[0].res)
    {
      Parts();
      BatchFacts();
      assert WellFormed(st.rows[0], Owners(), c.tiers[0].res, K());
      assert Exact(st.rows[0], st.accepted, o, m, c.tiers[0].res);
      PutBatchExact(st.rows[0], st.accepted, Batch(), Minute(), o, m, c.tiers[0].res, K());
    }

    /*** Rolling ***/

    lemma {:induction false} RollPre(i: nat)
      requires Ok() && 0 < i < |c.tiers|
      ensures RollAt(i).Pre()
      ensures WellFormed(Mid().0[i], Owners(), c.tiers[i].res, K())
    {
      hide RollUpTo, RollTier, FoldRange, SumIf, AdmitAll, PutBatch, MergeRow, CatalogOK, Floor;
      Parts();
      BatchFacts();
      if i == 1 { FinestIs(); FreshOK(); } else { RollPre(i - 1); }
      assert WellFormed(st.rows[i], Owners(), c.tiers[i].res, K());
      assert Aligned(st.rolled[i], c.tiers[i].res);
      TierIs(i);
      RollAt(i).WellFormedAfter();
    }

    /** An owner the catalog does not know has neither rows nor samples. */
    lemma Stranger(rows: Rows, o: nat, s: nat, step: nat, res: nat)
      requires Ok() && o !in Owners() && res > 0 && WellFormed(rows, Owners(), res, K())
      ensures Exact(rows, Acc(), o, s, step)
    {
      BatchFacts();
      SumNone(Acc(), InBucket(o, s, s + step));
    }

    /** Folding the finest tier over a second-tier bucket that is not rolled yet, or not too late, is exact. */
    lemma SecondFold(o: nat, s: nat)
      requires Ok() && |c.tiers| > 1 && Aligned(s, c.tiers[1].res)
      requires Unrolled(c, s, st.rolled[1]) || s >= Prev() - c.tiers[0].keep
      ensures FoldsTo(Fresh(), Acc(), o, s, c.tiers[1].res)
    {
      hide RollUpTo, RollTier, FoldRange, SumIf, AdmitAll, PutBatch, MergeRow, CatalogOK, FoldsTo, Exact;
      Parts();
      BatchFacts();
      FreshOK();
      TierOrder(c, 1);
      var cut := Prev() - c.tiers[0].keep;
      forall b: nat | s <= b < s + c.tiers[1].res && Aligned(b, c.tiers[0].res) && b >= cut
        ensures Exact(Fresh(), Acc(), o, b, c.tiers[0].res)
      {
        FreshExact(o, b);
      }
      forall x | x in Acc() && Floor(x.minute, c.tiers[1].res) == s ensures s >= cut || Floor(x.minute, c.tiers[0].res) >= cut {
        FloorUnique(x.minute, x.minute, c.tiers[0].res);
      }
      FoldFromCut(Fresh(), Acc(), o, s, c.tiers[0].res, c.tiers[1].res, cut, Owners(), K());
    }

    lemma SecondAfter(o: nat, s: nat)
      requires Ok() && |c.tiers| > 1 && Aligned(s, c.tiers[1].res) && RolledPast(c, s, Mid().1[1]) && s >= Prev() - c.tiers[1].keep
      ensures Exact(Mid().0[1], Acc(), o, s, c.tiers[1].res)
    {
      hide RollUpTo, RollTier, FoldRange, SumIf, AdmitAll, PutBatch, MergeRow, CatalogOK, FoldsTo, Floor, Exact, Roomy;
      Parts();
      BatchFacts();
      RollPre(1);
      TierIs(1);
      FinestIs();
      var r, res := RollAt(1), c.tiers[1].res;
      if o !in Owners() {
        Stranger(Mid().0[1], o, s, res, res);
      } else {
        r.Last();
        if r.Rebuilds(s) && s > 0 { r.Range(s); }
        if r.Rebuilds(s) && s == 0 { ZeroRange(); }
        if r.Rebuilds(s) || s > st.rolled[1] { SecondFold(o, s); }
        if !r.Rebuilds(s) && s == 0 && st.rolled[1] == 0 { ZeroSkipped(o); }
        assert s > st.rolled[1] ==> Key(o, s) !in st.rows[1];
        r.ExactAfter(st.accepted, Batch(), o, s);
      }
    }

    /** Bucket 0 is rolled again only by a write into it, or while no later bucket is. */
    lemma ZeroRange()
      requires Ok() && |c.tiers| > 1 && RollAt(1).Rebuilds(0)
      ensures st.rolled[1] == 0 || Floor(Minute(), c.tiers[1].res) == 0
    {
      hide RollUpTo, FoldRange, AdmitAll, PutBatch, CatalogOK, Floor;
      RollPre(1);
      var r := RollAt(1);
      if Starts(r.fine, r.owners) != {} { FirstBucketFacts(r.fine, r.owners, r.rolled, r.step); }
    }

    /** Bucket 0 closed and passed over while nothing was rolled: it holds neither a sample nor a row. */
    lemma ZeroSkipped(o: nat)
      requires Ok() && |c.tiers| > 1 && Roomy(c) && st.rolled[1] == 0 < Mid().1[1] && !RollAt(1).Rebuilds(0)
      ensures Exact(st.rows[1], st.accepted, o, 0, c.tiers[1].res)
      ensures Batch() == [] || Floor(Minute(), c.tiers[1].res) != 0
    {
      hide RollUpTo, RollTier, FoldRange, SumIf, AdmitAll, PutBatch, MergeRow, CatalogOK, FoldsTo, FoldsToNothing, Floor, Roomy;
      var r, res := RollAt(1), c.tiers[1].res;
      BatchFacts();
      FreshOK();
      RollPre(1);
      TierIs(1);
      FinestIs();
      r.Last();
      forall k | k in Fresh() ensures Floor(k.start, res) != 0 { NothingInZero(k); }
      SecondFold(o, 0);
      NoFineRows(Fresh(), o, 0, res, Owners(), c.tiers[0].res, K());
      if x :| x in st.accepted && x.owner == o && x.minute < res {
        assert x in Acc();
        SampleFolds(Fresh(), Acc(), x, 0, res);
      }
      assert Key(o, 0) !in st.rows[1];
      SumNone(st.accepted, InBucket(o, 0, res));
      if Batch() != [] && Floor(Minute(), res) == 0 { BatchHasRow(); }
    }

    lemma NothingInZero(k: Key)
      requires Ok() && |c.tiers| > 1 && st.rolled[1] == 0 < Mid().1[1] && !RollAt(1).Rebuilds(0) && k in Fresh()
      ensures Floor(k.start, c.tiers[1].res) != 0
    {
      hide RollUpTo, RollTier, FoldRange, AdmitAll, PutBatch, CatalogOK;
      var r, res := RollAt(1), c.tiers[1].res;
      RollPre(1);
      TierIs(1);
      FinestIs();
      r.Last();
      if Floor(k.start, res) == 0 {
        assert k.start in Starts(r.fine, r.owners);
        FirstBucketFacts(r.fine, r.owners, 0, res);
      }
    }

    lemma BatchHasRow()
      requires Ok() && Batch() != []
      ensures exists k :: k in Fresh() && k.start == Minute()
    {
      assert Shaped(c, st);
      hide AdmitAll, Inv, SumIf, MergeRow, Floor;
      var x := Batch()[0];
      assert x in Batch();
      assert Key(x.owner, Minute()) in Fresh();
    }

    /*** The invariant afterwards ***/

    lemma SecondExactAfter(a: State)
      requires Ok() && Result(a)
      ensures SecondExact(c, a, a.horizon)
    {
      hide RollUpTo, RollTier, FoldRange, SumIf, AdmitAll, PutBatch, MergeRow, CatalogOK, Exact;
      Parts();
      if |c.tiers| > 1 {
        var res := c.tiers[1].res;
        forall o: nat, s: nat | Aligned(s, res) && RolledPast(c, s, a.rolled[1]) && s >= a.horizon - c.tiers[1].keep
          ensures Exact(a.rows[1], a.accepted, o, s, res)
        {
          SecondAfter(o, s);
          TrimKeepsExact(Mid().0[1], H() - c.tiers[1].keep, Acc(), o, s, res);
        }
      }
    }

    lemma FineAfter(a: State)
      requires Ok() && Result(a)
      ensures FineExact(c, a, a.horizon) && FineRetained(c, a, a.horizon)
    {
      hide RollUpTo, RollTier, FoldRange, SumIf, AdmitAll, PutBatch, MergeRow, CatalogOK, Exact;
      Parts();
      FinestIs();
      FreshOK();
      var res := c.tiers[0].res;
      forall o: nat, m: nat | Aligned(m, res) && m >= a.horizon - c.tiers[0].keep
        ensures Exact(a.rows[0], a.accepted, o, m, res)
      {
        FreshExact(o, m);
        TrimKeepsExact(Fresh(), H() - c.tiers[0].keep, Acc(), o, m, res);
      }
    }

    /** A retained sample has its row in the finest tier. */
    lemma HasRow(x: Accepted)
      requires Ok() && x in Acc() && x.minute >= Prev() - c.tiers[0].keep
      ensures Key(x.owner, x.minute) in Fresh() && x.owner in Owners()
    {
      hide AdmitAll, PutBatch, InvAt, Blank, SumIf, KindedSamples;
      BatchFacts();
      FreshExact(x.owner, x.minute);
      SumSome(Acc(), InBucket(x.owner, x.minute, x.minute + c.tiers[0].res), x);
    }

    /** A sample whose second-tier bucket was unrolled before the write is not behind the finest tier's retention then. */
    lemma UnrolledBefore(x: Accepted)
      requires Ok() && |c.tiers| > 1 && x in Acc() && Unrolled(c, Floor(x.minute, c.tiers[1].res), st.rolled[1])
      ensures x.minute >= Prev() - c.tiers[0].keep
    {
      hide RollUpTo, AdmitAll, PutBatch, CatalogOK, Roomy, Floor;
      Parts();
      BatchFacts();
    }

    /** A sample past the last rolled second-tier bucket is not behind the finest tier's retention. */
    lemma UnrolledSample(x: Accepted)
      requires Ok() && |c.tiers| > 1 && x in Acc() && Unrolled(c, Floor(x.minute, c.tiers[1].res), Mid().1[1])
      ensures x.minute >= Next() - c.tiers[0].keep
    {
      hide RollUpTo, RollTier, AdmitAll, PutBatch, CatalogOK, Roomy, Floor, Inv, WellFormed;
      var res := c.tiers[1].res;
      Parts();
      TierOrder(c, 1);
      TierAfter(1);
      UnrolledBefore(x);
      HasRow(x);
      FloorProps(x.minute, res);
      if Floor(x.minute, res) + res <= H() { RowIsCovered(Key(x.owner, x.minute)); }
      if Mid().1[1] == 0 && Roomy(c) { RoomIsLeft(1); }
    }

    lemma RoomIsLeft(i: nat)
      requires ValidConfig(c) && Roomy(c) && 0 < i < |c.tiers|
      ensures c.tiers[i - 1].keep >= 2 * c.tiers[i].res
    {
      assert TwoBuckets(c.tiers[i - 1], c.tiers[i]);
    }

    lemma RowIsCovered(k: Key)
      requires Ok() && |c.tiers| > 1 && k in Fresh() && Floor(k.start, c.tiers[1].res) + c.tiers[1].res <= H()
      ensures Floor(k.start, c.tiers[1].res) <= Mid().1[1] && Mid().1[1] + 2 * c.tiers[1].res > H()
    {
      hide RollUpTo, RollTier, FoldRange, AdmitAll, PutBatch, CatalogOK, Floor;
      RollPre(1);
      TierIs(1);
      FinestIs();
      RollAt(1).Covers(k);
      RollAt(1).Reaches(k);
    }

    lemma UnrolledKeptAfter(a: State)
      requires Ok() && Result(a)
      ensures UnrolledKept(c, a, a.horizon)
    {
      hide RollUpTo, RollTier, AdmitAll, PutBatch, CatalogOK, Floor;
      if |c.tiers| > 1 {
        forall x | x in a.accepted && Unrolled(c, Floor(x.minute, c.tiers[1].res), a.rolled[1]) ensures x.minute >= a.horizon - c.tiers[0].keep {
          UnrolledSample(x);
        }
      }
    }

    lemma TierAfter(i: nat)
      requires Ok() && i < |c.tiers|
      ensures WellFormed(Mid().0[i], Owners(), c.tiers[i].res, K())
      ensures Aligned(Mid().1[i], c.tiers[i].res) && (Mid().1[i] != 0 ==> Mid().1[i] + c.tiers[i].res <= Next())
      ensures 0 < i ==> forall k :: k in Mid().0[i] ==> k.start <= Mid().1[i]
      ensures st.rolled[i] <= Mid().1[i]
    {
      hide RollUpTo, RollTier, FoldRange, SumIf, AdmitAll, PutBatch, MergeRow, CatalogOK;
      Parts();
      assert Aligned(st.rolled[i], c.tiers[i].res);
      if i == 0 {
        FinestIs();
        FreshOK();
      } else {
        RollPre(i);
        TierIs(i);
        RollAt(i).Last();
        forall k | k in Mid().0[i] ensures k.start <= Mid().1[i] {
          RollAt(i).RowAfter(k);
          assert k in st.rows[i] ==> k.start <= st.rolled[i];
        }
      }
    }

    lemma RowsAfter(a: State)
      requires Ok() && Result(a)
      ensures RowsOK(c, a) && NoneAhead(c, a) && RolledOK(c, a, a.horizon)
    {
      hide RollUpTo, RollTier, FoldRange, SumIf, AdmitAll, PutBatch, MergeRow, CatalogOK, Floor, Aligned;
      Parts();
      forall i | 0 <= i < |c.tiers|
        ensures WellFormed(a.rows[i], Owners(), c.tiers[i].res, K())
        ensures Aligned(Mid().1[i], c.tiers[i].res) && (Mid().1[i] != 0 ==> Mid().1[i] + c.tiers[i].res <= Next())
        ensures 0 < i ==> forall k :: k in a.rows[i] ==> k.start <= Mid().1[i]
      {
        TierAfter(i);
        TrimKeepsForm(Mid().0[i], H() - c.tiers[i].keep, Owners(), c.tiers[i].res, K());
      }
    }

    /** A row this write trims had its bucket in the next tier rolled first. */
    lemma TrimmedAfter(t: Trimmed)
      requires Ok() && t in st.trimmed + TrimmedNow(c, Mid().0, H())
      ensures t.tier < |c.tiers| && t.key.start < Next() - c.tiers[t.tier].keep
      ensures t.tier + 1 < |c.tiers| ==>
                && Floor(t.key.start, c.tiers[t.tier + 1].res) <= Mid().1[t.tier + 1]
                && t.key.start + c.tiers[t.tier].keep < Mid().1[t.tier + 1] + 2 * c.tiers[t.tier + 1].res
    {
      hide RollUpTo, RollTier, FoldRange, SumIf, AdmitAll, PutBatch, MergeRow, CatalogOK, WellFormed, Exact, Floor;
      var i := t.tier;
      Parts();
      if t in st.trimmed { assert TrimmedOK(c, st, Prev(), t); }
      if i + 1 < |c.tiers| {
        TierOrder(c, i + 1);
        TierAfter(i + 1);
        if t !in st.trimmed {
          FloorProps(t.key.start, c.tiers[i + 1].res);
          RollPre(i + 1);
          TierIs(i + 1);
          RollAt(i + 1).Covers(t.key);
          RollAt(i + 1).Reaches(t.key);
        }
      }
    }

    lemma TrimAfter(a: State)
      requires Ok() && Result(a)
      ensures TrimOK(c, a, a.horizon)
    {
      hide RollUpTo, RollTier, FoldRange, SumIf, AdmitAll, PutBatch, MergeRow, CatalogOK, Floor, TrimmedNow;
      forall t | t in a.trimmed ensures TrimmedOK(c, a, a.horizon, t) { TrimmedAfter(t); }
    }

    lemma ZeroRowsAfter(a: State)
      requires Ok() && Result(a)
      ensures ZeroRows(c, a)
    {
      hide RollUpTo, RollTier, FoldRange, SumIf, AdmitAll, PutBatch, MergeRow, CatalogOK, Floor, Roomy, TrimmedNow;
      if |c.tiers| > 1 && Roomy(c) && a.rolled[1] == 0 {
        TierAfter(1);
        forall k | k in a.rows[1] ensures HasSample(a.accepted, k.owner, c.tiers[1].res) { ZeroRow(k); }
      }
    }

    lemma ZeroRow(k: Key)
      requires Ok() && |c.tiers| > 1 && Roomy(c) && Mid().1[1] == 0 && k in Mid().0[1]
      ensures HasSample(Acc(), k.owner, c.tiers[1].res)
    {
      hide RollUpTo, RollTier, FoldRange, SumIf, AdmitAll, PutBatch, MergeRow, CatalogOK, Floor, Roomy, FoldsTo, FoldsToNothing;
      TierAfter(1);
      RollPre(1);
      TierIs(1);
      FinestIs();
      if k in st.rows[1] {
        var x :| x in st.accepted && x.owner == k.owner && x.minute < c.tiers[1].res;
        assert x in Acc();
      } else {
        RollAt(1).NewRow(k);
        SecondFold(k.owner, 0);
        var x := FindSample(Fresh(), Acc(), k.owner, 0, c.tiers[1].res);
      }
    }

    /** Every write keeps the invariant. */
    lemma Keeps()
      requires Ok()
      ensures Inv(c, After())
    {
      hide RollUpTo, RollTier, FoldRange, SumIf, AdmitAll, PutBatch, MergeRow, CatalogOK, Floor, Aligned, Exact;
      var a := After();
      AfterIsResult();
      Parts();
      BatchFacts();
      RowsAfter(a);
      TrimAfter(a);
      FineAfter(a);
      UnrolledKeptAfter(a);
      SecondExactAfter(a);
      ZeroRowsAfter(a);
    }
  }
}
