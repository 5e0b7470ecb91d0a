/** What rolling one coarser tier does to its rows (rollTx and rollBucket). */
module MetricsRoll {
  import opened Points
  import opened Buckets
  import opened MetricsModel
  import opened MetricsSums

  /** Whether the row at k came from a rebuild (fold) or was left alone (coarse). */
  ghost predicate Holds(fold: (nat, nat) -> Row, coarse: Rows, r: Rows, k: Key, rebuilt: bool) {
    if rebuilt then (if fold(k.owner, k.start) != EMPTY_ROW then k in r && r[k] == fold(k.owner, k.start) else k !in r)
    else if k in coarse then k in r && r[k] == coarse[k] else k !in r
  }

  lemma RollBucketKey(fold: (nat, nat) -> Row, coarse: Rows, owners: set<nat>, s: nat, k: Key)
    ensures Holds(fold, coarse, RollBucket(fold, coarse, owners, s), k, k.start == s && k.owner in owners)
  {}

  ghost predicate CatchUp(s: nat, t: nat, step: nat, horizon: nat)
    requires step > 0
  {
    Aligned(t, step) && s <= t && t + step <= horizon
  }

  /** Catch-up rebuilds exactly the aligned buckets from s that end by the horizon. */
  lemma {:induction false} RollRangeKey(fold: (nat, nat) -> Row, coarse: Rows, owners: set<nat>, s: nat, step: nat, horizon: nat, k: Key)
    requires step > 0 && Aligned(s, step)
    ensures Holds(fold, coarse, RollRange(fold, coarse, owners, s, step, horizon), k, CatchUp(s, k.start, step, horizon) && k.owner in owners)
    decreases horizon - s
  {
    if s + step <= horizon {
      var one := RollBucket(fold, coarse, owners, s);
      RollBucketKey(fold, coarse, owners, s, k);
      AlignedNext(s, step);
      RollRangeKey(fold, one, owners, s + step, step, horizon, k);
      assert CatchUp(s, k.start, step, horizon) <==> k.start == s || CatchUp(s + step, k.start, step, horizon) by {
        if Aligned(k.start, step) { AlignedGap(s, k.start, step); }
      }
    }
  }

  lemma LastClosedFacts(horizon: nat, step: nat)
    requires step > 0
    ensures Aligned(LastClosed(horizon, step), step)
    ensures forall s: nat :: Aligned(s, step) && s + step <= horizon ==> s <= LastClosed(horizon, step) && LastClosed(horizon, step) + step <= horizon
    ensures LastClosed(horizon, step) != 0 ==> LastClosed(horizon, step) + step <= horizon
  {
    FloorProps(horizon, step);
    var f := Floor(horizon, step);
    if f >= step { AlignedPrev(f, step); }
    forall s: nat | Aligned(s, step) && s + step <= horizon
      ensures s <= LastClosed(horizon, step) && LastClosed(horizon, step) + step <= horizon
    {
      AlignedNext(s, step);
      AlignedGap(f, s + step, step);
    }
  }

  lemma FirstBucketFacts(fine: Rows, owners: set<nat>, rolled: nat, step: nat)
    requires step > 0 && Aligned(rolled, step) && Starts(fine, owners) != {}
    ensures var first := FirstBucket(fine, owners, rolled, step);
            && Aligned(first, step)
            && (rolled != 0 ==> first > rolled)
            && (forall k :: k in fine && k.owner in owners ==> Floor(k.start, step) >= first || (rolled != 0 && Floor(k.start, step) <= rolled))
  {
    var m := Oldest(Starts(fine, owners));
    FloorProps(m, step);
    AlignedNext(rolled, step);
    var first := FirstBucket(fine, owners, rolled, step);
    forall k | k in fine && k.owner in owners
      ensures Floor(k.start, step) >= first || (rolled != 0 && Floor(k.start, step) <= rolled)
    {
      assert k.start in Starts(fine, owners);
      FloorMono(m, k.start, step);
      FloorProps(k.start, step);
      AlignedGap(rolled, Floor(k.start, step), step);
    }
  }

  lemma NoFineRows(fine: Rows, o: nat, t: nat, step: nat, owners: set<nat>, fineStep: nat, kinds: map<nat, Kind>)
    requires step > 0 && fineStep > 0 && Aligned(t, step) && WellFormed(fine, owners, fineStep, kinds)
    requires forall k :: k in fine ==> Floor(k.start, step) != t
    ensures FoldsToNothing(fine, o, t, step)
  {
    forall u: nat | t <= u < t + step ensures Key(o, u) !in fine { FloorUnique(u, t, step); }
    FoldSkip(fine, o, t, t, t + step, owners, fineStep, kinds);
  }

  /*** One tier of rollTx, in terms of RebuildsTier ***/

  /** The arguments of one tier's roll. */
  datatype Roll = Roll(fine: Rows, coarse: Rows, owners: set<nat>, rolled: nat, step: nat, fineStep: nat, written: nat, horizon: nat, kinds: map<nat, Kind>) {
    ghost predicate Pre() {
      && step > 0 && fineStep > 0 && Aligned(rolled, step)
      && WellFormed(fine, owners, fineStep, kinds) && WellFormed(coarse, owners, step, kinds)
    }

    ghost predicate Rebuilds(t: nat)
      requires step > 0
    {
      RebuildsTier(fine, owners, rolled, step, written, horizon, t)
    }

    ghost function After(): (Rows, nat)
      requires step > 0
    {
      RollTier(fine, coarse, owners, rolled, step, written, horizon)
    }

    ghost function Again(): Rows
      requires step > 0
    {
      if LateRoll(rolled, step, written) then RollBucket(Folds(fine, step), coarse, owners, Floor(written, step)) else coarse
    }

    ghost predicate IsLate(t: nat)
      requires step > 0
    {
      LateRoll(rolled, step, written) && t == Floor(written, step)
    }

    lemma RangeRow(first: nat, k: Key)
      requires step > 0 && Aligned(first, step)
      ensures Holds(Folds(fine, step), coarse, Again(), k, IsLate(k.start) && k.owner in owners)
      ensures Holds(Folds(fine, step), coarse, RollRange(Folds(fine, step), Again(), owners, first, step, horizon), k,
                    (IsLate(k.start) || CatchUp(first, k.start, step, horizon)) && k.owner in owners)
    {
      RollBucketKey(Folds(fine, step), coarse, owners, Floor(written, step), k);
      RollRangeKey(Folds(fine, step), Again(), owners, first, step, horizon, k);
    }

    /** A rebuilt bucket holds the fold of the finer rows; any other row is untouched. */
    lemma RowAfter(k: Key)
      requires step > 0 && Aligned(rolled, step)
      ensures Holds(Folds(fine, step), coarse, After().0, k, Rebuilds(k.start) && k.owner in owners)
    {
      if Starts(fine, owners) != {} {
        var first := FirstBucket(fine, owners, rolled, step);
        FirstBucketFacts(fine, owners, rolled, step);
        RangeRow(first, k);
        assert Rebuilds(k.start) <==> IsLate(k.start) || CatchUp(first, k.start, step, horizon);
      } else {
        assert Aligned(0, step);
        RangeRow(0, k);
      }
    }

    lemma Got(o: nat, t: nat)
      requires Pre() && o in owners
      ensures Get(After().0, o, t) == if Rebuilds(t) then FoldRange(fine, o, t, t + step) else Get(coarse, o, t)
    {
      RowAfter(Key(o, t));
    }

    /** A row this roll brought in was rebuilt from at least one finer row. */
    lemma NewRow(k: Key)
      requires Pre() && k in After().0 && k !in coarse
      ensures k.owner in owners && Rebuilds(k.start) && !FoldsToNothing(fine, k.owner, k.start, step)
    {
      RowAfter(k);
    }

    /** Catch-up starts past what is rolled and stops at the horizon; a late roll is of the written bucket. */
    lemma Range(s: nat)
      requires Pre() && Rebuilds(s) && s > 0
      ensures Aligned(s, step)
      ensures if s > rolled then s + step <= horizon else s == Floor(written, step) && rolled != 0
    {
      FloorProps(written, step);
      if Starts(fine, owners) != {} { FirstBucketFacts(fine, owners, rolled, step); }
    }

    /** The last rolled bucket never moves back, is closed when it moves, and covers every rebuilt bucket. */
    lemma Last()
      requires Pre()
      ensures Aligned(After().1, step) && rolled <= After().1
      ensures After().1 != rolled ==> After().1 + step <= horizon
      ensures forall t: nat :: Rebuilds(t) ==> Aligned(t, step) && t <= After().1
    {
      FloorProps(written, step);
      LastClosedFacts(horizon, step);
      if Starts(fine, owners) != {} {
        FirstBucketFacts(fine, owners, rolled, step);
        var first := FirstBucket(fine, owners, rolled, step);
        assert first + step <= horizon ==> first <= LastClosed(horizon, step);
      }
    }

    lemma WellFormedAfter()
      requires Pre()
      ensures WellFormed(After().0, owners, step, kinds)
    {
      var r := After().0;
      Last();
      forall k | k in r ensures k.owner in owners && Aligned(k.start, step) && r[k] != EMPTY_ROW && Kinded(kinds, r[k]) {
        RowAfter(k);
        FoldKinded(fine, k.owner, k.start, k.start + step, owners, fineStep, kinds);
      }
    }

    /** Every closed bucket that has a finer row is behind the last rolled bucket. */
    lemma Covers(k: Key)
      requires Pre() && k in fine && Floor(k.start, step) + step <= horizon
      ensures Floor(k.start, step) <= After().1
    {
      assert k.start in Starts(fine, owners);
      FirstBucketFacts(fine, owners, rolled, step);
      LastClosedFacts(horizon, step);
      FloorProps(k.start, step);
    }

    /** A roll that saw a finer row in a closed bucket reaches the last closed bucket but one at least. */
    lemma Reaches(k: Key)
      requires Pre() && k in fine && Floor(k.start, step) + step <= horizon
      ensures After().1 + 2 * step > horizon
    {
      assert k.start in Starts(fine, owners);
      var oldest := Oldest(Starts(fine, owners));
      FloorMono(oldest, k.start, step);
      FirstBucketFacts(fine, owners, rolled, step);
      LastClosedFacts(horizon, step);
      FloorProps(horizon, step);
    }

    /** A closed bucket catch-up passed over has no finer row. */
    lemma Skipped(o: nat, t: nat)
      requires Pre() && Aligned(t, step) && t > rolled && t + step <= horizon && !Rebuilds(t)
      ensures FoldsToNothing(fine, o, t, step)
    {
      forall k | k in fine ensures Floor(k.start, step) != t {
        assert k.start in Starts(fine, owners);
        FirstBucketFacts(fine, owners, rolled, step);
      }
      NoFineRows(fine, o, t, step, owners, fineStep, kinds);
    }

    /** A coarse bucket is exact after the roll when folding it is exact, or it was exact
        and the batch put nothing into it. */
    lemma ExactAfter(acc: seq<Accepted>, batch: seq<Accepted>, o: nat, s: nat)
      requires Pre() && o in owners && Aligned(s, step)
      requires KindedSamples(kinds, acc) && KindedSamples(kinds, batch) && forall x :: x in batch ==> x.minute == written
      requires Rebuilds(s) || s > rolled ==> FoldsTo(fine, acc + batch, o, s, step)
      requires !Rebuilds(s) && s <= rolled ==> Exact(coarse, acc, o, s, step) && (batch == [] || s != Floor(written, step))
      requires !Rebuilds(s) && s > rolled ==> s + step <= horizon && Key(o, s) !in coarse
      ensures Exact(After().0, acc + batch, o, s, step)
    {
      Got(o, s);
      if !Rebuilds(s) {
        if s <= rolled {
          forall x | x in batch ensures !InBucket(o, s, s + step)(x) {
            if s <= written < s + step { FloorUnique(written, s, step); }
          }
          SumAppendNone(kinds, acc, batch, InBucket(o, s, s + step));
        } else {
          Skipped(o, s);
        }
      }
    }
  }
}
