/** Sums of accepted samples, and when folding stored rows gives the same sum. */
module MetricsSums {
  import opened Points
  import opened Buckets
  import opened MetricsModel

  ghost predicate KindedSample(kinds: map<nat, Kind>, x: Accepted) {
    x.series in kinds && x.point.Kind() == kinds[x.series] && !x.point.Empty()
  }

  ghost predicate KindedSamples(kinds: map<nat, Kind>, ss: seq<Accepted>) {
    forall x :: x in ss ==> KindedSample(kinds, x)
  }

  lemma KindedInit(kinds: map<nat, Kind>, ss: seq<Accepted>)
    requires KindedSamples(kinds, ss) && ss != []
    ensures KindedSamples(kinds, ss[..|ss| - 1]) && KindedSample(kinds, ss[|ss| - 1])
    ensures forall x :: x in ss[..|ss| - 1] ==> x in ss
  {
    assert ss[|ss| - 1] in ss;
  }

  lemma {:induction false} SumKinded(kinds: map<nat, Kind>, ss: seq<Accepted>, p: Accepted -> bool)
    requires KindedSamples(kinds, ss)
    ensures Kinded(kinds, SumIf(ss, p))
    decreases |ss|
  {
    if ss != [] {
      KindedInit(kinds, ss);
      SumKinded(kinds, ss[..|ss| - 1], p);
      var x := ss[|ss| - 1];
      var one: Row := map[x.series := x.point];
      assert Kinded(kinds, one);
      MergeRowLaws(kinds, SumIf(ss[..|ss| - 1], p), one);
    }
  }

  /** The sum depends only on which samples are selected. */
  lemma {:induction false} SumCong(ss: seq<Accepted>, p: Accepted -> bool, q: Accepted -> bool)
    requires forall x :: x in ss ==> p(x) == q(x)
    ensures SumIf(ss, p) == SumIf(ss, q)
    decreases |ss|
  {
    if ss != [] {
      assert ss[|ss| - 1] in ss;
      assert forall x :: x in ss[..|ss| - 1] ==> x in ss;
      SumCong(ss[..|ss| - 1], p, q);
    }
  }

  lemma {:induction false} SumNone(ss: seq<Accepted>, p: Accepted -> bool)
    requires forall x :: x in ss ==> !p(x)
    ensures SumIf(ss, p) == EMPTY_ROW
    decreases |ss|
  {
    if ss != [] {
      assert ss[|ss| - 1] in ss;
      assert forall x :: x in ss[..|ss| - 1] ==> x in ss;
      SumNone(ss[..|ss| - 1], p);
    }
  }

  lemma {:induction false} SumSome(ss: seq<Accepted>, p: Accepted -> bool, x: Accepted)
    requires x in ss && p(x)
    ensures x.series in SumIf(ss, p)
    decreases |ss|
  {
    if x != ss[|ss| - 1] {
      assert x in ss[..|ss| - 1];
      SumSome(ss[..|ss| - 1], p, x);
    }
  }

  /** A selection in two parts sums to the merge of the parts. */
  lemma {:induction false} SumSplit(kinds: map<nat, Kind>, ss: seq<Accepted>, p: Accepted -> bool, q: Accepted -> bool, r: Accepted -> bool)
    requires KindedSamples(kinds, ss)
    requires forall x :: x in ss ==> p(x) == (q(x) || r(x)) && !(q(x) && r(x))
    ensures SumIf(ss, p) == MergeRow(SumIf(ss, q), SumIf(ss, r))
    decreases |ss|
  {
    if ss != [] {
      var init, x := ss[..|ss| - 1], ss[|ss| - 1];
      KindedInit(kinds, ss);
      SumSplit(kinds, init, p, q, r);
      SumKinded(kinds, init, q);
      SumKinded(kinds, init, r);
      var one: Row := map[x.series := x.point];
      assert Kinded(kinds, one);
      var a, b := SumIf(init, q), SumIf(init, r);
      assert x in ss;
      if q(x) {
        MergeRowAssoc(kinds, a, b, one);
        MergeRowLaws(kinds, b, one);
        MergeRowAssoc(kinds, a, one, b);
      } else if r(x) {
        MergeRowAssoc(kinds, a, b, one);
      }
    } else {
      assert MergeRow(EMPTY_ROW, EMPTY_ROW) == EMPTY_ROW;
    }
  }

  lemma {:induction false} SumAppend(kinds: map<nat, Kind>, a: seq<Accepted>, b: seq<Accepted>, p: Accepted -> bool)
    requires KindedSamples(kinds, a) && KindedSamples(kinds, b)
    ensures SumIf(a + b, p) == MergeRow(SumIf(a, p), SumIf(b, p))
    decreases |b|
  {
    SumKinded(kinds, a, p);
    if b == [] {
      assert a + b == a;
      MergeRowLaws(kinds, SumIf(a, p), EMPTY_ROW);
    } else {
      var init, x := b[..|b| - 1], b[|b| - 1];
      assert (a + b)[..|a + b| - 1] == a + init;
      assert (a + b)[|a + b| - 1] == x;
      KindedInit(kinds, b);
      SumAppend(kinds, a, init, p);
      SumKinded(kinds, init, p);
      var one: Row := map[x.series := x.point];
      assert Kinded(kinds, one);
      MergeRowAssoc(kinds, SumIf(a, p), SumIf(init, p), one);
    }
  }

  /** Appending samples none of which is selected leaves the sum alone. */
  lemma SumAppendNone(kinds: map<nat, Kind>, a: seq<Accepted>, b: seq<Accepted>, p: Accepted -> bool)
    requires KindedSamples(kinds, a) && KindedSamples(kinds, b)
    requires forall x :: x in b ==> !p(x)
    ensures SumIf(a + b, p) == SumIf(a, p)
  {
    SumAppend(kinds, a, b, p);
    SumNone(b, p);
    SumKinded(kinds, a, p);
    MergeRowLaws(kinds, SumIf(a, p), EMPTY_ROW);
  }

  lemma SumOfRange(kinds: map<nat, Kind>, ss: seq<Accepted>, owner: nat, lo: nat, mid: nat, hi: nat)
    requires KindedSamples(kinds, ss) && lo <= mid <= hi
    ensures Sum(ss, owner, lo, hi) == MergeRow(Sum(ss, owner, lo, mid), Sum(ss, owner, mid, hi))
  {
    SumSplit(kinds, ss, InBucket(owner, lo, hi), InBucket(owner, lo, mid), InBucket(owner, mid, hi));
  }

  /*** Folding stored rows ***/

  /** Every row belongs to a known owner, starts a bucket, and is a non-empty row of well-kinded points. */
  ghost predicate WellFormed(rows: Rows, owners: set<nat>, step: nat, kinds: map<nat, Kind>)
    requires step > 0
  {
    forall k :: k in rows ==> k.owner in owners && Aligned(k.start, step) && rows[k] != EMPTY_ROW && Kinded(kinds, rows[k])
  }

  ghost predicate Exact(rows: Rows, ss: seq<Accepted>, owner: nat, s: nat, step: nat) {
    Get(rows, owner, s) == Sum(ss, owner, s, s + step)
  }

  /** Folding the stored rows of [s, s + step) gives the exact sum. */
  ghost predicate FoldsTo(rows: Rows, ss: seq<Accepted>, owner: nat, s: nat, step: nat) {
    FoldRange(rows, owner, s, s + step) == Sum(ss, owner, s, s + step)
  }

  ghost predicate FoldsToNothing(rows: Rows, owner: nat, s: nat, step: nat) {
    FoldRange(rows, owner, s, s + step) == EMPTY_ROW
  }

  /** An exact fold that is not empty comes from a sample. */
  lemma FindSample(rows: Rows, ss: seq<Accepted>, owner: nat, s: nat, step: nat) returns (x: Accepted)
    requires FoldsTo(rows, ss, owner, s, step) && !FoldsToNothing(rows, owner, s, step)
    ensures x in ss && x.owner == owner && s <= x.minute < s + step
  {
    var p := InBucket(owner, s, s + step);
    if forall x :: x in ss ==> !p(x) { SumNone(ss, p); }
    x :| x in ss && p(x);
  }

  lemma SampleFolds(rows: Rows, ss: seq<Accepted>, x: Accepted, s: nat, step: nat)
    requires FoldsTo(rows, ss, x.owner, s, step) && x in ss && s <= x.minute < s + step
    ensures !FoldsToNothing(rows, x.owner, s, step)
  {
    SumSome(ss, InBucket(x.owner, s, s + step), x);
  }

  lemma {:induction false} FoldKinded(rows: Rows, owner: nat, lo: nat, hi: nat, owners: set<nat>, step: nat, kinds: map<nat, Kind>)
    requires step > 0 && WellFormed(rows, owners, step, kinds)
    ensures Kinded(kinds, FoldRange(rows, owner, lo, hi))
    decreases hi
  {
    if hi > lo {
      FoldKinded(rows, owner, lo, hi - 1, owners, step, kinds);
      MergeRowLaws(kinds, FoldRange(rows, owner, lo, hi - 1), Get(rows, owner, hi - 1));
    }
  }

  /** Seconds without a row add nothing. */
  lemma {:induction false} FoldSkip(rows: Rows, owner: nat, lo: nat, mid: nat, hi: nat, owners: set<nat>, step: nat, kinds: map<nat, Kind>)
    requires step > 0 && WellFormed(rows, owners, step, kinds) && lo <= mid <= hi
    requires forall t :: mid <= t < hi ==> Key(owner, t) !in rows
    ensures FoldRange(rows, owner, lo, hi) == FoldRange(rows, owner, lo, mid)
    decreases hi
  {
    if hi > mid {
      FoldSkip(rows, owner, lo, mid, hi - 1, owners, step, kinds);
      FoldKinded(rows, owner, lo, mid, owners, step, kinds);
      assert Key(owner, hi - 1) !in rows;
      MergeRowLaws(kinds, FoldRange(rows, owner, lo, mid), EMPTY_ROW);
    }
  }

  /** The finer buckets of [lo, hi) that are exact fold to the exact sum of [lo, hi). */
  lemma {:induction false} FoldExact(rows: Rows, ss: seq<Accepted>, owner: nat, lo: nat, hi: nat, owners: set<nat>, step: nat, kinds: map<nat, Kind>)
    requires step > 0 && WellFormed(rows, owners, step, kinds) && KindedSamples(kinds, ss)
    requires lo <= hi && Aligned(lo, step) && Aligned(hi, step)
    requires forall b :: lo <= b < hi && Aligned(b, step) ==> Exact(rows, ss, owner, b, step)
    ensures FoldRange(rows, owner, lo, hi) == Sum(ss, owner, lo, hi)
    decreases hi
  {
    if lo == hi {
      SumNone(ss, InBucket(owner, lo, hi));
    } else {
      AlignedGap(lo, hi, step);
      AlignedPrev(hi, step);
      var b := hi - step;
      FoldExact(rows, ss, owner, lo, b, owners, step, kinds);
      assert Exact(rows, ss, owner, b, step);
      forall t | b + 1 <= t < hi ensures Key(owner, t) !in rows {
        if Key(owner, t) in rows { AlignedGap(b, t, step); }
      }
      FoldSkip(rows, owner, lo, b + 1, hi, owners, step, kinds);
      SumOfRange(kinds, ss, owner, lo, b, hi);
    }
  }

  /*** Putting a batch into the finest tier ***/

  ghost function Touched(batch: seq<Accepted>, minute: nat): set<Key> {
    set x | x in batch :: Key(x.owner, minute)
  }

  /** The finest tier after a batch, at any second. */
  lemma PutBatchRow(rows: Rows, batch: seq<Accepted>, minute: nat, o: nat, t: nat, kinds: map<nat, Kind>)
    requires KindedSamples(kinds, batch) && Kinded(kinds, Get(rows, o, t))
    requires forall x :: x in batch ==> x.minute == minute
    requires Key(o, t) in rows ==> rows[Key(o, t)] != EMPTY_ROW
    ensures var r := PutBatch(rows, batch, minute);
            && Get(r, o, t) == (if t == minute then MergeRow(Sum(batch, o, t, t + 1), Get(rows, o, t)) else Get(rows, o, t))
            && Kinded(kinds, Get(r, o, t))
            && (Key(o, t) in r ==> r[Key(o, t)] != EMPTY_ROW && (Key(o, t) in rows || Key(o, t) in Touched(batch, minute)))
  {
    var p := InBucket(o, t, t + 1);
    SumKinded(kinds, batch, p);
    MergeRowLaws(kinds, SumIf(batch, p), Get(rows, o, t));
    if Key(o, t) in Touched(batch, minute) {
      var x :| x in batch && Key(x.owner, minute) == Key(o, t);
      SumSome(batch, p, x);
    } else {
      forall x | x in batch ensures !p(x) { assert Key(x.owner, minute) in Touched(batch, minute); }
      SumNone(batch, p);
    }
  }

  /** An exact minute stays exact when a batch is put in and its samples are counted. */
  lemma PutBatchExact(rows: Rows, acc: seq<Accepted>, batch: seq<Accepted>, minute: nat, o: nat, m: nat, res: nat, kinds: map<nat, Kind>)
    requires KindedSamples(kinds, acc) && KindedSamples(kinds, batch) && Kinded(kinds, Get(rows, o, m))
    requires res > 0 && Aligned(m, res) && Aligned(minute, res) && forall x :: x in batch ==> x.minute == minute
    requires Key(o, m) in rows ==> rows[Key(o, m)] != EMPTY_ROW
    requires Exact(rows, acc, o, m, res)
    ensures Exact(PutBatch(rows, batch, minute), acc + batch, o, m, res)
  {
    var p := InBucket(o, m, m + res);
    PutBatchRow(rows, batch, minute, o, m, kinds);
    AlignedGap(m, minute, res);
    if m == minute {
      SumCong(batch, p, InBucket(o, m, m + 1));
      SumAppend(kinds, acc, batch, p);
      SumKinded(kinds, acc, p);
      SumKinded(kinds, batch, p);
      MergeRowLaws(kinds, SumIf(acc, p), SumIf(batch, p));
    } else {
      SumAppendNone(kinds, acc, batch, p);
    }
  }

  /** Folding a coarse bucket is exact when every finer bucket from `cut` on is, nothing
      older is stored, and no sample of the bucket is older. */
  lemma FoldFromCut(rows: Rows, ss: seq<Accepted>, o: nat, s: nat, fine: nat, coarse: nat, cut: int, owners: set<nat>, kinds: map<nat, Kind>)
    requires fine > 0 && coarse > 0 && Aligned(coarse, fine) && Aligned(s, coarse)
    requires WellFormed(rows, owners, fine, kinds) && KindedSamples(kinds, ss)
    requires forall b: nat :: s <= b < s + coarse && Aligned(b, fine) && b >= cut ==> Exact(rows, ss, o, b, fine)
    requires s >= cut || forall k :: k in rows && Floor(k.start, coarse) == s ==> k.start >= cut
    requires s >= cut || forall x :: x in ss && Floor(x.minute, coarse) == s ==> Floor(x.minute, fine) >= cut
    ensures FoldsTo(rows, ss, o, s, coarse)
  {
    AlignedCoarse(s, fine, coarse);
    AlignedNext(s, coarse);
    AlignedCoarse(s + coarse, fine, coarse);
    forall b: nat | s <= b < s + coarse && Aligned(b, fine) ensures Exact(rows, ss, o, b, fine) {
      if b < cut {
        FloorUnique(b, s, coarse);
        assert Key(o, b) !in rows;
        forall x | x in ss ensures !InBucket(o, b, b + fine)(x) {
          if b <= x.minute < b + fine {
            FloorUnique(x.minute, b, fine);
            Nested(x.minute, fine, coarse);
          }
        }
        SumNone(ss, InBucket(o, b, b + fine));
      }
    }
    FoldExact(rows, ss, o, s, s + coarse, owners, fine, kinds);
  }

  /*** Trimming ***/

  lemma TrimKeepsExact(rows: Rows, cutoff: int, ss: seq<Accepted>, o: nat, s: nat, step: nat)
    requires Exact(rows, ss, o, s, step) && s >= cutoff
    ensures Exact(TrimRows(rows, cutoff), ss, o, s, step)
  {
    assert Get(TrimRows(rows, cutoff), o, s) == Get(rows, o, s);
  }

  lemma TrimKeepsForm(rows: Rows, cutoff: int, owners: set<nat>, step: nat, kinds: map<nat, Kind>)
    requires step > 0 && WellFormed(rows, owners, step, kinds)
    ensures WellFormed(TrimRows(rows, cutoff), owners, step, kinds)
    ensures forall k :: k in TrimRows(rows, cutoff) ==> k in rows && k.start >= cutoff
  {}
}
