/** What holds of the metrics store over whole runs of writes and restarts. */
module MetricsTheorems {
  import opened Buckets
  import opened MetricsModel
  import opened MetricsSums
  import opened MetricsCatalog
  import opened MetricsRoll
  import opened MetricsInvariant
  import opened MetricsMonotone

  /** A restart reads back what the last transaction committed (MetricsDB.Reopen), so it leaves the state alone. */
  datatype Op = DoWrite(at: nat, samples: seq<Sample>) | Restart

  ghost function Step(c: Config, st: State, op: Op): (st': State)
    requires ValidConfig(c) && Shaped(c, st)
    ensures Shaped(c, st')
  {
    match op
    case DoWrite(at, samples) => Write(c, st, at, samples)
    case Restart => st
  }

  ghost function Exec(c: Config, run: seq<Op>): (st: State)
    requires ValidConfig(c)
    ensures Shaped(c, st)
  {
    if run == [] then InitState(c) else Step(c, Exec(c, run[..|run| - 1]), run[|run| - 1])
  }

  lemma StepInv(c: Config, st: State, op: Op)
    requires ValidConfig(c) && Inv(c, st)
    ensures Inv(c, Step(c, st, op))
  {
    if op.DoWrite? && !Late(c, st, op.at) { Txn(c, st, op.at, op.samples).Keeps(); }
  }

  lemma {:induction false} ExecInv(c: Config, run: seq<Op>)
    requires ValidConfig(c)
    ensures Inv(c, Exec(c, run))
    decreases |run|
  {
    hide Inv, Write;
    if run == [] {
      InitInv(c);
    } else {
      ExecInv(c, run[..|run| - 1]);
      StepInv(c, Exec(c, run[..|run| - 1]), run[|run| - 1]);
    }
  }

  /** In every run, clock faults included, every rolled and retained bucket of the
      second tier is the merge of all accepted samples whose minute lies in it, and
      every retained minute of the finest tier is the merge of its own. */
  lemma SecondTierIsExact(c: Config, run: seq<Op>, o: nat, s: nat)
    requires ValidConfig(c)
    ensures var st := Exec(c, run);
            && (Aligned(s, c.tiers[0].res) && s >= st.horizon - c.tiers[0].keep
                ==> Get(st.rows[0], o, s) == Sum(st.accepted, o, s, s + c.tiers[0].res))
            && (|c.tiers| > 1 && Aligned(s, c.tiers[1].res) && RolledPast(c, s, st.rolled[1]) && s >= st.horizon - c.tiers[1].keep
                ==> Get(st.rows[1], o, s) == Sum(st.accepted, o, s, s + c.tiers[1].res))
  {
    hide Exec, SumIf;
    ExecInv(c, run);
    var st := Exec(c, run);
    assert Aligned(s, c.tiers[0].res) && s >= st.horizon - c.tiers[0].keep ==> Exact(st.rows[0], st.accepted, o, s, c.tiers[0].res);
    if |c.tiers| > 1 && Aligned(s, c.tiers[1].res) && RolledPast(c, s, st.rolled[1]) && s >= st.horizon - c.tiers[1].keep {
      assert Exact(st.rows[1], st.accepted, o, s, c.tiers[1].res);
    }
  }

  /*** Runs whose instants never go backwards ***/

  ghost function LastMinute(c: Config, run: seq<Op>): nat
    requires ValidConfig(c)
  {
    if run == [] then 0
    else match run[|run| - 1]
      case DoWrite(at, _) => Floor(at, c.tiers[0].res)
      case Restart => LastMinute(c, run[..|run| - 1])
  }

  ghost predicate NeverBackwards(c: Config, run: seq<Op>)
    requires ValidConfig(c)
  {
    run != [] ==>
      && NeverBackwards(c, run[..|run| - 1])
      && (run[|run| - 1].DoWrite? ==> LastMinute(c, run[..|run| - 1]) <= Floor(run[|run| - 1].at, c.tiers[0].res))
  }

  lemma {:induction false} ExecMono(c: Config, run: seq<Op>)
    requires ValidConfig(c) && NeverBackwards(c, run)
    ensures Mono(c, Exec(c, run), LastMinute(c, run))
    decreases |run|
  {
    hide Inv, Mono, Floor, Late;
    if run == [] {
      BlankIsMono(c);
    } else {
      var init, op := run[..|run| - 1], run[|run| - 1];
      ExecMono(c, init);
      ExecInv(c, init);
      if op.DoWrite? {
        NeverLate(c, Exec(c, init), op.at, LastMinute(c, init));
        MonoKeeps(Txn(c, Exec(c, init), op.at, op.samples), LastMinute(c, init));
      }
    }
  }

  lemma BlankIsMono(c: Config)
    requires ValidConfig(c)
    ensures Mono(c, InitState(c), 0)
  {
    BlankMono(c, InitState(c), 0);
  }

  /** When write instants never go backwards, outages of any length allowed, no write
      is refused as late, what is rolled is closed, and every closed and retained bucket of
      every coarser tier is the merge of all accepted samples in it, the epoch's own
      included where every tier keeps two buckets of the next. */
  lemma RollupsAreExact(c: Config, run: seq<Op>, i: nat, o: nat, s: nat)
    requires ValidConfig(c) && NeverBackwards(c, run) && 0 < i < |c.tiers|
    ensures var st := Exec(c, run);
            Aligned(s, c.tiers[i].res) && s + c.tiers[i].res <= st.horizon && (0 < s || Roomy(c)) && s >= st.horizon - c.tiers[i].keep
            ==> Get(st.rows[i], o, s) == Sum(st.accepted, o, s, s + c.tiers[i].res)
    ensures var st := Exec(c, run); st.rolled[i] != 0 ==> st.rolled[i] + c.tiers[i].res <= st.horizon
    ensures forall at: nat :: LastMinute(c, run) <= Floor(at, c.tiers[0].res) ==> !Late(c, Exec(c, run), at)
  {
    hide Exec, SumIf, NeverBackwards, Floor, Late, Roomy;
    var st := Exec(c, run);
    ExecInv(c, run);
    ExecMono(c, run);
    assert RolledOK(c, st, st.horizon);
    if Aligned(s, c.tiers[i].res) && s + c.tiers[i].res <= st.horizon && (0 < s || Roomy(c)) && s >= st.horizon - c.tiers[i].keep {
      assert ClosedBucket(c, i, s, st.horizon);
      assert Exact(st.rows[i], st.accepted, o, s, c.tiers[i].res);
    }
    forall at: nat | LastMinute(c, run) <= Floor(at, c.tiers[0].res) ensures !Late(c, st, at) {
      NeverLate(c, st, at, LastMinute(c, run));
    }
  }

  /** The default tiers: a minute for two days, five for fourteen, an hour for ninety, a day for
      five years. */
  const DEFAULT_TIERS: seq<Tier> := [Tier(60, 172_800), Tier(300, 1_209_600), Tier(3600, 7_776_000), Tier(86_400, 158_112_000)]

  lemma DefaultsAreRoomy(c: Config)
    requires c.tiers == DEFAULT_TIERS
    ensures Roomy(c) && forall i :: 0 <= i < |c.tiers| ==> TwoBuckets(c.tiers[0], c.tiers[i])
  {}

  /*** Rebuilds ***/

  /** In every run, whenever a coarser bucket is rolled or rolled again, no row of it has
      ever been trimmed from the tier below. Only the epoch's own bucket, while its tier
      has rolled no later one, needs the tier below to keep two coarse buckets. */
  lemma RebuildsAreWhole(c: Config, run: seq<Op>, at: nat, samples: seq<Sample>, i: nat, s: nat, k: Key)
    requires ValidConfig(c) && 0 < i < |c.tiers| && Rebuilds(c, Exec(c, run), at, samples, i, s)
    requires 0 < s || Exec(c, run).rolled[i] != 0 || c.tiers[i - 1].keep >= 2 * c.tiers[i].res
    requires Trimmed(i - 1, k) in Exec(c, run).trimmed
    ensures !(s <= k.start < s + c.tiers[i].res)
  {
    hide Exec;
    ExecInv(c, run);
    WholeAt(Txn(c, Exec(c, run), at, samples), i, s, k);
  }

  lemma WholeAt(t: Txn, i: nat, s: nat, k: Key)
    requires t.Ok() && 0 < i < |t.c.tiers| && Rebuilds(t.c, t.st, t.at, t.samples, i, s)
    requires 0 < s || t.st.rolled[i] != 0 || t.c.tiers[i - 1].keep >= 2 * t.c.tiers[i].res
    requires Trimmed(i - 1, k) in t.st.trimmed
    ensures !(s <= k.start < s + t.c.tiers[i].res)
  {
    hide RollUpTo, RollTier, FoldRange, AdmitAll, PutBatch, CatalogOK, Floor;
    var res := t.c.tiers[i].res;
    t.Parts();
    t.RollPre(i);
    var r := t.RollAt(i);
    assert r.Rebuilds(s);
    assert TrimmedOK(t.c, t.st, t.Prev(), Trimmed(i - 1, k));
    r.Last();
    if s <= k.start < s + res {
      FloorUnique(k.start, s, res);
      RangeAt(r, s);
    }
  }

  lemma RangeAt(r: Roll, s: nat)
    requires r.Pre() && r.Rebuilds(s)
    ensures (s == Floor(r.written, r.step) && r.rolled != 0) || s > r.rolled || (s == 0 && r.rolled == 0)
  {
    if s > 0 { r.Range(s); }
    else if Starts(r.fine, r.owners) != {} { FirstBucketFacts(r.fine, r.owners, r.rolled, r.step); }
  }

  /*** The horizon ***/

  /** The horizon and every last rolled bucket never decrease, one write to a store that
      has a horizon moves it at most an hour, and a last rolled bucket that moves has
      ended by the new horizon. */
  lemma HorizonIsBounded(c: Config, run: seq<Op>, op: Op)
    requires ValidConfig(c)
    ensures var st, st' := Exec(c, run), Step(c, Exec(c, run), op);
            && st.horizon <= st'.horizon
            && (st.horizon != 0 ==> st'.horizon <= st.horizon + MAX_HORIZON_ADVANCE)
            && (forall i :: 0 < i < |c.tiers| ==> st.rolled[i] <= st'.rolled[i] && (st'.rolled[i] != st.rolled[i] ==> st'.rolled[i] + c.tiers[i].res <= st'.horizon))
  {
    hide Exec, RollUpTo, AdmitAll, PutBatch, Floor, TrimRows, TrimmedNow;
    ExecInv(c, run);
    var st := Exec(c, run);
    if op.DoWrite? && !Late(c, st, op.at) {
      var t := Txn(c, st, op.at, op.samples);
      t.AfterIsResult();
      t.Parts();
      forall i | 0 < i < |c.tiers|
        ensures st.rolled[i] <= t.Mid().1[i] && (t.Mid().1[i] != st.rolled[i] ==> t.Mid().1[i] + c.tiers[i].res <= t.Next())
      {
        t.TierAfter(i);
      }
    }
  }
}
