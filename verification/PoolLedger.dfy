/** What a finished drain reports (internal/plugin/system_pool.go), told by the joins of the run: the ledger
    only grows, an entry takes the word of the first join it gets, and the result is those words. */
module PoolLedger {
  import opened Options
  import opened PoolModel
  import opened PoolInvariant
  import opened PoolTheorems

  /*** What each step does to the ledger ***/

  /** b is a with transports entered at its end, none of them joined; a drain that began, and was forced, still is. */
  ghost predicate Longer(a: Drain, b: Drain) {
    && |a.ordered| <= |b.ordered| && b.ordered[..|a.ordered|] == a.ordered && (forall i :: |a.ordered| <= i < |b.ordered| ==> !b.ordered[i].terminal)
    && (a.started ==> b.started && (a.force ==> b.force))
  }

  lemma LongerTrans(a: Drain, b: Drain, c: Drain)
    requires Longer(a, b) && Longer(b, c)
    ensures Longer(a, c)
  {
    assert c.ordered[..|a.ordered|] == c.ordered[..|b.ordered|][..|a.ordered|];
    forall i | |a.ordered| <= i < |c.ordered| ensures !c.ordered[i].terminal {
      if i < |b.ordered| { assert c.ordered[i] == c.ordered[..|b.ordered|][i]; }
    }
  }

  /** What else a drain records does not matter. */
  lemma Like(x: Drain, a: Drain, b: Drain)
    requires Longer(x, a) && b.ordered == a.ordered && (a.started ==> b.started && (a.force ==> b.force))
    ensures Longer(x, b)
  {}

  lemma RegisterLonger(d: Drain, t: Option<Transport>)
    ensures Longer(d, Register(d, t))
  {}

  lemma {:induction false} KillAllLonger(p: Pool, ws: seq<nat>, reason: nat -> Reason)
    ensures Longer(p.drain, KillAll(p, ws, reason).drain)
    decreases |ws|
  {
    hide Longer, Register, Without;
    assert Longer(p.drain, p.drain) by { Same(p.drain); }
    if ws != [] {
      var k := Kill(p, ws[0], reason(ws[0]));
      if ws[0] in p.recs { RegisterLonger(p.drain, p.recs[ws[0]].transport); }
      KillAllLonger(k, ws[1..], reason);
      LongerTrans(p.drain, k.drain, KillAll(p, ws, reason).drain);
    }
  }

  lemma Same(d: Drain)
    ensures Longer(d, d)
  {}

  lemma PruneLonger(p: Pool, now: int)
    ensures Longer(p.drain, Prune(p, now).drain)
  {
    hide Longer, KillAll, StaleOf, AnyTransport;
    KillAllLonger(p, StaleOf(p, p.idle, now), Why(p));
  }

  lemma WakeLonger(p: Pool, now: int)
    ensures Longer(p.drain, Wake(p, now).drain)
  {
    hide Longer, KillAll, Prune;
    var q := Prune(p, now);
    PruneLonger(p, now);
    KillAllLonger(q, q.idle, Always(CircuitOpened));
    if q.circuitOpen { LongerTrans(p.drain, q.drain, Wake(p, now).drain); }
  }

  lemma RetireLonger(p: Pool, w: nat, reason: Reason)
    ensures Longer(p.drain, Retire(p, w, reason).drain)
  {
    hide Longer, Register, Without, Finished, Summarise;
    Same(p.drain);
    if w in p.recs { RegisterLonger(p.drain, p.recs[w].transport); }
    Like(p.drain, Kill(p, w, reason).drain, Retire(p, w, reason).drain);
  }

  lemma FinishLonger(p: Pool, w: nat, used: bool, now: int)
    ensures Longer(p.drain, FinishLease(p, w, used, now).drain)
    ensures Longer(p.drain, PoisonWorker(p, w).drain)
  {
    hide Longer, Retire, Wake;
    Same(p.drain);
    if w in p.leased && w in p.recs {
      var rec := if used then Used(p.recs[w]) else p.recs[w];
      var hurt := p.recs[w].(served := p.recs[w].served + 1);
      RetireLonger(Replenished(p.(recs := p.recs[w := rec]), rec), w, EndReason(p, rec));
      RetireLonger(Replenished(p.(recs := p.recs[w := hurt]), hurt), w, Poisoned);
      WakeLonger(GiveBack(p, w, rec), now);
    }
  }

  lemma EndLonger(p: Pool, call: nat, end: Ending, now: int)
    ensures Longer(p.drain, End(p, call, end, now).drain)
  {
    hide Longer, FinishLease, PoisonWorker;
    Same(p.drain);
    if call in p.calls && (p.calls[call].Holding? || p.calls[call].Abandoning?) {
      FinishLonger(p.(calls := p.calls[call := Over]), p.calls[call].worker, p.calls[call].Holding? && end == Release, now);
    }
  }

  lemma SettleLonger(r: Pool, order: seq<nat>)
    ensures Longer(r.drain, SettleLeases(r, order).drain)
  {
    hide Longer, KillAll, ListOf, Finished, Summarise;
    Same(r.drain);
    var k := if r.drain.force then KillAll(r, ListOf(r.leased, order), Always(Shutdown)) else r;
    if r.drain.force { KillAllLonger(r, ListOf(r.leased, order), Always(Shutdown)); }
    Like(r.drain, k.drain, SettleLeases(r, order).drain);
  }

  lemma BeginDrainLonger(p: Pool, force: bool, generation: nat, order: seq<nat>)
    ensures Longer(p.drain, BeginDrain(p, force, generation, order).drain)
  {
    hide Longer, KillAll, SettleLeases, FailWaiters;
    Same(p.drain);
    if generation == p.cfg.generation {
      var m := StartDrain(p, force);
      KillAllLonger(m, p.idle, Always(Shutdown));
      if !p.drain.started {
        Like(p.drain, p.drain, m.drain);
        LongerTrans(p.drain, m.drain, Begun(p, force).drain);
      }
      var r := Upgraded(Begun(p, force), force);
      Like(p.drain, Begun(p, force).drain, r.drain);
      SettleLonger(r, order);
      LongerTrans(p.drain, r.drain, SettleLeases(r, order).drain);
    }
  }

  lemma PublishLonger(p: Pool, generation: nat, ready: bool, transport: Option<Transport>, now: int)
    ensures Longer(p.drain, Publish(p, generation, ready, transport, now).drain)
  {
    hide Longer, Prune, Wake, Register;
    var q := Prune(p, now);
    PruneLonger(p, now);
    RegisterLonger(q.drain, transport);
    WakeLonger(Enter(q, now, transport), now);
    LongerTrans(p.drain, q.drain, Register(q.drain, transport));
    LongerTrans(p.drain, q.drain, Wake(Enter(q, now, transport), now).drain);
  }

  lemma CheckoutLonger(p: Pool, now: int, cancelled: bool)
    ensures Longer(p.drain, Checkout(p, now, cancelled).drain)
  {
    hide Longer, Prune, Without;
    PruneLonger(p, now);
  }

  lemma CircuitLonger(p: Pool, open: bool)
    ensures Longer(p.drain, SetCircuit(p, open).drain)
  {
    hide Longer, KillAll, FailWaiters;
    Same(p.drain);
    KillAllLonger(p.(circuitOpen := open, waiters := [], calls := FailWaiters(p.calls, p.waiters)), p.idle, Always(CircuitOpened));
  }

  lemma SuperLonger(p: Pool, started: int, transport: Option<Transport>, now: int)
    ensures Longer(p.drain, SuperAppend(p, started, transport, now).drain)
    ensures Longer(p.drain, SuperReject(p, transport).drain)
    ensures Longer(p.drain, SuperPrune(p, now).drain)
    ensures Longer(p.drain, SuperExit(p).drain) && Longer(p.drain, SuperJoined(p).drain)
  {
    hide Longer, Prune, Wake, Register, HasRoom, Finished, Summarise;
    Same(p.drain);
    PruneLonger(p, now);
    RegisterLonger(p.drain, transport);
    WakeLonger(Enter(p, started, transport), now);
    Like(p.drain, p.drain, SuperJoined(p).drain);
  }

  /** A join that finds its entry open. */
  predicate Joins(p: Pool, op: Op) { op.DoJoined? && op.entry < |p.drain.ordered| && !p.drain.ordered[op.entry].terminal }

  /** Only a join touches an entry, and only its own and while it is open; any other step at most adds open entries. */
  lemma StepLedger(p: Pool, op: Op)
    ensures var a, b := p.drain, Step(p, op).drain;
            && (!Joins(p, op) ==> Longer(a, b))
            && (Joins(p, op) ==>
                && |b.ordered| == |a.ordered| && b.ordered[op.entry] == Entry(a.ordered[op.entry].transport, true, op.err, op.residual)
                && (forall i :: 0 <= i < |a.ordered| && i != op.entry ==> b.ordered[i] == a.ordered[i])
                && b.started == a.started && b.force == a.force)
  {
    hide Longer, Step;
    if op.DoJoined? { JoinStep(p, op); } else { OtherStep(p, op); }
  }

  lemma JoinStep(p: Pool, op: Op)
    requires op.DoJoined?
    ensures var a, b := p.drain, Step(p, op).drain;
            && (!Joins(p, op) ==> Longer(a, b))
            && (Joins(p, op) ==>
                && |b.ordered| == |a.ordered| && b.ordered[op.entry] == Entry(a.ordered[op.entry].transport, true, op.err, op.residual)
                && (forall i :: 0 <= i < |a.ordered| && i != op.entry ==> b.ordered[i] == a.ordered[i])
                && b.started == a.started && b.force == a.force)
  {
    hide Longer, Finished, Summarise;
    Same(p.drain);
  }

  lemma OtherStep(p: Pool, op: Op)
    requires !op.DoJoined?
    ensures Longer(p.drain, Step(p, op).drain)
  {
    hide Longer, Publish, Checkout, End, SetCircuit, SuperAppend, SuperReject, SuperPrune, SuperExit, SuperJoined, BeginDrain;
    Same(p.drain);
    match op
    case DoPublish(generation, ready, transport, now) => PublishLonger(p, generation, ready, transport, now);
    case DoCheckout(now, cancelled) => CheckoutLonger(p, now, cancelled);
    case DoEnd(call, end, now) => EndLonger(p, call, end, now);
    case DoSetCircuit(open) => CircuitLonger(p, open);
    case DoSuperPrune(now) => SuperLonger(p, 0, None, now);
    case DoSuperReject(transport) => SuperLonger(p, 0, transport, 0);
    case DoSuperAppend(started, transport, now) => SuperLonger(p, started, transport, now);
    case DoSuperExit => SuperLonger(p, 0, None, 0);
    case DoSuperJoined => SuperLonger(p, 0, None, 0);
    case DoBeginDrain(force, generation, order) => BeginDrainLonger(p, force, generation, order);
    case _ =>
  }

  /*** Over a run ***/

  datatype Report = Report(err: Option<nat>, residual: bool)

  /** The first join of the run that names entry i once it is in the ledger. */
  ghost function FirstReport(cfg: Config, run: seq<Op>, i: nat): Option<Report> {
    if run == [] then None
    else
      var init, op := run[..|run| - 1], run[|run| - 1];
      if FirstReport(cfg, init, i).Some? then FirstReport(cfg, init, i)
      else if op.DoJoined? && op.entry == i && i < |Exec(cfg, init).drain.ordered| then Some(Report(op.err, op.residual))
      else None
  }

  ghost predicate EntryTold(p: Pool, i: nat, r: Option<Report>) {
    if i < |p.drain.ordered| then
      var e := p.drain.ordered[i];
      (e.terminal <==> r.Some?) && (r.Some? ==> e.err == r.value.err && e.residual == r.value.residual)
    else r.None?
  }

  /** An entry is joined exactly when the run has a join of it, and holds what the first one said. */
  lemma {:induction false} LedgerIsTold(cfg: Config, run: seq<Op>, i: nat)
    ensures EntryTold(Exec(cfg, run), i, FirstReport(cfg, run, i))
    decreases |run|
  {
    hide Step;
    if run != [] {
      var init, op := run[..|run| - 1], run[|run| - 1];
      LedgerIsTold(cfg, init, i);
      StepLedger(Exec(cfg, init), op);
      var a, b := Exec(cfg, init).drain, Exec(cfg, run).drain;
      if i < |a.ordered| && Longer(a, b) { assert b.ordered[i] == b.ordered[..|a.ordered|][i]; }
    }
  }

  /** The errors the joins of entries below n reported, in ledger order. */
  ghost function ReportedErrors(cfg: Config, run: seq<Op>, n: nat): seq<nat> {
    if n == 0 then []
    else
      var r := FirstReport(cfg, run, n - 1);
      ReportedErrors(cfg, run, n - 1) + if r.Some? && r.value.err.Some? then [r.value.err.value] else []
  }

  lemma {:induction false} ErrorsAreReported(cfg: Config, run: seq<Op>, n: nat)
    requires n <= |Exec(cfg, run).drain.ordered| && AllTerminal(Exec(cfg, run).drain.ordered)
    ensures Errors(Exec(cfg, run).drain.ordered[..n]) == ReportedErrors(cfg, run, n)
  {
    hide Exec, FirstReport;
    var s := Exec(cfg, run).drain.ordered;
    if n > 0 {
      ErrorsAreReported(cfg, run, n - 1);
      LedgerIsTold(cfg, run, n - 1);
      assert s[..n][..n - 1] == s[..n - 1];
    }
  }

  /** What a final drain answers, in every interleaving: every transport in its ledger was joined, its errors are
      those the joins reported, in ledger order, and its residual groups are exactly the groups of the transports
      whose join found one. */
  lemma DrainTellsTheJoins(cfg: Config, run: seq<Op>)
    requires cfg.Valid() && Exec(cfg, run).drain.finalized
    ensures var d := Exec(cfg, run).drain;
            && (forall i: nat :: i < |d.ordered| ==> FirstReport(cfg, run, i).Some?)
            && d.result.errs == ReportedErrors(cfg, run, |d.ordered|)
            && (forall g: nat :: g in d.result.residual <==>
                  g != 0 && exists i: nat :: i < |d.ordered| && d.ordered[i].transport.pgid == g && LeftBehind(cfg, run, i))
  {
    hide Exec, FirstReport, Errors;
    ExecInv(cfg, run);
    var d := Exec(cfg, run).drain;
    assert Finished(d) && d.result == Summarise(d.ordered) by { FinalIs(Exec(cfg, run)); }
    forall i: nat | i < |d.ordered| ensures FirstReport(cfg, run, i).Some? && (d.ordered[i].residual <==> LeftBehind(cfg, run, i)) {
      LedgerIsTold(cfg, run, i);
    }
    ErrorsAreReported(cfg, run, |d.ordered|);
    assert d.ordered[..|d.ordered|] == d.ordered;
  }

  /** The first join of entry i found its process group still there. */
  ghost predicate LeftBehind(cfg: Config, run: seq<Op>, i: nat) {
    FirstReport(cfg, run, i).Some? && FirstReport(cfg, run, i).value.residual
  }

  lemma FinalIs(p: Pool)
    requires Inv(p) && p.drain.finalized
    ensures Finished(p.drain) && p.drain.result == Summarise(p.drain.ordered)
  {}
}
