/** The drain, and what holds of the worker pool over every interleaving. */
module PoolTheorems {
  import opened Options
  import opened PoolModel
  import opened PoolInvariant
  import opened PoolSteps
  import opened PoolEndings

  /*** The drain ***/

  lemma StartDrainCore(p: Pool, force: bool)
    requires Core(p)
    ensures Core(StartDrain(p, force))
  {
    hide Core, FailWaiters;
    FailCore(p);
    var m := p.(waiters := [], calls := FailWaiters(p.calls, p.waiters));
    FlagsCore(m, m.circuitOpen, true);
    DrainCore(m.(closed := true), StartDrain(p, force).drain);
  }

  /** A pool whose drain has begun, whatever became of its leases yet. */
  ghost predicate Draining(q: Pool) {
    && Core(q) && q.closed && q.idle == [] && q.waiters == [] && SuperOK(q) && q.drain.started
    && (q.drain.finalized ==> DrainOK(q))
  }

  lemma SettleForced(r: Pool, order: seq<nat>)
    requires Draining(r) && r.drain.force
    ensures Inv(SettleLeases(r, order)) && DeadStay(r, SettleLeases(r, order)) && Settled(r, SettleLeases(r, order))
  {
    hide Core, AllTerminal, Summarise, KillAll, ListOf, Finalize, DeadStay;
    FinalNoLease(r);
    KillLeased(r, ListOf(r.leased, order), Always(Shutdown));
    var k := KillAll(r, ListOf(r.leased, order), Always(Shutdown));
    FirstMember(ListOf(r.leased, order));
    KillNobody(r, Always(Shutdown));
    var d := k.drain.(leasedPending := 0);
    FinalizeFacts(d);
    DrainCore(k, Finalize(d));
    SameStay(k, SettleLeases(r, order));
    DeadStayTrans(r, k, SettleLeases(r, order));
  }

  lemma FinalNoLease(r: Pool)
    requires Draining(r)
    ensures r.drain.finalized ==> r.leased == {} && r.drain.leasedPending == 0 && Finished(r.drain) && r.drain.result == Summarise(r.drain.ordered)
  {
    hide Core, AllTerminal, Summarise;
    assert |r.leased| == 0 ==> r.leased == {};
  }

  lemma SettleGraceful(r: Pool, order: seq<nat>)
    requires Draining(r) && !r.drain.force
    ensures Inv(SettleLeases(r, order)) && DeadStay(r, SettleLeases(r, order)) && Settled(r, SettleLeases(r, order))
  {
    hide Core, AllTerminal, Summarise, Finalize;
    FinalNoLease(r);
    var d := r.drain.(leasedPending := |r.leased|);
    FinalizeFacts(d);
    DrainCore(r, Finalize(d));
  }

  /** What settling the leases leaves alone. */
  ghost predicate Settled(r: Pool, q: Pool) {
    && q.cfg == r.cfg && q.calls == r.calls && q.waiters == r.waiters && q.closed && q.idle == [] && q.leased <= r.leased && q.recs.Keys == r.recs.Keys
    && (r.drain.finalized ==> q.drain.finalized && q.drain.result == r.drain.result && q.drain.ordered == r.drain.ordered)
  }

  lemma BegunOK(p: Pool, force: bool)
    requires Inv(p)
    ensures var q := Begun(p, force);
            && Draining(q) && DeadStay(p, q) && q.cfg == p.cfg && q.leased == p.leased && q.recs.Keys == p.recs.Keys
            && (p.drain.started ==> q == p) && (!p.drain.started ==> !q.drain.finalized && q.calls == FailWaiters(p.calls, p.waiters))
  {
    hide Core, KillAll, FailWaiters, AllTerminal, Summarise, DeadStay;
    if p.drain.started {
      SameStay(p, p);
    } else {
      Untouched(p);
      StartDrainCore(p, force);
      var m := StartDrain(p, force);
      KillIdle(m, Always(Shutdown));
      SameStay(p, m);
      DeadStayTrans(p, m, KillAll(m, p.idle, Always(Shutdown)));
    }
  }

  lemma BeginDrainKeeps(p: Pool, force: bool, generation: nat, order: seq<nat>)
    requires Inv(p)
    ensures Inv(BeginDrain(p, force, generation, order)) && Next(p, BeginDrain(p, force, generation, order))
  {
    hide Core, KillAll, FailWaiters, Finalize, ListOf, DrainOK, SuperOK, DeadStay, Holds;
    if generation != p.cfg.generation {
      SelfNext(p);
    } else {
      var q := Begun(p, force);
      BegunOK(p, force);
      var r := Upgraded(q, force);
      UpgradeOK(q, force);
      if r.drain.force { SettleForced(r, order); } else { SettleGraceful(r, order); }
      SameStay(q, r);
      DeadStayTrans(p, q, r);
      DeadStayTrans(p, r, SettleLeases(r, order));
      FailCore(p);
      FinalIsDrain(p);
    }
  }

  lemma FinalIsDrain(p: Pool)
    requires Inv(p)
    ensures p.drain.finalized ==> p.drain.started
    ensures p.closed == p.drain.started
  {}

  lemma UpgradeOK(q: Pool, force: bool)
    requires Draining(q)
    ensures Draining(Upgraded(q, force))
  {
    hide Core, AllTerminal, Summarise;
    FinalNoLease(q);
    DrainCore(q, q.drain.(force := true));
  }

  lemma JoinedKeeps(p: Pool, i: nat, err: Option<nat>, residual: bool)
    requires Inv(p)
    ensures Inv(Joined(p, i, err, residual)) && Next(p, Joined(p, i, err, residual))
  {
    hide Core, Summarise, Finalize, Holds, DeadStay;
    SameStay(p, Joined(p, i, err, residual));
    if i < |p.drain.ordered| && !p.drain.ordered[i].terminal {
      var e := p.drain.ordered[i].(terminal := true, err := err, residual := residual);
      var d := p.drain.(ordered := p.drain.ordered[i := e]);
      FinalizeFacts(d);
      JoinCore(p, i, Finalize(d));
    }
  }

  lemma JoinCore(p: Pool, i: nat, d: Drain)
    requires Core(p) && i < |p.drain.ordered| == |d.ordered|
    requires forall j :: 0 <= j < |d.ordered| ==> d.ordered[j].transport == p.drain.ordered[j].transport
    ensures Core(p.(drain := d))
  {
    hide Distinct, Ascending, Holds, PlacesOK, CountOK, UsesOK, LineOK, HoldOK, ReportsOK;
    var q := p.(drain := d);
    forall t | Registered(p.drain.ordered, t) ensures Registered(d.ordered, t) {
      var j :| 0 <= j < |p.drain.ordered| && p.drain.ordered[j].transport == t;
      assert d.ordered[j].transport == t;
    }
    DrainOnly(p, d);
  }

  lemma DrainOnly(p: Pool, d: Drain)
    ensures var q := p.(drain := d);
            && (PlacesOK(p) ==> PlacesOK(q)) && (CountOK(p) ==> CountOK(q)) && (UsesOK(p) ==> UsesOK(q))
            && (LineOK(p) ==> LineOK(q)) && (HoldOK(p) ==> HoldOK(q)) && (ReportsOK(p) ==> ReportsOK(q))
  {
    hide Distinct, Ascending, Holds;
  }

  /*** Every step, every run ***/

  lemma StepKeeps(p: Pool, op: Op)
    requires Inv(p)
    ensures Inv(Step(p, op)) && Next(p, Step(p, op))
  {
    hide Inv, Next, Publish, Checkout, Accept, Cancel, End, SetCircuit, SuperAppend, Prune, RequestReplenish, BeginDrain, Joined, Register;
    SelfNext(p);
    match op
    case DoPublish(generation, ready, transport, now) => PublishKeeps(p, generation, ready, transport, now);
    case DoCheckout(now, cancelled) => CheckoutKeeps(p, now, cancelled);
    case DoAccept(call) => AcceptKeeps(p, call);
    case DoCancel(call) => CancelKeeps(p, call);
    case DoEnd(call, end, now) => EndKeeps(p, call, end, now);
    case DoActivate => StartKeeps(p);
    case DoSetCircuit(open) => CircuitKeeps(p, open);
    case DoSuperPrune(now) => PruneKeeps(p, now);
    case DoSuperReject(transport) => RegisterKeeps(p, transport);
    case DoSuperAppend(started, transport, now) => SuperAppendKeeps(p, started, transport, now);
    case DoSuperExit => SuperExitKeeps(p);
    case DoSuperJoined => SuperExitKeeps(p);
    case DoBeginDrain(force, generation, order) => BeginDrainKeeps(p, force, generation, order);
    case DoJoined(entry, err, residual) => JoinedKeeps(p, entry, err, residual);
  }

  lemma {:induction false} ExecInv(cfg: Config, run: seq<Op>)
    requires cfg.Valid()
    ensures Inv(Exec(cfg, run)) && Exec(cfg, run).cfg == cfg
    decreases |run|
  {
    hide Inv, Step, Forward, InOrder, DrainForward;
    if run == [] {
      NewInv(cfg);
    } else {
      ExecInv(cfg, run[..|run| - 1]);
      StepKeeps(Exec(cfg, run[..|run| - 1]), run[|run| - 1]);
    }
  }

  /** Conservation: in every interleaving each worker that entered the idle list is in
      exactly one of idle, leased and dead; the lease counter is the number of leases;
      idle and leased stay within size plus overflow; no worker serves more than maxUses
      uses, the lease it is on included; idle workers and waiters never coexist. */
  lemma Conservation(cfg: Config, run: seq<Op>, w: nat)
    requires cfg.Valid()
    ensures var p := Exec(cfg, run);
            && (w in p.recs ==>
                  && (w in p.idle || w in p.leased || p.recs[w].fate.Dead?)
                  && !(w in p.idle && w in p.leased) && (p.recs[w].fate.Dead? ==> w !in p.idle && w !in p.leased)
                  && p.recs[w].served + (if w in p.leased then 1 else 0) <= cfg.maxUses)
            && (w !in p.recs ==> w !in p.idle && w !in p.leased)
            && Distinct(p.idle) && p.active == |p.leased| && |p.idle| + |p.leased| <= cfg.size + cfg.maxOverflow
            && (p.idle == [] || p.waiters == [])
  {
    hide Exec, LineOK, HoldOK, ReportsOK, LedgerOK, Distinct;
    ExecInv(cfg, run);
  }

  /** A lease is held by exactly one checkout that is not over, so a cancelled one keeps none. */
  lemma LeasesHaveOneHolder(cfg: Config, run: seq<Op>, w: nat)
    requires cfg.Valid()
    ensures var p := Exec(cfg, run);
            && (w in p.leased ==> Held(p.calls, w))
            && (forall t, u :: t in p.calls && u in p.calls && Holds(p.calls[t], w) && Holds(p.calls[u], w) ==> t == u)
            && (forall t :: t in p.calls && p.calls[t] == Over ==> !Holds(p.calls[t], w))
  {
    hide Exec, LineOK, PlacesOK, ReportsOK, LedgerOK;
    ExecInv(cfg, run);
  }

  /** First come, first served: whatever happens next, a checkout that is given a worker
      arrived before every checkout still waiting. */
  lemma NoOvertaking(cfg: Config, run: seq<Op>, op: Op, t: nat, u: nat)
    requires cfg.Valid()
    ensures var p, q := Exec(cfg, run), Step(Exec(cfg, run), op);
            Granted(p, q, t) && u in q.waiters ==> t < u
  {
    hide Exec, Step, Inv, Forward, DrainForward;
    ExecInv(cfg, run);
    StepKeeps(Exec(cfg, run), op);
  }

  /** The drain is complete: its future is final exactly when it began, the supervisor has
      gone, no lease is left and every registered transport is joined; then every worker
      that ever entered is dead, reported retired exactly once, and its transport joined. */
  lemma DrainIsComplete(cfg: Config, run: seq<Op>)
    requires cfg.Valid()
    ensures var p := Exec(cfg, run);
            && (p.drain.finalized <==> p.drain.started && (p.superStart ==> p.superExited && !p.drain.supervisorPending) && p.leased == {} && AllTerminal(p.drain.ordered))
            && (p.drain.finalized ==> forall w :: w in p.recs ==> p.recs[w].fate.Dead? && p.reports[w] == 1 && (p.recs[w].transport.Some? ==> Registered(p.drain.ordered, p.recs[w].transport.value)))
            && (forall w: nat :: p.reports[w] <= 1)
  {
    hide Exec, LineOK, HoldOK, Distinct, AllTerminal, Registered;
    ExecInv(cfg, run);
    var p := Exec(cfg, run);
    assert |p.leased| == 0 <==> p.leased == {};
  }

  /** The drain is final: once it began nobody becomes idle or leased again, and once it is
      complete neither its result nor its ledger changes, whatever happens next. */
  lemma {:induction false} DrainIsFinal(cfg: Config, run: seq<Op>, more: seq<Op>)
    requires cfg.Valid()
    ensures var p, q := Exec(cfg, run), Exec(cfg, run + more);
            && (p.drain.started ==> q.drain.started && q.idle == [] && q.leased <= p.leased && q.recs.Keys == p.recs.Keys)
            && (p.drain.finalized ==> q.drain.finalized && q.drain.result == p.drain.result && q.drain.ordered == p.drain.ordered)
    decreases |more|
  {
    hide Inv, Step, Forward, InOrder;
    ExecInv(cfg, run);
    FinalIsDrain(Exec(cfg, run));
    if more == [] {
      assert run + more == run;
      FinalShut(Exec(cfg, run));
    } else {
      var init := more[..|more| - 1];
      assert (run + more)[..|run + more| - 1] == run + init;
      DrainIsFinal(cfg, run, init);
      ExecInv(cfg, run + init);
      ExecInv(cfg, run + more);
      FinalIsDrain(Exec(cfg, run + init));
      FinalIsDrain(Exec(cfg, run + more));
      StepKeeps(Exec(cfg, run + init), more[|more| - 1]);
    }
  }
}
