/** The worker pool as the code keeps it: fields updated in place by one critical section
    at a time, each proved to be the model's step. */
module SystemPool {
  import opened Options
  import opened PoolModel
  import opened PoolInvariant
  import opened PoolSteps
  import opened PoolEndings
  import opened PoolTheorems

  class Pool {
    const cfg: Config
    var recs: map<nat, Worker>
    var workers: seq<nat>
    var waiters: seq<nat>
    var leased: set<nat>
    var active: nat
    var closed: bool
    var circuitOpen: bool
    var superStart: bool
    var superExited: bool
    var drain: Drain
    /** What each checkout's channel and caller have seen. */
    var calls: map<nat, Call>
    var nextWorker: nat
    var nextCall: nat
    /** The retirements reported to the observer. */
    var reports: multiset<nat>

    ghost function State(): PoolModel.Pool
      reads this
    {
      PoolModel.Pool(cfg, recs, workers, waiters, leased, active, closed, circuitOpen, superStart, superExited, drain, calls, nextWorker, nextCall, reports)
    }

    ghost predicate Valid()
      reads this
    {
      Inv(State())
    }

    constructor (config: Config)
      requires config.Valid()
      ensures Valid() && State() == New(config)
    {
      cfg := config;
      recs, workers, waiters, leased, active := map[], [], [], {}, 0;
      closed, circuitOpen, superStart, superExited := false, false, false, false;
      drain, calls, nextWorker, nextCall, reports := Drain(false, false, false, 0, [], false, NO_SUMMARY), map[], 0, 0, multiset{};
      new;
      NewInv(config);
    }

    /** registerTransportLocked */
    method Register(t: Option<Transport>)
      modifies `drain
      ensures drain == PoolModel.Register(old(drain), t)
    {
      if t.None? || drain.finalized { return; }
      for i := 0 to |drain.ordered|
        invariant forall j :: 0 <= j < i ==> drain.ordered[j].transport != t.value || drain.ordered[j].terminal
        invariant drain == old(drain)
      {
        if drain.ordered[i].transport == t.value && !drain.ordered[i].terminal { return; }
      }
      drain := drain.(ordered := drain.ordered + [Entry(t.value, false, None, false)]);
    }

    /** finalizeDrainLocked: the ledger is walked, and the first transport not joined stops it. */
    method Finalize()
      modifies `drain
      ensures drain == PoolModel.Finalize(old(drain))
    {
      if !drain.started || drain.finalized || drain.supervisorPending || drain.leasedPending != 0 { return; }
      var errs: seq<nat>, residual: set<nat> := [], {};
      for i := 0 to |drain.ordered|
        invariant drain == old(drain)
        invariant forall j :: 0 <= j < i ==> drain.ordered[j].terminal
        invariant errs == Errors(drain.ordered[..i]) && residual == Residuals(drain.ordered[..i])
      {
        var entry := drain.ordered[i];
        if !entry.terminal { return; }
        assert drain.ordered[..i + 1][..i] == drain.ordered[..i];
        ResidualsOne(drain.ordered, i);
        if entry.err.Some? { errs := errs + [entry.err.value]; }
        if entry.residual && entry.transport.pgid != 0 { residual := residual + {entry.transport.pgid}; }
      }
      assert drain.ordered[..|drain.ordered|] == drain.ordered;
      drain := drain.(finalized := true, result := Summary(errs, residual));
    }

    /** A worker dies: its state, its transport in the ledger, its report. The lists are the caller's to mend. */
    method Die(w: nat, reason: Reason)
      requires w in recs
      modifies `recs, `drain, `reports
      ensures recs == old(recs)[w := old(recs)[w].(fate := Dead(reason))]
      ensures drain == PoolModel.Register(old(drain), old(recs)[w].transport) && reports == old(reports) + multiset{w}
    {
      reports := reports + multiset{w};
      Register(recs[w].transport);
      recs := recs[w := recs[w].(fate := Dead(reason))];
    }

    method RequestReplenish()
      modifies `superStart
      ensures superStart == (old(superStart) || (!closed && !circuitOpen && cfg.replenishes))
      ensures State() == PoolModel.RequestReplenish(old(State()))
    {
      if closed || circuitOpen || !cfg.replenishes { return; }
      superStart := true;
    }

    /** Where pruning stands once the first i idle workers have been looked at. */
    ghost predicate Pruning(p: PoolModel.Pool, i: nat, kept: seq<nat>, retired: bool, now: int)
      reads this
    {
      && i <= |p.idle| && State() == Scanned(p, p.idle, i, now, Why(p)).(idle := p.idle)
      && kept + p.idle[i..] == Scanned(p, p.idle, i, now, Why(p)).idle && retired == AnyTransport(p, StaleOf(p, p.idle[..i], now))
    }

    method LookAt(ghost p: PoolModel.Pool, i: nat, kept0: seq<nat>, retired0: bool, now: int) returns (kept: seq<nat>, retired: bool)
      requires Core(p) && (p.drain.finalized ==> p.idle == []) && Pruning(p, i, kept0, retired0, now) && i < |workers|
      modifies `recs, `drain, `reports
      ensures Pruning(p, i + 1, kept, retired, now)
    {
      hide KillAll, Kill, StaleOf, Stale, Core, PoolModel.Register, Distinct, Scanned, Without, AnyTransport, StaleReason;
      kept, retired := kept0, retired0;
      var w := workers[i];
      ghost var q := Scanned(p, p.idle, i, now, Why(p));
      IdleKnown(p);
      ScanOne(p, i, now, Why(p));
      AnyOne(p, StaleOf(p, p.idle[..i], now), w);
      if Stale(cfg, recs[w], now) {
        ScannedCore(p, i, now, Why(p));
        KillIdleIs(q, w, Why(p)(w));
        DropNext(kept, p.idle, i, q.idle);
        if recs[w].transport.Some? { retired := true; }
        Die(w, StaleReason(cfg, recs[w]));
      } else {
        KeepNext(kept, p.idle, i);
        kept := kept + [w];
      }
    }

    /** pruneInvalidLocked: the idle workers that still serve are kept, in order. */
    method PruneInvalid(now: int)
      requires Core(State()) && (drain.finalized ==> workers == [])
      modifies this
      ensures State() == Prune(old(State()), now)
    {
      hide KillAll, StaleOf, Core, PoolModel.RequestReplenish, Scanned, AnyTransport;
      ghost var p := State();
      var kept, retired := [], false;
      PruneNone(p, now, Why(p));
      for i := 0 to |workers|
        invariant workers == p.idle && Pruning(p, i, kept, retired, now)
      {
        kept, retired := LookAt(p, i, kept, retired, now);
      }
      ScannedAll(p, kept, now, Why(p));
      workers := kept;
      if retired { RequestReplenish(); }
    }

    /** Every idle worker dies: the circuit opened, or the drain began. */
    method DumpIdle(reason: Reason)
      requires Core(State()) && (drain.finalized ==> workers == [])
      modifies `recs, `drain, `reports, `workers
      ensures State() == KillAll(old(State()), old(workers), Always(reason))
    {
      hide KillAll, Kill, Core, PoolModel.Register, Distinct, Without;
      ghost var p := State();
      ghost var why := Always(reason);
      IdleKnown(p);
      KillNone(p, why);
      for i := 0 to |workers|
        invariant workers == p.idle && State() == KillAll(p, p.idle[..i], why).(idle := p.idle)
      {
        var w := workers[i];
        DumpOne(p, i, why);
        Die(w, reason);
      }
      assert p.idle[..|p.idle|] == p.idle;
      KillIdle(p, why);
      workers := [];
    }

    /** The first idle worker goes to the first in line. */
    method LeaseFirst()
      requires workers != [] && waiters != [] && workers[0] in recs && Distinct(workers) && Distinct(waiters)
      modifies `recs, `active, `leased, `workers, `waiters, `calls
      ensures State() == Lease(old(State()), old(workers[0]), old(waiters[0]))
    {
      hide Distinct, Without;
      var w, call := workers[0], waiters[0];
      WithoutFirst(workers);
      WithoutFirst(waiters);
      workers, waiters := workers[1..], waiters[1..];
      recs := recs[w := recs[w].(fate := Leased)];
      active, leased := active + 1, leased + {w};
      calls := calls[call := Assigned(w)];
    }

    /** wakeLocked: the first in line gets the first idle worker. */
    method Wake(now: int)
      requires Core(State()) && !drain.finalized
      modifies this
      ensures State() == PoolModel.Wake(old(State()), now)
    {
      hide KillAll, Core, Prune, Without, OnlyPruned, Stale, Distinct;
      ghost var p := State();
      PruneCore(p, now);
      PruneInvalid(now);
      ghost var q := State();
      assert !drain.finalized by { PrunedDrain(p, q); }
      if circuitOpen {
        DumpIdle(CircuitOpened);
      } else if waiters != [] && workers != [] {
        FirstWaiter(q);
        LineFacts(q);
        LeaseFirst();
      }
    }

    /** publish (no transport) and publishTransport. */
    method Publish(generation: nat, ready: bool, transport: Option<Transport>, now: int) returns (ok: bool)
      requires Valid()
      modifies this
      ensures Valid() && State() == PoolModel.Publish(old(State()), generation, ready, transport, now)
      ensures ok == (var q := Prune(old(State()), now); !q.closed && generation == q.cfg.generation && HasRoom(q) && (transport.Some? || ready))
    {
      hide Inv, Next, OnlyPruned, Core, Prune, PoolModel.Wake, PoolModel.Register;
      ghost var p := State();
      PublishKeeps(p, generation, ready, transport, now);
      PruneKeeps(p, now);
      CanPrune(p);
      PruneInvalid(now);
      CanPrune(State());
      ok := false;
      if closed || generation != cfg.generation || |workers| + active >= cfg.Capacity() {
        Register(transport);
        return;
      }
      if transport.None? && !ready { return; }
      EnterCore(State(), now, transport);
      Untouched(State());
      recs := recs[nextWorker := Worker(cfg.generation, 0, 0, now, transport, Idle)];
      workers, nextWorker := workers + [nextWorker], nextWorker + 1;
      Wake(now);
      ok := true;
    }

    method TurnAwayCall(c: Call)
      modifies `nextCall, `calls
      ensures State() == TurnAway(old(State()), c)
    {
      calls, nextCall := calls[nextCall := c], nextCall + 1;
    }

    method JoinLine()
      modifies `nextCall, `waiters, `calls
      ensures State() == InLine(old(State()))
    {
      waiters, calls, nextCall := waiters + [nextCall], calls[nextCall := Waiting], nextCall + 1;
    }

    method LeaseIdle()
      requires workers != [] && waiters == [] && workers[0] in recs && Distinct(workers)
      modifies `recs, `active, `leased, `workers, `calls, `nextCall
      ensures State() == LeaseNow(old(State()))
    {
      hide Distinct, Without;
      WithoutFirst(workers);
      WithoutNone(nextCall);
      var w := workers[0];
      recs := recs[w := recs[w].(fate := Leased)];
      active, leased, workers := active + 1, leased + {w}, workers[1..];
      calls, nextCall := calls[nextCall := Assigned(w)], nextCall + 1;
    }

    /** The first section of checkout: an idle worker, an error, or a place in line. */
    method Checkout(now: int, cancelled: bool) returns (call: nat)
      requires Valid()
      modifies this
      ensures Valid() && State() == PoolModel.Checkout(old(State()), now, cancelled) && call == old(nextCall)
    {
      hide Inv, Next, OnlyPruned, Prune, Without, Core, LeaseNow, InLine, TurnAway, PoolModel.RequestReplenish, Distinct;
      ghost var p := State();
      CheckoutKeeps(p, now, cancelled);
      PruneKeeps(p, now);
      CanPrune(p);
      PrunedCall(p, now);
      PruneInvalid(now);
      CheckoutFacts(State());
      call := nextCall;
      if workers != [] {
        if cancelled { TurnAwayCall(Over); } else { LeaseIdle(); }
      } else if closed || circuitOpen {
        TurnAwayCall(Failed);
      } else {
        JoinLine();
        RequestReplenish();
      }
    }

    method TakeBack(w: nat, rec: Worker)
      requires w in leased && active > 0
      modifies `leased, `active, `drain, `superStart, `recs
      ensures leased == old(leased) - {w} && active == old(active) - 1 && drain == PendingLeases(old(drain), leased)
      ensures superStart == (old(superStart) || (!closed && rec.generation == cfg.generation && !circuitOpen && cfg.replenishes))
      ensures recs == old(recs)[w := rec]
    {
      leased, active := leased - {w}, active - 1;
      CountPending();
      ReplenishFor(rec);
      recs := recs[w := rec];
    }

    /** A lease ends with its worker's death; a drain counting leases is told. */
    method RetireLease(w: nat, rec: Worker, reason: Reason)
      requires w in leased && w in recs && w !in workers && active > 0
      modifies `leased, `active, `drain, `superStart, `recs, `reports
      ensures State() == Retire(Replenished(old(State()).(recs := old(recs)[w := rec]), rec), w, reason)
    {
      hide PoolModel.Register, Without, PoolModel.Finalize, Retire, Replenished, PendingLeases;
      RetireIs(State(), w, rec, reason);
      TakeBack(w, rec);
      Die(w, reason);
      Finalize();
    }

    /** A graceful drain is told how many leases are left. */
    method CountPending()
      modifies `drain
      ensures drain == PendingLeases(old(drain), leased)
    {
      if drain.started && !drain.force { drain := drain.(leasedPending := |leased|); }
    }

    method ReplenishFor(rec: Worker)
      modifies `superStart
      ensures superStart == (old(superStart) || (!closed && rec.generation == cfg.generation && !circuitOpen && cfg.replenishes))
    {
      if !closed && rec.generation == cfg.generation { RequestReplenish(); }
    }

    /** A lease ends and its worker is idle again. */
    method GiveBackLease(w: nat, rec: Worker)
      requires w in leased && w in recs && active > 0
      modifies this
      ensures State() == GiveBack(old(State()), w, rec)
    {
      leased, active := leased - {w}, active - 1;
      recs := recs[w := rec.(fate := Idle)];
      workers := workers + [w];
    }

    /** finishLease, for a worker this caller holds. */
    method FinishLease(call: nat, w: nat, used: bool, now: int)
      requires Valid() && call in calls && Holds(calls[call], w) && !calls[call].Assigned?
      modifies this
      ensures Valid()
      ensures State() == PoolModel.FinishLease(old(State()).(calls := old(calls)[call := Over]), w, used, now)
    {
      hide Inv, PoolModel.Wake, Retire, Replenished, GiveBack, Core, Holds;
      ghost var p := State();
      FinishLeaseKeeps(p, call, w, used, now);
      calls := calls[call := Over];
      if w !in leased { return; }
      LeaseKeepsOpen(p, w);
      ActiveIs(p);
      var rec := if used then Used(recs[w]) else recs[w];
      if closed || circuitOpen || rec.generation != cfg.generation || rec.uses >= cfg.maxUses || now - rec.started >= cfg.maxAge {
        RetireLease(w, rec, EndOf(closed, circuitOpen, cfg, rec));
      } else {
        GiveBackWakes(p, call, w, rec);
        GiveBackLease(w, rec);
        Wake(now);
      }
    }

    /** poison, for a worker this caller holds. */
    method PoisonWorker(call: nat, w: nat)
      requires Valid() && call in calls && calls[call] == Holding(w)
      modifies this
      ensures Valid()
      ensures State() == PoolModel.PoisonWorker(old(State()).(calls := old(calls)[call := Over]), w)
    {
      hide Inv, Retire, Replenished, Core, Next;
      ghost var p := State();
      EndKeeps(p, call, Poison, 0);
      calls := calls[call := Over];
      if w !in leased { return; }
      LeaseKeepsOpen(p, w);
      ActiveIs(p);
      RetireLease(w, recs[w].(served := recs[w].served + 1), Poisoned);
    }

    method SetCircuitOpen(open: bool)
      requires Valid()
      modifies this
      ensures Valid() && State() == SetCircuit(old(State()), open)
    {
      hide Core, KillAll, Without;
      ghost var p := State();
      CircuitKeeps(p, open);
      DrainShut(p);
      FlagsCore(p, open, p.closed);
      FailCore(p.(circuitOpen := open));
      circuitOpen := open;
      if !open { RequestReplenish(); return; }
      FailAll();
      DumpIdle(CircuitOpened);
    }

    /** Everyone in line is told it failed. */
    method FailAll()
      modifies `waiters, `calls
      ensures waiters == [] && calls == FailWaiters(old(calls), old(waiters))
    {
      var todo := waiters;
      waiters := [];
      for i := 0 to |todo|
        invariant waiters == [] && calls == FailWaiters(old(calls), todo[..i])
      {
        assert todo[..i + 1] == todo[..i] + [todo[i]];
        if todo[i] in calls { calls := calls[todo[i] := Failed]; }
      }
      assert todo[..|todo|] == todo;
    }

    /** beginDrain; `order` is the order its loop over the leases took. */
    method BeginDrain(force: bool, generation: nat) returns (ghost order: seq<nat>)
      requires Valid()
      modifies this
      ensures Valid() && State() == PoolModel.BeginDrain(old(State()), force, generation, order)
    {
      hide Inv, Next, Begun, SettleLeases, Draining, Upgraded;
      order := [];
      ghost var p := State();
      if generation != cfg.generation { return; }
      Close(force);
      BegunOK(p, force);
      UpgradeOK(State(), force);
      Upgrade(force);
      order := Settle();
      BeginDrainKeeps(p, force, generation, order);
    }

    method Upgrade(force: bool)
      modifies `drain
      ensures State() == Upgraded(old(State()), force)
    {
      if force && !drain.force { drain := drain.(force := true); }
    }

    /** The first beginDrain closes the pool and drops what is idle or waiting. */
    method Close(force: bool)
      requires Valid()
      modifies this
      ensures State() == Begun(old(State()), force)
    {
      hide Core, KillAll, FailWaiters, DrainOK, SuperOK;
      ghost var p := State();
      if !drain.started {
        assert p.drain.started == p.closed by { FinalIsDrain(p); }
        StartDrainCore(p, force);
        Untouched(p);
        drain := drain.(started := true, force := force, supervisorPending := superStart);
        closed := true;
        FailAll();
        DumpIdle(Shutdown);
      }
    }

    /** Leases are revoked when the drain is forced, else counted. */
    method Settle() returns (ghost order: seq<nat>)
      requires Draining(State())
      modifies this
      ensures State() == SettleLeases(old(State()), order)
    {
      hide Core, KillAll, PoolModel.Finalize, ListOf, DrainOK, SuperOK, Lists;
      order := [];
      if drain.force {
        order := RevokeAll();
        drain := drain.(leasedPending := 0);
      } else {
        drain := drain.(leasedPending := |leased|);
      }
      Finalize();
    }

    method RevokeOne(w: nat)
      requires workers == [] && w in leased && w in recs
      modifies `recs, `drain, `reports, `leased, `active
      ensures State() == Kill(old(State()), w, Shutdown)
    {
      hide PoolModel.Register, Without;
      WithoutNone(w);
      leased := leased - {w};
      if active > 0 { active := active - 1; }
      Die(w, Shutdown);
    }

    /** Every lease is revoked, in whatever order the loop takes. */
    method RevokeAll() returns (ghost order: seq<nat>)
      requires Core(State()) && workers == []
      modifies `recs, `drain, `reports, `leased, `active
      ensures Lists(order, old(leased)) && State() == KillAll(old(State()), order, Always(Shutdown))
    {
      hide KillAll, Core, Lists, Kill;
      ghost var p := State();
      ghost var why := Always(Shutdown);
      order := [];
      KillNone(p, why);
      LeasedKnown(p);
      ListsNone(p.leased, leased);
      while leased != {}
        invariant leased <= p.leased && Lists(order, p.leased - leased) && State() == KillAll(p, order, why) && workers == []
        decreases leased
      {
        var w :| w in leased;
        ListsOne(order, p.leased, leased, w);
        KillAllOther(p, order, why, w);
        KillAllAppend(p, order, w, why);
        KillFields(State(), w);
        RevokeOne(w);
        order := order + [w];
      }
      assert p.leased - leased == p.leased;
    }

    /** The caller takes what its channel holds: the worker, or the error. */
    method TakeResult(call: nat)
      requires Valid()
      modifies `calls
      ensures Valid() && State() == Accept(old(State()), call)
    {
      hide Inv, Next;
      AcceptKeeps(State(), call);
      if call !in calls { return; }
      match calls[call] {
        case Assigned(w) => calls := calls[call := Holding(w)];
        case Failed => calls := calls[call := Over];
        case _ =>
      }
    }

    /** The caller's context ends: it leaves the line, or owes back the worker it was already given. */
    method GiveUp(call: nat)
      requires Valid()
      modifies `calls, `waiters
      ensures Valid() && State() == Cancel(old(State()), call)
    {
      hide Inv, Next;
      CancelKeeps(State(), call);
      if call !in calls { return; }
      match calls[call] {
        case Waiting =>
          OnceInLine(State(), call);
          var i := 0;
          while i < |waiters| && waiters[i] != call
            invariant i <= |waiters| && call !in waiters[..i]
          {
            assert waiters[..i + 1] == waiters[..i] + [waiters[i]];
            i := i + 1;
          }
          CutOut(waiters, i, call);
          if i < |waiters| { waiters := waiters[..i] + waiters[i + 1..]; }
          calls := calls[call := Over];
        case Assigned(w) => calls := calls[call := Abandoning(w)];
        case Failed => calls := calls[call := Over];
        case _ =>
      }
    }

    /** The supervisor's candidate joins the idle list, if it still has a place. */
    method AppendCandidate(started: int, transport: Option<Transport>, now: int)
      requires Valid()
      modifies this
      ensures Valid() && State() == SuperAppend(old(State()), started, transport, now)
    {
      hide Inv, Next, Core, PoolModel.Wake;
      SuperAppendKeeps(State(), started, transport, now);
      if !superStart || superExited || closed || circuitOpen || |workers| + active >= cfg.Capacity() { return; }
      CanPrune(State());
      EnterCore(State(), started, transport);
      Untouched(State());
      recs := recs[nextWorker := Worker(cfg.generation, 0, 0, started, transport, Idle)];
      workers, nextWorker := workers + [nextWorker], nextWorker + 1;
      Wake(now);
    }

    /** A candidate that has no place is torn down. */
    method RejectCandidate(transport: Option<Transport>)
      requires Valid()
      modifies `drain
      ensures Valid() && State() == SuperReject(old(State()), transport)
    {
      hide Inv, Next, PoolModel.Register;
      RegisterKeeps(State(), transport);
      if superStart && !superExited { Register(transport); }
    }

    /** The supervisor returns; only a drain cancels its context. */
    method SupervisorExits()
      requires Valid()
      modifies `superExited
      ensures Valid() && State() == SuperExit(old(State()))
    {
      hide Inv, Next;
      SuperExitKeeps(State());
      if superStart && closed { superExited := true; }
    }

    /** The drain's goroutine has seen the supervisor return. */
    method SupervisorJoined()
      requires Valid()
      modifies `drain
      ensures Valid() && State() == SuperJoined(old(State()))
    {
      hide Inv, Next, PoolModel.Finalize;
      SuperExitKeeps(State());
      if superExited && drain.supervisorPending {
        drain := drain.(supervisorPending := false);
        Finalize();
      }
    }

    /** The goroutine that joins the i-th registered transport has seen it gone. */
    method TransportJoined(i: nat, err: Option<nat>, residual: bool)
      requires Valid() && i < |drain.ordered| && !drain.ordered[i].terminal
      modifies `drain
      ensures Valid() && State() == Joined(old(State()), i, err, residual)
    {
      JoinedKeeps(State(), i, err, residual);
      drain := drain.(ordered := drain.ordered[i := drain.ordered[i].(terminal := true, err := err, residual := residual)]);
      Finalize();
    }
  }

  lemma OnceInLine(p: PoolModel.Pool, call: nat)
    requires Inv(p)
    ensures Distinct(p.waiters)
  {
    hide PlacesOK, CountOK, UsesOK, HoldOK, ReportsOK, LedgerOK, Exclusive, SuperOK, DrainOK;
    AscendingDistinct(p.waiters);
  }

  /** Cutting the first occurrence out of a list without repeats takes the member out. */
  lemma {:induction false} CutOut(s: seq<nat>, i: nat, x: nat)
    requires Distinct(s) && i <= |s| && x !in s[..i] && (i < |s| ==> s[i] == x)
    ensures Without(s, x) == if i < |s| then s[..i] + s[i + 1..] else s
    decreases i
  {
    if i == 0 {
      if s != [] {
        Tail(s);
        WithoutMembers(s[1..], x);
      }
    } else {
      assert s[0] in s[..i] && s == [s[0]] + s[1..];
      Tail(s);
      assert forall y :: y in s[1..][..i - 1] ==> y in s[..i];
      CutOut(s[1..], i - 1, x);
      if i < |s| { assert [s[0]] + (s[1..][..i - 1] + s[1..][i..]) == s[..i] + s[i + 1..]; }
    }
  }

  lemma KillNone(p: PoolModel.Pool, why: nat -> Reason)
    ensures KillAll(p, [], why) == p && p.idle[..0] == []
  {}

  lemma DumpOne(p: PoolModel.Pool, i: nat, why: nat -> Reason)
    requires i < |p.idle| && Distinct(p.idle) && (forall w :: w in p.idle ==> w in p.recs && w !in p.leased)
    ensures var w, q, r := p.idle[i], KillAll(p, p.idle[..i], why), KillAll(p, p.idle[..i + 1], why);
            && w in p.recs && w in q.recs && q.recs[w] == p.recs[w]
            && r == q.(recs := q.recs[w := q.recs[w].(fate := Dead(why(w)))], idle := r.idle,
                       drain := PoolModel.Register(q.drain, q.recs[w].transport), reports := q.reports + multiset{w})
  {
    hide KillAll, Kill;
    var w := p.idle[i];
    assert p.idle[..i + 1] == p.idle[..i] + [w];
    assert w !in p.idle[..i];
    KillAllOther(p, p.idle[..i], why, w);
    KillAllAppend(p, p.idle[..i], w, why);
    KillIdleIs(KillAll(p, p.idle[..i], why), w, why(w));
  }

  lemma PrunedDrain(p: PoolModel.Pool, q: PoolModel.Pool)
    requires OnlyPruned(p, q)
    ensures q.drain.finalized == p.drain.finalized
  {}

  lemma CanPrune(p: PoolModel.Pool)
    requires Inv(p)
    ensures Core(p) && (p.drain.finalized ==> p.idle == []) && (p.closed ==> p.idle == [])
  {
    hide Core;
  }

  lemma PrunedCall(p: PoolModel.Pool, now: int)
    requires Inv(p)
    ensures Prune(p, now).nextCall == p.nextCall
  {
    hide Inv, Next, Prune;
    PruneKeeps(p, now);
  }

  lemma CheckoutFacts(q: PoolModel.Pool)
    requires Inv(q)
    ensures Distinct(q.idle) && (q.idle != [] ==> q.idle[0] in q.recs && q.waiters == [])
  {
    hide CountOK, UsesOK, LineOK, HoldOK, ReportsOK, LedgerOK, DrainOK, SuperOK;
    FirstMember(q.idle);
  }

  lemma LineFacts(p: PoolModel.Pool)
    requires Core(p)
    ensures Distinct(p.idle) && Distinct(p.waiters)
  {
    AscendingDistinct(p.waiters);
  }

  lemma ActiveIs(p: PoolModel.Pool)
    requires Inv(p) && p.leased != {}
    ensures p.active > 0
  {
    hide DrainOK, PlacesOK, UsesOK, LineOK, HoldOK, ReportsOK, LedgerOK;
  }

  lemma KillFields(p: PoolModel.Pool, w: nat)
    requires w in p.recs && p.idle == []
    ensures Kill(p, w, Shutdown).leased == p.leased - {w} && Kill(p, w, Shutdown).idle == []
  {}

  lemma LeasedKnown(p: PoolModel.Pool)
    requires Core(p)
    ensures forall w :: w in p.leased ==> w in p.recs
  {}

  lemma ListsNone(all: set<nat>, left: set<nat>)
    requires left == all
    ensures Lists([], all - left)
  {}

  lemma ListsOne(order: seq<nat>, all: set<nat>, left: set<nat>, w: nat)
    requires Lists(order, all - left) && left <= all && w in left
    ensures w !in order && Lists(order + [w], all - (left - {w}))
  {}

  /** Retiring, field by field. */
  lemma RetireIs(p: PoolModel.Pool, w: nat, rec: Worker, reason: Reason)
    requires w in p.leased && w in p.recs && w !in p.idle && p.active > 0
    ensures var leased := p.leased - {w};
            Retire(Replenished(p.(recs := p.recs[w := rec]), rec), w, reason) ==
            p.(recs := p.recs[w := rec][w := rec.(fate := Dead(reason))], leased := leased, active := p.active - 1,
               superStart := p.superStart || (!p.closed && rec.generation == p.cfg.generation && !p.circuitOpen && p.cfg.replenishes),
               drain := PoolModel.Finalize(PoolModel.Register(PendingLeases(p.drain, leased), rec.transport)), reports := p.reports + multiset{w})
  {
    hide PoolModel.Register, Without, PoolModel.Finalize;
    WithoutFacts(p.idle, w);
    PendingCommutes(p.drain, rec.transport, p.leased - {w});
  }

  lemma PendingCommutes(d: Drain, t: Option<Transport>, leased: set<nat>)
    ensures PoolModel.Register(PendingLeases(d, leased), t) == PendingLeases(PoolModel.Register(d, t), leased)
  {}

  lemma FinishLeaseKeeps(p: PoolModel.Pool, call: nat, w: nat, used: bool, now: int)
    requires Inv(p) && call in p.calls && Holds(p.calls[call], w)
    ensures Inv(PoolModel.FinishLease(p.(calls := p.calls[call := Over]), w, used, now))
  {
    hide Inv, Next, PoolModel.Wake, Retire, Replenished, GiveBack;
    if w in p.leased {
      LeaseKeepsOpen(p, w);
      EndLease(p, call, w, Release, now);
    } else {
      assert Core(p) by { InvCore(p); }
      MoveCall(p, call, Over);
      CallInv(p, p.(calls := p.calls[call := Over]));
    }
  }

  lemma GiveBackWakes(p: PoolModel.Pool, call: nat, w: nat, rec: Worker)
    requires Inv(p) && call in p.calls && w in p.leased && w in p.recs && Holds(p.calls[call], w)
    requires rec == p.recs[w].(uses := rec.uses, served := rec.served) && rec.uses == rec.served < p.cfg.maxUses
    ensures var g := GiveBack(p.(calls := p.calls[call := Over]), w, rec); Core(g) && !g.drain.finalized
  {
    GiveBackCore(p, call, w, rec);
    LeaseKeepsOpen(p, w);
  }

  lemma AnyOne(p: PoolModel.Pool, ws: seq<nat>, w: nat)
    requires w in p.recs
    ensures AnyTransport(p, ws + [w]) == (AnyTransport(p, ws) || p.recs[w].transport.Some?)
    ensures ws + [] == ws
  {
    if AnyTransport(p, ws) {
      var x :| x in ws && x in p.recs && p.recs[x].transport.Some?;
      assert x in ws + [w];
    }
    assert w in ws + [w];
  }

  lemma ScannedAll(p: PoolModel.Pool, kept: seq<nat>, now: int, why: nat -> Reason)
    ensures p.idle[..|p.idle|] == p.idle && kept + p.idle[|p.idle|..] == kept
    ensures Scanned(p, p.idle, |p.idle|, now, why) == KillAll(p, StaleOf(p, p.idle, now), why)
  {
    assert p.idle[..|p.idle|] == p.idle;
  }

  lemma ResidualsOne(ordered: seq<Entry>, i: nat)
    requires i < |ordered|
    ensures var e := ordered[i];
            Residuals(ordered[..i + 1]) == Residuals(ordered[..i]) + (if e.residual && e.transport.pgid != 0 then {e.transport.pgid} else {})
  {
    var a, b := ordered[..i + 1], ordered[..i];
    assert forall j :: 0 <= j < i ==> a[j] == b[j];
    assert a[i] == ordered[i];
    forall x | x in Residuals(b) ensures x in Residuals(a) {
      var j :| 0 <= j < |b| && b[j].residual && b[j].transport.pgid != 0 && b[j].transport.pgid == x;
      assert a[j] == b[j];
    }
  }

  /*** Pruning, worker by worker ***/

  /** The pool once the first i idle workers have been looked at. */
  ghost function Scanned(p: PoolModel.Pool, ws: seq<nat>, i: nat, now: int, why: nat -> Reason): PoolModel.Pool
    requires i <= |ws|
  {
    KillAll(p, StaleOf(p, ws[..i], now), why)
  }

  lemma IdleKnown(p: PoolModel.Pool)
    requires Core(p)
    ensures Distinct(p.idle) && forall w :: w in p.idle ==> w in p.recs && p.recs[w].fate == Idle && w !in p.leased
  {}

  lemma PruneNone(p: PoolModel.Pool, now: int, why: nat -> Reason)
    ensures Scanned(p, p.idle, 0, now, why) == p && !AnyTransport(p, StaleOf(p, p.idle[..0], now)) && [] + p.idle[0..] == p.idle
  {
    assert p.idle[..0] == [];
  }

  lemma {:induction false} StaleAppend(p: PoolModel.Pool, ws: seq<nat>, w: nat, now: int)
    ensures StaleOf(p, ws + [w], now) == StaleOf(p, ws, now) + (if w in p.recs && Stale(p.cfg, p.recs[w], now) then [w] else [])
  {
    if ws == [] {
      assert ws + [w] == [w];
      assert StaleOf(p, [w][1..], now) == [];
    } else {
      assert (ws + [w])[1..] == ws[1..] + [w];
      StaleAppend(p, ws[1..], w, now);
    }
  }

  lemma {:induction false} KillAllAppend(p: PoolModel.Pool, ws: seq<nat>, w: nat, why: nat -> Reason)
    ensures KillAll(p, ws + [w], why) == Kill(KillAll(p, ws, why), w, why(w))
    decreases |ws|
  {
    if ws == [] {
      assert ws + [w] == [w] && [w][1..] == [];
    } else {
      assert (ws + [w])[1..] == ws[1..] + [w];
      KillAllAppend(Kill(p, ws[0], why(ws[0])), ws[1..], w, why);
    }
  }

  lemma {:induction false} WithoutMiddle(a: seq<nat>, w: nat, b: seq<nat>)
    requires w !in a && w !in b
    ensures Without(a + [w] + b, w) == a + b
    decreases |a|
  {
    if a == [] {
      assert a + [w] + b == [w] + b && ([w] + b)[1..] == b && a + b == b;
      WithoutFacts(b, w);
    } else {
      assert (a + [w] + b)[1..] == a[1..] + [w] + b;
      WithoutMiddle(a[1..], w, b);
      assert a + b == [a[0]] + (a[1..] + b);
    }
  }

  /** Killing others leaves a worker's record alone. */
  lemma {:induction false} KillAllOther(p: PoolModel.Pool, ws: seq<nat>, why: nat -> Reason, w: nat)
    requires w !in ws
    ensures var q := KillAll(p, ws, why);
            && (w in q.recs <==> w in p.recs) && (w in p.recs ==> q.recs[w] == p.recs[w]) && (w in q.leased <==> w in p.leased) && q.cfg == p.cfg
    decreases |ws|
  {
    if ws != [] { KillAllOther(Kill(p, ws[0], why(ws[0])), ws[1..], why, w); }
  }

  lemma KillIdleIs(q: PoolModel.Pool, w: nat, reason: Reason)
    requires w in q.recs && w !in q.leased
    ensures Kill(q, w, reason) == q.(recs := q.recs[w := q.recs[w].(fate := Dead(reason))], idle := Without(q.idle, w),
                                     drain := PoolModel.Register(q.drain, q.recs[w].transport), reports := q.reports + multiset{w})
  {
    hide Without, PoolModel.Register;
    assert q.leased - {w} == q.leased;
  }

  /** The list once w, its next member to be looked at, is dropped. */
  lemma DropNext(kept: seq<nat>, ws: seq<nat>, i: nat, idle: seq<nat>)
    requires i < |ws| && Distinct(idle) && kept + ws[i..] == idle
    ensures kept + ws[i + 1..] == Without(idle, ws[i])
  {
    var w := ws[i];
    assert ws[i..] == [w] + ws[i + 1..];
    assert kept + ws[i..] == kept + [w] + ws[i + 1..];
    assert idle[|kept|] == w;
    assert forall j :: 0 <= j < |kept| ==> kept[j] == idle[j];
    var rest := ws[i + 1..];
    assert forall j :: 0 <= j < |rest| ==> rest[j] == idle[|kept| + 1 + j];
    WithoutMiddle(kept, w, ws[i + 1..]);
  }

  lemma KeepNext(kept: seq<nat>, ws: seq<nat>, i: nat)
    requires i < |ws|
    ensures kept + [ws[i]] + ws[i + 1..] == kept + ws[i..]
  {
    assert ws[i..] == [ws[i]] + ws[i + 1..];
  }

  /** What looking at one more idle worker changes. */
  lemma ScanOne(p: PoolModel.Pool, i: nat, now: int, why: nat -> Reason)
    requires i < |p.idle| && Distinct(p.idle) && (forall w :: w in p.idle ==> w in p.recs && w !in p.leased)
    ensures var w, q, r := p.idle[i], Scanned(p, p.idle, i, now, why), Scanned(p, p.idle, i + 1, now, why);
            && w in p.recs && w in q.recs && q.recs[w] == p.recs[w] && q.cfg == p.cfg && w !in q.leased
            && r == (if Stale(p.cfg, p.recs[w], now) then Kill(q, w, why(w)) else q)
            && StaleOf(p, p.idle[..i + 1], now) == StaleOf(p, p.idle[..i], now) + (if Stale(p.cfg, p.recs[w], now) then [w] else [])
  {
    hide Stale, StaleOf, KillAll, Kill;
    var w := p.idle[i];
    assert p.idle[..i + 1] == p.idle[..i] + [w];
    assert w !in p.idle[..i];
    StaleAppend(p, p.idle[..i], w, now);
    KillAllOther(p, StaleOf(p, p.idle[..i], now), why, w);
    KillAllAppend(p, StaleOf(p, p.idle[..i], now), w, why);
    assert StaleOf(p, p.idle[..i], now) + [] == StaleOf(p, p.idle[..i], now);
  }

  lemma ScannedCore(p: PoolModel.Pool, i: nat, now: int, why: nat -> Reason)
    requires Core(p) && i <= |p.idle| && (p.drain.finalized ==> p.idle == [])
    ensures Distinct(Scanned(p, p.idle, i, now, why).idle)
  {
    hide KillAll, StaleOf, Stale, OnlyDeaths;
    var stale := StaleOf(p, p.idle[..i], now);
    StaleFacts(p, p.idle[..i], now);
    FirstMember(stale);
    assert forall w :: w in p.idle[..i] ==> w in p.idle;
    KillAllCore(p, stale, why);
  }
}
