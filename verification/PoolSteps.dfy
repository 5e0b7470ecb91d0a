/** Every critical section of the worker pool keeps the invariant and only moves forward. */
module PoolSteps {
  import opened Options
  import opened PoolModel
  import opened PoolInvariant

  ghost predicate Granted(p: Pool, q: Pool, t: nat) {
    t in q.calls && q.calls[t].Assigned? && !(t in p.calls && p.calls[t].Assigned?)
  }

  /** Whoever was given a worker arrived before everyone still in line. */
  ghost predicate InOrder(p: Pool, q: Pool) { forall t: nat, u: nat :: Granted(p, q, t) && u in q.waiters ==> t < u }

  ghost predicate Forward(p: Pool, q: Pool) {
    && DeadStay(p, q)
    && (forall t :: t in p.calls ==> t in q.calls && (p.calls[t] == Over ==> q.calls[t] == Over))
  }

  /** A drain that began lets nobody in, and one that is final does not change. */
  ghost predicate DrainForward(p: Pool, q: Pool) {
    && (p.closed ==> q.closed && q.idle == [] && q.leased <= p.leased && q.recs.Keys == p.recs.Keys)
    && (p.drain.finalized ==> q.drain.finalized && q.drain.result == p.drain.result && q.drain.ordered == p.drain.ordered)
  }

  ghost predicate Next(p: Pool, q: Pool) { q.cfg == p.cfg && InOrder(p, q) && Forward(p, q) && DrainForward(p, q) }

  /*** Common ground ***/

  /** A pool no drain has touched meets what is asked of the supervisor and the drain. */
  lemma OpenOK(p: Pool)
    requires !p.closed && !p.drain.started && !p.drain.finalized && !p.superExited && !p.drain.supervisorPending
    ensures SuperOK(p) && DrainOK(p)
  {}

  lemma Untouched(p: Pool)
    requires Inv(p) && !p.closed
    ensures !p.drain.started && !p.drain.finalized && !p.superExited && !p.drain.supervisorPending
  {}

  /** Entering a transport in the ledger, whatever the pool is doing. */
  lemma RegisterKeeps(p: Pool, t: Option<Transport>)
    requires Inv(p)
    ensures Inv(p.(drain := Register(p.drain, t))) && Next(p, p.(drain := Register(p.drain, t)))
  {
    hide Register, Registered, Distinct, Ascending, Holds, AllTerminal, Summarise;
    GrownRegister(p.drain, t);
    RegisterFinal(p.drain, t);
    GrownDrain(p.drain, Register(p.drain, t));
  }

  lemma RegisterFinal(d: Drain, t: Option<Transport>)
    ensures d.finalized ==> Register(d, t) == d
  {}

  lemma StartKeeps(p: Pool)
    requires Inv(p)
    ensures Inv(RequestReplenish(p)) && Next(p, RequestReplenish(p))
  {
    hide Core, AllTerminal, Summarise, Holds;
    StartsCore(p);
  }

  lemma PruneKeeps(p: Pool, now: int)
    requires Inv(p)
    ensures Inv(Prune(p, now)) && Next(p, Prune(p, now)) && OnlyPruned(p, Prune(p, now))
  {
    hide Core, Prune, AllTerminal, Summarise, Holds, Distinct;
    PruneCore(p, now);
    var q := Prune(p, now);
    if p.idle != [] { OpenOK(q); }
  }

  /** q differs from p in nothing callers see, and no drain has begun. */
  ghost predicate Calm(p: Pool, q: Pool) {
    q.cfg == p.cfg && q.calls == p.calls && q.waiters == p.waiters && DeadStay(p, q) && !p.closed && !p.drain.finalized
  }

  lemma CalmNext(p: Pool, q: Pool, r: Pool)
    requires Calm(p, q) && Next(q, r)
    ensures Next(p, r)
  {
    hide DeadStay;
    DeadStayTrans(p, q, r);
    assert forall t: nat :: Granted(p, r, t) ==> Granted(q, r, t);
  }

  lemma PrunedCalm(p: Pool, q: Pool)
    requires OnlyPruned(p, q) && !p.closed && !p.drain.finalized
    ensures Calm(p, q)
  {
    SuperAside(p, q);
  }

  /*** Entering and waking ***/

  lemma EnterPlaces(p: Pool, started: int, transport: Option<Transport>)
    requires PlacesOK(p) && CountOK(p) && HasRoom(p)
    ensures PlacesOK(Enter(p, started, transport)) && CountOK(Enter(p, started, transport))
  {
    var q := Enter(p, started, transport);
    assert p.nextWorker !in p.recs && p.nextWorker !in p.idle;
    assert forall w :: w in q.idle <==> w in p.idle || w == p.nextWorker;
  }

  lemma EnterHold(p: Pool, started: int, transport: Option<Transport>)
    requires PlacesOK(p) && HoldOK(p)
    ensures HoldOK(Enter(p, started, transport))
  {
    hide Distinct, Holds;
    assert p.nextWorker !in p.recs;
  }

  lemma EnterRest(p: Pool, started: int, transport: Option<Transport>)
    requires p.cfg.Valid() && PlacesOK(p) && UsesOK(p) && LineOK(p) && ReportsOK(p) && LedgerOK(p)
    ensures var q := Enter(p, started, transport); UsesOK(q) && LineOK(q) && ReportsOK(q) && LedgerOK(q) && DeadStay(p, q)
  {
    hide Distinct, Registered, Ascending;
    assert p.nextWorker !in p.recs;
  }

  lemma EnterCore(p: Pool, started: int, transport: Option<Transport>)
    requires Core(p) && HasRoom(p)
    ensures Core(Enter(p, started, transport)) && DeadStay(p, Enter(p, started, transport))
  {
    hide PlacesOK, CountOK, UsesOK, LineOK, HoldOK, ReportsOK, LedgerOK, DeadStay;
    EnterPlaces(p, started, transport);
    EnterHold(p, started, transport);
    EnterRest(p, started, transport);
  }

  ghost predicate NoDrain(p: Pool) { !p.closed && !p.drain.started && !p.drain.finalized && !p.superExited && !p.drain.supervisorPending }

  lemma WakeKeeps(p: Pool, now: int)
    requires Wakeable(p) && NoDrain(p)
    ensures Inv(Wake(p, now)) && Next(p, Wake(p, now))
  {
    hide Core, Exclusive, Wake, Holds, AllTerminal, DeadStay;
    WakeCore(p, now);
    var q := Wake(p, now);
    OpenOK(q);
    WokenInOrder(p, q);
  }

  lemma WokenInOrder(p: Pool, q: Pool)
    requires Core(p) && Woken(p, q)
    ensures InOrder(p, q) && forall t :: t in p.calls ==> t in q.calls && (p.calls[t] == Over ==> q.calls[t] == Over)
  {
    hide PlacesOK, CountOK, UsesOK, HoldOK, ReportsOK, LedgerOK;
    if q.leased != p.leased {
      var first := p.waiters[0];
      assert first in p.waiters;
      WithoutFacts(p.waiters, first);
      AscendingDistinct(p.waiters);
      forall u | u in q.waiters ensures first < u { var i :| 0 <= i < |p.waiters| && p.waiters[i] == u; }
    }
  }

  lemma PublishKeeps(p: Pool, generation: nat, ready: bool, transport: Option<Transport>, now: int)
    requires Inv(p)
    ensures var q := Publish(p, generation, ready, transport, now); Inv(q) && Next(p, q)
  {
    hide Core, Prune, Wake, Enter, Register, HasRoom, DrainOK, Holds;
    var q := Prune(p, now);
    PruneKeeps(p, now);
    if q.closed || generation != q.cfg.generation || !HasRoom(q) {
      RegisterKeeps(q, transport);
      RegisterNext(p, q, q.(drain := Register(q.drain, transport)));
    } else if transport.Some? || ready {
      EnterKeeps(q, now, transport, now);
      assert !p.closed && !p.drain.finalized by { Untouched(q); }
      PrunedCalm(p, q);
      CalmNext(p, q, Wake(Enter(q, now, transport), now));
    }
  }

  /** Pruning and then only writing in the ledger. */
  lemma RegisterNext(p: Pool, q: Pool, r: Pool)
    requires Inv(p) && Inv(q) && OnlyPruned(p, q) && Next(p, q) && Next(q, r) && r == q.(drain := r.drain)
    ensures Next(p, r)
  {
    hide Core, Holds;
    DeadStayTrans(p, q, r);
  }

  lemma EnterKeeps(p: Pool, started: int, transport: Option<Transport>, now: int)
    requires Inv(p) && HasRoom(p) && !p.closed
    ensures var q := Wake(Enter(p, started, transport), now); Inv(q) && Next(p, q)
  {
    hide Core, Wake, Holds, AllTerminal, DeadStay;
    var e := Enter(p, started, transport);
    EnterCore(p, started, transport);
    Untouched(p);
    WakeKeeps(e, now);
    CalmNext(p, e, Wake(e, now));
  }

  /*** Callers ***/

  lemma NewCallCore(p: Pool, c: Call)
    requires Core(p) && (c == Over || c == Failed)
    ensures Core(p.(nextCall := p.nextCall + 1, calls := p.calls[p.nextCall := c]))
  {
    hide PlacesOK, CountOK, UsesOK, ReportsOK, LedgerOK, Ascending;
    var q := p.(nextCall := p.nextCall + 1, calls := p.calls[p.nextCall := c]);
    assert p.nextCall !in p.calls;
    HeldStays(p.calls, q.calls, p.leased);
    SameWorkers(p, q);
  }

  /** Only calls, the line and the call counter differ. */
  lemma SameWorkers(p: Pool, q: Pool)
    requires q == p.(calls := q.calls, waiters := q.waiters, nextCall := q.nextCall, superStart := q.superStart)
    ensures PlacesOK(p) ==> PlacesOK(q)
    ensures CountOK(p) ==> CountOK(q)
    ensures UsesOK(p) ==> UsesOK(q)
    ensures ReportsOK(p) ==> ReportsOK(q)
    ensures LedgerOK(p) ==> LedgerOK(q)
    ensures DrainOK(p) ==> DrainOK(q)
  {
    hide Distinct, Registered, AllTerminal, Summarise;
  }

  lemma HeldStays(calls: map<nat, Call>, calls': map<nat, Call>, ws: set<nat>)
    requires forall w :: w in ws ==> Held(calls, w)
    requires forall t, w :: t in calls && w in ws && Holds(calls[t], w) ==> t in calls' && Holds(calls'[t], w)
    ensures forall w :: w in ws ==> Held(calls', w)
  {
    forall w | w in ws ensures Held(calls', w) {
      var t :| t in calls && Holds(calls[t], w);
      assert t in calls' && Holds(calls'[t], w);
    }
  }

  lemma WaitLine(p: Pool)
    requires LineOK(p)
    ensures LineOK(InLine(p))
  {
    var q := InLine(p);
    assert p.nextCall !in p.calls;
    assert forall i :: 0 <= i < |p.waiters| ==> p.waiters[i] in p.waiters;
    assert forall t :: t in q.waiters <==> t in p.waiters || t == p.nextCall;
  }

  lemma WaitHold(p: Pool)
    requires HoldOK(p) && LineOK(p)
    ensures HoldOK(InLine(p))
  {
    hide Ascending;
    assert p.nextCall !in p.calls;
    HeldStays(p.calls, InLine(p).calls, p.leased);
  }

  lemma WaitCore(p: Pool)
    requires Core(p)
    ensures Core(InLine(p))
  {
    hide PlacesOK, CountOK, UsesOK, LineOK, HoldOK, ReportsOK, LedgerOK;
    WaitLine(p);
    WaitHold(p);
    SameWorkers(p, InLine(p));
  }

  lemma CheckoutKeeps(p: Pool, now: int, cancelled: bool)
    requires Inv(p)
    ensures var q := Checkout(p, now, cancelled); Inv(q) && Next(p, q)
  {
    hide Prune, Lease, Core, DrainOK, SuperOK, Holds, DeadStay;
    var q := Prune(p, now);
    PruneKeeps(p, now);
    CheckedOut(q, cancelled);
    if p.idle != [] {
      Untouched(p);
      PrunedCalm(p, q);
      CalmNext(p, q, CheckedOutTo(q, cancelled));
    }
  }

  ghost function CheckedOutTo(q: Pool, cancelled: bool): Pool {
    if q.idle != [] then (if cancelled then TurnAway(q, Over) else LeaseNow(q))
    else if q.closed || q.circuitOpen then TurnAway(q, Failed)
    else RequestReplenish(InLine(q))
  }

  lemma CheckedOut(q: Pool, cancelled: bool)
    requires Inv(q)
    ensures Inv(CheckedOutTo(q, cancelled)) && Next(q, CheckedOutTo(q, cancelled))
  {
    hide Inv, Next, Lease;
    if q.idle != [] && !cancelled {
      FastPath(q);
    } else if q.idle == [] && !q.closed && !q.circuitOpen {
      JoinLine(q);
    } else {
      TurnedAway(q, Over);
      TurnedAway(q, Failed);
    }
  }

  lemma FreshCall(p: Pool)
    requires Core(p)
    ensures p.nextCall !in p.calls
  {}

  /** A checkout that ends at once. */
  lemma TurnedAway(q: Pool, c: Call)
    requires Inv(q) && (c == Over || c == Failed)
    ensures var r := q.(nextCall := q.nextCall + 1, calls := q.calls[q.nextCall := c]); Inv(r) && Next(q, r)
  {
    hide Core, DrainOK, Holds;
    var r := q.(nextCall := q.nextCall + 1, calls := q.calls[q.nextCall := c]);
    FreshCall(q);
    NewCallCore(q, c);
    SameWorkers(q, r);
    FinalShut(q);
  }

  lemma FinalShut(q: Pool)
    requires Inv(q)
    ensures q.closed ==> q.idle == []
  {}

  /** A checkout that finds none waits at the end of the line. */
  lemma JoinLine(q: Pool)
    requires Inv(q) && q.idle == [] && !q.closed && !q.circuitOpen
    ensures Inv(RequestReplenish(InLine(q))) && Next(q, RequestReplenish(InLine(q)))
  {
    hide Core, DrainOK, SuperOK, Holds;
    FreshCall(q);
    WaitCore(q);
    StartsCore(InLine(q));
    Untouched(q);
    OpenOK(RequestReplenish(InLine(q)));
  }

  /** A checkout that finds an idle worker: nobody is waiting. */
  lemma FastPath(q: Pool)
    requires Inv(q) && q.idle != []
    ensures var r := Lease(q.(nextCall := q.nextCall + 1), q.idle[0], q.nextCall); Inv(r) && Next(q, r)
  {
    hide Core, DrainOK, SuperOK, Holds, Lease, DeadStay;
    var m := q.(nextCall := q.nextCall + 1);
    Untouched(q);
    FreshCall(q);
    CounterCore(q);
    FirstIdle(q);
    LeaseCore(m, q.idle[0], q.nextCall);
    LeaseStay(m, q.idle[0], q.nextCall);
    OpenOK(Lease(m, q.idle[0], q.nextCall));
    assert DeadStay(q, Lease(m, q.idle[0], q.nextCall)) by { CounterStay(q, m, Lease(m, q.idle[0], q.nextCall)); }
    WithoutNone(q.nextCall);
  }

  lemma CounterStay(p: Pool, m: Pool, r: Pool)
    requires m.recs == p.recs && DeadStay(m, r)
    ensures DeadStay(p, r)
  {}

  lemma CounterCore(p: Pool)
    requires Core(p)
    ensures Core(p.(nextCall := p.nextCall + 1))
  {
    hide Distinct, Ascending, Holds, Registered;
  }

  lemma FirstIdle(p: Pool)
    requires Core(p) && p.idle != []
    ensures p.idle[0] in p.idle && p.idle[0] in p.recs
  {}
}
