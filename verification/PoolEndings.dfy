/** The sections that end leases, the circuit, the supervisor and the drain keep the invariant too. */
module PoolEndings {
  import opened Options
  import opened PoolModel
  import opened PoolInvariant
  import opened PoolSteps

  /*** Calls ***/

  lemma MoveCall(p: Pool, t: nat, c: Call)
    requires Core(p) && t in p.calls && p.calls[t] != Waiting && c != Waiting
    requires forall w: nat :: Holds(c, w) ==> Holds(p.calls[t], w)
    requires forall w: nat :: Holds(p.calls[t], w) ==> Holds(c, w) || w !in p.leased
    ensures Core(p.(calls := p.calls[t := c]))
  {
    hide PlacesOK, CountOK, UsesOK, ReportsOK, LedgerOK, Ascending;
    var q := p.(calls := p.calls[t := c]);
    HeldStays(p.calls, q.calls, p.leased);
    SameWorkers(p, q);
  }

  lemma LeaveLine(p: Pool, t: nat)
    requires Core(p) && t in p.calls && p.calls[t] == Waiting
    ensures Core(p.(waiters := Without(p.waiters, t), calls := p.calls[t := Over]))
  {
    hide PlacesOK, CountOK, UsesOK, ReportsOK, LedgerOK, Ascending, Distinct;
    var q := p.(waiters := Without(p.waiters, t), calls := p.calls[t := Over]);
    WithoutFacts(p.waiters, t);
    HeldStays(p.calls, q.calls, p.leased);
    SameWorkers(p, q);
  }

  /** Only one call changed, and not to a new assignment. */
  lemma CallNext(p: Pool, q: Pool, t: nat)
    requires Inv(p) && t in p.calls && p.calls[t] != Over && q == p.(calls := q.calls, waiters := q.waiters)
    requires t in q.calls && q.calls == p.calls[t := q.calls[t]] && !q.calls[t].Assigned?
    ensures Next(p, q)
  {
    hide Core, DrainOK, SuperOK;
  }

  lemma CallInv(p: Pool, q: Pool)
    requires Inv(p) && Core(q) && q == p.(calls := q.calls, waiters := q.waiters) && (p.waiters == [] ==> q.waiters == [])
    ensures Inv(q)
  {
    hide Core, Finished, Summarise;
  }

  lemma AcceptKeeps(p: Pool, t: nat)
    requires Inv(p)
    ensures Inv(Accept(p, t)) && Next(p, Accept(p, t))
  {
    hide Inv, Next;
    SelfNext(p);
    if t in p.calls && (p.calls[t].Assigned? || p.calls[t].Failed?) {
      assert Core(p) by { InvCore(p); }
      MoveCall(p, t, if p.calls[t].Assigned? then Holding(p.calls[t].worker) else Over);
      CallInv(p, Accept(p, t));
      CallNext(p, Accept(p, t), t);
    }
  }

  lemma CancelKeeps(p: Pool, t: nat)
    requires Inv(p)
    ensures Inv(Cancel(p, t)) && Next(p, Cancel(p, t))
  {
    hide Inv, Next;
    SelfNext(p);
    if t in p.calls && (p.calls[t].Assigned? || p.calls[t].Failed? || p.calls[t].Waiting?) {
      assert Core(p) by { InvCore(p); }
      if p.calls[t].Waiting? { LeaveLine(p, t); } else { MoveCall(p, t, if p.calls[t].Assigned? then Abandoning(p.calls[t].worker) else Over); }
      WithoutNone(t);
      CallInv(p, Cancel(p, t));
      CallNext(p, Cancel(p, t), t);
    }
  }

  lemma InvCore(p: Pool)
    requires Inv(p)
    ensures Core(p)
  {}

  lemma SelfNext(p: Pool)
    requires Inv(p)
    ensures Next(p, p)
  {
    hide Core, DrainOK, SuperOK;
  }

  /*** The end of a lease ***/

  lemma BumpDead(p: Pool, w: nat, rec: Worker)
    requires Core(p) && w in p.recs && p.recs[w].fate.Dead?
    requires rec == p.recs[w].(uses := rec.uses, served := rec.served) && rec.served <= p.cfg.maxUses
    ensures Core(p.(recs := p.recs[w := rec]))
  {
    hide Distinct, Ascending, Registered, Holds;
  }

  /** A lease still open keeps the drain open. */
  lemma LeaseKeepsOpen(p: Pool, w: nat)
    requires Inv(p) && w in p.leased
    ensures !p.drain.finalized && w in p.recs && p.recs[w].fate == Leased && w !in p.idle && (p.closed ==> !p.drain.force)
    ensures p.recs[w].uses == p.recs[w].served < p.cfg.maxUses
  {
    hide AllTerminal, CountOK, LineOK, HoldOK, ReportsOK, LedgerOK, Summarise;
    assert |p.leased| != 0;
  }

  lemma FinalizeFacts(d: Drain)
    requires d.finalized ==> Finished(d) && d.result == Summarise(d.ordered)
    ensures var e := Finalize(d);
            && (e.finalized <==> Finished(e)) && (e.finalized ==> e.result == Summarise(e.ordered))
            && e == d.(finalized := e.finalized, result := e.result)
            && (d.finalized ==> e == d)
  {}

  /** The drain's side of a lease ending: told of one lease fewer, finished when it was the last. */
  lemma RetiredDrain(p: Pool, k: Pool)
    requires DrainOK(p) && !p.drain.finalized && (p.closed ==> !p.drain.force) && Grown(p.drain, k.drain) && k.closed == p.closed
    ensures DrainOK(k.(drain := Finalize(PendingLeases(k.drain, k.leased))))
    ensures var d := Finalize(PendingLeases(k.drain, k.leased));
            d == k.drain.(leasedPending := d.leasedPending, finalized := d.finalized, result := d.result)
  {
    hide AllTerminal, Summarise;
    FinalizeFacts(PendingLeases(k.drain, k.leased));
    if !p.closed { GrownDrain(p.drain, k.drain); }
  }

  /** The ledger is untouched by what else the drain records. */
  lemma DrainCore(p: Pool, d: Drain)
    requires Core(p) && d.ordered == p.drain.ordered
    ensures Core(p.(drain := d))
  {
    hide Distinct, Ascending, Registered, Holds;
  }

  /** The lease of `call` on w ends with w's death. */
  lemma RetireKeeps(p: Pool, call: nat, w: nat, rec: Worker, reason: Reason)
    requires Inv(p) && call in p.calls && w in p.leased && w in p.recs && Holds(p.calls[call], w)
    requires rec == p.recs[w].(uses := rec.uses, served := rec.served) && rec.served <= p.recs[w].served + 1
    ensures var q := Retire(Replenished(p.(calls := p.calls[call := Over], recs := p.recs[w := rec]), rec), w, reason);
            Inv(q) && Next(p, q)
  {
    hide Core, DrainOK, Without, Register, Finalize, PendingLeases, OneHolder, DeadStay;
    LeaseKeepsOpen(p, w);
    KillCore(p, w, reason);
    var k := Kill(p, w, reason);
    var dead := rec.(fate := Dead(reason));
    BumpDead(k, w, dead);
    var b := k.(recs := k.recs[w := dead]);
    MoveCall(b, call, Over);
    var m := b.(calls := b.calls[call := Over]);
    StartsCore(m);
    var start := Replenished(p.(calls := p.calls[call := Over], recs := p.recs[w := rec]), rec);
    var r := m.(superStart := start.superStart);
    KillCommutes(p, call, w, rec, reason);
    assert k.recs[w := dead] == p.recs[w := dead];
    assert r == Kill(start, w, reason);
    assert Core(r);
    RetiredDrain(p, r);
    DrainCore(r, Finalize(PendingLeases(r.drain, r.leased)));
    RetireNext(p, call, w, r.(drain := Finalize(PendingLeases(r.drain, r.leased))), k);
  }

  lemma KillCommutes(p: Pool, call: nat, w: nat, rec: Worker, reason: Reason)
    requires w in p.recs && rec.transport == p.recs[w].transport
    ensures var start := Replenished(p.(calls := p.calls[call := Over], recs := p.recs[w := rec]), rec);
            Kill(start, w, reason) ==
            Kill(p, w, reason).(recs := p.recs[w := rec.(fate := Dead(reason))], calls := p.calls[call := Over], superStart := start.superStart)
  {
    hide Without, Register;
    assert p.recs[w := rec][w := rec.(fate := Dead(reason))] == p.recs[w := rec.(fate := Dead(reason))];
  }

  lemma RetireNext(p: Pool, call: nat, w: nat, q: Pool, k: Pool)
    requires Inv(p) && call in p.calls && w in p.leased && w in p.recs && Holds(p.calls[call], w) && OnlyDeaths(p, k) && !p.drain.finalized
    requires q == k.(recs := q.recs, calls := p.calls[call := Over], superStart := q.superStart, drain := q.drain)
    requires q.recs.Keys == p.recs.Keys && forall x :: x in p.recs && x != w ==> q.recs[x] == k.recs[x]
    requires p.recs[w].fate == Leased && (q.superStart == p.superStart || (q.superStart && !p.closed))
    requires q.drain.started == p.drain.started && q.drain.supervisorPending == p.drain.supervisorPending
    requires w !in p.idle
    ensures Exclusive(q) && SuperOK(q) && Next(p, q)
  {
    hide Core, Finished, Summarise;
    assert p.idle == [] ==> q.idle == [] by { FirstMember(q.idle); }
  }

  lemma GiveBackCore(p: Pool, call: nat, w: nat, rec: Worker)
    requires Core(p) && call in p.calls && w in p.leased && w in p.recs && Holds(p.calls[call], w)
    requires rec == p.recs[w].(uses := rec.uses, served := rec.served) && rec.uses == rec.served < p.cfg.maxUses
    ensures Core(GiveBack(p.(calls := p.calls[call := Over]), w, rec))
  {
    hide PlacesOK, CountOK, UsesOK, LineOK, HoldOK, ReportsOK, LedgerOK;
    GiveBackPlaces(p, call, w, rec);
    GiveBackRest(p, call, w, rec);
    GiveBackHold(p, call, w, rec);
  }

  lemma GiveBackPlaces(p: Pool, call: nat, w: nat, rec: Worker)
    requires PlacesOK(p) && CountOK(p) && w in p.leased && w in p.recs
    ensures var q := GiveBack(p.(calls := p.calls[call := Over]), w, rec); PlacesOK(q) && CountOK(q)
  {
    var q := GiveBack(p.(calls := p.calls[call := Over]), w, rec);
    assert w !in p.idle && |p.leased - {w}| == |p.leased| - 1;
    assert forall x :: x in q.idle <==> x in p.idle || x == w;
  }

  lemma GiveBackRest(p: Pool, call: nat, w: nat, rec: Worker)
    requires PlacesOK(p) && UsesOK(p) && LineOK(p) && ReportsOK(p) && LedgerOK(p) && w in p.leased && w in p.recs
    requires call in p.calls && p.calls[call] != Waiting && rec.uses == rec.served < p.cfg.maxUses
    ensures var q := GiveBack(p.(calls := p.calls[call := Over]), w, rec); UsesOK(q) && LineOK(q) && ReportsOK(q) && LedgerOK(q)
  {
    hide Ascending, Registered, Distinct;
  }

  lemma GiveBackHold(p: Pool, call: nat, w: nat, rec: Worker)
    requires HoldOK(p) && PlacesOK(p) && w in p.leased && w in p.recs && call in p.calls && Holds(p.calls[call], w)
    ensures HoldOK(GiveBack(p.(calls := p.calls[call := Over]), w, rec))
  {
    hide Distinct;
    var q := GiveBack(p.(calls := p.calls[call := Over]), w, rec);
    HeldStays(p.calls, p.calls, q.leased);
    HeldStays(p.calls, q.calls, q.leased);
  }

  lemma GiveBackKeeps(p: Pool, call: nat, w: nat, rec: Worker, now: int)
    requires Inv(p) && call in p.calls && w in p.leased && w in p.recs && Holds(p.calls[call], w) && !p.closed && !p.circuitOpen
    requires rec == p.recs[w].(uses := rec.uses, served := rec.served) && rec.uses == rec.served < p.cfg.maxUses
    ensures var q := Wake(GiveBack(p.(calls := p.calls[call := Over]), w, rec), now); Inv(q) && Next(p, q)
  {
    hide Core, Wake, DrainOK, SuperOK, DeadStay;
    var g := GiveBack(p.(calls := p.calls[call := Over]), w, rec);
    LeaseKeepsOpen(p, w);
    GiveBackCore(p, call, w, rec);
    Untouched(p);
    WakeKeeps(g, now);
    GiveBackStay(p, call, w, rec);
    DeadStayTrans(p, g, Wake(g, now));
    OverNext(p, g, Wake(g, now), call);
  }

  lemma GiveBackStay(p: Pool, call: nat, w: nat, rec: Worker)
    requires w in p.recs && p.recs[w].fate == Leased
    ensures DeadStay(p, GiveBack(p.(calls := p.calls[call := Over]), w, rec))
  {}

  lemma OverNext(p: Pool, g: Pool, r: Pool, call: nat)
    requires !p.closed && !p.drain.finalized && call in p.calls && g.cfg == p.cfg && g.calls == p.calls[call := Over] && Next(g, r) && DeadStay(p, r)
    ensures Next(p, r)
  {
    hide DeadStay;
    assert r.calls[call] == Over;
    assert forall t: nat :: Granted(p, r, t) ==> Granted(g, r, t);
  }

  lemma EndKeeps(p: Pool, call: nat, end: Ending, now: int)
    requires Inv(p)
    ensures Inv(End(p, call, end, now)) && Next(p, End(p, call, end, now))
  {
    hide Inv, Next, Wake, Retire, Replenished, GiveBack;
    SelfNext(p);
    if call in p.calls && (p.calls[call].Holding? || p.calls[call].Abandoning?) {
      var w := p.calls[call].worker;
      if w in p.leased {
        LeaseKeepsOpen(p, w);
        EndLease(p, call, w, end, now);
      } else {
        assert Core(p) by { InvCore(p); }
        MoveCall(p, call, Over);
        CallInv(p, p.(calls := p.calls[call := Over]));
        CallNext(p, p.(calls := p.calls[call := Over]), call);
      }
    }
  }

  lemma EndLease(p: Pool, call: nat, w: nat, end: Ending, now: int)
    requires Inv(p) && call in p.calls && w in p.leased && w in p.recs && Holds(p.calls[call], w)
    ensures var q := p.(calls := p.calls[call := Over]);
            forall used :: var r := FinishLease(q, w, used, now); Inv(r) && Next(p, r)
    ensures var r := PoisonWorker(p.(calls := p.calls[call := Over]), w); Inv(r) && Next(p, r)
  {
    hide Inv, Next, Wake, Retire, Replenished, GiveBack;
    LeaseKeepsOpen(p, w);
    var q := p.(calls := p.calls[call := Over]);
    forall used ensures Inv(FinishLease(q, w, used, now)) && Next(p, FinishLease(q, w, used, now)) {
      var rec := if used then Used(p.recs[w]) else p.recs[w];
      if p.closed || p.circuitOpen || rec.generation != p.cfg.generation || rec.uses >= p.cfg.maxUses || now - rec.started >= p.cfg.maxAge {
        RetireKeeps(p, call, w, rec, EndReason(p, rec));
      } else {
        GiveBackKeeps(p, call, w, rec, now);
      }
    }
    RetireKeeps(p, call, w, p.recs[w].(served := p.recs[w].served + 1), Poisoned);
  }

  /*** The circuit ***/

  lemma FailCore(p: Pool)
    requires Core(p)
    ensures Core(p.(waiters := [], calls := FailWaiters(p.calls, p.waiters)))
    ensures forall t :: t in p.calls ==> t in FailWaiters(p.calls, p.waiters) && (p.calls[t] == Over ==> FailWaiters(p.calls, p.waiters)[t] == Over)
  {
    hide PlacesOK, CountOK, UsesOK, ReportsOK, LedgerOK;
    var q := p.(waiters := [], calls := FailWaiters(p.calls, p.waiters));
    HeldStays(p.calls, q.calls, p.leased);
    SameWorkers(p, q);
  }

  lemma FlagsCore(p: Pool, open: bool, closed: bool)
    requires Core(p)
    ensures Core(p.(circuitOpen := open, closed := closed))
  {
    hide Distinct, Ascending, Registered, Holds;
  }

  lemma CircuitKeeps(p: Pool, open: bool)
    requires Inv(p)
    ensures Inv(SetCircuit(p, open)) && Next(p, SetCircuit(p, open))
  {
    if open { CircuitOpens(p); } else { CircuitCloses(p); }
  }

  lemma CircuitCloses(p: Pool)
    requires Inv(p)
    ensures Inv(SetCircuit(p, false)) && Next(p, SetCircuit(p, false))
  {
    hide Core, Finished, Summarise, Holds, DeadStay;
    FlagsCore(p, false, p.closed);
    StartsCore(p.(circuitOpen := false));
    SameStay(p, SetCircuit(p, false));
  }

  lemma SameStay(p: Pool, q: Pool)
    requires q.recs == p.recs
    ensures DeadStay(p, q)
  {}

  lemma CircuitOpens(p: Pool)
    requires Inv(p)
    ensures Inv(SetCircuit(p, true)) && Next(p, SetCircuit(p, true))
  {
    hide Core, Finished, Summarise, KillAll, FailWaiters, Holds, DrainOK, SuperOK, DeadStay;
    FlagsCore(p, true, p.closed);
    var q := p.(circuitOpen := true);
    FailCore(q);
    var m := q.(waiters := [], calls := FailWaiters(q.calls, q.waiters));
    FinalShut(p);
    DrainShut(p);
    KillIdle(m, Always(CircuitOpened));
    var k := KillAll(m, q.idle, Always(CircuitOpened));
    KillNobody(m, Always(CircuitOpened));
    DrainBeside(p, k);
    SameStay(p, m);
    DeadStayTrans(p, m, k);
  }

  lemma KillNobody(p: Pool, reason: nat -> Reason)
    ensures KillAll(p, [], reason) == p
  {}

  lemma DrainShut(p: Pool)
    requires Inv(p)
    ensures p.drain.finalized ==> p.closed && p.idle == []
  {}

  /** Deaths of idle workers do not change what the drain waits for. */
  lemma DrainBeside(p: Pool, k: Pool)
    requires Inv(p) && Grown(p.drain, k.drain) && k.leased == p.leased && k.closed == p.closed && (p.closed ==> k.drain == p.drain)
    ensures DrainOK(k) && (k.superStart == p.superStart && k.superExited == p.superExited ==> SuperOK(k))
  {
    hide Core, AllTerminal, Summarise;
    if !p.closed { GrownDrain(p.drain, k.drain); }
  }

  /*** The supervisor ***/

  lemma SuperAppendKeeps(p: Pool, started: int, transport: Option<Transport>, now: int)
    requires Inv(p)
    ensures Inv(SuperAppend(p, started, transport, now)) && Next(p, SuperAppend(p, started, transport, now))
  {
    hide Inv, Next, Wake, Enter, HasRoom;
    SelfNext(p);
    if p.superStart && !p.superExited && !p.closed && !p.circuitOpen && HasRoom(p) { EnterKeeps(p, started, transport, now); }
  }

  lemma SuperExitKeeps(p: Pool)
    requires Inv(p)
    ensures Inv(SuperExit(p)) && Next(p, SuperExit(p))
    ensures Inv(SuperJoined(p)) && Next(p, SuperJoined(p))
  {
    hide Core, AllTerminal, Summarise, Finalize, Holds;
    assert Core(SuperExit(p)) by { ExitCore(p); }
    if p.superExited && p.drain.supervisorPending {
      var d := p.drain.(supervisorPending := false);
      FinalizeFacts(d);
      DrainCore(p, Finalize(d));
    }
  }

  lemma ExitCore(p: Pool)
    requires Core(p)
    ensures Core(p.(superExited := true))
  {
    hide Distinct, Ascending, Registered, Holds;
  }
}
