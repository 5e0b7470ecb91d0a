/** Whom the worker pool serves (internal/plugin/system_pool.go): which idle workers a section keeps, what becomes of
    a worker that is published or given back, and what a checkout is told, each told of every reachable pool. */
module PoolService {
  import opened Options
  import opened PoolModel
  import opened PoolInvariant
  import opened PoolSteps
  import opened PoolEndings
  import opened PoolTheorems

  /** The worker may serve one more lease: it is of this generation, not used up and not too old. */
  predicate Fit(cfg: Config, w: Worker, now: int) {
    w.generation == cfg.generation && w.uses < cfg.maxUses && now - w.started < cfg.maxAge
  }

  /** The fit ones of a list, in its order. */
  function FitOnes(p: Pool, ws: seq<nat>, now: int): seq<nat> {
    if ws == [] then []
    else (if ws[0] in p.recs && Fit(p.cfg, p.recs[ws[0]], now) then [ws[0]] else []) + FitOnes(p, ws[1..], now)
  }

  /*** Killing and pruning, worker by worker ***/

  /** Killing a list takes exactly its known members, and touches nothing callers see. */
  lemma {:induction false} KillAllEffect(p: Pool, ws: seq<nat>, reason: nat -> Reason, w: nat)
    ensures var q := KillAll(p, ws, reason);
            && (w in q.recs <==> w in p.recs)
            && (w in p.recs ==> q.recs[w] == if w in ws then p.recs[w].(fate := Dead(reason(w))) else p.recs[w])
            && (w in q.leased <==> w in p.leased && !(w in ws && w in p.recs))
    decreases |ws|
  {
    hide Kill;
    if ws != [] {
      KillEffect(p, ws[0], reason(ws[0]), w);
      KillAllEffect(Kill(p, ws[0], reason(ws[0])), ws[1..], reason, w);
    }
  }

  lemma KillEffect(p: Pool, v: nat, reason: Reason, w: nat)
    ensures var q := Kill(p, v, reason);
            && (w in q.recs <==> w in p.recs)
            && (w in p.recs ==> q.recs[w] == if w == v then p.recs[w].(fate := Dead(reason)) else p.recs[w])
            && (w in q.leased <==> w in p.leased && !(w == v && w in p.recs))
  {
    hide Register, Without, ActiveWithout;
  }

  lemma {:induction false} KillAllAside(p: Pool, ws: seq<nat>, reason: nat -> Reason)
    ensures var q := KillAll(p, ws, reason);
            && q.cfg == p.cfg && q.waiters == p.waiters && q.calls == p.calls && q.closed == p.closed && q.circuitOpen == p.circuitOpen
            && q.nextWorker == p.nextWorker && q.nextCall == p.nextCall && q.drain.started == p.drain.started && q.drain.force == p.drain.force
    decreases |ws|
  {
    hide Without, ActiveWithout, Pending;
    if ws != [] { KillAllAside(Kill(p, ws[0], reason(ws[0])), ws[1..], reason); }
  }

  function Dropping(s: seq<nat>, ws: seq<nat>): seq<nat>
    decreases |ws|
  {
    if ws == [] then s else Dropping(Without(s, ws[0]), ws[1..])
  }

  lemma {:induction false} KillAllIdle(p: Pool, ws: seq<nat>, reason: nat -> Reason)
    requires forall w :: w in ws ==> w in p.recs
    ensures KillAll(p, ws, reason).idle == Dropping(p.idle, ws)
    decreases |ws|
  {
    hide Register, Without, ActiveWithout;
    if ws != [] {
      var k := Kill(p, ws[0], reason(ws[0]));
      assert ws[0] in ws && k.recs.Keys == p.recs.Keys && forall w :: w in ws[1..] ==> w in ws;
      KillAllIdle(k, ws[1..], reason);
    }
  }

  lemma {:induction false} DropTail(h: nat, s: seq<nat>, ws: seq<nat>)
    requires h !in ws
    ensures Dropping([h] + s, ws) == [h] + Dropping(s, ws)
    decreases |ws|
  {
    if ws != [] {
      assert ws[0] in ws && ([h] + s)[1..] == s;
      assert Without([h] + s, ws[0]) == [h] + Without(s, ws[0]);
      DropTail(h, Without(s, ws[0]), ws[1..]);
    }
  }

  /** Dropping a list's stale members leaves its fit ones. */
  lemma {:induction false} DropStale(p: Pool, s: seq<nat>, now: int)
    requires Distinct(s) && forall w :: w in s ==> w in p.recs && p.recs[w].fate == Idle
    ensures Dropping(s, StaleOf(p, s, now)) == FitOnes(p, s, now)
  {
    if s != [] {
      Tail(s);
      assert s == [s[0]] + s[1..] && s[0] in s;
      DropStale(p, s[1..], now);
      if Stale(p.cfg, p.recs[s[0]], now) {
        var st := StaleOf(p, s, now);
        assert st[0] == s[0] && st[1..] == StaleOf(p, s[1..], now);
        WithoutFirstOf(s);
      } else {
        assert StaleOf(p, s, now) == StaleOf(p, s[1..], now);
        DropTail(s[0], s[1..], StaleOf(p, s[1..], now));
      }
    }
  }

  lemma WithoutFirstOf(s: seq<nat>)
    requires s != [] && Distinct(s)
    ensures Without(s, s[0]) == s[1..]
  {
    Tail(s);
    WithoutMembers(s[1..], s[0]);
  }

  /** What pruning needs of a pool; every reachable one meets it. */
  ghost predicate Known(p: Pool) { Distinct(p.idle) && forall w :: w in p.idle ==> w in p.recs && p.recs[w].fate == Idle }

  /** Pruning keeps exactly the fit idle workers, in their order; each other one dies for the first
      thing wrong with it; nobody else is touched. */
  lemma PruneExactly(p: Pool, now: int, w: nat)
    requires Known(p)
    ensures var q := Prune(p, now);
            && q.idle == FitOnes(p, p.idle, now)
            && (w in q.recs <==> w in p.recs)
            && (w in p.recs ==> q.recs[w] == if w in p.idle && !Fit(p.cfg, p.recs[w], now)
                                             then p.recs[w].(fate := Dead(Fault(p.cfg, p.recs[w]))) else p.recs[w])
            && q.cfg == p.cfg && q.waiters == p.waiters && q.calls == p.calls && q.closed == p.closed && q.circuitOpen == p.circuitOpen
            && q.nextWorker == p.nextWorker && q.nextCall == p.nextCall && (w in q.leased <==> w in p.leased && (w in p.recs ==> w !in p.idle || Fit(p.cfg, p.recs[w], now)))
  {
    hide KillAll, AnyTransport, Distinct;
    var stale := StaleOf(p, p.idle, now);
    KillAllEffect(p, stale, Why(p), w);
    KillAllAside(p, stale, Why(p));
    KillAllIdle(p, stale, Why(p));
    DropStale(p, p.idle, now);
  }

  function Fault(cfg: Config, w: Worker): Reason {
    if w.generation != cfg.generation then Rejected else if w.uses >= cfg.maxUses then MaxUses else MaxAge
  }

  lemma NothingToPrune(p: Pool, now: int)
    requires Known(p) && forall w :: w in p.idle ==> Fit(p.cfg, p.recs[w], now)
    ensures Prune(p, now) == p
  {
    FirstMember(StaleOf(p, p.idle, now));
  }

  lemma {:induction false} FitMembers(p: Pool, ws: seq<nat>, now: int)
    ensures forall w :: w in FitOnes(p, ws, now) <==> w in ws && w in p.recs && Fit(p.cfg, p.recs[w], now)
  {
    if ws != [] {
      FitMembers(p, ws[1..], now);
      assert forall w :: w in ws <==> w == ws[0] || w in ws[1..];
    }
  }

  lemma InvKnown(p: Pool)
    requires Inv(p)
    ensures Known(p)
  {
    hide CountOK, UsesOK, LineOK, HoldOK, ReportsOK, LedgerOK, Exclusive, SuperOK, DrainOK, Distinct;
  }

  /*** Waking ***/

  /** n has just joined the end of the idle list, fit, in a pool whose circuit is closed. */
  ghost predicate Newcomer(g: Pool, n: nat, now: int) {
    && Known(g) && !g.circuitOpen && n in g.recs && Fit(g.cfg, g.recs[n], now) && n in g.idle
    && (g.waiters != [] ==> g.idle == [n] && g.waiters[0] !in g.waiters[1..])
  }

  /** It goes to the first in line, or stays idle when nobody waits. */
  lemma WakeServes(g: Pool, n: nat, now: int)
    requires Newcomer(g, n, now)
    ensures var r := Wake(g, now);
            && n in r.recs && r.recs[n] == g.recs[n].(fate := r.recs[n].fate)
            && (g.waiters == [] ==> n in r.idle && r.calls == g.calls && r.waiters == [] && r.recs[n].fate == g.recs[n].fate)
            && (g.waiters != [] ==> n in r.leased && r.recs[n].fate == Leased && r.calls == g.calls[g.waiters[0] := Assigned(n)] && r.waiters == g.waiters[1..])
  {
    hide Prune, Distinct, Fit;
    if g.waiters == [] {
      PruneExactly(g, now, n);
      FitMembers(g, g.idle, now);
    } else {
      NothingToPrune(g, now);
      assert g.waiters == [g.waiters[0]] + g.waiters[1..];
      WithoutMembers(g.waiters[1..], g.waiters[0]);
    }
  }

  /*** The end of a lease ***/

  /** The worker as it is once the lease has ended this way. */
  function Ended(w: Worker, end: Ending): Worker {
    match end
    case Release => w.(uses := w.uses + 1, served := w.served + 1)
    case ReturnUnused => w
    case Poison => w.(served := w.served + 1)
  }

  /** In every reachable pool, a worker whose holder ends its lease, or gives back one it was assigned too late, goes on serving exactly when the pool is open, its
      circuit closed, the holder does not condemn it and it is still fit: it goes to the first in line, or is idle
      when nobody waits. Otherwise it is dead and nobody else is given anything. */
  lemma LeaseEnds(cfg: Config, run: seq<Op>, call: nat, w: nat, end: Ending, now: int)
    requires cfg.Valid()
    requires var p := Exec(cfg, run);
             call in p.calls && w in p.leased && w in p.recs && (p.calls[call] == Holding(w) || (p.calls[call] == Abandoning(w) && end == ReturnUnused))
    ensures var p, q := Exec(cfg, run), Step(Exec(cfg, run), DoEnd(call, end, now));
            var rec := Ended(p.recs[w], end);
            && w in q.recs
            && if !p.closed && !p.circuitOpen && end != Poison && Fit(cfg, rec, now) then
                 && q.recs[w] == rec.(fate := if p.waiters == [] then Idle else Leased)
                 && q.calls == (if p.waiters == [] then p.calls[call := Over] else p.calls[call := Over][p.waiters[0] := Assigned(w)])
                 && (w in q.idle <==> p.waiters == []) && q.waiters == if p.waiters == [] then [] else p.waiters[1..]
               else
                 && q.recs[w] == rec.(fate := Dead(if end == Poison then Poisoned else if p.closed then Shutdown
                                                  else if p.circuitOpen then CircuitOpened else Fault(cfg, rec)))
                 && q.calls == p.calls[call := Over] && q.waiters == p.waiters
  {
    hide Exec, Inv, Wake, Fit, GiveBack, Retire, Replenished, End;
    ExecInv(cfg, run);
    var p := Exec(cfg, run);
    var rec, m := Ended(p.recs[w], end), p.(calls := p.calls[call := Over]);
    EndIs(p, call, w, end, now);
    if !p.closed && !p.circuitOpen && end != Poison && Fit(cfg, rec, now) {
      GivenBack(p, call, w, rec, now);
      WakeServes(GiveBack(m, w, rec), w, now);
      WakeIdle(p, call, w, rec, now);
    } else {
      var start := Replenished(m.(recs := m.recs[w := rec]), rec);
      assert start.recs == m.recs[w := rec] && start.calls == m.calls && start.waiters == m.waiters by { ReplenishedAside(m.(recs := m.recs[w := rec]), rec); }
      RetireEffect(start, w, Cause(p, rec, end));
    }
  }

  function Cause(p: Pool, rec: Worker, end: Ending): Reason {
    if end == Poison then Poisoned else if p.closed then Shutdown else if p.circuitOpen then CircuitOpened else Fault(p.cfg, rec)
  }

  lemma EndIs(p: Pool, call: nat, w: nat, end: Ending, now: int)
    requires call in p.calls && w in p.leased && w in p.recs && (p.calls[call] == Holding(w) || (p.calls[call] == Abandoning(w) && end == ReturnUnused))
    ensures var m, rec := p.(calls := p.calls[call := Over]), Ended(p.recs[w], end);
            End(p, call, end, now) ==
            if !p.closed && !p.circuitOpen && end != Poison && Fit(p.cfg, rec, now) then Wake(GiveBack(m, w, rec), now)
            else Retire(Replenished(m.(recs := m.recs[w := rec]), rec), w, Cause(p, rec, end))
  {
    hide Wake, GiveBack, Retire, Replenished;
  }

  lemma ReplenishedAside(p: Pool, rec: Worker)
    ensures var q := Replenished(p, rec); q.recs == p.recs && q.calls == p.calls && q.waiters == p.waiters
  {}

  lemma RetireEffect(p: Pool, w: nat, reason: Reason)
    requires w in p.recs
    ensures var q := Retire(p, w, reason); w in q.recs && q.recs[w] == p.recs[w].(fate := Dead(reason)) && q.calls == p.calls && q.waiters == p.waiters
  {
    hide Register, Without, ActiveWithout, Finalize;
  }

  lemma FitIs(cfg: Config, rec: Worker, now: int)
    ensures Fit(cfg, rec, now) <==> rec.generation == cfg.generation && rec.uses < cfg.maxUses && now - rec.started < cfg.maxAge
  {}

  lemma GivenBack(p: Pool, call: nat, w: nat, rec: Worker, now: int)
    requires Inv(p) && w in p.leased && w in p.recs && !p.circuitOpen
    requires rec == p.recs[w].(uses := rec.uses, served := rec.served) && Fit(p.cfg, rec, now)
    ensures var m := p.(calls := p.calls[call := Over]);
            var g := GiveBack(m, w, rec);
            Newcomer(g, w, now) && g.recs[w] == rec.(fate := Idle) && g.calls == m.calls && g.waiters == p.waiters
  {
    hide Fit, HoldOK, ReportsOK, LedgerOK, CountOK, UsesOK, SuperOK, DrainOK;
    assert w !in p.idle;
    var g := GiveBack(p.(calls := p.calls[call := Over]), w, rec);
    assert forall x :: x in g.idle <==> x in p.idle || x == w;
    FitIs(p.cfg, rec, now);
    FitIs(p.cfg, rec.(fate := Idle), now);
    if p.waiters != [] { Tail(p.waiters); assert g.idle == [w]; }
  }

  lemma WakeIdle(p: Pool, call: nat, w: nat, rec: Worker, now: int)
    requires Inv(p) && w in p.leased && w in p.recs && !p.circuitOpen
    requires rec == p.recs[w].(uses := rec.uses, served := rec.served) && Fit(p.cfg, rec, now)
    ensures var g := GiveBack(p.(calls := p.calls[call := Over]), w, rec); p.waiters != [] ==> w !in Wake(g, now).idle
  {
    hide Inv, Core, Prune, Fit;
    GivenBack(p, call, w, rec, now);
    var g := GiveBack(p.(calls := p.calls[call := Over]), w, rec);
    if p.waiters != [] {
      NothingToPrune(g, now);
      WithoutMembers(g.idle, w);
    }
  }

  /*** Publishing ***/

  /** In every reachable pool, a published worker is taken in exactly when the pool is not closed, it is of this
      generation, there is room beside the fit idle workers and the leases, and it is ready or has a transport. With
      the circuit closed it then goes to the first in line, or is idle when nobody waits. */
  lemma PublishServes(cfg: Config, run: seq<Op>, generation: nat, ready: bool, transport: Option<Transport>, now: int)
    requires cfg.Valid()
    ensures var p, r := Exec(cfg, run), Step(Exec(cfg, run), DoPublish(generation, ready, transport, now));
            var n := p.nextWorker;
            && n !in p.recs
            && (n in r.recs <==> !p.closed && generation == cfg.generation && |FitOnes(p, p.idle, now)| + p.active < cfg.size + cfg.maxOverflow && (ready || transport.Some?))
            && (n in r.recs && !p.circuitOpen ==>
                && r.recs[n] == Worker(cfg.generation, 0, 0, now, transport, if p.waiters == [] then Idle else Leased)
                && r.calls == (if p.waiters == [] then p.calls else p.calls[p.waiters[0] := Assigned(n)])
                && r.waiters == if p.waiters == [] then [] else p.waiters[1..])
  {
    hide Exec, Inv, Core, Wake, Fit, Prune, Register, FitOnes;
    ExecInv(cfg, run);
    var p := Exec(cfg, run);
    InvKnown(p);
    PruneExactly(p, now, p.nextWorker);
    NoNewcomer(p);
    PruneActive(p, now);
    var q := Prune(p, now);
    if HasRoom(q) && !q.closed && generation == cfg.generation && (ready || transport.Some?) {
      WakeKeys(Enter(q, now, transport), now, p.nextWorker);
      if !p.circuitOpen {
        EnteredNew(p, transport, now);
        WakeServes(Enter(q, now, transport), p.nextWorker, now);
      }
    }
  }

  lemma NoNewcomer(p: Pool)
    requires Inv(p)
    ensures p.nextWorker !in p.recs
  {
    hide CountOK, UsesOK, LineOK, HoldOK, ReportsOK, LedgerOK, Exclusive, SuperOK, DrainOK, Distinct;
  }

  /** Only leases are counted as active, so pruning idle workers leaves the count. */
  lemma PruneActive(p: Pool, now: int)
    requires Inv(p)
    ensures Prune(p, now).active == p.active
  {
    hide Prune, PlacesOK, UsesOK, LineOK, HoldOK, ReportsOK, LedgerOK, Exclusive, SuperOK, DrainOK;
    PruneKeeps(p, now);
  }

  lemma WakeKeys(g: Pool, now: int, n: nat)
    ensures n in Wake(g, now).recs <==> n in g.recs
  {
    hide KillAll, StaleOf, AnyTransport, Without;
    KillAllEffect(g, StaleOf(g, g.idle, now), Why(g), n);
    KillAllEffect(Prune(g, now), Prune(g, now).idle, Always(CircuitOpened), n);
  }

  lemma EnteredNew(p: Pool, transport: Option<Transport>, now: int)
    requires Inv(p) && !p.circuitOpen && !p.closed
    ensures var g := Enter(Prune(p, now), now, transport);
            && Newcomer(g, p.nextWorker, now) && g.waiters == p.waiters && g.calls == p.calls
            && g.recs[p.nextWorker] == Worker(p.cfg.generation, 0, 0, now, transport, Idle)
  {
    hide Inv, Prune, Newcomer, FitOnes;
    InvKnown(p);
    NoNewcomer(p);
    LineBesideIdle(p);
    PruneExactly(p, now, p.nextWorker);
    PrunedKnown(p, now);
    assert p.idle == [] ==> Prune(p, now).idle == [] by { FitNone(p, now); }
    Entered(Prune(p, now), now, transport, now);
  }

  lemma FitNone(p: Pool, now: int)
    ensures FitOnes(p, [], now) == []
  {}

  lemma PrunedKnown(p: Pool, now: int)
    requires Inv(p)
    ensures Known(Prune(p, now)) && p.nextWorker !in Prune(p, now).idle
  {
    hide Prune, Inv, FitOnes;
    InvKnown(p);
    PruneKeeps(p, now);
    PruneExactly(p, now, p.nextWorker);
    InvKnown(Prune(p, now));
    NoNewcomer(Prune(p, now));
  }

  /** The supervisor's candidate is taken in exactly when the supervisor runs, the pool is open, its circuit is closed
      and there is room; if it is not too old already, it goes to the first in line, or is idle when nobody waits. Otherwise the pool keeps no
      trace of it, its transport included, so no drain waits for it. */
  lemma CandidateServes(cfg: Config, run: seq<Op>, started: int, transport: Option<Transport>, now: int)
    requires cfg.Valid()
    ensures var p, r := Exec(cfg, run), Step(Exec(cfg, run), DoSuperAppend(started, transport, now));
            var n := p.nextWorker;
            && n !in p.recs
            && (n in r.recs <==> p.superStart && !p.superExited && !p.closed && !p.circuitOpen && |p.idle| + p.active < cfg.size + cfg.maxOverflow)
            && (n !in r.recs ==> r == p)
            && (n in r.recs && now - started < cfg.maxAge ==>
                && r.recs[n] == Worker(cfg.generation, 0, 0, started, transport, if p.waiters == [] then Idle else Leased)
                && r.calls == (if p.waiters == [] then p.calls else p.calls[p.waiters[0] := Assigned(n)])
                && r.waiters == if p.waiters == [] then [] else p.waiters[1..])
  {
    hide Exec, Inv, Wake, Fit;
    ExecInv(cfg, run);
    var p := Exec(cfg, run);
    NoNewcomer(p);
    if p.superStart && !p.superExited && !p.closed && !p.circuitOpen && HasRoom(p) {
      WakeKeys(Enter(p, started, transport), now, p.nextWorker);
      if now - started < cfg.maxAge {
        EnteredFit(p, started, transport, now);
        WakeServes(Enter(p, started, transport), p.nextWorker, now);
      }
    }
  }

  lemma EnteredFit(p: Pool, started: int, transport: Option<Transport>, now: int)
    requires Inv(p) && !p.circuitOpen && now - started < p.cfg.maxAge
    ensures var g := Enter(p, started, transport);
            Newcomer(g, p.nextWorker, now) && g.recs[p.nextWorker] == Worker(p.cfg.generation, 0, 0, started, transport, Idle)
  {
    hide Inv, Newcomer;
    InvKnown(p);
    NoNewcomer(p);
    LineBesideIdle(p);
    Entered(p, started, transport, now);
  }

  lemma LineBesideIdle(p: Pool)
    requires Inv(p)
    ensures p.cfg.Valid() && (p.waiters != [] ==> p.idle == [] && p.waiters[0] !in p.waiters[1..])
  {
    hide PlacesOK, HoldOK, ReportsOK, LedgerOK, CountOK, UsesOK, SuperOK, DrainOK, Ascending;
    if p.waiters != [] { Tail(p.waiters); }
  }

  lemma Entered(q: Pool, started: int, transport: Option<Transport>, now: int)
    requires Known(q) && q.nextWorker !in q.recs && !q.circuitOpen && q.cfg.Valid() && now - started < q.cfg.maxAge
    requires q.waiters != [] ==> q.idle == [] && q.waiters[0] !in q.waiters[1..]
    ensures var g := Enter(q, started, transport);
            Newcomer(g, q.nextWorker, now) && g.recs[q.nextWorker] == Worker(q.cfg.generation, 0, 0, started, transport, Idle)
  {
    var g := Enter(q, started, transport);
    assert forall w :: w in g.idle <==> w in q.idle || w == q.nextWorker;
    assert q.nextWorker !in q.idle;
  }

  /** The supervisor of a pool that replenishes is asked to run whenever, in an open pool with the circuit closed, a
      checkout has to wait, a lease on a worker of this generation ends with its death, or the pool is activated. */
  lemma SupervisorIsAsked(cfg: Config, run: seq<Op>, op: Op, w: nat)
    requires cfg.Valid() && cfg.replenishes
    ensures var p, q := Exec(cfg, run), Step(Exec(cfg, run), op);
            !p.closed && !q.circuitOpen &&
            (op.DoActivate? || op.DoSetCircuit?
             || (op.DoCheckout? && p.nextCall in q.waiters)
             || (op.DoEnd? && w in p.leased && w in p.recs && p.recs[w].generation == cfg.generation && w in q.recs && q.recs[w].fate.Dead?
                 && op.call in p.calls && (p.calls[op.call] == Holding(w) || (p.calls[op.call] == Abandoning(w) && op.end == ReturnUnused))))
            ==> q.superStart
  {
    hide Exec, Inv, Step;
    ExecInv(cfg, run);
    var p := Exec(cfg, run);
    match op
    case DoCheckout(now, cancelled) => WaitAsks(p, now, cancelled);
    case DoEnd(call, end, now) =>
      if call in p.calls && w in p.leased && w in p.recs && (p.calls[call] == Holding(w) || (p.calls[call] == Abandoning(w) && end == ReturnUnused)) {
        DeathAsks(cfg, run, call, w, end, now);
      }
    case _ => SimplyAsked(p, op);
  }

  lemma SimplyAsked(p: Pool, op: Op)
    requires p.cfg.replenishes
    ensures !p.closed && !Step(p, op).circuitOpen && (op.DoActivate? || op.DoSetCircuit?) ==> Step(p, op).superStart
  {
    hide KillAll, FailWaiters;
    if op.DoSetCircuit? && op.open { KillAllAside(p.(circuitOpen := true, waiters := [], calls := FailWaiters(p.calls, p.waiters)), p.idle, Always(CircuitOpened)); }
  }

  lemma WaitAsks(p: Pool, now: int, cancelled: bool)
    requires Inv(p) && p.cfg.replenishes
    ensures var q := Step(p, DoCheckout(now, cancelled)); !q.circuitOpen && p.nextCall in q.waiters ==> q.superStart
  {
    hide Inv, Prune, Without;
    InvKnown(p);
    FreshCall(p);
    PruneExactly(p, now, 0);
    WithoutMembers(p.waiters, p.nextCall);
  }

  lemma DeathAsks(cfg: Config, run: seq<Op>, call: nat, w: nat, end: Ending, now: int)
    requires cfg.Valid() && cfg.replenishes
    requires var p := Exec(cfg, run);
             call in p.calls && w in p.leased && w in p.recs && (p.calls[call] == Holding(w) || (p.calls[call] == Abandoning(w) && end == ReturnUnused))
    ensures var p, q := Exec(cfg, run), Step(Exec(cfg, run), DoEnd(call, end, now));
            !p.closed && !q.circuitOpen && p.recs[w].generation == cfg.generation && w in q.recs && q.recs[w].fate.Dead? ==> q.superStart
  {
    hide Exec, Inv, Wake, Fit, GiveBack, Retire, End;
    ExecInv(cfg, run);
    var p := Exec(cfg, run);
    var rec, m := Ended(p.recs[w], end), p.(calls := p.calls[call := Over]);
    LeaseEnds(cfg, run, call, w, end, now);
    EndIs(p, call, w, end, now);
    if !(!p.closed && !p.circuitOpen && end != Poison && Fit(cfg, rec, now)) {
      RetireFlags(Replenished(m.(recs := m.recs[w := rec]), rec), w, Cause(p, rec, end));
    }
  }

  lemma RetireFlags(p: Pool, w: nat, reason: Reason)
    ensures var q := Retire(p, w, reason); q.superStart == p.superStart && q.circuitOpen == p.circuitOpen
  {
    hide Register, Without, ActiveWithout, Finalize;
  }

  /*** Checking out ***/

  /** In every reachable pool, a checkout is told at once: the first fit idle worker is its, unless it was cancelled;
      with none, it fails when the pool is closed or its circuit open, and otherwise waits at the end of the line. */
  lemma CheckoutServes(cfg: Config, run: seq<Op>, now: int, cancelled: bool)
    requires cfg.Valid()
    ensures var p, r := Exec(cfg, run), Step(Exec(cfg, run), DoCheckout(now, cancelled));
            var t, fit := p.nextCall, FitOnes(p, p.idle, now);
            && t !in p.calls
            && r.calls == p.calls[t := if fit != [] then (if cancelled then Over else Assigned(fit[0]))
                                       else if p.closed || p.circuitOpen then Failed else Waiting]
            && r.waiters == (if fit == [] && !p.closed && !p.circuitOpen then p.waiters + [t] else p.waiters)
            && (fit != [] && !cancelled ==> fit[0] in r.leased && fit[0] !in r.idle)
  {
    hide Exec, Inv, Fit, Prune, FitOnes, Without;
    ExecInv(cfg, run);
    var p := Exec(cfg, run);
    var t, fit := p.nextCall, FitOnes(p, p.idle, now);
    InvKnown(p);
    PruneExactly(p, now, 0);
    FreshCall(p);
    PruneKeeps(p, now);
    InvKnown(Prune(p, now));
    WithoutMembers(p.waiters, t);
    if fit != [] {
      assert fit[0] in Prune(p, now).idle;
      WithoutMembers(Prune(p, now).idle, fit[0]);
    }
  }

  lemma FreshCall(p: Pool)
    requires Inv(p)
    ensures p.nextCall !in p.calls && p.nextCall !in p.waiters
  {
    hide PlacesOK, CountOK, UsesOK, HoldOK, ReportsOK, LedgerOK, Exclusive, SuperOK, DrainOK, Ascending;
  }

  /** What a caller does with its checkout in every reachable pool: it takes the worker it was assigned, and one that
      gives up leaves the line to the others in their order, or owes back a worker it was already assigned. */
  lemma CallersMove(cfg: Config, run: seq<Op>, t: nat, u: nat)
    requires cfg.Valid() && t in Exec(cfg, run).calls
    ensures var p, a, c := Exec(cfg, run), Step(Exec(cfg, run), DoAccept(t)), Step(Exec(cfg, run), DoCancel(t));
            && a.waiters == p.waiters && a.leased == c.leased == p.leased && a.recs == c.recs == p.recs
            && a.calls == p.calls[t := match p.calls[t] case Assigned(w) => Holding(w) case Failed => Over case other => other]
            && c.calls == p.calls[t := match p.calls[t] case Waiting => Over case Assigned(w) => Abandoning(w) case Failed => Over case other => other]
            && (u in c.waiters <==> u in p.waiters && u != t) && Ascending(c.waiters)
  {
    hide Exec, Inv, Without, Ascending;
    ExecInv(cfg, run);
    var p := Exec(cfg, run);
    WithoutMembers(p.waiters, t);
    WithoutOrder(p.waiters, t);
    InLineIs(p);
    assert p.calls[t := p.calls[t]] == p.calls;
  }

  lemma InLineIs(p: Pool)
    requires Inv(p)
    ensures Ascending(p.waiters) && forall t :: t in p.waiters <==> t in p.calls && p.calls[t] == Waiting
  {
    hide PlacesOK, CountOK, UsesOK, HoldOK, ReportsOK, LedgerOK, Exclusive, SuperOK, DrainOK, Ascending;
  }

  /*** Shutting the door ***/

  /** A transport turned away, by a publish or by the supervisor, is in the ledger until it is joined, unless the drain
      is already final. */
  lemma TurnedAwayIsEntered(p: Pool, generation: nat, ready: bool, t: Transport, now: int)
    requires Known(p)
    ensures var q := Publish(p, generation, ready, Some(t), now);
            q.nextWorker == p.nextWorker && !q.drain.finalized ==> Pending(q.drain.ordered, t)
    ensures p.superStart && !p.superExited && !p.drain.finalized ==> Pending(SuperReject(p, Some(t)).drain.ordered, t)
  {
    hide Prune, Wake, Distinct;
    PruneExactly(p, now, 0);
    RegisterPending(Prune(p, now).drain, t);
    RegisterPending(p.drain, t);
    WakeCounts(Enter(Prune(p, now), now, Some(t)), now);
  }

  lemma RegisterPending(d: Drain, t: Transport)
    ensures !d.finalized ==> Pending(Register(d, Some(t)).ordered, t)
    ensures Register(d, Some(t)).finalized == d.finalized
  {
    var e := Register(d, Some(t));
    if !d.finalized && !Pending(d.ordered, t) { assert e.ordered[|d.ordered|].transport == t; }
  }

  lemma WakeCounts(g: Pool, now: int)
    ensures Wake(g, now).nextWorker == g.nextWorker
  {
    hide KillAll, StaleOf, AnyTransport, Without;
    KillAllAside(g, StaleOf(g, g.idle, now), Why(g));
    KillAllAside(Prune(g, now), Prune(g, now).idle, Always(CircuitOpened));
  }

  /** The supervisor of a closed pool can always go, and the drain then no longer waits for it. */
  lemma SupervisorGoes(p: Pool)
    requires p.closed && p.superStart
    ensures var q := SuperJoined(SuperExit(p)); q.superExited && !q.drain.supervisorPending && q.drain.ordered == p.drain.ordered && q.recs == p.recs
  {
    hide Finished, Summarise;
  }

  /** Everyone in line is told it failed, and nobody else. */
  ghost predicate LineFails(p: Pool, q: Pool) {
    q.waiters == [] && q.calls.Keys == p.calls.Keys && forall t :: t in p.calls ==> q.calls[t] == if t in p.waiters then Failed else p.calls[t]
  }

  /** Exactly the given workers died, for this reason. */
  ghost predicate TheseDied(p: Pool, q: Pool, ws: set<nat>, reason: Reason) {
    q.recs.Keys == p.recs.Keys && forall w :: w in p.recs ==> q.recs[w] == if w in ws then p.recs[w].(fate := Dead(reason)) else p.recs[w]
  }

  lemma KilledAll(p: Pool, m: Pool, ws: seq<nat>, reason: Reason)
    requires m.recs == p.recs
    ensures TheseDied(p, KillAll(m, ws, Always(reason)), (set w | w in ws), reason)
  {
    hide KillAll;
    forall w: nat
      ensures var q := KillAll(m, ws, Always(reason));
              && (w in q.recs <==> w in p.recs)
              && (w in p.recs ==> q.recs[w] == if w in ws then p.recs[w].(fate := Dead(reason)) else p.recs[w])
    {
      KillAllEffect(m, ws, Always(reason), w);
    }
  }

  /** Opening the circuit fails everyone in line and kills every idle worker; leases run on. */
  lemma CircuitOpens(p: Pool)
    ensures var q := SetCircuit(p, true);
            q.circuitOpen && LineFails(p, q) && TheseDied(p, q, (set w | w in p.idle), CircuitOpened)
  {
    hide KillAll, TheseDied;
    var m := p.(circuitOpen := true, waiters := [], calls := FailWaiters(p.calls, p.waiters));
    KillAllAside(m, p.idle, Always(CircuitOpened));
    KilledAll(p, m, p.idle, CircuitOpened);
  }

  /** A drain begun on a reachable pool closes it, fails everyone in line and kills every idle worker, and, when it is
      forced, every leased one; a graceful one leaves the leases to end. A drain of another generation does nothing. */
  lemma DrainBegins(cfg: Config, run: seq<Op>, force: bool, generation: nat, order: seq<nat>)
    requires cfg.Valid() && !Exec(cfg, run).drain.started
    ensures var p, q := Exec(cfg, run), Step(Exec(cfg, run), DoBeginDrain(force, generation, order));
            if generation != cfg.generation then q == p
            else
              && q.closed && q.drain.started && q.drain.force == force && LineFails(p, q)
              && TheseDied(p, q, (set w | w in p.idle) + (if force then p.leased else {}), Shutdown)
  {
    hide Exec, Inv, BeginDrain;
    ExecInv(cfg, run);
    var p := Exec(cfg, run);
    if generation != cfg.generation {
      Stranger(p, force, generation, order);
    } else {
      DrainAside(p, force, order);
      forall w: nat
        ensures var q := BeginDrain(p, force, generation, order);
                && (w in q.recs <==> w in p.recs)
                && (w in p.recs ==> q.recs[w] == if w in p.idle || (force && w in p.leased) then p.recs[w].(fate := Dead(Shutdown)) else p.recs[w])
      {
        DrainWorker(p, force, order, w);
      }
    }
  }

  lemma Stranger(p: Pool, force: bool, generation: nat, order: seq<nat>)
    requires generation != p.cfg.generation
    ensures BeginDrain(p, force, generation, order) == p
  {}

  lemma DrainAside(p: Pool, force: bool, order: seq<nat>)
    requires !p.drain.started
    ensures var q := BeginDrain(p, force, p.cfg.generation, order);
            q.closed && q.drain.started && q.drain.force == force && LineFails(p, q)
  {
    hide KillAll, ListOf, Finished, Summarise;
    var m := StartDrain(p, force);
    KillAllAside(m, p.idle, Always(Shutdown));
    var u := Upgraded(Begun(p, force), force);
    KillAllAside(u, ListOf(u.leased, order), Always(Shutdown));
  }

  lemma DrainWorker(p: Pool, force: bool, order: seq<nat>, w: nat)
    requires Inv(p) && !p.drain.started
    ensures var q := BeginDrain(p, force, p.cfg.generation, order);
            && (w in q.recs <==> w in p.recs)
            && (w in p.recs ==> q.recs[w] == if w in p.idle || (force && w in p.leased) then p.recs[w].(fate := Dead(Shutdown)) else p.recs[w])
  {
    hide Inv, Begun, SettleLeases;
    var b := Begun(p, force);
    assert w in p.idle ==> w !in p.leased by { OnePlace(p); }
    assert w in p.leased ==> w in p.recs by { OnePlace(p); }
    BegunWorker(p, force, w);
    SettleWorker(Upgraded(b, force), order, w);
  }

  lemma BegunWorker(p: Pool, force: bool, w: nat)
    requires !p.drain.started
    ensures var b := Begun(p, force);
            && (w in b.recs <==> w in p.recs) && b.drain.force == force
            && (w in p.recs ==> b.recs[w] == if w in p.idle then p.recs[w].(fate := Dead(Shutdown)) else p.recs[w])
            && (w in b.leased <==> w in p.leased && !(w in p.idle && w in p.recs))
  {
    hide KillAll, FailWaiters;
    KillAllEffect(StartDrain(p, force), p.idle, Always(Shutdown), w);
    KillAllAside(StartDrain(p, force), p.idle, Always(Shutdown));
  }

  lemma SettleWorker(u: Pool, order: seq<nat>, w: nat)
    ensures var q := SettleLeases(u, order);
            && (w in q.recs <==> w in u.recs)
            && (w in u.recs ==> q.recs[w] == if u.drain.force && w in u.leased then u.recs[w].(fate := Dead(Shutdown)) else u.recs[w])
  {
    hide KillAll, ListOf, Finalize;
    KillAllEffect(u, ListOf(u.leased, order), Always(Shutdown), w);
  }

  lemma OnePlace(p: Pool)
    requires Inv(p)
    ensures (forall w :: w in p.idle ==> w !in p.leased) && (forall w :: w in p.leased ==> w in p.recs)
  {
    hide CountOK, UsesOK, LineOK, HoldOK, ReportsOK, LedgerOK, Exclusive, SuperOK, DrainOK, Distinct;
  }
}
