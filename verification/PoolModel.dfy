/** The worker pool of one plugin generation (internal/plugin/system_pool.go) as a
    state machine: every critical section under the pool's mutex is one step, and a
    run is any interleaving of them. */
module PoolModel {
  import opened Options

  datatype Reason = Shutdown | CircuitOpened | Rejected | MaxUses | MaxAge | Poisoned

  datatype Fate = Idle | Leased | Dead(reason: Reason)

  /** The process behind a worker; pgid 0 means it has no process group. */
  datatype Transport = Transport(id: nat, pgid: nat)

  /** A worker that entered the idle list. `served` counts the leases that ran something on it. */
  datatype Worker = Worker(generation: nat, uses: nat, served: nat, started: int, transport: Option<Transport>, fate: Fate)

  /** A checkout, from the caller's side: waiting in line, assigned a worker it has not
      returned yet, told it failed, holding the lease, giving an unwanted lease back, or over. */
  datatype Call = Waiting | Assigned(worker: nat) | Failed | Holding(worker: nat) | Abandoning(worker: nat) | Over

  /** A transport the drain must see joined. */
  datatype Entry = Entry(transport: Transport, terminal: bool, err: Option<nat>, residual: bool)

  datatype Summary = Summary(errs: seq<nat>, residual: set<nat>)

  datatype Drain = Drain(
    started: bool,
    force: bool,
    supervisorPending: bool,
    leasedPending: nat,
    ordered: seq<Entry>,
    finalized: bool,
    result: Summary)

  datatype Config = Config(generation: nat, size: nat, maxOverflow: nat, maxUses: nat, maxAge: nat, replenishes: bool) {
    predicate Valid() { maxUses > 0 && maxAge > 0 && generation > 0 }
    function Capacity(): nat { size + maxOverflow }
  }

  datatype Pool = Pool(
    cfg: Config,
    recs: map<nat, Worker>,
    idle: seq<nat>,
    waiters: seq<nat>,
    leased: set<nat>,
    active: nat,
    closed: bool,
    circuitOpen: bool,
    superStart: bool,
    superExited: bool,
    drain: Drain,
    calls: map<nat, Call>,
    nextWorker: nat,
    nextCall: nat,
    reports: multiset<nat>)

  const NO_SUMMARY: Summary := Summary([], {})

  function New(cfg: Config): Pool {
    Pool(cfg, map[], [], [], {}, 0, false, false, false, false,
         Drain(false, false, false, 0, [], false, NO_SUMMARY), map[], 0, 0, multiset{})
  }

  /*** The drain's ledger ***/

  predicate Registered(ordered: seq<Entry>, t: Transport) {
    exists i :: 0 <= i < |ordered| && ordered[i].transport == t
  }

  /** An entry of the transport that is not joined yet. */
  predicate Pending(ordered: seq<Entry>, t: Transport) {
    exists i :: 0 <= i < |ordered| && ordered[i].transport == t && !ordered[i].terminal
  }

  /** A transport is entered once until it is joined, and never after the drain is final. */
  function Register(d: Drain, t: Option<Transport>): Drain {
    if t.None? || d.finalized || Pending(d.ordered, t.value) then d
    else d.(ordered := d.ordered + [Entry(t.value, false, None, false)])
  }

  function Errors(ordered: seq<Entry>): seq<nat> {
    if ordered == [] then []
    else
      var e := ordered[|ordered| - 1];
      Errors(ordered[..|ordered| - 1]) + (if e.err.Some? then [e.err.value] else [])
  }

  function Residuals(ordered: seq<Entry>): set<nat> {
    set i | 0 <= i < |ordered| && ordered[i].residual && ordered[i].transport.pgid != 0 :: ordered[i].transport.pgid
  }

  function Summarise(ordered: seq<Entry>): Summary { Summary(Errors(ordered), Residuals(ordered)) }

  predicate AllTerminal(ordered: seq<Entry>) { forall i :: 0 <= i < |ordered| ==> ordered[i].terminal }

  predicate Finished(d: Drain) { d.started && !d.supervisorPending && d.leasedPending == 0 && AllTerminal(d.ordered) }

  function Finalize(d: Drain): Drain {
    if Finished(d) && !d.finalized then d.(finalized := true, result := Summarise(d.ordered)) else d
  }

  /*** Small moves ***/

  function Without(s: seq<nat>, x: nat): seq<nat> {
    if s == [] then [] else if s[0] == x then Without(s[1..], x) else [s[0]] + Without(s[1..], x)
  }

  /** The count of leases once w's is over, if it had one. */
  function ActiveWithout(p: Pool, w: nat): nat { if w in p.leased && p.active > 0 then p.active - 1 else p.active }

  /** A worker leaves the pool for good: its transport is entered in the ledger and its retirement reported. */
  function Kill(p: Pool, w: nat, reason: Reason): Pool {
    if w !in p.recs then p
    else p.(recs := p.recs[w := p.recs[w].(fate := Dead(reason))], idle := Without(p.idle, w),
            leased := p.leased - {w}, active := ActiveWithout(p, w),
            drain := Register(p.drain, p.recs[w].transport), reports := p.reports + multiset{w})
  }

  function KillAll(p: Pool, ws: seq<nat>, reason: nat -> Reason): Pool
    decreases |ws|
  {
    if ws == [] then p else KillAll(Kill(p, ws[0], reason(ws[0])), ws[1..], reason)
  }

  function Always(reason: Reason): nat -> Reason { w => reason }

  function RequestReplenish(p: Pool): Pool {
    if p.closed || p.circuitOpen || !p.cfg.replenishes then p else p.(superStart := true)
  }

  predicate Stale(cfg: Config, w: Worker, now: int) {
    w.fate != Idle || w.generation != cfg.generation || w.uses >= cfg.maxUses || now - w.started >= cfg.maxAge
  }

  function StaleReason(cfg: Config, w: Worker): Reason {
    if w.fate != Idle || w.generation != cfg.generation then Rejected else if w.uses >= cfg.maxUses then MaxUses else MaxAge
  }

  function StaleOf(p: Pool, ws: seq<nat>, now: int): (r: seq<nat>)
    ensures forall w :: w in r <==> w in ws && w in p.recs && Stale(p.cfg, p.recs[w], now)
  {
    if ws == [] then []
    else (if ws[0] in p.recs && Stale(p.cfg, p.recs[ws[0]], now) then [ws[0]] else []) + StaleOf(p, ws[1..], now)
  }

  /** Why each stale worker goes. */
  function Why(p: Pool): nat -> Reason { w => if w in p.recs then StaleReason(p.cfg, p.recs[w]) else Rejected }

  predicate AnyTransport(p: Pool, ws: seq<nat>) { exists w :: w in ws && w in p.recs && p.recs[w].transport.Some? }

  function Prune(p: Pool, now: int): Pool {
    var stale := StaleOf(p, p.idle, now);
    var p' := KillAll(p, stale, Why(p));
    if AnyTransport(p, stale) then RequestReplenish(p') else p'
  }

  /** Hands idle worker w to a checkout. */
  function Lease(p: Pool, w: nat, call: nat): Pool {
    if w !in p.recs then p
    else p.(recs := p.recs[w := p.recs[w].(fate := Leased)], idle := Without(p.idle, w), leased := p.leased + {w}, active := p.active + 1,
            waiters := Without(p.waiters, call), calls := p.calls[call := Assigned(w)])
  }

  function Wake(p: Pool, now: int): Pool {
    var q := Prune(p, now);
    if q.circuitOpen then KillAll(q, q.idle, Always(CircuitOpened))
    else if q.waiters == [] || q.idle == [] then q
    else Lease(q, q.idle[0], q.waiters[0])
  }

  /** A new worker at the end of the idle list. */
  function Enter(p: Pool, started: int, transport: Option<Transport>): Pool {
    p.(recs := p.recs[p.nextWorker := Worker(p.cfg.generation, 0, 0, started, transport, Idle)],
       idle := p.idle + [p.nextWorker], nextWorker := p.nextWorker + 1)
  }

  function FailWaiters(calls: map<nat, Call>, waiters: seq<nat>): map<nat, Call> {
    map c | c in calls :: if c in waiters then Failed else calls[c]
  }

  /*** The critical sections ***/

  predicate HasRoom(p: Pool) { |p.idle| + p.active < p.cfg.Capacity() }

  /** publish and publishTransport: the latter enters a rejected transport in the ledger. */
  function Publish(p: Pool, generation: nat, ready: bool, transport: Option<Transport>, now: int): Pool {
    var q := Prune(p, now);
    if q.closed || generation != q.cfg.generation || !HasRoom(q) then q.(drain := Register(q.drain, transport))
    else if transport.None? && !ready then q
    else Wake(Enter(q, now, transport), now)
  }

  /** A checkout that ends at once. */
  function TurnAway(p: Pool, c: Call): Pool { p.(nextCall := p.nextCall + 1, calls := p.calls[p.nextCall := c]) }

  /** A checkout that waits at the end of the line. */
  function InLine(p: Pool): Pool {
    p.(nextCall := p.nextCall + 1, waiters := p.waiters + [p.nextCall], calls := p.calls[p.nextCall := Waiting])
  }

  /** A checkout that finds an idle worker. */
  function LeaseNow(p: Pool): Pool
    requires p.idle != []
  {
    Lease(p.(nextCall := p.nextCall + 1), p.idle[0], p.nextCall)
  }

  /** The first section of checkout; `cancelled` is what its context says. */
  function Checkout(p: Pool, now: int, cancelled: bool): Pool {
    var q := Prune(p, now);
    if q.idle != [] then (if cancelled then TurnAway(q, Over) else LeaseNow(q))
    else if q.closed || q.circuitOpen then TurnAway(q, Failed)
    else RequestReplenish(InLine(q))
  }

  /** The caller takes what it was given. */
  function Accept(p: Pool, call: nat): Pool {
    if call !in p.calls then p
    else match p.calls[call]
      case Assigned(w) => p.(calls := p.calls[call := Holding(w)])
      case Failed => p.(calls := p.calls[call := Over])
      case _ => p
  }

  /** The caller's context ends first: it leaves the line, or must give back what it was assigned. */
  function Cancel(p: Pool, call: nat): Pool {
    if call !in p.calls then p
    else match p.calls[call]
      case Waiting => p.(waiters := Without(p.waiters, call), calls := p.calls[call := Over])
      case Assigned(w) => p.(calls := p.calls[call := Abandoning(w)])
      case Failed => p.(calls := p.calls[call := Over])
      case _ => p
  }

  function EndOf(closed: bool, circuitOpen: bool, cfg: Config, w: Worker): Reason {
    if closed then Shutdown else if circuitOpen then CircuitOpened else if w.generation != cfg.generation then Rejected
    else if w.uses >= cfg.maxUses then MaxUses else MaxAge
  }

  function EndReason(p: Pool, w: Worker): Reason { EndOf(p.closed, p.circuitOpen, p.cfg, w) }

  function PendingLeases(d: Drain, leased: set<nat>): Drain {
    if d.started && !d.force then d.(leasedPending := |leased|) else d
  }

  function Replenished(p: Pool, w: Worker): Pool {
    if !p.closed && w.generation == p.cfg.generation then RequestReplenish(p) else p
  }

  /** A worker whose lease is over retires, and a drain waiting for leases is told. */
  function Retire(p: Pool, w: nat, reason: Reason): Pool {
    var k := Kill(p, w, reason);
    k.(drain := Finalize(PendingLeases(k.drain, k.leased)))
  }

  /** A worker whose lease is over joins the end of the idle list. */
  function GiveBack(p: Pool, w: nat, rec: Worker): Pool {
    p.(recs := p.recs[w := rec.(fate := Idle)], idle := p.idle + [w], leased := p.leased - {w}, active := ActiveWithout(p, w))
  }

  function Used(w: Worker): Worker { w.(uses := w.uses + 1, served := w.served + 1) }

  /** finishLease: the worker goes back to the idle list, or retires. */
  function FinishLease(p: Pool, w: nat, used: bool, now: int): Pool {
    if w !in p.leased || w !in p.recs then p
    else
      var rec := if used then Used(p.recs[w]) else p.recs[w];
      if p.closed || p.circuitOpen || rec.generation != p.cfg.generation || rec.uses >= p.cfg.maxUses || now - rec.started >= p.cfg.maxAge
      then Retire(Replenished(p.(recs := p.recs[w := rec]), rec), w, EndReason(p, rec))
      else Wake(GiveBack(p, w, rec), now)
  }

  function PoisonWorker(p: Pool, w: nat): Pool {
    if w !in p.leased || w !in p.recs then p
    else
      var rec := p.recs[w].(served := p.recs[w].served + 1);
      Retire(Replenished(p.(recs := p.recs[w := rec]), rec), w, Poisoned)
  }

  predicate Holds(c: Call, w: nat) {
    match c
    case Assigned(x) => x == w
    case Holding(x) => x == w
    case Abandoning(x) => x == w
    case _ => false
  }

  /** A caller that holds a worker ends its lease; one that abandons it gives it back unused. */
  function End(p: Pool, call: nat, end: Ending, now: int): Pool {
    if call !in p.calls then p
    else match p.calls[call]
      case Holding(w) =>
        var q := p.(calls := p.calls[call := Over]);
        (match end
         case Release => FinishLease(q, w, true, now)
         case ReturnUnused => FinishLease(q, w, false, now)
         case Poison => PoisonWorker(q, w))
      case Abandoning(w) => FinishLease(p.(calls := p.calls[call := Over]), w, false, now)
      case _ => p
  }

  datatype Ending = Release | ReturnUnused | Poison

  function SetCircuit(p: Pool, open: bool): Pool {
    var q := p.(circuitOpen := open);
    if !open then RequestReplenish(q)
    else KillAll(q.(waiters := [], calls := FailWaiters(q.calls, q.waiters)), q.idle, Always(CircuitOpened))
  }

  /** The supervisor's start candidate joins the idle list. */
  function SuperAppend(p: Pool, started: int, transport: Option<Transport>, now: int): Pool {
    if !p.superStart || p.superExited || p.closed || p.circuitOpen || !HasRoom(p) then p
    else Wake(Enter(p, started, transport), now)
  }

  /** The supervisor's start candidate has no place. */
  function SuperReject(p: Pool, transport: Option<Transport>): Pool {
    if !p.superStart || p.superExited then p else p.(drain := Register(p.drain, transport))
  }

  function SuperPrune(p: Pool, now: int): Pool {
    if !p.superStart || p.superExited then p else Prune(p, now)
  }

  /** The supervisor returns once its context is cancelled, which only a drain does. */
  function SuperExit(p: Pool): Pool {
    if p.superStart && p.closed then p.(superExited := true) else p
  }

  /** The drain's goroutine has seen the supervisor gone. */
  function SuperJoined(p: Pool): Pool {
    if p.superExited && p.drain.supervisorPending then p.(drain := Finalize(p.drain.(supervisorPending := false))) else p
  }

  predicate Distinct(s: seq<nat>) { forall i, j :: 0 <= i < j < |s| ==> s[i] != s[j] }

  /** order lists the set, each member once: the order a loop over the set happens to take. */
  ghost predicate Lists(order: seq<nat>, s: set<nat>) { Distinct(order) && forall w :: w in order <==> w in s }

  lemma {:induction false} ListExists(s: set<nat>)
    ensures exists order :: Lists(order, s)
  {
    if s == {} {
      assert Lists([], s);
    } else {
      var w :| w in s;
      ListExists(s - {w});
      var rest :| Lists(rest, s - {w});
      assert Lists([w] + rest, s);
    }
  }

  ghost function ListOf(s: set<nat>, order: seq<nat>): (r: seq<nat>)
    ensures Lists(r, s) && (Lists(order, s) ==> r == order)
  {
    ListExists(s);
    if Lists(order, s) then order else var r :| Lists(r, s); r
  }

  function StartDrain(p: Pool, force: bool): Pool {
    p.(closed := true, waiters := [], calls := FailWaiters(p.calls, p.waiters),
       drain := p.drain.(started := true, force := force, supervisorPending := p.superStart))
  }

  /** The first call closes the pool and drops what is idle or waiting. */
  function Begun(p: Pool, force: bool): Pool {
    if p.drain.started then p else KillAll(StartDrain(p, force), p.idle, Always(Shutdown))
  }

  /** A graceful drain may be upgraded. */
  function Upgraded(p: Pool, force: bool): Pool { if force then p.(drain := p.drain.(force := true)) else p }

  /** Leases are revoked when the drain is forced, in the order the loop takes, else counted. */
  ghost function SettleLeases(r: Pool, order: seq<nat>): Pool {
    var t := if r.drain.force then
               (var k := KillAll(r, ListOf(r.leased, order), Always(Shutdown)); k.(drain := k.drain.(leasedPending := 0)))
             else r.(drain := r.drain.(leasedPending := |r.leased|));
    t.(drain := Finalize(t.drain))
  }

  /** beginDrain */
  ghost function BeginDrain(p: Pool, force: bool, generation: nat, order: seq<nat>): Pool {
    if generation != p.cfg.generation then p else SettleLeases(Upgraded(Begun(p, force), force), order)
  }

  /** A registered transport's teardown has been waited for. */
  function Joined(p: Pool, i: nat, err: Option<nat>, residual: bool): Pool {
    if i < |p.drain.ordered| && !p.drain.ordered[i].terminal then
      var e := p.drain.ordered[i].(terminal := true, err := err, residual := residual);
      p.(drain := Finalize(p.drain.(ordered := p.drain.ordered[i := e])))
    else p
  }

  datatype Op =
    | DoPublish(generation: nat, ready: bool, transport: Option<Transport>, now: int)
    | DoCheckout(now: int, cancelled: bool)
    | DoAccept(call: nat)
    | DoCancel(call: nat)
    | DoEnd(call: nat, end: Ending, now: int)
    | DoActivate
    | DoSetCircuit(open: bool)
    | DoSuperPrune(now: int)
    | DoSuperReject(transport: Option<Transport>)
    | DoSuperAppend(started: int, transport: Option<Transport>, now: int)
    | DoSuperExit
    | DoSuperJoined
    | DoBeginDrain(force: bool, generation: nat, order: seq<nat>)
    | DoJoined(entry: nat, err: Option<nat>, residual: bool)

  ghost function Step(p: Pool, op: Op): Pool {
    match op
    case DoPublish(generation, ready, transport, now) => Publish(p, generation, ready, transport, now)
    case DoCheckout(now, cancelled) => Checkout(p, now, cancelled)
    case DoAccept(call) => Accept(p, call)
    case DoCancel(call) => Cancel(p, call)
    case DoEnd(call, end, now) => End(p, call, end, now)
    case DoActivate => RequestReplenish(p)
    case DoSetCircuit(open) => SetCircuit(p, open)
    case DoSuperPrune(now) => SuperPrune(p, now)
    case DoSuperReject(transport) => SuperReject(p, transport)
    case DoSuperAppend(started, transport, now) => SuperAppend(p, started, transport, now)
    case DoSuperExit => SuperExit(p)
    case DoSuperJoined => SuperJoined(p)
    case DoBeginDrain(force, generation, order) => BeginDrain(p, force, generation, order)
    case DoJoined(entry, err, residual) => Joined(p, entry, err, residual)
  }

  ghost function Exec(cfg: Config, run: seq<Op>): Pool {
    if run == [] then New(cfg) else Step(Exec(cfg, run[..|run| - 1]), run[|run| - 1])
  }
}
