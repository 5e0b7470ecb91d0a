/** What every critical section of the worker pool keeps. */
module PoolInvariant {
  import opened Options
  import opened PoolModel

  predicate Ascending(s: seq<nat>) { forall i, j :: 0 <= i < j < |s| ==> s[i] < s[j] }

  /** Each worker is idle, leased or dead, and the lists say the same. */
  ghost predicate PlacesOK(p: Pool) {
    && Distinct(p.idle)
    && (forall w :: w in p.idle <==> w in p.recs && p.recs[w].fate == Idle)
    && (forall w :: w in p.leased <==> w in p.recs && p.recs[w].fate == Leased)
    && (forall w :: w in p.recs ==> w < p.nextWorker)
  }

  /** The same of one worker. */
  ghost predicate PlaceOK(p: Pool, w: nat) {
    && (w in p.idle <==> w in p.recs && p.recs[w].fate == Idle)
    && (w in p.leased <==> w in p.recs && p.recs[w].fate == Leased)
    && (w in p.recs ==> w < p.nextWorker)
  }

  lemma PlacesAre(p: Pool)
    requires Distinct(p.idle) && forall w: nat :: PlaceOK(p, w)
    ensures PlacesOK(p)
  {
    hide Distinct;
    forall w: nat ensures w in p.idle <==> w in p.recs && p.recs[w].fate == Idle { assert PlaceOK(p, w); }
    forall w: nat ensures w in p.leased <==> w in p.recs && p.recs[w].fate == Leased { assert PlaceOK(p, w); }
    forall w: nat | w in p.recs ensures w < p.nextWorker { assert PlaceOK(p, w); }
  }

  ghost predicate CountOK(p: Pool) { p.active == |p.leased| && |p.idle| + p.active <= p.cfg.Capacity() }

  ghost predicate UsesOK(p: Pool) {
    forall w :: w in p.recs ==>
      && (!p.recs[w].fate.Dead? ==> p.recs[w].uses == p.recs[w].served < p.cfg.maxUses)
      && p.recs[w].served <= p.cfg.maxUses
  }

  /** The line is in order of arrival, and holds exactly the checkouts that wait. */
  ghost predicate LineOK(p: Pool) {
    && Ascending(p.waiters)
    && (forall t :: t in p.waiters <==> t in p.calls && p.calls[t] == Waiting)
    && (forall t :: t in p.calls ==> t < p.nextCall)
  }

  ghost predicate OneHolder(calls: map<nat, Call>) {
    forall t, u, w: nat :: t in calls && u in calls && Holds(calls[t], w) && Holds(calls[u], w) ==> t == u
  }

  ghost predicate Held(calls: map<nat, Call>, w: nat) { exists t :: t in calls && Holds(calls[t], w) }

  /** A held worker is leased or dead, by one call only; every lease has its holder. */
  ghost predicate HoldOK(p: Pool) {
    && OneHolder(p.calls)
    && (forall t, w: nat :: t in p.calls && Holds(p.calls[t], w) ==> w in p.recs && p.recs[w].fate != Idle)
    && (forall w :: w in p.leased ==> Held(p.calls, w))
  }

  ghost predicate ReportsOK(p: Pool) {
    forall w: nat :: p.reports[w] == (if w in p.recs && p.recs[w].fate.Dead? then 1 else 0)
  }

  /** A dead worker's transport is in the drain's ledger. */
  ghost predicate LedgerOK(p: Pool) {
    forall w :: w in p.recs && p.recs[w].fate.Dead? && p.recs[w].transport.Some? ==> Registered(p.drain.ordered, p.recs[w].transport.value)
  }

  ghost predicate Core(p: Pool) {
    p.cfg.Valid() && PlacesOK(p) && CountOK(p) && UsesOK(p) && LineOK(p) && HoldOK(p) && ReportsOK(p) && LedgerOK(p)
  }

  /** Idle workers and waiters never coexist; a closed or open-circuit pool has neither. */
  ghost predicate Exclusive(p: Pool) {
    && (p.idle == [] || p.waiters == [])
    && (p.closed || p.circuitOpen ==> p.idle == [] && p.waiters == [])
  }

  ghost predicate SuperOK(p: Pool) {
    && (p.superExited ==> p.superStart && p.closed)
    && (p.drain.supervisorPending ==> p.superStart && p.drain.started)
    && (p.drain.started && p.superStart && !p.drain.supervisorPending ==> p.superExited)
  }

  ghost predicate DrainOK(p: Pool) {
    var d := p.drain;
    && d.started == p.closed
    && (d.started && !d.force ==> d.leasedPending == |p.leased|)
    && (d.started && d.force ==> p.leased == {} && d.leasedPending == 0)
    && (d.finalized <==> Finished(d))
    && (d.finalized ==> d.result == Summarise(d.ordered))
  }

  ghost predicate Inv(p: Pool) { Core(p) && Exclusive(p) && SuperOK(p) && DrainOK(p) }

  lemma NewInv(cfg: Config)
    requires cfg.Valid()
    ensures Inv(New(cfg))
  {}

  /*** Lists ***/

  lemma {:induction false} WithoutMembers(s: seq<nat>, x: nat)
    ensures forall y :: y in Without(s, x) <==> y in s && y != x
    ensures |Without(s, x)| <= |s| && (x in s ==> |Without(s, x)| < |s|)
    ensures x !in s ==> Without(s, x) == s
  {
    if s != [] {
      WithoutMembers(s[1..], x);
      assert forall y :: y in s <==> y == s[0] || y in s[1..];
      assert s == [s[0]] + s[1..];
    }
  }

  lemma Cons(h: nat, rest: seq<nat>)
    ensures Ascending(rest) && (forall y :: y in rest ==> h < y) ==> Ascending([h] + rest)
    ensures Distinct(rest) && h !in rest ==> Distinct([h] + rest)
  {
    var s := [h] + rest;
    assert forall j :: 0 < j < |s| ==> s[j] == rest[j - 1];
    assert forall j :: 0 < j < |s| ==> s[j] in rest;
  }

  lemma Tail(s: seq<nat>)
    requires s != []
    ensures Ascending(s) ==> Ascending(s[1..]) && forall y :: y in s[1..] ==> s[0] < y
    ensures Distinct(s) ==> Distinct(s[1..]) && s[0] !in s[1..]
  {}

  lemma {:induction false} WithoutOrder(s: seq<nat>, x: nat)
    ensures Distinct(s) ==> Distinct(Without(s, x))
    ensures Ascending(s) ==> Ascending(Without(s, x))
  {
    hide Distinct, Ascending;
    if s == [] {
      assert Without(s, x) == s;
    } else {
      WithoutOrder(s[1..], x);
      WithoutMembers(s[1..], x);
      Tail(s);
      Cons(s[0], Without(s[1..], x));
    }
  }

  lemma WithoutFacts(s: seq<nat>, x: nat)
    ensures forall y :: y in Without(s, x) <==> y in s && y != x
    ensures |Without(s, x)| <= |s| && (x in s ==> |Without(s, x)| < |s|)
    ensures x !in s ==> Without(s, x) == s
    ensures Distinct(s) ==> Distinct(Without(s, x))
    ensures Ascending(s) ==> Ascending(Without(s, x))
  {
    WithoutMembers(s, x);
    WithoutOrder(s, x);
  }

  lemma WithoutNone(x: nat)
    ensures Without([], x) == []
  {}

  lemma WithoutFirst(s: seq<nat>)
    requires s != [] && Distinct(s)
    ensures Without(s, s[0]) == s[1..]
  {
    WithoutFacts(s[1..], s[0]);
  }

  lemma AscendingDistinct(s: seq<nat>)
    requires Ascending(s)
    ensures Distinct(s)
  {}

  /*** Killing ***/

  /** b is a after entering transports in the ledger: nothing joined, nothing finished. */
  ghost predicate Grown(a: Drain, b: Drain) {
    && b == a.(ordered := b.ordered) && |a.ordered| <= |b.ordered| && b.ordered[..|a.ordered|] == a.ordered
    && (forall i :: |a.ordered| <= i < |b.ordered| ==> !b.ordered[i].terminal)
  }

  ghost predicate DeadStay(p: Pool, q: Pool) {
    forall w :: w in p.recs ==> w in q.recs && (p.recs[w].fate.Dead? ==> q.recs[w] == p.recs[w])
  }

  /** Nothing moved but workers that died and the ledger. */
  ghost predicate OnlyDeaths(p: Pool, q: Pool) {
    && q == p.(recs := q.recs, idle := q.idle, leased := q.leased, active := q.active, drain := q.drain, reports := q.reports)
    && Grown(p.drain, q.drain)
    && q.recs.Keys == p.recs.Keys && q.leased <= p.leased && (forall w :: w in q.idle ==> w in p.idle) && |q.idle| <= |p.idle|
    && (forall w :: (w in q.idle || w in q.leased) && w in p.recs ==> q.recs[w] == p.recs[w])
    && DeadStay(p, q)
  }

  lemma GrownRegister(d: Drain, t: Option<Transport>)
    ensures Grown(d, Register(d, t))
    ensures t.Some? && !d.finalized ==> Registered(Register(d, t).ordered, t.value)
    ensures forall u :: Registered(d.ordered, u) ==> Registered(Register(d, t).ordered, u)
  {
    var e := Register(d, t);
    forall u | Registered(d.ordered, u) ensures Registered(e.ordered, u) {
      var i :| 0 <= i < |d.ordered| && d.ordered[i].transport == u;
      assert e.ordered[i].transport == u;
    }
    if t.Some? && !d.finalized && !Pending(d.ordered, t.value) {
      assert e.ordered[|d.ordered|].transport == t.value;
    }
  }

  lemma GrownTrans(a: Drain, b: Drain, c: Drain)
    requires Grown(a, b) && Grown(b, c)
    ensures Grown(a, c)
  {
    assert c.ordered[..|a.ordered|] == c.ordered[..|b.ordered|][..|a.ordered|];
  }

  /** Entering transports never finishes a drain that was not finished, nor undoes a final one. */
  lemma GrownDrain(a: Drain, b: Drain)
    requires Grown(a, b) && (a.finalized ==> b == a)
    requires (a.finalized <==> Finished(a)) && (a.finalized ==> a.result == Summarise(a.ordered))
    ensures (b.finalized <==> Finished(b)) && (b.finalized ==> b.result == Summarise(b.ordered))
  {
    if !a.finalized && AllTerminal(b.ordered) {
      assert forall i :: 0 <= i < |a.ordered| ==> a.ordered[i] == b.ordered[..|a.ordered|][i] == b.ordered[i];
      assert AllTerminal(a.ordered);
    }
  }

  ghost predicate Mortal(p: Pool, w: nat) { w in p.recs && !p.recs[w].fate.Dead? && !p.drain.finalized }

  lemma WithoutMember(s: seq<nat>, x: nat, y: nat)
    ensures y in Without(s, x) <==> y in s && y != x
  {
    WithoutMembers(s, x);
  }

  /** Where worker v is after w died. */
  lemma KillPlace(p: Pool, w: nat, reason: Reason, v: nat)
    requires PlacesOK(p) && Mortal(p, w)
    ensures PlaceOK(Kill(p, w, reason), v)
  {
    hide Register, Distinct, Without;
    WithoutMember(p.idle, w, v);
  }

  lemma KillPlaces(p: Pool, w: nat, reason: Reason)
    requires PlacesOK(p) && Mortal(p, w)
    ensures PlacesOK(Kill(p, w, reason))
  {
    forall v: nat ensures PlaceOK(Kill(p, w, reason), v) { KillPlace(p, w, reason, v); }
    WithoutFacts(p.idle, w);
    hide Register, Distinct, Without;
    PlacesAre(Kill(p, w, reason));
  }

  lemma KillCount(p: Pool, w: nat, reason: Reason)
    requires CountOK(p) && Mortal(p, w)
    ensures CountOK(Kill(p, w, reason))
  {
    hide Register, Distinct;
    WithoutFacts(p.idle, w);
    assert w in p.leased ==> |p.leased - {w}| == |p.leased| - 1;
    assert w !in p.leased ==> p.leased - {w} == p.leased;
  }

  lemma KillRest(p: Pool, w: nat, reason: Reason)
    requires UsesOK(p) && LineOK(p) && HoldOK(p) && ReportsOK(p) && Mortal(p, w)
    ensures var q := Kill(p, w, reason); UsesOK(q) && LineOK(q) && HoldOK(q) && ReportsOK(q)
  {
    hide Register, Without, Ascending, Holds;
  }

  lemma KillLedger(p: Pool, w: nat, reason: Reason)
    requires LedgerOK(p) && Mortal(p, w)
    ensures LedgerOK(Kill(p, w, reason)) && OnlyDeaths(p, Kill(p, w, reason))
  {
    hide Register, Registered, Without, Distinct, Ascending;
    WithoutFacts(p.idle, w);
    GrownRegister(p.drain, p.recs[w].transport);
  }

  lemma KillCore(p: Pool, w: nat, reason: Reason)
    requires Core(p) && Mortal(p, w)
    ensures Core(Kill(p, w, reason)) && OnlyDeaths(p, Kill(p, w, reason))
    ensures Kill(p, w, reason).recs == p.recs[w := p.recs[w].(fate := Dead(reason))]
  {
    hide PlacesOK, CountOK, UsesOK, LineOK, HoldOK, ReportsOK, LedgerOK, OnlyDeaths, Register, Without;
    KillPlaces(p, w, reason);
    KillCount(p, w, reason);
    KillRest(p, w, reason);
    KillLedger(p, w, reason);
  }

  lemma OnlyDeathsTrans(p: Pool, q: Pool, r: Pool)
    requires OnlyDeaths(p, q) && OnlyDeaths(q, r)
    ensures OnlyDeaths(p, r)
  {
    GrownTrans(p.drain, q.drain, r.drain);
  }

  lemma OnlyDeathsSelf(p: Pool)
    ensures OnlyDeaths(p, p)
  {
    assert p.drain.ordered[..|p.drain.ordered|] == p.drain.ordered;
  }

  ghost predicate Alive(p: Pool, ws: seq<nat>) { forall w :: w in ws ==> w in p.recs && !p.recs[w].fate.Dead? }

  lemma {:induction false} KillAllCore(p: Pool, ws: seq<nat>, reason: nat -> Reason)
    requires Core(p) && Distinct(ws) && Alive(p, ws) && (p.drain.finalized ==> ws == [])
    ensures var q := KillAll(p, ws, reason);
            && Core(q) && OnlyDeaths(p, q) && q.recs.Keys == p.recs.Keys && q.superStart == p.superStart
            && (forall w :: w in p.recs ==> q.recs[w] == if w in ws then p.recs[w].(fate := Dead(reason(w))) else p.recs[w])
            && (ws == [] ==> q == p)
    decreases |ws|
  {
    hide Core;
    if ws == [] {
      OnlyDeathsSelf(p);
    } else {
      var k := Kill(p, ws[0], reason(ws[0]));
      KillCore(p, ws[0], reason(ws[0]));
      assert forall w :: w in ws <==> w == ws[0] || w in ws[1..];
      KillAllCore(k, ws[1..], reason);
      OnlyDeathsTrans(p, k, KillAll(p, ws, reason));
    }
  }

  /** Who is where after ws died. */
  lemma KilledLists(p: Pool, ws: seq<nat>, q: Pool)
    requires PlacesOK(p) && PlacesOK(q) && q.recs.Keys == p.recs.Keys
    requires forall w :: w in p.recs ==> (if w in ws then q.recs[w].fate.Dead? else q.recs[w] == p.recs[w])
    ensures forall w :: w in q.idle <==> w in p.idle && w !in ws
    ensures q.leased == set w | w in p.leased && w !in ws
  {}

  /** Killing every idle worker leaves none. */
  lemma KillIdle(p: Pool, reason: nat -> Reason)
    requires Core(p) && (p.drain.finalized ==> p.idle == [])
    ensures var q := KillAll(p, p.idle, reason);
            Core(q) && OnlyDeaths(p, q) && q.idle == [] && q.leased == p.leased && q.active == p.active
  {
    hide UsesOK, LineOK, HoldOK, ReportsOK, LedgerOK, KillAll, OnlyDeaths;
    KillAllCore(p, p.idle, reason);
    var q := KillAll(p, p.idle, reason);
    KilledLists(p, p.idle, q);
    FirstMember(q.idle);
    assert q.leased == p.leased;
  }

  lemma FirstMember(s: seq<nat>)
    ensures s == [] || s[0] in s
  {}

  /** Killing every leased worker leaves none. */
  lemma KillLeased(p: Pool, ws: seq<nat>, reason: nat -> Reason)
    requires Core(p) && Lists(ws, p.leased) && (p.drain.finalized ==> p.leased == {})
    ensures var q := KillAll(p, ws, reason);
            Core(q) && OnlyDeaths(p, q) && q.leased == {} && (p.idle == [] ==> q.idle == [])
  {
    hide UsesOK, LineOK, HoldOK, ReportsOK, LedgerOK, KillAll, Distinct;
    FirstMember(ws);
    KillAllCore(p, ws, reason);
    KilledLists(p, ws, KillAll(p, ws, reason));
    FirstMember(KillAll(p, ws, reason).idle);
  }

  /*** Pruning and waking ***/

  lemma {:induction false} StaleFacts(p: Pool, ws: seq<nat>, now: int)
    ensures |StaleOf(p, ws, now)| <= |ws| && (Distinct(ws) ==> Distinct(StaleOf(p, ws, now)))
  {
    if ws != [] {
      StaleFacts(p, ws[1..], now);
      assert forall w :: w in ws <==> w == ws[0] || w in ws[1..];
      assert Distinct(ws) ==> Distinct(ws[1..]) && ws[0] !in ws[1..];
    }
  }

  /** Nothing moved but idle workers that died, the ledger, and perhaps the supervisor starting. */
  ghost predicate OnlyPruned(p: Pool, q: Pool) {
    && OnlyDeaths(p, q.(superStart := p.superStart)) && q.leased == p.leased && q.active == p.active
    && (q.superStart == p.superStart || (q.superStart && !p.closed && !p.circuitOpen))
    && (p.idle == [] ==> q == p)
  }

  lemma PruneCore(p: Pool, now: int)
    requires Core(p) && (p.drain.finalized ==> p.idle == [])
    ensures Core(Prune(p, now)) && OnlyPruned(p, Prune(p, now))
    ensures forall w :: w in Prune(p, now).idle <==> w in p.idle && w in p.recs && !Stale(p.cfg, p.recs[w], now)
  {
    hide UsesOK, LineOK, HoldOK, ReportsOK, LedgerOK, KillAll, StaleOf, Stale, OnlyDeaths, OnlyPruned, RequestReplenish, Distinct;
    var stale := StaleOf(p, p.idle, now);
    var why := Why(p);
    StaleFacts(p, p.idle, now);
    FirstMember(stale);
    KillAllCore(p, stale, why);
    var q := KillAll(p, stale, why);
    KilledLists(p, stale, q);
    assert q.leased == p.leased;
    StartsCore(q);
    PrunedOnly(p, q);
  }

  lemma PrunedOnly(p: Pool, q: Pool)
    requires OnlyDeaths(p, q) && q.leased == p.leased && CountOK(p) && CountOK(q) && (p.idle == [] ==> q == p)
    ensures OnlyPruned(p, q) && (p.idle != [] ==> OnlyPruned(p, RequestReplenish(q)))
  {
    var r := RequestReplenish(q);
    assert r.(superStart := p.superStart) == q;
    assert q.(superStart := p.superStart) == q;
  }

  /** Starting the supervisor touches nothing the core speaks of. */
  lemma StartsCore(p: Pool)
    requires Core(p)
    ensures var q := RequestReplenish(p);
            && Core(q) && q.(superStart := p.superStart) == p
            && (q.superStart == p.superStart || (q.superStart && !p.closed && !p.circuitOpen))
  {
    hide Distinct, Ascending, Holds, Registered;
  }

  ghost predicate Leasable(p: Pool, w: nat, call: nat) {
    w in p.idle && w in p.recs && call < p.nextCall && (call in p.calls ==> p.calls[call] == Waiting)
  }

  lemma LeasePlace(p: Pool, w: nat, call: nat, v: nat)
    requires PlacesOK(p) && Leasable(p, w, call)
    ensures PlaceOK(Lease(p, w, call), v)
  {
    hide Distinct, Without;
    WithoutMember(p.idle, w, v);
  }

  lemma LeaseCount(p: Pool, w: nat, call: nat)
    requires PlacesOK(p) && CountOK(p) && Leasable(p, w, call)
    ensures CountOK(Lease(p, w, call))
  {
    WithoutMembers(p.idle, w);
    hide Distinct, Without;
    assert w !in p.leased;
    assert |p.leased + {w}| == |p.leased| + 1;
  }

  lemma LeasePlaces(p: Pool, w: nat, call: nat)
    requires PlacesOK(p) && CountOK(p) && Leasable(p, w, call)
    ensures PlacesOK(Lease(p, w, call)) && CountOK(Lease(p, w, call))
  {
    LeaseCount(p, w, call);
    forall v: nat ensures PlaceOK(Lease(p, w, call), v) { LeasePlace(p, w, call, v); }
    WithoutFacts(p.idle, w);
    hide Distinct, Without, CountOK;
    PlacesAre(Lease(p, w, call));
  }

  lemma LeaseLine(p: Pool, w: nat, call: nat)
    requires LineOK(p) && Leasable(p, w, call)
    ensures LineOK(Lease(p, w, call))
  {
    hide Ascending;
    WithoutFacts(p.waiters, call);
  }

  lemma LeaseRest(p: Pool, w: nat, call: nat)
    requires PlacesOK(p) && UsesOK(p) && ReportsOK(p) && LedgerOK(p) && Leasable(p, w, call)
    ensures var q := Lease(p, w, call); UsesOK(q) && ReportsOK(q) && LedgerOK(q)
  {
    hide Registered, Without;
  }

  lemma LeaseCore(p: Pool, w: nat, call: nat)
    requires Core(p) && Leasable(p, w, call)
    ensures Core(Lease(p, w, call))
    ensures var q := Lease(p, w, call);
            q == p.(recs := q.recs, idle := Without(p.idle, w), leased := p.leased + {w}, active := p.active + 1,
                    waiters := Without(p.waiters, call), calls := p.calls[call := Assigned(w)])
  {
    hide PlacesOK, CountOK, UsesOK, LineOK, HoldOK, ReportsOK, LedgerOK, Without;
    LeasePlaces(p, w, call);
    LeaseLine(p, w, call);
    LeaseRest(p, w, call);
    LeaseHolds(p, w, call);
  }

  lemma LeaseHolds(p: Pool, w: nat, call: nat)
    requires PlacesOK(p) && HoldOK(p) && Leasable(p, w, call)
    ensures HoldOK(Lease(p, w, call))
  {
    var q := Lease(p, w, call);
    assert Holds(q.calls[call], w);
    forall x | x in q.leased ensures Held(q.calls, x) {
      if x != w {
        var t :| t in p.calls && Holds(p.calls[t], x);
        assert t in q.calls && Holds(q.calls[t], x);
      }
    }
  }

  /** What waking keeps, from a state where at most one idle worker meets waiters. */
  ghost predicate Wakeable(p: Pool) {
    && Core(p) && (p.waiters == [] || |p.idle| <= 1) && (p.circuitOpen ==> p.waiters == []) && !p.closed && !p.drain.finalized
  }

  lemma WakeCore(p: Pool, now: int)
    requires Wakeable(p)
    ensures var q := Wake(p, now);
            && Core(q) && Exclusive(q) && Grown(p.drain, q.drain)
            && q.closed == p.closed && q.circuitOpen == p.circuitOpen && q.superExited == p.superExited && (q.superStart || !p.superStart)
            && q.nextCall == p.nextCall && q.nextWorker == p.nextWorker && q.cfg == p.cfg && DeadStay(p, q)
    ensures Woken(p, Wake(p, now))
  {
    hide Core, Exclusive, Lease, Kill, KillAll, Without, DeadStay, Prune;
    var q := Prune(p, now);
    PruneCore(p, now);
    assert DeadStay(p, q) by { SuperAside(p, q); }
    if q.circuitOpen {
      KillIdle(q, Always(CircuitOpened));
      var k := KillAll(q, q.idle, Always(CircuitOpened));
      assert Exclusive(k) by { ExclusiveEmpty(k); }
      GrownTrans(p.drain, q.drain, k.drain);
      DeadStayTrans(p, q, k);
    } else if q.waiters == [] || q.idle == [] {
      assert Exclusive(q) by { ExclusiveOpen(q); }
    } else {
      FirstWaiter(q);
      LeaseStay(q, q.idle[0], q.waiters[0]);
      DeadStayTrans(p, q, Lease(q, q.idle[0], q.waiters[0]));
      LeaseCore(q, q.idle[0], q.waiters[0]);
      IdleOnly(q);
      assert Exclusive(Lease(q, q.idle[0], q.waiters[0])) by { ExclusiveOpen(Lease(q, q.idle[0], q.waiters[0])); }
    }
  }

  /** The only lease waking makes is for the first in line. */
  ghost predicate Woken(p: Pool, q: Pool) {
    if q.leased == p.leased then q.waiters == p.waiters && q.calls == p.calls
    else p.waiters != [] && q.waiters == Without(p.waiters, p.waiters[0]) && q.calls.Keys == p.calls.Keys
         && (forall t :: t in q.calls && t != p.waiters[0] ==> q.calls[t] == p.calls[t])
  }

  lemma LeaseStay(p: Pool, w: nat, call: nat)
    requires Core(p) && w in p.idle
    ensures DeadStay(p, Lease(p, w, call))
  {
    hide CountOK, UsesOK, LineOK, HoldOK, ReportsOK, LedgerOK;
  }

  lemma SuperAside(p: Pool, q: Pool)
    requires DeadStay(p, q.(superStart := p.superStart))
    ensures DeadStay(p, q)
  {}

  lemma DeadStayTrans(p: Pool, q: Pool, r: Pool)
    requires DeadStay(p, q) && DeadStay(q, r)
    ensures DeadStay(p, r)
  {}

  lemma ExclusiveEmpty(p: Pool)
    requires p.idle == [] && p.waiters == []
    ensures Exclusive(p)
  {}

  lemma ExclusiveOpen(p: Pool)
    requires (p.idle == [] || p.waiters == []) && !p.closed && !p.circuitOpen
    ensures Exclusive(p)
  {}

  lemma FirstWaiter(p: Pool)
    requires Core(p) && p.waiters != [] && p.idle != []
    ensures p.waiters[0] in p.calls && p.calls[p.waiters[0]] == Waiting && p.waiters[0] < p.nextCall
    ensures p.idle[0] !in p.leased && p.idle[0] in p.recs && p.idle[0] in p.idle
  {
    assert p.waiters[0] in p.waiters && p.idle[0] in p.idle;
  }

  lemma IdleOnly(p: Pool)
    requires |p.idle| == 1
    ensures Without(p.idle, p.idle[0]) == []
  {
    assert p.idle[1..] == [];
  }
}
