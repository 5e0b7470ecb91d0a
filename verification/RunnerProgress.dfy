/** The cleanup of a generation gets done (internal/plugin/system_runner.go): retirement launches it, it only ever waits
    for someone who still uses the generation, and an abort asked for in time reaches the pool. */
module RunnerProgress {
  import opened RunnerModel
  import opened RunnerTheorems
  import P = PoolModel
  import PI = PoolInvariant
  import PL = PoolLedger
  import RP = RunnerPool

  /** How far the goroutine still has to go. */
  function Left(s: Stage): nat {
    match s
    case Idle => 9
    case Launched => 8
    case AwaitRefs(_) => 7
    case RefsGone(_) => 6
    case Revoked(_) => 5
    case AwaitPool => 4
    case PoolDone(_) => 3
    case AwaitAuthority(_, _) => 2
    case ReadyToRemove(_) => 1
    case Done => 0
  }

  /** Someone the goroutine waits for: an invocation, the pool's drain, or a host call. */
  ghost predicate Waits(g: Generation) {
    match g.stage
    case AwaitRefs(_) => g.leases != {}
    case AwaitPool => g.number != 0 && !g.pool.drain.finalized
    case AwaitAuthority(_, _) => g.authority.holders != {}
    case _ => false
  }

  /** In every interleaving: a generation that was retired, or marked and armed, has its cleanup under way, and each turn
      of the goroutine brings it closer to the end unless it waits, in which case the turn changes nothing. */
  lemma CleanupAdvances(number: nat, broker: bool, cfg: P.Config, run: seq<Op>, order: seq<nat>)
    requires cfg.Valid()
    ensures var g := Exec(Prepared(number, broker, cfg), run);
            var n := Step(g, DoCleanup(order));
            && Step(g, DoRetire).stage != Idle && (Step(g, DoArm).stage == Idle ==> !g.requested)
            && (g.stage != Idle && g.stage != Done ==> if Waits(g) then n == g else Left(n.stage) < Left(g.stage))
            && (g.stage == Done ==> n == g)
  {
    hide Exec, Inv, Step;
    var g := Exec(Prepared(number, broker, cfg), run);
    PreparedInv(number, broker, cfg);
    ExecKeeps(Prepared(number, broker, cfg), run);
    Launches(g);
    TurnAdvances(g, order);
  }

  lemma Launches(g: Generation)
    requires Inv(g)
    ensures Step(g, DoRetire).stage != Idle && (Step(g, DoArm).stage == Idle ==> !g.requested)
  {
    hide Inv;
  }

  lemma TurnAdvances(g: Generation, order: seq<nat>)
    requires Inv(g)
    ensures var n := Step(g, DoCleanup(order));
            && (g.stage != Idle && g.stage != Done ==> if Waits(g) then n == g else Left(n.stage) < Left(g.stage))
            && (g.stage == Done ==> n == g)
  {
    hide Inv, Cleanup, PoolAnswered;
    WaitsExactly(g);
    if g.stage.Launched? || g.stage.AwaitRefs? {
      BeginStage(g, order);
    } else if g.stage.RefsGone? || g.stage.Revoked? {
      DrainStage(g, order);
    } else if g.stage.AwaitPool? || g.stage.PoolDone? {
      PoolStage(g, order);
    } else {
      LastStages(g, order);
    }
  }

  /** The channel or future the goroutine looks at tells whether it must wait. */
  lemma WaitsExactly(g: Generation)
    requires Inv(g)
    ensures g.stage.AwaitRefs? ==> (Waits(g) <==> g.stage.refsDone !in g.refsClosed)
    ensures g.stage.AwaitPool? ==> (Waits(g) <==> !PoolAnswered(g))
    ensures g.stage.AwaitAuthority? ==> (Waits(g) <==> g.stage.authorityDone !in g.authority.closed)
  {
    hide PI.Inv, FlagsOK, RemovedOK, PoolIsDone, Unused;
  }

  lemma BeginStage(g: Generation, order: seq<nat>)
    requires g.stage.Launched? || g.stage.AwaitRefs?
    ensures var n, s := Cleanup(g, order), g.stage;
            && (s.Launched? ==> n.stage.AwaitRefs? && n.forceAbort == g.forceAbort)
            && (s.AwaitRefs? ==> if s.refsDone in g.refsClosed then n.stage == RefsGone(g.forceAbort) else n == g)
  {}

  lemma DrainStage(g: Generation, order: seq<nat>)
    requires g.stage.RefsGone? || g.stage.Revoked?
    ensures Cleanup(g, order).stage == if g.stage.RefsGone? then Revoked(g.stage.force) else AwaitPool
  {
    hide P.BeginDrain, Revoke;
  }

  lemma PoolStage(g: Generation, order: seq<nat>)
    requires g.stage.AwaitPool? || g.stage.PoolDone?
    ensures var n, s := Cleanup(g, order), g.stage;
            && (s.AwaitPool? ==> if PoolAnswered(g) then n.stage.PoolDone? else n == g)
            && (s.PoolDone? ==> n.stage.AwaitAuthority? || n.stage.ReadyToRemove?)
  {
    hide PoolAnswered, PoolResidual;
  }

  lemma LastStages(g: Generation, order: seq<nat>)
    requires g.stage.AwaitAuthority? || g.stage.ReadyToRemove? || g.stage.Done? || g.stage.Idle?
    ensures var n, s := Cleanup(g, order), g.stage;
            && (s.AwaitAuthority? ==> if s.authorityDone in g.authority.closed then n.stage.ReadyToRemove? else n == g)
            && (s.ReadyToRemove? ==> n.stage == Done)
            && (s.Done? || s.Idle? ==> n == g)
  {}

  /*** Aborting ***/

  /** The pool's drain has begun and is forced. */
  ghost predicate Forced(g: Generation) { g.pool.drain.started && g.pool.drain.force }

  /** The abort is on its way to the pool, or has reached it. */
  ghost predicate Aborting(g: Generation) {
    match g.stage
    case Idle => g.forceAbort
    case Launched => g.forceAbort
    case AwaitRefs(_) => g.forceAbort
    case RefsGone(force) => force
    case Revoked(force) => force
    case _ => Forced(g)
  }

  lemma PoolStaysForced(p: P.Pool, op: P.Op)
    requires p.drain.started && p.drain.force
    ensures P.Step(p, op).drain.started && P.Step(p, op).drain.force
  {
    hide P.Step;
    PL.StepLedger(p, op);
  }

  lemma DrainForces(p: P.Pool, force: bool, generation: nat, order: seq<nat>)
    ensures var q := P.BeginDrain(p, force, generation, order);
            && (p.drain.started && p.drain.force ==> q.drain.started && q.drain.force)
            && (force && generation == p.cfg.generation ==> q.drain.started && q.drain.force)
  {
    hide P.SettleLeases, P.KillAll, P.FailWaiters, PL.Longer;
    PL.BeginDrainLonger(p, force, generation, order);
    LongerForced(p.drain, P.BeginDrain(p, force, generation, order).drain);
    if force && generation == p.cfg.generation {
      var m := P.StartDrain(p, force);
      PL.KillAllLonger(m, p.idle, P.Always(P.Shutdown));
      LongerForced(m.drain, P.KillAll(m, p.idle, P.Always(P.Shutdown)).drain);
      var u := P.Upgraded(P.Begun(p, force), force);
      PL.SettleLonger(u, order);
      LongerForced(u.drain, P.SettleLeases(u, order).drain);
    }
  }

  lemma LongerForced(a: P.Drain, b: P.Drain)
    requires PL.Longer(a, b)
    ensures a.started ==> b.started && (a.force ==> b.force)
  {}

  lemma AbortStep(g: Generation, op: Op)
    requires Inv(g) && g.number != 0 && Aborting(g)
    ensures Aborting(Step(g, op))
  {
    hide Inv, P.Step, P.BeginDrain, P.RequestReplenish, AuthorityAcquire, AuthorityRelease, Revoke;
    assert g.pool.cfg.generation == g.number by { OwnNumber(g); }
    match op
    case DoPool(o) => if Forced(g) { PoolStaysForced(g.pool, o); }
    case DoDrain(force, order) => DrainForces(g.pool, force, g.number, order);
    case DoCleanup(order) => AbortTurn(g, order);
    case DoActivate => if Forced(g) { ActivateForced(g.pool); }
    case _ =>
  }

  lemma ActivateForced(p: P.Pool)
    ensures P.RequestReplenish(p).drain == p.drain
  {}

  lemma OwnNumber(g: Generation)
    requires Inv(g) && g.number != 0
    ensures g.pool.cfg.generation == g.number
  {
    hide PI.Inv;
  }

  lemma AbortTurn(g: Generation, order: seq<nat>)
    requires g.pool.cfg.generation == g.number && Aborting(g)
    ensures Aborting(Cleanup(g, order))
  {
    hide P.BeginDrain, Cleanup, PoolAnswered;
    RP.CleanupMovesPool(g, order);
    if g.stage.Launched? || g.stage.AwaitRefs? {
      BeginStage(g, order);
    } else if g.stage.RefsGone? || g.stage.Revoked? {
      DrainStage(g, order);
      if g.stage.Revoked? { DrainForces(g.pool, g.stage.force, g.number, order); }
    } else if g.stage.AwaitPool? || g.stage.PoolDone? {
      PoolStage(g, order);
    } else {
      LastStages(g, order);
    }
  }

  lemma {:induction false} AbortGoesOn(g: Generation, more: seq<Op>)
    requires Inv(g) && g.number != 0 && Aborting(g)
    ensures Aborting(Exec(g, more))
    decreases |more|
  {
    hide Inv, Step, Aborting;
    if more != [] {
      AbortGoesOn(g, more[..|more| - 1]);
      ExecKeeps(g, more[..|more| - 1]);
      AbortStep(Exec(g, more[..|more| - 1]), more[|more| - 1]);
    }
  }

  /** In every interleaving, for every generation but 0: a cleanup marked to force before the goroutine has seen the last
      invocation go makes the pool's drain a forced one by the time the goroutine waits for it, and it stays one. */
  lemma AbortReachesThePool(number: nat, broker: bool, cfg: P.Config, run: seq<Op>, more: seq<Op>)
    requires cfg.Valid() && number != 0 && Left(Exec(Prepared(number, broker, cfg), run).stage) > Left(RefsGone(true))
    ensures var later := Exec(Step(Exec(Prepared(number, broker, cfg), run), DoMark(true)), more);
            Left(later.stage) <= Left(AwaitPool) ==> later.pool.drain.started && later.pool.drain.force
  {
    hide Exec, Inv;
    PreparedInv(number, broker, cfg);
    var g := Exec(Prepared(number, broker, cfg), run);
    ExecKeeps(Prepared(number, broker, cfg), run);
    StepKeeps(g, DoMark(true));
    AbortGoesOn(Step(g, DoMark(true)), more);
  }
}
