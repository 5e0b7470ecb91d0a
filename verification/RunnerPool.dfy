/** A generation's pool inside its runner (internal/plugin/system_runner.go): it only ever takes the pool's own
    steps, so what holds of every pool run holds of it, and the working directory goes exactly when the run's
    joins left no process group behind. */
module RunnerPool {
  import opened RunnerModel
  import opened RunnerTheorems
  import P = PoolModel
  import PI = PoolInvariant
  import PL = PoolLedger

  /** The pool step a runner step takes, if any. */
  ghost function PoolOp(g: Generation, op: Op): seq<P.Op> {
    match op
    case DoActivate => if g.closing || g.retiring then [] else [P.DoActivate]
    case DoDrain(force, order) => if g.requested then [P.DoBeginDrain(force, g.number, order)] else []
    case DoCleanup(order) => if g.stage.Revoked? then [P.DoBeginDrain(g.stage.force, g.number, order)] else []
    case DoPool(o) => [o]
    case _ => []
  }

  ghost function PoolOps(g: Generation, run: seq<Op>): seq<P.Op> {
    if run == [] then [] else PoolOps(g, run[..|run| - 1]) + PoolOp(Exec(g, run[..|run| - 1]), run[|run| - 1])
  }

  lemma StepMovesPool(g: Generation, op: Op)
    ensures Step(g, op).pool == if PoolOp(g, op) == [] then g.pool else P.Step(g.pool, PoolOp(g, op)[0])
    ensures |PoolOp(g, op)| <= 1
  {
    hide P.Step, P.BeginDrain, P.RequestReplenish, Acquire, Release, Retire, Mark, ArmCleanup, RevokeAuthority, Cleanup, AuthorityAcquire, AuthorityRelease;
    OthersKeepPool(g, op);
    DrainIs(g.pool);
    if op.DoCleanup? { CleanupMovesPool(g, op.order); }
  }

  lemma OthersKeepPool(g: Generation, op: Op)
    ensures Acquire(g).pool == Retire(g).pool == ArmCleanup(g).pool == RevokeAuthority(g).pool == g.pool
    ensures op.DoMark? ==> Mark(g, op.force).pool == g.pool
    ensures op.DoRelease? ==> Release(g, op.lease).pool == g.pool
  {}

  lemma DrainIs(p: P.Pool)
    ensures forall force, generation, order :: P.Step(p, P.DoBeginDrain(force, generation, order)) == P.BeginDrain(p, force, generation, order)
    ensures P.Step(p, P.DoActivate) == P.RequestReplenish(p)
  {
    hide P.BeginDrain, P.RequestReplenish;
  }

  lemma CleanupMovesPool(g: Generation, order: seq<nat>)
    ensures Cleanup(g, order).pool == if g.stage.Revoked? then P.BeginDrain(g.pool, g.stage.force, g.number, order) else g.pool
  {
    hide Cleanup;
    if g.stage.RefsGone? || g.stage.Revoked? {
      DrainTurnPool(g, order);
    } else if g.stage.Launched? || g.stage.AwaitRefs? || g.stage.AwaitPool? {
      WaitTurnPool(g, order);
    } else {
      EndTurnPool(g, order);
    }
  }

  lemma DrainTurnPool(g: Generation, order: seq<nat>)
    requires g.stage.RefsGone? || g.stage.Revoked?
    ensures Cleanup(g, order).pool == if g.stage.Revoked? then P.BeginDrain(g.pool, g.stage.force, g.number, order) else g.pool
  {
    hide P.BeginDrain, Revoke;
  }

  lemma WaitTurnPool(g: Generation, order: seq<nat>)
    requires g.stage.Launched? || g.stage.AwaitRefs? || g.stage.AwaitPool?
    ensures Cleanup(g, order).pool == g.pool
  {
    hide PoolAnswered, PoolResidual;
  }

  lemma EndTurnPool(g: Generation, order: seq<nat>)
    requires g.stage.Idle? || g.stage.PoolDone? || g.stage.AwaitAuthority? || g.stage.ReadyToRemove? || g.stage.Done?
    ensures Cleanup(g, order).pool == g.pool
  {}

  /** In every run the generation's pool is a run of the pool's own steps. */
  lemma {:induction false} PoolRuns(number: nat, broker: bool, cfg: P.Config, run: seq<Op>)
    ensures var g0 := Prepared(number, broker, cfg); Exec(g0, run).pool == P.Exec(cfg.(generation := PoolGeneration(number)), PoolOps(g0, run))
    decreases |run|
  {
    hide Step, P.Step;
    var g0 := Prepared(number, broker, cfg);
    if run != [] {
      var init, op := run[..|run| - 1], run[|run| - 1];
      PoolRuns(number, broker, cfg, init);
      StepMovesPool(Exec(g0, init), op);
      var ops, more := PoolOps(g0, init), PoolOp(Exec(g0, init), op);
      if more != [] {
        assert (ops + more)[..|ops + more| - 1] == ops && (ops + more)[|ops + more| - 1] == more[0];
      } else {
        assert ops + more == ops;
      }
    }
  }

  /** Some join of the run found a process group that was still there. */
  ghost predicate LeftAGroup(cfg: P.Config, ops: seq<P.Op>) {
    var ordered := P.Exec(cfg, ops).drain.ordered;
    exists i: nat :: i < |ordered| && ordered[i].transport.pgid != 0 && PL.LeftBehind(cfg, ops, i)
  }

  /** Once the cleanup of a generation but 0 is over, in every interleaving: every transport of its pool was joined,
      and the working directory was removed exactly when none of those joins found a process group left. */
  lemma RemovedExactlyWhenClean(number: nat, broker: bool, cfg: P.Config, run: seq<Op>)
    requires cfg.Valid() && number != 0 && Exec(Prepared(number, broker, cfg), run).stage == Done
    ensures var g0, pc := Prepared(number, broker, cfg), cfg.(generation := number);
            var g, ops := Exec(g0, run), PoolOps(g0, run);
            && g.pool == P.Exec(pc, ops) && g.pool.drain.finalized
            && (forall i: nat :: i < |g.pool.drain.ordered| ==> PL.FirstReport(pc, ops, i).Some?)
            && g.removals == if LeftAGroup(pc, ops) then 0 else 1
  {
    hide Exec, PoolOps, P.Exec, PI.Inv, AuthorityOK, RefsOK, FlagsOK, Unused, PL.FirstReport, PL.LeftBehind, PL.ReportedErrors;
    var g0, pc := Prepared(number, broker, cfg), cfg.(generation := number);
    var g, ops := Exec(g0, run), PoolOps(g0, run);
    PreparedInv(number, broker, cfg);
    ExecKeeps(g0, run);
    PoolRuns(number, broker, cfg, run);
    assert pc.Valid();
    PL.DrainTellsTheJoins(pc, ops);
    var residual, ordered := g.pool.drain.result.residual, g.pool.drain.ordered;
    if residual != {} {
      var x :| x in residual;
      var i: nat :| i < |ordered| && ordered[i].transport.pgid == x && PL.LeftBehind(pc, ops, i);
      assert ordered[i].transport.pgid != 0;
    }
    if LeftAGroup(pc, ops) {
      var i: nat :| i < |ordered| && ordered[i].transport.pgid != 0 && PL.LeftBehind(pc, ops, i);
      assert ordered[i].transport.pgid in residual;
    }
  }
}
