/** Cleanup ordering: a generation's working directory is removed at most once, and only
    when nobody can use the generation any more. */
module RunnerTheorems {
  import opened RunnerModel
  import P = PoolModel
  import PI = PoolInvariant
  import PS = PoolSteps
  import PT = PoolTheorems

  /** The channel current at a count of zero is closed, and an open one is never reported closed. */
  ghost predicate AuthorityOK(a: Authority) {
    && (a.holders == {} <==> a.drained in a.closed)
    && (forall c :: c in a.closed ==> c <= a.drained)
    && (forall h :: h in a.holders ==> h < a.next)
  }

  ghost predicate RefsOK(g: Generation) {
    && (g.leases == {} <==> g.refsDone in g.refsClosed)
    && (forall c :: c in g.refsClosed ==> c <= g.refsDone)
    && (forall l :: l in g.leases ==> l < g.nextLease)
  }

  /** Nobody can take an invocation lease any more. */
  ghost predicate Shut(g: Generation) { g.retiring && !g.admitted }

  ghost predicate FlagsOK(g: Generation) {
    && (g.requested ==> Shut(g)) && (g.armed ==> g.requested && g.stage != Idle) && (g.stage != Idle ==> g.requested)
  }

  ghost predicate RefsAreGone(g: Generation) { Shut(g) && g.leases == {} }

  ghost predicate PoolIsDone(g: Generation, residual: set<nat>) {
    g.number == g.pool.cfg.generation ==> g.pool.drain.finalized && g.pool.drain.result.residual == residual
  }

  /** What the goroutine may rely on at each stage. */
  ghost predicate StageOK(g: Generation) {
    match g.stage
    case Idle => true
    case Launched => Shut(g)
    case AwaitRefs(ch) => Shut(g) && ch == g.refsDone
    case RefsGone(_) => RefsAreGone(g)
    case Revoked(_) => RefsAreGone(g) && (g.broker ==> g.authority.revoked)
    case AwaitPool => RefsAreGone(g) && (g.broker ==> g.authority.revoked)
    case PoolDone(residual) => RefsAreGone(g) && (g.broker ==> g.authority.revoked) && PoolIsDone(g, residual)
    case AwaitAuthority(ch, residual) =>
      RefsAreGone(g) && PoolIsDone(g, residual) && g.broker && g.authority.revoked && ch == g.authority.drained
    case ReadyToRemove(residual) => Unused(g) && PoolIsDone(g, residual)
    case Done => Unused(g)
  }

  /** No invocation, no host call, and no way to begin one. */
  ghost predicate Unused(g: Generation) {
    RefsAreGone(g) && (g.broker ==> g.authority.revoked && g.authority.holders == {})
  }

  ghost predicate RemovedOK(g: Generation) {
    && g.removals <= 1 && (g.removals > 0 ==> g.stage == Done && PoolIsDone(g, {}))
    && (g.stage == Done && g.number == g.pool.cfg.generation ==> g.pool.drain.finalized && (g.removals == 0 ==> g.pool.drain.result.residual != {}))
  }

  ghost predicate Inv(g: Generation) {
    && PI.Inv(g.pool) && g.pool.cfg.generation == PoolGeneration(g.number)
    && AuthorityOK(g.authority) && RefsOK(g) && FlagsOK(g) && StageOK(g) && RemovedOK(g)
  }

  lemma PreparedInv(number: nat, broker: bool, cfg: P.Config)
    requires cfg.Valid()
    ensures Inv(Prepared(number, broker, cfg))
  {
    hide PI.Inv;
    PI.NewInv(cfg.(generation := PoolGeneration(number)));
  }

  /*** Steps ***/

  /** The generation stays itself, and removals are never undone. */
  ghost predicate Same(g: Generation, n: Generation) { n.number == g.number && n.broker == g.broker && g.removals <= n.removals }

  lemma AuthorityKeeps(a: Authority, h: nat)
    requires AuthorityOK(a)
    ensures AuthorityOK(AuthorityAcquire(a)) && AuthorityOK(AuthorityRelease(a, h)) && AuthorityOK(Revoke(a))
    ensures a.revoked ==> AuthorityAcquire(a) == a
    ensures AuthorityRelease(a, h).drained == a.drained && AuthorityRelease(a, h).revoked == a.revoked
    ensures a.holders == {} ==> AuthorityRelease(a, h) == a
  {}

  /** The pool moved by one of its own steps. */
  lemma PoolMoves(g: Generation, pool: P.Pool)
    requires Inv(g) && PI.Inv(pool) && PS.Next(g.pool, pool)
    ensures Inv(g.(pool := pool))
  {
    hide PI.Inv, AuthorityOK, PS.InOrder, PS.Forward;
  }

  lemma PoolStepKeeps(g: Generation, op: P.Op)
    requires Inv(g)
    ensures Inv(g.(pool := P.Step(g.pool, op))) && Same(g, g.(pool := P.Step(g.pool, op)))
  {
    hide PI.Inv, PS.Next, P.Step, AuthorityOK, RefsOK, FlagsOK, StageOK, RemovedOK;
    PT.StepKeeps(g.pool, op);
    PoolMoves(g, P.Step(g.pool, op));
  }

  lemma DrainKeeps(g: Generation, force: bool, order: seq<nat>)
    requires Inv(g)
    ensures Inv(DrainPool(g, force, order)) && Same(g, DrainPool(g, force, order)) && Same(g, g)
  {
    hide PI.Inv, PS.Next, P.BeginDrain, AuthorityOK, RefsOK, FlagsOK, StageOK, RemovedOK;
    PT.BeginDrainKeeps(g.pool, force, g.number, order);
    PoolMoves(g, P.BeginDrain(g.pool, force, g.number, order));
  }

  lemma ActivateKeeps(g: Generation)
    requires Inv(g)
    ensures Inv(Activate(g)) && Same(g, Activate(g))
  {
    hide PI.Inv, PS.Next, P.RequestReplenish, AuthorityOK;
    if !g.closing && !g.retiring {
      var m := g.(admitted := true);
      assert Inv(m);
      PS.StartKeeps(g.pool);
      PoolMoves(m, P.RequestReplenish(g.pool));
    }
  }

  lemma RefsKeep(g: Generation, lease: nat)
    requires Inv(g)
    ensures Inv(Acquire(g)) && Inv(Release(g, lease)) && Same(g, Acquire(g)) && Same(g, Release(g, lease))
  {
    hide PI.Inv, AuthorityOK;
  }

  lemma FlagsKeep(g: Generation, force: bool)
    requires Inv(g)
    ensures Inv(Retire(g)) && Inv(Mark(g, force)) && Inv(ArmCleanup(g)) && Inv(g.(closing := true))
    ensures Same(g, Retire(g)) && Same(g, Mark(g, force)) && Same(g, ArmCleanup(g)) && Same(g, g.(closing := true))
  {
    hide PI.Inv, AuthorityOK;
  }

  lemma HostKeeps(g: Generation, h: nat)
    requires Inv(g)
    ensures Inv(g.(authority := AuthorityRelease(g.authority, h))) && Inv(RevokeAuthority(g))
    ensures g.broker ==> Inv(g.(authority := AuthorityAcquire(g.authority)))
    ensures Same(g, g.(authority := AuthorityRelease(g.authority, h))) && Same(g, RevokeAuthority(g)) && Same(g, g.(authority := AuthorityAcquire(g.authority)))
    ensures Same(g, g)
  {
    hide PI.Inv, AuthorityOK, AuthorityAcquire, AuthorityRelease;
    AuthorityKeeps(g.authority, h);
  }

  lemma CleanupKeeps(g: Generation, order: seq<nat>)
    requires Inv(g)
    ensures Inv(Cleanup(g, order)) && Same(g, Cleanup(g, order))
  {
    hide Inv, Cleanup;
    if g.stage.Launched? || g.stage.AwaitRefs? || g.stage.RefsGone? || g.stage.Revoked? { CleanupBegins(g, order); } else { CleanupEnds(g, order); }
  }

  lemma CleanupBegins(g: Generation, order: seq<nat>)
    requires Inv(g) && (g.stage.Launched? || g.stage.AwaitRefs? || g.stage.RefsGone? || g.stage.Revoked?)
    ensures Inv(Cleanup(g, order)) && Same(g, Cleanup(g, order))
  {
    hide PI.Inv, P.BeginDrain, AuthorityOK;
    if g.stage.Revoked? {
      DrainKeeps(g, g.stage.force, order);
    } else if g.stage.RefsGone? {
      HostKeeps(g, 0);
    }
  }

  lemma CleanupEnds(g: Generation, order: seq<nat>)
    requires Inv(g) && !(g.stage.Launched? || g.stage.AwaitRefs? || g.stage.RefsGone? || g.stage.Revoked?)
    ensures Inv(Cleanup(g, order)) && Same(g, Cleanup(g, order))
  {
    hide PI.Inv, P.BeginDrain;
  }

  lemma StepKeeps(g: Generation, op: Op)
    requires Inv(g)
    ensures Inv(Step(g, op)) && Same(g, Step(g, op))
  {
    hide Inv, Same, P.Step, P.BeginDrain, Acquire, Release, Activate, Retire, Mark, RevokeAuthority, DrainPool, ArmCleanup, Cleanup;
    match op
    case DoAcquire => RefsKeep(g, 0);
    case DoRelease(lease) => RefsKeep(g, lease);
    case DoActivate => ActivateKeeps(g);
    case DoRetire => FlagsKeep(g, false);
    case DoMark(force) => FlagsKeep(g, force);
    case DoRevoke => HostKeeps(g, 0);
    case DoDrain(force, order) => DrainKeeps(g, force, order);
    case DoArm => FlagsKeep(g, false);
    case DoStopAll => FlagsKeep(g, false);
    case DoPool(o) => PoolStepKeeps(g, o);
    case DoHostAcquire => HostKeeps(g, 0);
    case DoHostRelease(h) => HostKeeps(g, h);
    case DoCleanup(order) => CleanupKeeps(g, order);
  }

  lemma {:induction false} ExecKeeps(g: Generation, run: seq<Op>)
    requires Inv(g)
    ensures Inv(Exec(g, run)) && Same(g, Exec(g, run))
    decreases |run|
  {
    hide Inv, Step;
    if run != [] {
      ExecKeeps(g, run[..|run| - 1]);
      StepKeeps(Exec(g, run[..|run| - 1]), run[|run| - 1]);
    }
  }

  /** For every interleaving and every generation but 0: the working directory is removed
      at most once, and from then on the generation is not admitted and never will be,
      every invocation lease is released, the pool's drain is final without residual
      process groups, and the authority is revoked with no host call holding it. */
  lemma RemovedOnlyWhenUnused(number: nat, broker: bool, cfg: P.Config, run: seq<Op>, more: seq<Op>)
    requires cfg.Valid() && number != 0
    ensures Exec(Prepared(number, broker, cfg), run).removals <= 1
    ensures var g, later := Exec(Prepared(number, broker, cfg), run), Exec(Exec(Prepared(number, broker, cfg), run), more);
            g.removals > 0 ==>
              && later.removals == 1 && !MayAcquire(later) && !MayAcquire(Activate(later)) && later.leases == {}
              && later.pool.drain.finalized && later.pool.drain.result.residual == {} && later.pool.leased == {} && later.pool.idle == []
              && (broker ==> later.authority.revoked && later.authority.holders == {} && AuthorityAcquire(later.authority) == later.authority)
  {
    hide Exec, PI.Core, P.AllTerminal, P.Summarise;
    var g0 := Prepared(number, broker, cfg);
    PreparedInv(number, broker, cfg);
    ExecKeeps(g0, run);
    var g := Exec(g0, run);
    ExecKeeps(g, more);
    var later := Exec(g, more);
    if g.removals > 0 {
      assert |later.pool.leased| == 0 ==> later.pool.leased == {};
    }
  }

  /** Before the directory goes, each of these must have happened: removal itself is only
      enabled in a state where they all hold. */
  lemma RemovalIsLast(number: nat, broker: bool, cfg: P.Config, run: seq<Op>, op: Op)
    requires cfg.Valid() && number != 0
    ensures var g := Exec(Prepared(number, broker, cfg), run);
            Step(g, op).removals > g.removals ==>
              g.removals == 0 && Unused(g) && PoolIsDone(g, {}) && op.DoCleanup? && g.stage == ReadyToRemove({})
  {
    hide Exec, Inv, Step;
    PreparedInv(number, broker, cfg);
    ExecKeeps(Prepared(number, broker, cfg), run);
    RemovesLast(Exec(Prepared(number, broker, cfg), run), op);
  }

  lemma RemovesLast(g: Generation, op: Op)
    requires Inv(g) && g.number != 0
    ensures Step(g, op).removals > g.removals ==>
              g.removals == 0 && Unused(g) && PoolIsDone(g, {}) && op.DoCleanup? && g.stage == ReadyToRemove({})
  {
    if op.DoCleanup? { CleanupRemoves(g, op.order); } else { OthersRemoveNothing(g, op); }
  }

  lemma OthersRemoveNothing(g: Generation, op: Op)
    requires !op.DoCleanup?
    ensures Step(g, op).removals == g.removals
  {
    hide P.Step, P.BeginDrain, P.RequestReplenish, Cleanup, AuthorityAcquire, AuthorityRelease, Revoke;
    if op.DoDrain? || op.DoPool? || op.DoActivate? { PoolRemovesNothing(g, op); }
  }

  lemma PoolRemovesNothing(g: Generation, op: Op)
    requires op.DoDrain? || op.DoPool? || op.DoActivate?
    ensures Step(g, op).removals == g.removals
  {
    hide P.Step, P.BeginDrain, P.RequestReplenish;
  }

  lemma CleanupRemoves(g: Generation, order: seq<nat>)
    requires Inv(g) && g.number != 0
    ensures Cleanup(g, order).removals > g.removals ==> g.removals == 0 && Unused(g) && PoolIsDone(g, {}) && g.stage == ReadyToRemove({})
  {
    hide PI.Inv, P.Step, P.BeginDrain, Revoke;
  }

  /*** Generation 0 ***/

  /** Retire, then n steps of the cleanup goroutine. */
  function ZeroRun(n: nat): seq<Op> { if n == 0 then [DoRetire] else ZeroRun(n - 1) + [DoCleanup([])] }

  ghost function Cleanups(g: Generation, n: nat): Generation { if n == 0 then g else Cleanup(Cleanups(g, n - 1), []) }

  lemma {:induction false} ZeroRunIs(g: Generation, n: nat)
    ensures Exec(g, ZeroRun(n)) == Cleanups(Retire(g), n)
  {
    var r := ZeroRun(n);
    if n == 0 {
      assert r[..0] == [];
    } else {
      assert r[..|r| - 1] == ZeroRun(n - 1);
      ZeroRunIs(g, n - 1);
    }
  }

  /** Generation 0 is left out for a reason: its pool is numbered 1, takes the drain for a
      stale one and answers at once, so the directory goes while the pool runs on. */
  lemma GenerationZeroIsNotDrained(cfg: P.Config)
    requires cfg.Valid()
    ensures var g := Exec(Prepared(0, false, cfg), ZeroRun(7));
            g.removals == 1 && !g.pool.drain.started && !g.pool.closed
  {
    hide Exec, ZeroRun, Cleanups;
    ZeroRunIs(Prepared(0, false, cfg), 7);
    ZeroStages(cfg);
    LastStage(Retire(Prepared(0, false, cfg)), 6);
  }

  lemma LastStage(g: Generation, n: nat)
    ensures Cleanups(g, n + 1) == Cleanup(Cleanups(g, n), []) && Cleanups(g, 0) == g
  {}

  lemma ZeroStages(cfg: P.Config)
    ensures var g := Retire(Prepared(0, false, cfg)); Cleanups(g, 6) == g.(stage := ReadyToRemove({}))
  {
    hide Cleanups;
    var g := Retire(Prepared(0, false, cfg));
    LastStage(g, 0);
    assert Cleanups(g, 1) == g.(stage := AwaitRefs(0));
    LastStage(g, 1);
    assert Cleanups(g, 2) == g.(stage := RefsGone(false));
    LastStage(g, 2);
    assert Cleanups(g, 3) == g.(stage := Revoked(false));
    LastStage(g, 3);
    assert Cleanups(g, 4) == g.(stage := AwaitPool);
    LastStage(g, 4);
    assert Cleanups(g, 5) == g.(stage := PoolDone({}));
    LastStage(g, 5);
  }
}
