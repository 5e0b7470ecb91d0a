/** One generation of a plugin in the system runner (internal/plugin/system_runner.go),
    with its broker authority (internal/plugin/broker.go) and its worker pool: who may
    still use it, and the stages of its cleanup. A channel is a number and is closed once
    the number is in the closed set. */
module RunnerModel {
  import P = PoolModel

  /** generationAuthority: `holders` are the host calls between acquire and release. */
  datatype Authority = Authority(revoked: bool, holders: set<nat>, next: nat, drained: nat, closed: set<nat>)

  const NEW_AUTHORITY: Authority := Authority(false, {}, 0, 0, {0})

  function AuthorityAcquire(a: Authority): Authority {
    if a.revoked then a
    else a.(holders := a.holders + {a.next}, next := a.next + 1, drained := if a.holders == {} then a.drained + 1 else a.drained)
  }

  function AuthorityRelease(a: Authority, h: nat): Authority {
    if h !in a.holders then a
    else
      var holders := a.holders - {h};
      a.(holders := holders, closed := if holders == {} then a.closed + {a.drained} else a.closed)
  }

  function Revoke(a: Authority): Authority { a.(revoked := true) }

  /** Where the cleanup goroutine is; each stage carries what it has read so far. */
  datatype Stage =
    | Idle
    | Launched
    | AwaitRefs(refsDone: nat)
    | RefsGone(force: bool)
    | Revoked(force: bool)
    | AwaitPool
    | PoolDone(residual: set<nat>)
    | AwaitAuthority(authorityDone: nat, residual: set<nat>)
    | ReadyToRemove(residual: set<nat>)
    | Done

  datatype Generation = Generation(
    number: nat,
    broker: bool,
    authority: Authority,
    pool: P.Pool,
    admitted: bool,
    retiring: bool,
    requested: bool,
    armed: bool,
    forceAbort: bool,
    closing: bool,
    leases: set<nat>,
    nextLease: nat,
    refsDone: nat,
    refsClosed: set<nat>,
    stage: Stage,
    removals: nat)

  /** The pool renumbers generation 0 as 1. */
  function PoolGeneration(number: nat): nat { if number == 0 then 1 else number }

  function Prepared(number: nat, broker: bool, cfg: P.Config): Generation {
    Generation(number, broker, NEW_AUTHORITY, P.New(cfg.(generation := PoolGeneration(number))), false, false, false, false, false, false, {}, 0, 0, {0}, Idle, 0)
  }

  /*** Invocations ***/

  predicate MayAcquire(g: Generation) { g.admitted && !g.retiring && !g.closing }

  function Acquire(g: Generation): Generation {
    if !MayAcquire(g) then g
    else g.(leases := g.leases + {g.nextLease}, nextLease := g.nextLease + 1, refsDone := if g.leases == {} then g.refsDone + 1 else g.refsDone)
  }

  function MaybeStart(g: Generation): Generation {
    if g.requested && g.armed && g.stage == Idle then g.(stage := Launched) else g
  }

  function Release(g: Generation, lease: nat): Generation {
    if lease !in g.leases then g
    else
      var leases := g.leases - {lease};
      MaybeStart(g.(leases := leases, refsClosed := if leases == {} then g.refsClosed + {g.refsDone} else g.refsClosed))
  }

  /*** Lifecycle ***/

  function Activate(g: Generation): Generation {
    if g.closing || g.retiring then g else g.(admitted := true, pool := P.RequestReplenish(g.pool))
  }

  function Retire(g: Generation): Generation {
    MaybeStart(g.(admitted := false, retiring := true, requested := true, armed := true))
  }

  /** The first section of broadcastCleanup. */
  function Mark(g: Generation, force: bool): Generation {
    g.(admitted := false, retiring := true, requested := true, forceAbort := g.forceAbort || force)
  }

  /** Its last section, once the pools have been told to drain. */
  function ArmCleanup(g: Generation): Generation {
    if g.requested then MaybeStart(g.(armed := true)) else g
  }

  ghost function DrainPool(g: Generation, force: bool, order: seq<nat>): Generation {
    g.(pool := P.BeginDrain(g.pool, force, g.number, order))
  }

  function RevokeAuthority(g: Generation): Generation { if g.broker then g.(authority := Revoke(g.authority)) else g }

  /*** The cleanup goroutine ***/

  /** What the pool's drain future answers: a stale generation gets a finished one at once. */
  predicate PoolAnswered(g: Generation) { g.number != g.pool.cfg.generation || g.pool.drain.finalized }

  function PoolResidual(g: Generation): set<nat> {
    if g.number != g.pool.cfg.generation then {} else g.pool.drain.result.residual
  }

  ghost function Cleanup(g: Generation, order: seq<nat>): Generation {
    match g.stage
    case Launched => g.(stage := AwaitRefs(g.refsDone))
    case AwaitRefs(ch) => if ch in g.refsClosed then g.(stage := RefsGone(g.forceAbort)) else g
    case RefsGone(force) => RevokeAuthority(g).(stage := Revoked(force))
    case Revoked(force) => DrainPool(g, force, order).(stage := AwaitPool)
    case AwaitPool => if PoolAnswered(g) then g.(stage := PoolDone(PoolResidual(g))) else g
    case PoolDone(residual) => g.(stage := if g.broker then AwaitAuthority(g.authority.drained, residual) else ReadyToRemove(residual))
    case AwaitAuthority(ch, residual) => if ch in g.authority.closed then g.(stage := ReadyToRemove(residual)) else g
    case ReadyToRemove(residual) => g.(stage := Done, removals := if residual == {} then g.removals + 1 else g.removals)
    case _ => g
  }

  /*** Runs ***/

  datatype Op =
    | DoAcquire
    | DoRelease(lease: nat)
    | DoActivate
    | DoRetire
    | DoMark(force: bool)
    | DoRevoke
    | DoDrain(force: bool, order: seq<nat>)
    | DoArm
    | DoStopAll
    | DoPool(op: P.Op)
    | DoHostAcquire
    | DoHostRelease(holder: nat)
    | DoCleanup(order: seq<nat>)

  ghost function Step(g: Generation, op: Op): Generation {
    match op
    case DoAcquire => Acquire(g)
    case DoRelease(lease) => Release(g, lease)
    case DoActivate => Activate(g)
    case DoRetire => Retire(g)
    case DoMark(force) => Mark(g, force)
    case DoRevoke => RevokeAuthority(g)
    case DoDrain(force, order) => if g.requested then DrainPool(g, force, order) else g
    case DoArm => ArmCleanup(g)
    case DoStopAll => g.(closing := true)
    case DoPool(o) => g.(pool := P.Step(g.pool, o))
    case DoHostAcquire => if g.broker then g.(authority := AuthorityAcquire(g.authority)) else g
    case DoHostRelease(h) => g.(authority := AuthorityRelease(g.authority, h))
    case DoCleanup(order) => Cleanup(g, order)
  }

  ghost function Exec(g: Generation, run: seq<Op>): Generation {
    if run == [] then g else Step(Exec(g, run[..|run| - 1]), run[|run| - 1])
  }
}
