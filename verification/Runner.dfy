/** The runner's per-generation state and the broker authority as the code keeps them:
    counters and flags updated under a mutex, each section proved to be the model's step. */
module Runner {
  import opened RunnerModel
  import P = PoolModel

  class GenerationAuthority {
    var revoked: bool
    var active: nat
    var drained: nat
    var closed: set<nat>
    /** The host calls the counter stands for. */
    ghost var holders: set<nat>
    ghost var next: nat

    ghost function State(): Authority
      reads this
    {
      Authority(revoked, holders, next, drained, closed)
    }

    ghost predicate Valid()
      reads this
    {
      active == |holders| && forall h :: h in holders ==> h < next
    }

    constructor ()
      ensures Valid() && State() == NEW_AUTHORITY
    {
      revoked, active, drained, closed, holders, next := false, 0, 0, {0}, {}, 0;
    }

    /** acquire: refused once revoked; the first holder opens a new drained channel. */
    method Acquire() returns (ok: bool)
      requires Valid()
      modifies this
      ensures Valid() && ok == !old(revoked) && State() == AuthorityAcquire(old(State()))
    {
      if revoked { return false; }
      if active == 0 { drained := drained + 1; }
      active := active + 1;
      assert next !in holders;
      holders, next := holders + {next}, next + 1;
      return true;
    }

    /** The release function acquire returned to holder h. */
    method Release(ghost h: nat)
      requires Valid() && h in holders
      modifies this
      ensures Valid() && State() == AuthorityRelease(old(State()), h)
    {
      holders := holders - {h};
      active := active - 1;
      if active == 0 { closed := closed + {drained}; }
    }

    method RevokeIt()
      requires Valid()
      modifies this
      ensures Valid() && State() == Revoke(old(State()))
    {
      if !revoked { revoked := true; }
    }
  }

  class GenerationState {
    const number: nat
    var admitted: bool
    var retiring: bool
    var requested: bool
    var armed: bool
    var forceAbort: bool
    var closing: bool
    var refs: nat
    var refsDone: nat
    var refsClosed: set<nat>
    /** Whether the cleanup goroutine has been launched. */
    var launched: bool
    /** The invocation leases the counter stands for. */
    ghost var leases: set<nat>
    ghost var nextLease: nat
    /** The parts that live outside this object. */
    ghost var outside: Generation

    ghost function State(): Generation
      reads this
    {
      outside.(number := number, admitted := admitted, retiring := retiring, requested := requested, armed := armed, forceAbort := forceAbort,
               closing := closing, leases := leases, nextLease := nextLease, refsDone := refsDone, refsClosed := refsClosed)
    }

    ghost predicate Valid()
      reads this
    {
      refs == |leases| && (forall l :: l in leases ==> l < nextLease) && (launched <==> outside.stage != Idle)
    }

    constructor (generation: nat, ghost broker: bool, ghost cfg: P.Config)
      ensures Valid() && State() == Prepared(generation, broker, cfg)
    {
      number, admitted, retiring, requested, armed, forceAbort, closing := generation, false, false, false, false, false, false;
      refs, refsDone, refsClosed, launched, leases, nextLease := 0, 0, {0}, false, {}, 0;
      outside := Prepared(generation, broker, cfg);
    }

    /** AcquireInvocation */
    method AcquireInvocation() returns (ok: bool)
      requires Valid()
      modifies this
      ensures Valid() && ok == MayAcquire(old(State())) && State() == Acquire(old(State()))
    {
      if !admitted || retiring || closing { return false; }
      if refs == 0 { refsDone := refsDone + 1; }
      refs := refs + 1;
      assert nextLease !in leases;
      leases, nextLease := leases + {nextLease}, nextLease + 1;
      return true;
    }

    /** maybeStartCleanupLocked */
    method MaybeStartCleanup()
      requires Valid()
      modifies `launched, `outside
      ensures Valid() && State() == MaybeStart(old(State()))
    {
      if !requested || !armed { return; }
      if !launched {
        launched := true;
        outside := outside.(stage := Launched);
      }
    }

    /** The once-only release of a lease; the last one closes the channel cleanup waits on. */
    method Release(ghost lease: nat)
      requires Valid() && lease in leases
      modifies this
      ensures Valid() && State() == RunnerModel.Release(old(State()), lease)
    {
      leases := leases - {lease};
      refs := refs - 1;
      if refs == 0 { refsClosed := refsClosed + {refsDone}; }
      MaybeStartCleanup();
    }

    /** ActivateGeneration; the pool's own activation is its next section. */
    method ActivateGeneration() returns (ok: bool)
      requires Valid()
      modifies `admitted, `outside
      ensures Valid() && ok == (!closing && !retiring) && State() == Activate(old(State()))
    {
      if closing || retiring { return false; }
      admitted := true;
      outside := outside.(pool := P.RequestReplenish(outside.pool));
      return true;
    }

    /** RetireGeneration */
    method RetireGeneration()
      requires Valid()
      modifies this
      ensures Valid() && State() == Retire(old(State()))
    {
      admitted, retiring, requested, armed := false, true, true, true;
      MaybeStartCleanup();
    }

    /** The first section of broadcastCleanup, for this generation. */
    method MarkForCleanup(force: bool)
      requires Valid()
      modifies `admitted, `retiring, `requested, `forceAbort
      ensures Valid() && State() == Mark(old(State()), force)
    {
      admitted, retiring, requested := false, true, true;
      if force { forceAbort := true; }
    }

    /** Its last section. */
    method Arm()
      requires Valid() && requested
      modifies `armed, `launched, `outside
      ensures Valid() && State() == ArmCleanup(old(State()))
    {
      armed := true;
      MaybeStartCleanup();
    }
  }
}
