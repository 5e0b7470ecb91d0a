/** Who may use a generation (internal/plugin/system_runner.go, internal/plugin/broker.go), told by what happened to it:
    invocations are admitted exactly between activation and the first retirement or shutdown, and leases and host
    calls come and go one by one. */
module RunnerUse {
  import opened RunnerModel
  import P = PoolModel

  predicate Retires(op: Op) { op.DoRetire? || op.DoMark? }

  lemma StepFlags(g: Generation, op: Op)
    ensures var n := Step(g, op);
            && n.closing == (g.closing || op.DoStopAll?)
            && n.retiring == (g.retiring || Retires(op))
            && n.admitted == (if Retires(op) then false else g.admitted || (op.DoActivate? && !g.closing && !g.retiring))
  {
    hide P.Step, P.BeginDrain, P.RequestReplenish, AuthorityAcquire, AuthorityRelease, Revoke, Cleanup;
    if op.DoCleanup? { CleanupFlags(g, op.order); }
  }

  ghost predicate Undisturbed(g: Generation, n: Generation) {
    n.closing == g.closing && n.retiring == g.retiring && n.admitted == g.admitted && n.leases == g.leases
  }

  lemma CleanupFlags(g: Generation, order: seq<nat>)
    ensures Undisturbed(g, Cleanup(g, order))
    ensures Cleanup(g, order).authority == if g.broker && g.stage.RefsGone? then g.authority.(revoked := true) else g.authority
  {
    hide Cleanup, Undisturbed;
    if g.stage.RefsGone? || g.stage.Revoked? {
      DrainTurn(g, order);
    } else if g.stage.Launched? || g.stage.AwaitRefs? || g.stage.AwaitPool? {
      WaitTurn(g, order);
    } else {
      EndTurn(g, order);
    }
  }

  lemma DrainTurn(g: Generation, order: seq<nat>)
    requires g.stage.RefsGone? || g.stage.Revoked?
    ensures Undisturbed(g, Cleanup(g, order))
    ensures Cleanup(g, order).authority == if g.broker && g.stage.RefsGone? then g.authority.(revoked := true) else g.authority
  {
    hide P.BeginDrain;
  }

  lemma WaitTurn(g: Generation, order: seq<nat>)
    requires g.stage.Launched? || g.stage.AwaitRefs? || g.stage.AwaitPool?
    ensures Undisturbed(g, Cleanup(g, order)) && Cleanup(g, order).authority == g.authority
  {
    hide PoolAnswered, PoolResidual;
  }

  lemma EndTurn(g: Generation, order: seq<nat>)
    requires g.stage.Idle? || g.stage.PoolDone? || g.stage.AwaitAuthority? || g.stage.ReadyToRemove? || g.stage.Done?
    ensures Undisturbed(g, Cleanup(g, order)) && Cleanup(g, order).authority == g.authority
  {}

  ghost predicate Happened(run: seq<Op>, p: Op -> bool) { exists i :: 0 <= i < |run| && p(run[i]) }

  lemma HappenedMore(run: seq<Op>, p: Op -> bool)
    requires run != []
    ensures Happened(run, p) <==> Happened(run[..|run| - 1], p) || p(run[|run| - 1])
  {
    var init := run[..|run| - 1];
    if i :| 0 <= i < |init| && p(init[i]) { assert p(run[i]); }
    if i :| 0 <= i < |run| && p(run[i]) && i < |run| - 1 { assert p(init[i]); }
  }

  lemma {:induction false} FlagsAre(number: nat, broker: bool, cfg: P.Config, run: seq<Op>)
    ensures var g := Exec(Prepared(number, broker, cfg), run);
            && g.closing == Happened(run, (op: Op) => op.DoStopAll?)
            && g.retiring == Happened(run, (op: Op) => Retires(op))
            && (!g.closing && !g.retiring ==> g.admitted == Happened(run, (op: Op) => op.DoActivate?))
    decreases |run|
  {
    hide Step, Happened;
    var stops, retires, starts := (op: Op) => op.DoStopAll?, (op: Op) => Retires(op), (op: Op) => op.DoActivate?;
    if run == [] {
      assert !Happened(run, stops) && !Happened(run, retires) && !Happened(run, starts) by { NothingHappened(stops); NothingHappened(retires); NothingHappened(starts); }
    } else {
      FlagsAre(number, broker, cfg, run[..|run| - 1]);
      StepFlags(Exec(Prepared(number, broker, cfg), run[..|run| - 1]), run[|run| - 1]);
      HappenedMore(run, stops);
      HappenedMore(run, retires);
      HappenedMore(run, starts);
    }
  }

  lemma NothingHappened(p: Op -> bool)
    ensures !Happened([], p)
  {}

  /** In every interleaving an invocation is admitted exactly when the generation has been activated and has not been
      retired, marked for cleanup or shut down, and it then gets a lease nobody has had. */
  lemma AdmittedExactly(number: nat, broker: bool, cfg: P.Config, run: seq<Op>)
    ensures var g := Exec(Prepared(number, broker, cfg), run);
            var n := Step(g, DoAcquire);
            if Happened(run, (op: Op) => op.DoActivate?) && !Happened(run, (op: Op) => Retires(op)) && !Happened(run, (op: Op) => op.DoStopAll?)
            then n.leases == g.leases + {g.nextLease} && n.nextLease == g.nextLease + 1
            else n == g
  {
    hide Exec, Happened;
    FlagsAre(number, broker, cfg, run);
  }

  /** Leases come and go one at a time: only an admitted invocation adds one, and only its release takes it away. */
  lemma LeasesMove(g: Generation, op: Op)
    ensures var n := Step(g, op);
            n.leases == match op
                        case DoAcquire => if g.admitted && !g.retiring && !g.closing then g.leases + {g.nextLease} else g.leases
                        case DoRelease(lease) => g.leases - {lease}
                        case _ => g.leases
  {
    hide P.Step, P.BeginDrain, P.RequestReplenish, AuthorityAcquire, AuthorityRelease, Revoke, Cleanup;
    if op.DoCleanup? { CleanupFlags(g, op.order); }
  }

  /** So do host calls, while the authority stands; it is revoked by name, or by the cleanup once the invocations are gone. */
  lemma HostCallsMove(g: Generation, op: Op)
    ensures var a, b := g.authority, Step(g, op).authority;
            && b.holders == (match op
                             case DoHostAcquire => if g.broker && !a.revoked then a.holders + {a.next} else a.holders
                             case DoHostRelease(h) => a.holders - {h}
                             case _ => a.holders)
            && b.revoked == (a.revoked || (g.broker && (op.DoRevoke? || (op.DoCleanup? && g.stage.RefsGone?))))
  {
    hide P.Step, P.BeginDrain, P.RequestReplenish, Cleanup;
    if op.DoCleanup? { CleanupFlags(g, op.order); }
  }
}
