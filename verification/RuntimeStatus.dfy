/** What a plugin's published status may become (internal/plugin/runtime.go): an armed one is replaced only between
    transactional runners, and every stop and close ends in the phase its outcome calls for. */
module RuntimeStatus {
  import opened Options
  import opened RuntimeModel
  import opened RuntimeTheorems

  /*** Replacing an armed plugin ***/

  /** The plugin's latest Start is still under way and may still publish. */
  ghost predicate UnderWay(m: Manager, p: PluginId) {
    !m.closing && p in m.latestGen && m.latestGen[p] in m.attempts && m.attempts[m.latestGen[p]].plugin == p && !m.attempts[m.latestGen[p]].finished
  }

  /** An armed plugin was armed by a Start whose runner it still has, and a Start under way beside it may only be
      transactional, over a transactional one. */
  ghost predicate SwapOK(m: Manager, p: PluginId) {
    IsArmed(m, p) ==>
      var i := m.instances[p];
      && i.generation in m.attempts && m.attempts[i.generation].transactional == i.transactional
      && (UnderWay(m, p) ==> i.transactional && m.attempts[m.latestGen[p]].transactional)
  }

  lemma SwapStartBegin(m: Manager, plugin: PluginId, transactional: bool, p: PluginId)
    requires NumbersOK(m) && SwapOK(m, p)
    ensures SwapOK(StartBegin(m, plugin, transactional), p)
  {
    assert m.nextGen + 1 !in m.attempts;
  }

  lemma SwapStartFinish(m: Manager, g: nat, outcome: Outcome, p: PluginId)
    requires SwapOK(m, p)
    ensures SwapOK(StartFinish(m, g, outcome), p)
  {
    hide StartFinish, ArmedLog;
    StartFinishEffect(m, g, outcome, p);
  }

  lemma SwapStop(m: Manager, plugin: PluginId, p: PluginId)
    requires NumbersOK(m) && SwapOK(m, p)
    ensures SwapOK(StopBegin(m, plugin), p)
  {
    hide StopJoins, Forget, PendingOf;
  }

  lemma SwapRelabelled(m: Manager, n: Manager, p: PluginId)
    requires SwapOK(m, p) && Relabelled(m, n)
    ensures SwapOK(n, p)
  {}

  lemma TimeoutRelabels(m: Manager, t: nat)
    ensures Relabelled(m, StopTimeout(m, t))
  {
    hide OwnsStatus;
  }

  lemma CloseRelabels(m: Manager, failures: set<PluginId>)
    ensures Relabelled(m, CloseTimeout(m)) && Relabelled(m, CloseFinish(m, failures))
  {
    hide OwnsEpoch;
  }

  lemma SwapRemoved(m: Manager, g: nat, p: PluginId)
    requires SwapOK(m, p)
    ensures SwapOK(RemovePending(m, g), p)
  {}

  lemma SwapClose(m: Manager, order: seq<PluginId>, p: PluginId)
    requires RuntimeTheorems.Inv(m) && SwapOK(m, p)
    ensures SwapOK(CloseBegin(m, order), p)
  {
    hide RuntimeTheorems.Inv, CloseBegin, SwapOK;
    CloseBeginInv(m, order);
    ShutIsNotArmed(CloseBegin(m, order), p);
    UnarmedSwaps(CloseBegin(m, order), p);
  }

  lemma UnarmedSwaps(m: Manager, p: PluginId)
    ensures !IsArmed(m, p) ==> SwapOK(m, p)
  {}

  lemma ShutIsNotArmed(m: Manager, p: PluginId)
    requires RuntimeTheorems.Inv(m) && m.closing
    ensures !IsArmed(m, p)
  {
    hide NumbersOK, FuturesOK, PendingOK, LogsOK, StartedBy;
    if p in m.instances { assert InstanceOK(m, p); }
  }

  lemma SwapStep(m: Manager, op: Op, p: PluginId)
    requires RuntimeTheorems.Inv(m) && SwapOK(m, p)
    ensures SwapOK(Step(m, op), p)
  {
    hide RuntimeTheorems.Inv, SwapOK, StartBegin, StartFinish, StopBegin, CloseBegin, NumbersOK, RemovePending, StopFinish, StopTimeout, CloseTimeout, CloseFinish, Relabelled;
    assert NumbersOK(m) by { InvNumbers(m); }
    match op
    case DoStartBegin(plugin, transactional) => SwapStartBegin(m, plugin, transactional, p);
    case DoStartFinish(g, outcome) => SwapStartFinish(m, g, outcome, p);
    case DoStop(plugin) => SwapStop(m, plugin, p);
    case DoClose(order) => SwapClose(m, order, p);
    case DoRemovePending(g) => SwapRemoved(m, g, p);
    case DoStopFinish(t, failed) =>
      StopFinishRelabels(m, t, failed);
      SwapRelabelled(m, StopFinish(m, t, failed), p);
    case DoStopTimeout(t) =>
      TimeoutRelabels(m, t);
      SwapRelabelled(m, StopTimeout(m, t), p);
    case DoCloseTimeout =>
      CloseRelabels(m, {});
      SwapRelabelled(m, CloseTimeout(m), p);
    case DoCloseFinish(failures) =>
      CloseRelabels(m, failures);
      SwapRelabelled(m, CloseFinish(m, failures), p);
  }

  lemma InvNumbers(m: Manager)
    requires RuntimeTheorems.Inv(m)
    ensures NumbersOK(m)
  {
    hide NumbersOK, FuturesOK, ArmedOK, PendingOK, LogsOK;
  }

  lemma {:induction false} SwapAlways(run: seq<Op>, p: PluginId)
    ensures SwapOK(Exec(NEW, run), p)
    decreases |run|
  {
    hide RuntimeTheorems.Inv, Step, SwapOK;
    NewInv();
    if run == [] {
      assert SwapOK(NEW, p) by { UnarmedSwaps(NEW, p); }
    } else {
      SwapAlways(run[..|run| - 1], p);
      ExecInv(NEW, run[..|run| - 1]);
      SwapStep(Exec(NEW, run[..|run| - 1]), run[|run| - 1], p);
    }
  }

  /** In every interleaving, a step that leaves an armed plugin armed with another generation is the end of a Start of
      that plugin, to a newer generation, and both the runner it had and the one it gets are transactional. */
  lemma ReplacedOnlyTransactionally(run: seq<Op>, op: Op, p: PluginId)
    ensures var m, n := Exec(NEW, run), Step(Exec(NEW, run), op);
            IsArmed(m, p) && IsArmed(n, p) && n.instances[p].generation != m.instances[p].generation ==>
              var was, now := m.instances[p].generation, n.instances[p].generation;
              && op == DoStartFinish(now, Ready) && was < now
              && was in m.attempts && m.attempts[was].transactional && m.instances[p].transactional
              && now in m.attempts && m.attempts[now].plugin == p && m.attempts[now].transactional && n.instances[p].transactional
  {
    hide Exec, RuntimeTheorems.Inv, Step;
    NewInv();
    ExecInv(NEW, run);
    SwapAlways(run, p);
    OnlyStartsReplace(Exec(NEW, run), op, p);
  }

  lemma OnlyStartsReplace(m: Manager, op: Op, p: PluginId)
    requires RuntimeTheorems.Inv(m) && SwapOK(m, p)
    ensures var n := Step(m, op);
            IsArmed(m, p) && IsArmed(n, p) && n.instances[p].generation != m.instances[p].generation ==>
              var was, now := m.instances[p].generation, n.instances[p].generation;
              && op == DoStartFinish(now, Ready) && was < now
              && was in m.attempts && m.attempts[was].transactional && m.instances[p].transactional
              && now in m.attempts && m.attempts[now].plugin == p && m.attempts[now].transactional && n.instances[p].transactional
  {
    hide RuntimeTheorems.Inv, StartBegin, StartFinish, StopBegin, CloseBegin, Forget, ArmedLog;
    match op
    case DoStartFinish(g, outcome) =>
      StartFinishEffect(m, g, outcome, p);
      ArmedBelow(m, p);
    case DoStartBegin(plugin, transactional) => SameStatuses(m, plugin, transactional);
    case DoStop(plugin) => StopStatus(m, plugin, p);
    case DoClose(order) =>
      CloseBeginInv(m, order);
      ShutIsNotArmed(CloseBegin(m, order), p);
    case _ =>
  }

  lemma SameStatuses(m: Manager, plugin: PluginId, transactional: bool)
    ensures StartBegin(m, plugin, transactional).instances == m.instances
  {}

  lemma StopStatus(m: Manager, plugin: PluginId, p: PluginId)
    ensures var n := StopBegin(m, plugin); p in n.instances && n.instances[p].phase == Armed ==> p in m.instances && n.instances[p] == m.instances[p]
  {
    hide StopJoins, Forget, PendingOf;
  }

  lemma ArmedBelow(m: Manager, p: PluginId)
    requires RuntimeTheorems.Inv(m)
    ensures IsArmed(m, p) ==> m.instances[p].generation <= Latest(m, p)
  {
    hide NumbersOK, FuturesOK, PendingOK, ArmedOK, StartedBy;
    assert LogOK(m, p);
    if IsArmed(m, p) { assert m.instances[p].generation in ArmedLog(m, p); }
  }

  /*** When a Start gets its turn ***/

  /** A Start draws a generation exactly when the manager is not closing and the plugin is not armed, or both its
      runner and the armed one are transactional; it is then the plugin's latest. Refused, it changes nothing. */
  lemma StartDraws(m: Manager, plugin: PluginId, transactional: bool)
    ensures var n := Step(m, DoStartBegin(plugin, transactional));
            if !m.closing && (plugin !in m.instances || m.instances[plugin].phase != Armed || (transactional && m.instances[plugin].transactional)) then
              && n.nextGen == m.nextGen + 1 && n.latestGen == m.latestGen[plugin := n.nextGen] && n.pending == m.pending + {n.nextGen}
              && n.attempts == m.attempts[n.nextGen := Attempt(plugin, transactional, false)] && n.instances == m.instances && n.revoked == m.revoked
            else n == m
  {}

  /** A Start that is over: a ready one arms its plugin exactly when no later Start, Stop or Close has come; a failed one
      is then published, but not over an armed plugin; in every other case no status changes and its authority is revoked. */
  lemma StartEnds(run: seq<Op>, g: nat, outcome: Outcome)
    requires g in Exec(NEW, run).attempts && !Exec(NEW, run).attempts[g].finished
    ensures var m, n := Exec(NEW, run), Step(Exec(NEW, run), DoStartFinish(g, outcome));
            var p := m.attempts[g].plugin;
            var stands := !m.closing && p in m.latestGen && m.latestGen[p] == g;
            if stands && outcome == Ready then
              n.instances == m.instances[p := Instance(Armed, g, Some(g), m.attempts[g].transactional)] && n.revoked == m.revoked
            else
              && n.revoked == m.revoked + {g}
              && n.instances == if stands && !(p in m.instances && m.instances[p].phase == Armed) then m.instances[p := Instance(Failed, g, None, false)] else m.instances
  {
    hide Exec, RuntimeTheorems.Inv, StartFinish;
    NewInv();
    ExecInv(NEW, run);
    var m := Exec(NEW, run);
    assert g > 0 by { InvNumbers(m); }
    StandsIs(m, g);
    FinishesAs(m, g, outcome);
  }

  lemma FinishesAs(m: Manager, g: nat, outcome: Outcome)
    requires g in m.attempts && !m.attempts[g].finished
    ensures var n, p := StartFinish(m, g, outcome), m.attempts[g].plugin;
            if Current(m, g) && outcome == Ready then
              n.instances == m.instances[p := Instance(Armed, g, Some(g), m.attempts[g].transactional)] && n.revoked == m.revoked
            else
              && n.revoked == m.revoked + {g}
              && n.instances == if Current(m, g) && !IsArmed(m, p) then m.instances[p := Instance(Failed, g, None, false)] else m.instances
  {
    hide Current, ArmedLog;
  }

  lemma StandsIs(m: Manager, g: nat)
    requires g > 0 && g in m.attempts && !m.attempts[g].finished
    ensures Current(m, g) <==> !m.closing && m.attempts[g].plugin in m.latestGen && m.latestGen[m.attempts[g].plugin] == g
  {}

  /*** How stops and closes end ***/

  /** The plugin's status is the tombstone's, and nothing has come since. */
  predicate AtTombstone(m: Manager, p: PluginId, t: nat) {
    !m.closing && p in m.instances && m.instances[p].generation == t && (if p in m.latestGen then m.latestGen[p] else 0) == t
  }

  /** A stop that ends is done, and failed only if it failed; the status still at its tombstone becomes degraded if it
      failed and stopped if not, and no other status changes. A failed one still holds what it could not clean up. */
  lemma StopEnds(m: Manager, t: nat, failed: bool, p: PluginId)
    requires t in m.futures && !m.futures[t].done
    ensures var n := Step(m, DoStopFinish(t, failed));
            && n.futures[t].done && n.futures[t].failed == (m.futures[t].failed || failed)
            && (if failed then n.futures[t].authority == m.futures[t].authority && n.futures[t].pending == m.futures[t].pending
                else n.futures[t].authority == None && n.futures[t].pending == {})
            && (p in n.instances <==> p in m.instances)
            && (p in m.instances ==>
                n.instances[p] == if p == m.futures[t].plugin && AtTombstone(m, p, t) then m.instances[p].(phase := if failed then Degraded else Stopped) else m.instances[p])
  {
    hide StopFinish;
    StopFinishIs(m, t, failed);
  }

  lemma StopFinishIs(m: Manager, t: nat, failed: bool)
    requires t in m.futures && !m.futures[t].done
    ensures var n, q := StopFinish(m, t, failed), m.futures[t].plugin;
            && t in n.futures && n.futures[t].done && n.futures[t].failed == (m.futures[t].failed || failed)
            && (if failed then n.futures[t].authority == m.futures[t].authority && n.futures[t].pending == m.futures[t].pending
                else n.futures[t].authority == None && n.futures[t].pending == {})
            && n.instances == if AtTombstone(m, q, t) then m.instances[q := m.instances[q].(phase := if failed then Degraded else Stopped)] else m.instances
  {
    TombstoneIs(m, m.futures[t].plugin, t);
    hide AtTombstone, OwnsStatus, Latest;
    var f := m.futures[t];
    var n := m.(futures := m.futures[t := if failed then f.(done := true, failed := true) else f.(done := true, authority := None, pending := {})]);
    PhaseIs(n, f.plugin, if failed then Degraded else Stopped);
    hide SetPhase;
  }

  lemma PhaseIs(m: Manager, q: PluginId, phase: Phase)
    ensures var n := SetPhase(m, q, phase);
            n.futures == m.futures && n.instances == if q in m.instances then m.instances[q := m.instances[q].(phase := phase)] else m.instances
  {}

  lemma TombstoneIs(m: Manager, q: PluginId, t: nat)
    ensures AtTombstone(m, q, t) <==> OwnsStatus(m, q, t) && !m.closing
    ensures AtTombstone(m, q, t) ==> q in m.instances
  {}

  /** A stop that only runs out of time is not done, and shows degraded the status still at its tombstone. */
  lemma StopRunsOut(m: Manager, t: nat)
    requires t in m.futures && !m.futures[t].done
    ensures var n, q := Step(m, DoStopTimeout(t)), m.futures[t].plugin;
            n == if AtTombstone(m, q, t) then m.(instances := m.instances[q := m.instances[q].(phase := Degraded)]) else m
  {}

  /** While the manager closes, every status is at the tombstone Close gave it. */
  ghost predicate Sealed(m: Manager) {
    m.closing ==> forall p: PluginId :: p in m.instances ==> p in m.epochs && m.instances[p].generation == m.epochs[p] == Latest(m, p)
  }

  lemma SealedClose(m: Manager, order: seq<PluginId>)
    requires RuntimeTheorems.Inv(m) && Sealed(m)
    ensures Sealed(CloseBegin(m, order))
  {
    hide RuntimeTheorems.Inv, CloseBegin, ListOf, HeldAuthorities;
    if m.closing {
      CloseNoop(m, order);
    } else {
      CloseIs(m, order);
      assert forall p: PluginId :: p in m.instances ==> p in AffectedBy(m);
    }
  }

  lemma SealedStep(m: Manager, op: Op)
    requires RuntimeTheorems.Inv(m) && Sealed(m)
    ensures Sealed(Step(m, op))
  {
    hide RuntimeTheorems.Inv, StartFinish, CloseBegin, Forget, PendingOf;
    match op
    case DoClose(order) => SealedClose(m, order);
    case DoStartFinish(g, outcome) => SealedFinish(m, g, outcome);
    case _ =>
  }

  lemma SealedFinish(m: Manager, g: nat, outcome: Outcome)
    requires Sealed(m)
    ensures Sealed(StartFinish(m, g, outcome))
  {}

  lemma {:induction false} SealedAlways(run: seq<Op>)
    ensures Sealed(Exec(NEW, run))
    decreases |run|
  {
    hide RuntimeTheorems.Inv, Step, Sealed;
    NewInv();
    if run == [] {
      assert Sealed(NEW) by { NewSealed(); }
    } else {
      SealedAlways(run[..|run| - 1]);
      ExecInv(NEW, run[..|run| - 1]);
      SealedStep(Exec(NEW, run[..|run| - 1]), run[|run| - 1]);
    }
  }

  lemma NewSealed()
    ensures Sealed(NEW)
  {}

  /** In every interleaving, once Close is over every plugin's status is degraded if its cleanup failed and stopped if it
      did not, and a Close that runs out of time first shows degraded exactly what it had not stopped yet. */
  lemma CloseEnds(run: seq<Op>, failures: set<PluginId>, p: PluginId)
    requires Exec(NEW, run).closing && !Exec(NEW, run).closed && p in Exec(NEW, run).instances
    ensures var m, n := Exec(NEW, run), Step(Exec(NEW, run), DoCloseFinish(failures));
            n.closed && n.instances.Keys == m.instances.Keys && n.instances[p] == m.instances[p].(phase := if p in failures then Degraded else Stopped)
    ensures var m, n := Exec(NEW, run), Step(Exec(NEW, run), DoCloseTimeout);
            !n.closed && n.instances.Keys == m.instances.Keys && n.instances[p] == m.instances[p].(phase := if m.instances[p].phase == Stopping then Degraded else m.instances[p].phase)
  {
    hide Exec;
    SealedAlways(run);
  }
}
