/** What Stop and Close leave behind (internal/plugin/runtime.go): every Start still under way has lost its authority and
    its entry, a repeated Stop joins the first, and a failed Stop is remembered. */
module RuntimeStops {
  import opened Options
  import opened RuntimeModel
  import opened RuntimeTheorems
  import opened RuntimeStatus

  /** A Start of the plugin that has not finished. */
  predicate Running(m: Manager, g: nat, p: PluginId) { g in m.attempts && m.attempts[g].plugin == p && !m.attempts[g].finished }

  /** No Start of the plugin is pending, and those still running have lost their authority. */
  ghost predicate Silent(m: Manager, p: PluginId) {
    && (forall g: nat :: g in m.pending && g in m.attempts ==> m.attempts[g].plugin != p)
    && (forall g: nat :: Running(m, g, p) ==> g in m.revoked)
  }

  /** A running Start is pending or has lost its authority. */
  ghost predicate Tracked(m: Manager, p: PluginId) { forall g: nat :: Running(m, g, p) ==> g in m.pending || g in m.revoked }

  /** A plugin whose latest number is a tombstone, and every plugin of a closing manager, is silent. */
  ghost predicate StopsOK(m: Manager, p: PluginId) {
    Tracked(m, p) && (m.closing || p !in m.latestGen || m.latestGen[p] !in m.attempts ==> Silent(m, p))
  }

  lemma StopsStartBegin(m: Manager, plugin: PluginId, transactional: bool, p: PluginId)
    requires NumbersOK(m) && StopsOK(m, p)
    ensures StopsOK(StartBegin(m, plugin, transactional), p)
  {
    hide IsArmed;
    assert m.nextGen + 1 !in m.attempts;
  }

  lemma StopsStartFinish(m: Manager, g: nat, outcome: Outcome, p: PluginId)
    requires StopsOK(m, p)
    ensures StopsOK(StartFinish(m, g, outcome), p)
  {
    hide StartFinish, ArmedLog, IsArmed, Current;
    StartFinishEffect(m, g, outcome, p);
  }

  lemma StopsRemoved(m: Manager, g: nat, p: PluginId)
    requires StopsOK(m, p)
    ensures StopsOK(RemovePending(m, g), p)
  {}

  lemma StopsStop(m: Manager, plugin: PluginId, p: PluginId)
    requires NumbersOK(m) && StopsOK(m, p)
    ensures StopsOK(StopBegin(m, plugin), p)
  {
    hide StopJoins, Forget;
    assert m.nextGen + 1 !in m.attempts;
  }

  lemma StopsRelabelled(m: Manager, n: Manager, p: PluginId)
    requires StopsOK(m, p) && Relabelled(m, n)
    ensures StopsOK(n, p)
  {
    hide Rephased;
  }

  lemma StopsClose(m: Manager, order: seq<PluginId>, p: PluginId)
    requires RuntimeTheorems.Inv(m) && StopsOK(m, p)
    ensures StopsOK(CloseBegin(m, order), p)
  {
    hide RuntimeTheorems.Inv, CloseBegin, ListOf, AffectedBy;
    if m.closing { CloseNoop(m, order); } else { CloseIs(m, order); }
  }

  lemma StopsStep(m: Manager, op: Op, p: PluginId)
    requires RuntimeTheorems.Inv(m) && StopsOK(m, p)
    ensures StopsOK(Step(m, op), p)
  {
    hide RuntimeTheorems.Inv, StopsOK, StartBegin, StartFinish, StopBegin, CloseBegin, NumbersOK, RemovePending, StopFinish, StopTimeout, CloseTimeout, CloseFinish, Relabelled;
    assert NumbersOK(m) by { InvNumbers(m); }
    match op
    case DoStartBegin(plugin, transactional) => StopsStartBegin(m, plugin, transactional, p);
    case DoStartFinish(g, outcome) => StopsStartFinish(m, g, outcome, p);
    case DoRemovePending(g) => StopsRemoved(m, g, p);
    case DoStop(plugin) => StopsStop(m, plugin, p);
    case DoClose(order) => StopsClose(m, order, p);
    case DoStopFinish(t, failed) =>
      StopFinishRelabels(m, t, failed);
      StopsRelabelled(m, StopFinish(m, t, failed), p);
    case DoStopTimeout(t) =>
      TimeoutRelabels(m, t);
      StopsRelabelled(m, StopTimeout(m, t), p);
    case DoCloseTimeout =>
      CloseRelabels(m, {});
      StopsRelabelled(m, CloseTimeout(m), p);
    case DoCloseFinish(failures) =>
      CloseRelabels(m, failures);
      StopsRelabelled(m, CloseFinish(m, failures), p);
  }

  lemma {:induction false} StopsAlways(run: seq<Op>, p: PluginId)
    ensures StopsOK(Exec(NEW, run), p)
    decreases |run|
  {
    hide RuntimeTheorems.Inv, Step, StopsOK;
    NewInv();
    if run == [] {
      assert StopsOK(NEW, p) by { NewStops(p); }
    } else {
      StopsAlways(run[..|run| - 1], p);
      ExecInv(NEW, run[..|run| - 1]);
      StopsStep(Exec(NEW, run[..|run| - 1]), run[|run| - 1], p);
    }
  }

  lemma NewStops(p: PluginId)
    ensures StopsOK(NEW, p)
  {}

  /** In every interleaving, once Stop has drawn or joined its tombstone no Start of the plugin is pending and every one
      still running has lost its authority; after Close that is so of every plugin. */
  lemma StopSilences(run: seq<Op>, p: PluginId, order: seq<PluginId>)
    ensures Silent(Step(Exec(NEW, run), DoStop(p)), p)
    ensures Silent(Step(Exec(NEW, run), DoClose(order)), p)
  {
    hide Exec, RuntimeTheorems.Inv, StopsOK, Silent, StopBegin, CloseBegin;
    var m := Exec(NEW, run);
    NewInv();
    ExecInv(NEW, run);
    StopsAlways(run, p);
    StopsStep(m, DoStop(p), p);
    StopsStep(m, DoClose(order), p);
    CloseBeginInv(m, order);
    AtTheEnd(CloseBegin(m, order), p);
    StopEndsUp(m, p);
    AtTheEnd(StopBegin(m, p), p);
  }

  lemma AtTheEnd(m: Manager, p: PluginId)
    requires StopsOK(m, p) && (m.closing || p !in m.latestGen || m.latestGen[p] !in m.attempts)
    ensures Silent(m, p)
  {}

  lemma StopEndsUp(m: Manager, p: PluginId)
    requires RuntimeTheorems.Inv(m)
    ensures var n := StopBegin(m, p); n.closing || p !in n.latestGen || n.latestGen[p] !in n.attempts
  {
    hide FuturesOK, ArmedOK, PendingOK, LogsOK, Forget, PendingOf;
  }

  /*** Stopping again ***/

  /** A Stop that follows another of the same plugin joins it: it draws nothing, revokes nothing and changes no status. */
  lemma StopTwice(m: Manager, p: PluginId)
    ensures Step(Step(m, DoStop(p)), DoStop(p)) == Step(m, DoStop(p))
  {
    hide Forget, PendingOf;
  }

  /** A Stop that draws a tombstone has its future wait for exactly the Starts it cancelled and the authority it found, and
      revokes those; every other future stays, but for the plugin's own that were done without failing. */
  lemma StopRemembers(m: Manager, p: PluginId, u: nat)
    requires Step(m, DoStop(p)) != m
    ensures var n, t := Step(m, DoStop(p)), m.nextGen + 1;
            && n.instances == m.instances[p := Instance(Stopping, t, None, false)] && t in n.futures
            && n.futures[t] == Future(p, if p in m.instances then m.instances[p].authority else None,
                                      set g | g in m.pending && g in m.attempts && m.attempts[g].plugin == p, false, false)
            && (u != t ==> (u in n.futures <==> u in m.futures && (m.futures[u].plugin != p || !m.futures[u].done || m.futures[u].failed)))
            && (u != t && u in n.futures ==> n.futures[u] == m.futures[u])
  {}

  /** The future of a Stop that failed stays, with what it could not clean up, whatever happens next. */
  lemma FailureStays(m: Manager, op: Op, t: nat)
    requires RuntimeTheorems.Inv(m) && t in m.futures && m.futures[t].done && m.futures[t].failed
    ensures t in Step(m, op).futures && Step(m, op).futures[t] == m.futures[t]
  {
    hide RuntimeTheorems.Inv, CloseBegin, HeldAuthorities, StartFinish, StartBegin, StopBegin;
    match op
    case DoClose(order) => if m.closing { CloseNoop(m, order); } else { CloseIs(m, order); }
    case DoStartFinish(g, outcome) => StartFinishEffect(m, g, outcome, 0);
    case DoStartBegin(plugin, transactional) => BeginFutures(m, plugin, transactional);
    case DoStop(plugin) => StopFutures(m, plugin, t);
    case _ =>
  }

  lemma BeginFutures(m: Manager, plugin: PluginId, transactional: bool)
    ensures StartBegin(m, plugin, transactional).futures == m.futures
  {}

  lemma StopFutures(m: Manager, plugin: PluginId, t: nat)
    requires RuntimeTheorems.Inv(m) && t in m.futures && m.futures[t].done && m.futures[t].failed
    ensures t in StopBegin(m, plugin).futures && StopBegin(m, plugin).futures[t] == m.futures[t]
  {
    hide FuturesOK, ArmedOK, PendingOK, LogsOK, PendingOf, StopJoins;
  }

  /** A Start's entry goes once it has finished, and nothing else does. */
  lemma EntryGoes(m: Manager, g: nat)
    ensures Step(m, DoRemovePending(g)) == if g in m.attempts && m.attempts[g].finished then m.(pending := m.pending - {g}) else m
  {}
}
