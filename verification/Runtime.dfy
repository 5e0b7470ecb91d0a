/** The runtime manager as the code keeps it: maps updated under one mutex, each section
    proved to be the model's step. */
module Runtime {
  import opened Options
  import opened RuntimeModel

  class RuntimeManager {
    var nextGen: nat
    var latestGen: map<PluginId, nat>
    var attempts: map<nat, Attempt>
    var pending: set<nat>
    var instances: map<PluginId, Instance>
    var futures: map<nat, Future>
    var closing: bool
    var closed: bool
    var epochs: map<PluginId, nat>
    /** The authorities revoked so far. */
    var revoked: set<nat>
    /** The generations each plugin was armed with, in order. */
    ghost var armed: map<PluginId, seq<nat>>

    ghost function State(): Manager
      reads this
    {
      Manager(nextGen, latestGen, attempts, pending, instances, futures, closing, closed, epochs, revoked, armed)
    }

    constructor ()
      ensures State() == NEW
    {
      nextGen, latestGen, attempts, pending, instances, futures := 0, map[], map[], {}, map[], map[];
      closing, closed, epochs, revoked, armed := false, false, map[], {}, map[];
    }

    function LatestOf(plugin: PluginId): nat
      reads this
    {
      if plugin in latestGen then latestGen[plugin] else 0
    }

    /** The first section of Start: a generation and a pending entry, unless it is refused. */
    method StartBegin(plugin: PluginId, transactional: bool) returns (generation: Option<nat>)
      modifies this
      ensures State() == RuntimeModel.StartBegin(old(State()), plugin, transactional)
      ensures generation.Some? <==> !old(closing) && (IsArmed(old(State()), plugin) ==> transactional && old(instances)[plugin].transactional)
      ensures generation.Some? ==> generation.value == nextGen == old(nextGen) + 1
    {
      if closing { return None; }
      if plugin in instances && instances[plugin].phase == Armed && (!transactional || !instances[plugin].transactional) { return None; }
      nextGen := nextGen + 1;
      latestGen := latestGen[plugin := nextGen];
      attempts := attempts[nextGen := Attempt(plugin, transactional, false)];
      pending := pending + {nextGen};
      return Some(nextGen);
    }

    method PublishArmed(plugin: PluginId, g: nat, transactional: bool)
      modifies `instances, `armed
      ensures State() == Arm(old(State()), plugin, g, transactional)
    {
      instances := instances[plugin := Instance(Armed, g, Some(g), transactional)];
      armed := armed[plugin := ArmedLog(State(), plugin) + [g]];
    }

    method PublishFailed(plugin: PluginId, g: nat)
      modifies `instances
      ensures State() == Fail(old(State()), plugin, g)
    {
      if !(plugin in instances && instances[plugin].phase == Armed) { instances := instances[plugin := Instance(Failed, g, None, false)]; }
    }

    method RevokeOne(g: nat)
      modifies `revoked
      ensures State() == Revoke(old(State()), g)
    {
      revoked := revoked + {g};
    }

    /** The second section of Start, once the runner has answered. */
    method StartFinish(g: nat, outcome: Outcome)
      requires g in attempts && !attempts[g].finished
      modifies this
      ensures State() == RuntimeModel.StartFinish(old(State()), g, outcome)
    {
      hide Arm, Fail, Revoke;
      var a := attempts[g];
      attempts := attempts[g := a.(finished := true)];
      if closing || LatestOf(a.plugin) != g {
        RevokeOne(g);
      } else if outcome == Ready {
        PublishArmed(a.plugin, g, a.transactional);
      } else {
        PublishFailed(a.plugin, g);
        RevokeOne(g);
      }
    }

    /** removePending: the deferred end of Start, or its cleanup. */
    method RemovePendingEntry(g: nat)
      requires g in attempts && attempts[g].finished
      modifies `pending
      ensures State() == RemovePending(old(State()), g)
    {
      pending := pending - {g};
    }

    /** Every pending Start of the plugin is cancelled: its entry goes and its authority is revoked. */
    method CancelPending(plugin: PluginId) returns (gone: set<nat>)
      modifies `pending, `revoked
      ensures gone == PendingOf(old(State()), plugin) && pending == old(pending) - gone && revoked == old(revoked) + gone
    {
      gone := {};
      var todo := pending;
      while todo != {}
        invariant todo <= old(pending) && pending == old(pending)
        invariant gone == (set g | g in old(pending) && g !in todo && g in attempts && attempts[g].plugin == plugin)
        invariant revoked == old(revoked) + gone
        decreases todo
      {
        var g :| g in todo;
        if g in attempts && attempts[g].plugin == plugin { gone, revoked := gone + {g}, revoked + {g}; }
        todo := todo - {g};
      }
      pending := pending - gone;
    }

    /** Stops of the plugin that finished well are dropped; the others stay as predecessors. */
    method ForgetStops(plugin: PluginId)
      modifies `futures
      ensures futures == Forget(old(futures), plugin)
    {
      var todo := futures.Keys;
      while todo != {}
        invariant todo <= futures.Keys <= old(futures).Keys
        invariant futures == map t | t in old(futures) && (t in todo || !(old(futures)[t].plugin == plugin && old(futures)[t].done && !old(futures)[t].failed)) :: old(futures)[t]
        decreases todo
      {
        var t :| t in todo;
        todo := todo - {t};
        if futures[t].plugin == plugin && futures[t].done && !futures[t].failed { futures := futures - {t}; }
      }
    }

    /** The section of Stop that draws the tombstone, or finds the Stop to join. */
    method StopBegin(plugin: PluginId)
      modifies this
      ensures State() == RuntimeModel.StopBegin(old(State()), plugin)
    {
      hide PendingOf, Forget;
      if closing { return; }
      if plugin in instances && LatestOf(plugin) == instances[plugin].generation {
        var t := instances[plugin].generation;
        if t in futures && futures[t].plugin == plugin { return; }
      }
      var authority := if plugin in instances then instances[plugin].authority else None;
      DrawTombstone(plugin, authority);
    }

    method DrawTombstone(plugin: PluginId, authority: Option<nat>)
      modifies `nextGen, `latestGen, `pending, `instances, `futures, `revoked
      ensures nextGen == old(nextGen) + 1 && latestGen == old(latestGen)[plugin := nextGen]
      ensures pending == old(pending) - PendingOf(old(State()), plugin)
      ensures instances == old(instances)[plugin := Instance(Stopping, nextGen, None, false)]
      ensures futures == Forget(old(futures), plugin)[nextGen := Future(plugin, authority, PendingOf(old(State()), plugin), false, false)]
      ensures revoked == old(revoked) + PendingOf(old(State()), plugin) + Authorities(authority)
    {
      ForgetStops(plugin);
      nextGen := nextGen + 1;
      latestGen := latestGen[plugin := nextGen];
      var gone := CancelPending(plugin);
      if authority.Some? { revoked := revoked + {authority.value}; }
      instances := instances[plugin := Instance(Stopping, nextGen, None, false)];
      futures := futures[nextGen := Future(plugin, authority, gone, false, false)];
    }

    /** The last section of finishRuntimeStop: the future's result, and the status if it is still its own. */
    method StopFinish(t: nat, failed: bool)
      requires t in futures && !futures[t].done
      modifies `futures, `instances
      ensures State() == RuntimeModel.StopFinish(old(State()), t, failed)
    {
      var f := futures[t];
      futures := futures[t := if failed then f.(done := true, failed := true) else f.(done := true, authority := None, pending := {})];
      if f.plugin in instances && instances[f.plugin].generation == t && LatestOf(f.plugin) == t && !closing {
        instances := instances[f.plugin := instances[f.plugin].(phase := if failed then Degraded else Stopped)];
      }
    }

    /** waitRuntimeStop giving up on a future that is not done. */
    method StopTimeout(t: nat)
      requires t in futures && !futures[t].done
      modifies `instances
      ensures State() == RuntimeModel.StopTimeout(old(State()), t)
    {
      var plugin := futures[t].plugin;
      if plugin in instances && instances[plugin].generation == t && LatestOf(plugin) == t && !closing {
        instances := instances[plugin := instances[plugin].(phase := Degraded)];
      }
    }

    /** The plugins Close touches, and the authorities they hold, gathered in three loops. */
    method Gather() returns (affected: set<PluginId>, held: set<nat>)
      ensures affected == AffectedBy(State()) && held == HeldAuthorities(State())
    {
      var a1, h1 := GatherPending();
      var h2 := GatherInstances();
      var a3, h3 := GatherFutures();
      affected, held := a1 + instances.Keys + a3, h1 + h2 + h3;
    }

    method GatherPending() returns (affected: set<PluginId>, held: set<nat>)
      ensures affected == (set g | g in pending && g in attempts :: attempts[g].plugin) && held == pending
    {
      affected, held := {}, {};
      var todo := pending;
      while todo != {}
        invariant todo <= pending && held == pending - todo
        invariant affected == (set g | g in pending && g !in todo && g in attempts :: attempts[g].plugin)
        decreases todo
      {
        var g :| g in todo;
        if g in attempts { affected := affected + {attempts[g].plugin}; }
        held, todo := held + {g}, todo - {g};
      }
    }

    method GatherInstances() returns (held: set<nat>)
      ensures held == (set p, g | p in instances && g in Authorities(instances[p].authority) :: g)
    {
      held := {};
      var todo := instances.Keys;
      while todo != {}
        invariant todo <= instances.Keys
        invariant held == (set p, g | p in instances && p !in todo && g in Authorities(instances[p].authority) :: g)
        decreases todo
      {
        var p :| p in todo;
        ghost var before, was := held, todo;
        held, todo := held + Authorities(instances[p].authority), todo - {p};
        forall g ensures g in held <==> exists q :: q in instances && q !in todo && g in Authorities(instances[q].authority) {
          if q :| q in instances && q !in was && g in Authorities(instances[q].authority) { assert g in before; }
        }
      }
    }

    method GatherFutures() returns (affected: set<PluginId>, held: set<nat>)
      ensures affected == (set t | t in futures :: futures[t].plugin)
      ensures held == (set t, g | t in futures && g in Authorities(futures[t].authority) + futures[t].pending :: g)
    {
      affected, held := {}, {};
      var todo := futures.Keys;
      while todo != {}
        invariant todo <= futures.Keys
        invariant affected == (set t | t in futures && t !in todo :: futures[t].plugin)
        invariant held == (set t, g | t in futures && t !in todo && g in Authorities(futures[t].authority) + futures[t].pending :: g)
        decreases todo
      {
        var t :| t in todo;
        ghost var before, was := held, todo;
        affected := affected + {futures[t].plugin};
        held, todo := held + Authorities(futures[t].authority) + futures[t].pending, todo - {t};
        forall g ensures g in held <==> exists q :: q in futures && q !in todo && g in Authorities(futures[q].authority) + futures[q].pending {
          if q :| q in futures && q !in was && g in Authorities(futures[q].authority) + futures[q].pending { assert g in before; }
        }
      }
    }

    method BuryOne(plugin: PluginId)
      modifies `nextGen, `latestGen, `epochs, `instances
      ensures State() == Bury(old(State()), plugin)
    {
      nextGen := nextGen + 1;
      latestGen := latestGen[plugin := nextGen];
      epochs := epochs[plugin := nextGen];
      instances := instances[plugin := Instance(Stopping, nextGen, None, false)];
    }

    /** The first section of Close; `order` is the order its loop over the affected plugins took. */
    method CloseBegin() returns (ghost order: seq<PluginId>)
      modifies this
      ensures State() == RuntimeModel.CloseBegin(old(State()), order)
    {
      hide AffectedBy, HeldAuthorities, Bury, Lists;
      order := [];
      if closing { return; }
      ghost var m := State();
      var todo, held := Gather();
      var affected := todo;
      closing, pending, revoked := true, {}, revoked + held;
      ghost var c := State();
      ListsNone(affected);
      while todo != {}
        invariant todo <= affected && Lists(order, affected - todo) && State() == BuryAll(c, order)
        decreases todo
      {
        var p :| p in todo;
        ListsOne(order, affected, todo, p);
        BuryMore(c, order, p);
        BuryOne(p);
        order, todo := order + [p], todo - {p};
      }
      assert affected - todo == affected;
    }

    /** Close giving up before the joins are done. */
    method CloseTimeout()
      requires closing && !closed
      modifies `instances
      ensures State() == RuntimeModel.CloseTimeout(old(State()))
    {
      Relabel({}, true);
    }

    /** finishClose's last section. */
    method CloseFinish(failed: set<PluginId>)
      requires closing && !closed
      modifies `instances, `closed
      ensures State() == RuntimeModel.CloseFinish(old(State()), failed)
    {
      Relabel(failed, false);
      closed := true;
    }

    /** The statuses still at the epochs Close drew are relabelled, one by one. */
    method Relabel(failed: set<PluginId>, timedOut: bool)
      modifies `instances
      ensures instances == Relabelled(old(State()), {}, failed, timedOut)
    {
      hide OwnsEpoch, Relabels;
      var todo := instances.Keys;
      ghost var m := State();
      RelabelNone(m, failed, timedOut);
      while todo != {}
        invariant todo <= instances.Keys == m.instances.Keys
        invariant instances == Relabelled(m, todo, failed, timedOut)
        decreases todo
      {
        var p :| p in todo;
        RelabelOne(m, todo, p, failed, timedOut);
        if p in epochs && instances[p].generation == epochs[p] && LatestOf(p) == epochs[p] {
          if timedOut {
            if instances[p].phase == Stopping { instances := instances[p := instances[p].(phase := Degraded)]; }
          } else {
            instances := instances[p := instances[p].(phase := if p in failed then Degraded else Stopped)];
          }
        }
        todo := todo - {p};
      }
    }
  }

  ghost predicate Relabels(m: Manager, p: PluginId, timedOut: bool)
    requires p in m.instances
  {
    OwnsEpoch(m, p) && (timedOut ==> m.instances[p].phase == Stopping)
  }

  ghost function Relabelled(m: Manager, todo: set<PluginId>, failed: set<PluginId>, timedOut: bool): map<PluginId, Instance> {
    map p | p in m.instances ::
      if p !in todo && Relabels(m, p, timedOut) then m.instances[p].(phase := if timedOut || p in failed then Degraded else Stopped) else m.instances[p]
  }

  lemma RelabelNone(m: Manager, failed: set<PluginId>, timedOut: bool)
    ensures Relabelled(m, m.instances.Keys, failed, timedOut) == m.instances
  {}

  lemma RelabelOne(m: Manager, todo: set<PluginId>, p: PluginId, failed: set<PluginId>, timedOut: bool)
    requires p in todo && p in m.instances
    ensures Relabelled(m, todo, failed, timedOut)[p] == m.instances[p]
    ensures Relabels(m, p, timedOut) <==>
              p in m.epochs && m.instances[p].generation == m.epochs[p] && Latest(m, p) == m.epochs[p] && (timedOut ==> m.instances[p].phase == Stopping)
    ensures Relabelled(m, todo - {p}, failed, timedOut) ==
            if Relabels(m, p, timedOut) then Relabelled(m, todo, failed, timedOut)[p := m.instances[p].(phase := if timedOut || p in failed then Degraded else Stopped)]
            else Relabelled(m, todo, failed, timedOut)
  {}

  lemma ListsNone(s: set<PluginId>)
    ensures Lists([], s - s)
  {}

  lemma ListsOne(order: seq<PluginId>, all: set<PluginId>, left: set<PluginId>, p: PluginId)
    requires Lists(order, all - left) && left <= all && p in left
    ensures Lists(order + [p], all - (left - {p}))
  {}

  lemma BuryMore(m: Manager, order: seq<PluginId>, p: PluginId)
    ensures BuryAll(m, order + [p]) == Bury(BuryAll(m, order), p)
  {
    assert (order + [p])[..|order|] == order;
  }
}
