/** The plugin runtime manager (internal/plugin/runtime.go) as a state machine: the
    sections of Start, Stop and Close under its mutex, in any interleaving. A
    generation number also names the broker authority of the Start that drew it. */
module RuntimeModel {
  import opened Options

  /** Stands for a plugin's id. */
  type PluginId = nat

  datatype Phase = Armed | Failed | Stopping | Stopped | Degraded

  /** A plugin's published status. `authority` is its broker's, and is there exactly while it has a runner. */
  datatype Instance = Instance(phase: Phase, generation: nat, authority: Option<nat>, transactional: bool)

  /** A Start that drew a generation; finished once its second section has run. */
  datatype Attempt = Attempt(plugin: PluginId, transactional: bool, finished: bool)

  datatype Future = Future(plugin: PluginId, authority: Option<nat>, pending: set<nat>, done: bool, failed: bool)

  datatype Manager = Manager(
    nextGen: nat,
    latestGen: map<PluginId, nat>,
    attempts: map<nat, Attempt>,
    pending: set<nat>,
    instances: map<PluginId, Instance>,
    futures: map<nat, Future>,
    closing: bool,
    closed: bool,
    epochs: map<PluginId, nat>,
    revoked: set<nat>,
    armed: map<PluginId, seq<nat>>)

  const NEW: Manager := Manager(0, map[], map[], {}, map[], map[], false, false, map[], {}, map[])

  predicate IsArmed(m: Manager, plugin: PluginId) { plugin in m.instances && m.instances[plugin].phase == Armed }

  function ArmedLog(m: Manager, plugin: PluginId): seq<nat> { if plugin in m.armed then m.armed[plugin] else [] }

  function Latest(m: Manager, plugin: PluginId): nat { if plugin in m.latestGen then m.latestGen[plugin] else 0 }

  function PendingOf(m: Manager, plugin: PluginId): set<nat> {
    set g | g in m.pending && g in m.attempts && m.attempts[g].plugin == plugin
  }

  function Authorities(a: Option<nat>): set<nat> { if a.Some? then {a.value} else {} }

  /*** Start ***/

  /** The first section: refused when closing, or when it would replace an armed plugin without transactions. */
  predicate StartRefused(m: Manager, plugin: PluginId, transactional: bool) {
    m.closing || (IsArmed(m, plugin) && !(transactional && m.instances[plugin].transactional))
  }

  function StartBegin(m: Manager, plugin: PluginId, transactional: bool): Manager {
    if StartRefused(m, plugin, transactional) then m
    else
      var g := m.nextGen + 1;
      m.(nextGen := g, latestGen := m.latestGen[plugin := g], attempts := m.attempts[g := Attempt(plugin, transactional, false)], pending := m.pending + {g})
  }

  /** What the runner answered: the candidate failed to prepare, failed to activate, or is ready. */
  datatype Outcome = PrepareFailed | ActivateFailed | Ready

  function Finish(m: Manager, g: nat): Manager
    requires g in m.attempts
  {
    m.(attempts := m.attempts[g := m.attempts[g].(finished := true)])
  }

  function Revoke(m: Manager, g: nat): Manager { m.(revoked := m.revoked + {g}) }

  function Fail(m: Manager, plugin: PluginId, g: nat): Manager {
    if IsArmed(m, plugin) then m else m.(instances := m.instances[plugin := Instance(Failed, g, None, false)])
  }

  function Arm(m: Manager, plugin: PluginId, g: nat, transactional: bool): Manager {
    m.(instances := m.instances[plugin := Instance(Armed, g, Some(g), transactional)], armed := m.armed[plugin := ArmedLog(m, plugin) + [g]])
  }

  /** A Start that may still publish: no later Start or Stop of its plugin, and no Close. */
  predicate Current(m: Manager, g: nat) {
    g in m.attempts && !m.attempts[g].finished && !m.closing && Latest(m, m.attempts[g].plugin) == g
  }

  /** The second section: a stale candidate is dropped, a failed one is published only over a
      plugin that is not armed, a ready one is armed. */
  function StartFinish(m: Manager, g: nat, outcome: Outcome): Manager {
    if g !in m.attempts || m.attempts[g].finished then m
    else
      var a, f := m.attempts[g], Finish(m, g);
      if !Current(m, g) then Revoke(f, g)
      else if outcome == Ready then Arm(f, a.plugin, g, a.transactional)
      else Revoke(Fail(f, a.plugin, g), g)
  }

  /** The deferred end of Start, or its cleanup, takes its entry away. */
  function RemovePending(m: Manager, g: nat): Manager {
    if g in m.attempts && m.attempts[g].finished then m.(pending := m.pending - {g}) else m
  }

  /*** Stop ***/

  /** A Stop that finds the plugin already at a tombstone with its future joins that one. */
  predicate StopJoins(m: Manager, plugin: PluginId) {
    m.closing || (plugin in m.instances && Latest(m, plugin) == m.instances[plugin].generation && m.instances[plugin].generation in m.futures
                  && m.futures[m.instances[plugin].generation].plugin == plugin)
  }

  /** Finished stops of the plugin are forgotten, failed ones are kept as predecessors. */
  function Forget(futures: map<nat, Future>, plugin: PluginId): map<nat, Future> {
    map t | t in futures && !(futures[t].plugin == plugin && futures[t].done && !futures[t].failed) :: futures[t]
  }

  function StopBegin(m: Manager, plugin: PluginId): Manager {
    if StopJoins(m, plugin) then m
    else
      var t := m.nextGen + 1;
      var gone := PendingOf(m, plugin);
      var authority := if plugin in m.instances then m.instances[plugin].authority else None;
      m.(nextGen := t, latestGen := m.latestGen[plugin := t], pending := m.pending - gone,
         instances := m.instances[plugin := Instance(Stopping, t, None, false)],
         futures := Forget(m.futures, plugin)[t := Future(plugin, authority, gone, false, false)],
         revoked := m.revoked + gone + Authorities(authority))
  }

  /** The status of a plugin still at this tombstone, and not taken over by Close. */
  predicate OwnsStatus(m: Manager, plugin: PluginId, t: nat) {
    plugin in m.instances && m.instances[plugin].generation == t && Latest(m, plugin) == t
  }

  function SetPhase(m: Manager, plugin: PluginId, phase: Phase): Manager {
    if plugin in m.instances then m.(instances := m.instances[plugin := m.instances[plugin].(phase := phase)]) else m
  }

  function StopFinish(m: Manager, t: nat, failed: bool): Manager {
    if t !in m.futures || m.futures[t].done then m
    else
      var f := m.futures[t];
      var after := if failed then f.(done := true, failed := true) else f.(done := true, authority := None, pending := {});
      var n := m.(futures := m.futures[t := after]);
      if OwnsStatus(m, f.plugin, t) && !m.closing then SetPhase(n, f.plugin, if failed then Degraded else Stopped) else n
  }

  function StopTimeout(m: Manager, t: nat): Manager {
    if t !in m.futures || m.futures[t].done then m
    else if OwnsStatus(m, m.futures[t].plugin, t) && !m.closing then SetPhase(m, m.futures[t].plugin, Degraded)
    else m
  }

  /*** Close ***/

  function AffectedBy(m: Manager): set<PluginId> {
    (set g | g in m.pending && g in m.attempts :: m.attempts[g].plugin) + m.instances.Keys + (set t | t in m.futures :: m.futures[t].plugin)
  }

  predicate Distinct(s: seq<PluginId>) { forall i, j :: 0 <= i < j < |s| ==> s[i] != s[j] }

  ghost predicate Lists(order: seq<PluginId>, s: set<PluginId>) { Distinct(order) && forall x :: x in order <==> x in s }

  lemma {:induction false} ListExists(s: set<PluginId>)
    ensures exists order :: Lists(order, s)
  {
    if s == {} {
      assert Lists([], s);
    } else {
      var w :| w in s;
      ListExists(s - {w});
      var rest :| Lists(rest, s - {w});
      assert Lists([w] + rest, s);
    }
  }

  /** The order the loop over the affected plugins takes. */
  ghost function ListOf(s: set<PluginId>, order: seq<PluginId>): (r: seq<PluginId>)
    ensures Lists(r, s) && (Lists(order, s) ==> r == order)
  {
    ListExists(s);
    if Lists(order, s) then order else var r :| Lists(r, s); r
  }

  /** One plugin is put at a fresh tombstone. */
  function Bury(m: Manager, plugin: PluginId): Manager {
    var t := m.nextGen + 1;
    m.(nextGen := t, latestGen := m.latestGen[plugin := t], epochs := m.epochs[plugin := t],
       instances := m.instances[plugin := Instance(Stopping, t, None, false)])
  }

  function BuryAll(m: Manager, plugins: seq<PluginId>): Manager {
    if plugins == [] then m else Bury(BuryAll(m, plugins[..|plugins| - 1]), plugins[|plugins| - 1])
  }

  function HeldAuthorities(m: Manager): set<nat> {
    m.pending
    + (set p, g | p in m.instances && g in Authorities(m.instances[p].authority) :: g)
    + (set t, g | t in m.futures && g in Authorities(m.futures[t].authority) + m.futures[t].pending :: g)
  }

  ghost function CloseBegin(m: Manager, order: seq<PluginId>): Manager {
    if m.closing then m
    else BuryAll(m.(closing := true, pending := {}, revoked := m.revoked + HeldAuthorities(m)), ListOf(AffectedBy(m), order))
  }

  function OwnsEpoch(m: Manager, plugin: PluginId): bool {
    plugin in m.epochs && OwnsStatus(m, plugin, m.epochs[plugin])
  }

  function CloseTimeout(m: Manager): Manager {
    if !m.closing || m.closed then m
    else m.(instances := map p | p in m.instances ::
              if OwnsEpoch(m, p) && m.instances[p].phase == Stopping then m.instances[p].(phase := Degraded) else m.instances[p])
  }

  function CloseFinish(m: Manager, failed: set<PluginId>): Manager {
    if !m.closing || m.closed then m
    else m.(closed := true,
            instances := map p | p in m.instances ::
              if OwnsEpoch(m, p) then m.instances[p].(phase := if p in failed then Degraded else Stopped) else m.instances[p])
  }

  /*** Runs ***/

  datatype Op =
    | DoStartBegin(plugin: PluginId, transactional: bool)
    | DoStartFinish(generation: nat, outcome: Outcome)
    | DoRemovePending(generation: nat)
    | DoStop(plugin: PluginId)
    | DoStopFinish(tombstone: nat, failed: bool)
    | DoStopTimeout(tombstone: nat)
    | DoClose(order: seq<PluginId>)
    | DoCloseTimeout
    | DoCloseFinish(failures: set<PluginId>)

  ghost function Step(m: Manager, op: Op): Manager {
    match op
    case DoStartBegin(plugin, transactional) => StartBegin(m, plugin, transactional)
    case DoStartFinish(g, outcome) => StartFinish(m, g, outcome)
    case DoRemovePending(g) => RemovePending(m, g)
    case DoStop(plugin) => StopBegin(m, plugin)
    case DoStopFinish(t, failed) => StopFinish(m, t, failed)
    case DoStopTimeout(t) => StopTimeout(m, t)
    case DoClose(order) => CloseBegin(m, order)
    case DoCloseTimeout => CloseTimeout(m)
    case DoCloseFinish(failures) => CloseFinish(m, failures)
  }

  ghost function Exec(m: Manager, run: seq<Op>): Manager {
    if run == [] then m else Step(Exec(m, run[..|run| - 1]), run[|run| - 1])
  }
}
