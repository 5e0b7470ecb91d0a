/** Generation fencing: what holds of the runtime manager over every interleaving. */
module RuntimeTheorems {
  import opened Options
  import opened RuntimeModel

  predicate Ascending(s: seq<nat>) { forall i, j :: 0 <= i < j < |s| ==> s[i] < s[j] }

  /** Numbers are drawn once: nothing is ahead of the counter, and tombstones are no Start's generation. */
  ghost predicate NumbersOK(m: Manager) {
    && (forall p: PluginId :: p in m.latestGen ==> m.latestGen[p] <= m.nextGen)
    && (forall g :: g in m.attempts ==> 0 < g <= m.nextGen)
    && (forall t :: t in m.futures ==> 0 < t <= m.nextGen && t !in m.attempts)
    && (forall p: PluginId :: p in m.epochs ==> 0 < m.epochs[p] <= m.nextGen && m.epochs[p] !in m.attempts)
    && (forall g :: g in m.revoked ==> g <= m.nextGen)
  }

  ghost predicate FuturesOK(m: Manager) {
    forall t :: t in m.futures ==>
      (forall g :: g in m.futures[t].pending ==> g in m.attempts) && (m.futures[t].authority.Some? ==> m.futures[t].authority.value in m.attempts)
  }

  /** A finished Start of the plugin. */
  ghost predicate StartedBy(m: Manager, g: nat, p: PluginId) { g in m.attempts && m.attempts[g].plugin == p && m.attempts[g].finished }

  /** A plugin's authority is that of a finished Start of its own; an armed one's still stands. */
  ghost predicate InstanceOK(m: Manager, p: PluginId)
    requires p in m.instances
  {
    var i := m.instances[p];
    && (i.authority.Some? ==> StartedBy(m, i.authority.value, p))
    && (i.phase == Armed ==> !m.closing && i.authority == Some(i.generation) && i.generation !in m.revoked)
  }

  ghost predicate ArmedOK(m: Manager) {
    forall p: PluginId :: p in m.instances ==> InstanceOK(m, p)
  }

  /** The generations armed so far rise, and belong to finished Starts no newer than the latest. */
  ghost predicate LogOK(m: Manager, p: PluginId) {
    var log := ArmedLog(m, p);
    && Ascending(log)
    && (forall g :: g in log ==> StartedBy(m, g, p) && g <= Latest(m, p))
    && (IsArmed(m, p) ==> log != [] && log[|log| - 1] == m.instances[p].generation)
  }

  ghost predicate LogsOK(m: Manager) { forall p: PluginId :: LogOK(m, p) }

  /** A Start still under way that is the latest of its plugin has not lost its authority. */
  ghost predicate PendingOK(m: Manager) {
    && (forall g :: g in m.pending ==> g in m.attempts)
    && (forall g :: g in m.attempts && !m.attempts[g].finished && !m.closing && Latest(m, m.attempts[g].plugin) == g ==> g !in m.revoked)
  }

  ghost predicate Inv(m: Manager) { NumbersOK(m) && FuturesOK(m) && ArmedOK(m) && PendingOK(m) && LogsOK(m) }

  lemma NewInv()
    ensures Inv(NEW)
  {}

  /*** Each section keeps it ***/

  /** n knows every Start m knows, and armed nothing since. */
  ghost predicate Quiet(m: Manager, n: Manager) {
    && n.armed == m.armed
    && (forall p: PluginId :: Latest(n, p) >= Latest(m, p))
    && (forall g: nat, p: PluginId :: StartedBy(m, g, p) ==> StartedBy(n, g, p))
    && (forall p: PluginId :: IsArmed(n, p) ==> IsArmed(m, p) && n.instances[p].generation == m.instances[p].generation)
  }

  lemma QuietLogs(m: Manager, n: Manager)
    requires LogsOK(m) && Quiet(m, n)
    ensures LogsOK(n)
  {
    forall p ensures LogOK(n, p) { QuietLog(m, n, p); }
  }

  lemma QuietLog(m: Manager, n: Manager, p: PluginId)
    requires LogOK(m, p) && Quiet(m, n)
    ensures LogOK(n, p)
  {
    hide Ascending, StartedBy, Latest;
  }

  lemma StartBeginInv(m: Manager, plugin: PluginId, transactional: bool)
    requires Inv(m)
    ensures Inv(StartBegin(m, plugin, transactional))
  {
    hide NumbersOK, FuturesOK, ArmedOK, PendingOK, LogsOK, StartBegin, Quiet;
    StartBeginNumbers(m, plugin, transactional);
    StartBeginArmed(m, plugin, transactional);
    QuietLogs(m, StartBegin(m, plugin, transactional));
  }

  lemma StartBeginNumbers(m: Manager, plugin: PluginId, transactional: bool)
    requires NumbersOK(m) && FuturesOK(m) && PendingOK(m)
    ensures var n := StartBegin(m, plugin, transactional); NumbersOK(n) && FuturesOK(n) && PendingOK(n)
  {
    hide IsArmed;
  }

  lemma StartBeginArmed(m: Manager, plugin: PluginId, transactional: bool)
    requires NumbersOK(m) && ArmedOK(m)
    ensures var n := StartBegin(m, plugin, transactional); ArmedOK(n) && Quiet(m, n)
  {
    assert m.nextGen + 1 !in m.attempts;
  }

  lemma StartFinishInv(m: Manager, g: nat, outcome: Outcome)
    requires Inv(m)
    ensures Inv(StartFinish(m, g, outcome))
  {
    hide NumbersOK, FuturesOK, ArmedOK, PendingOK, LogsOK, StartFinish;
    StartFinishNumbers(m, g, outcome);
    StartFinishArmed(m, g, outcome);
    StartFinishLogs(m, g, outcome);
  }

  /** What the second section of a Start may do to a plugin's status. */
  lemma StartFinishEffect(m: Manager, g: nat, outcome: Outcome, p: PluginId)
    ensures var n := StartFinish(m, g, outcome);
            && n == m.(attempts := n.attempts, instances := n.instances, armed := n.armed, revoked := n.revoked)
            && (g !in m.attempts || m.attempts[g].finished ==> n == m)
            && n.attempts == (if g in m.attempts then m.attempts[g := m.attempts[g].(finished := true)] else m.attempts)
            && n.revoked == (if g !in m.attempts || m.attempts[g].finished || (Current(m, g) && outcome == Ready) then m.revoked else m.revoked + {g})
            && (!(Current(m, g) && outcome == Ready) ==> n.armed == m.armed)
            && (p in n.instances && !(p in m.instances && n.instances[p] == m.instances[p]) ==>
                  && Current(m, g) && m.attempts[g].plugin == p
                  && n.instances[p] == (if outcome == Ready then Instance(Armed, g, Some(g), m.attempts[g].transactional) else Instance(Failed, g, None, false)))
            && (p in m.instances ==> p in n.instances)
            && (Current(m, g) && outcome == Ready && m.attempts[g].plugin != p ==> ArmedLog(n, p) == ArmedLog(m, p))
            && (IsArmed(n, p) && !(IsArmed(m, p) && n.instances[p] == m.instances[p]) ==>
                  n.instances[p].generation == g && Current(m, g) && m.attempts[g].plugin == p)
  {
    hide Current, Arm, Fail, Finish, Revoke;
    if g in m.attempts {
      FinishIs(m, g);
      var f := Finish(m, g);
      RevokeIs(f, g);
      ArmIs(f, m.attempts[g].plugin, g, m.attempts[g].transactional);
      FailIs(f, m.attempts[g].plugin, g);
      RevokeIs(Fail(f, m.attempts[g].plugin, g), g);
    }
  }

  lemma FinishIs(m: Manager, g: nat)
    requires g in m.attempts
    ensures var n := Finish(m, g);
            && n == m.(attempts := m.attempts[g := m.attempts[g].(finished := true)])
            && (m.attempts[g].finished ==> n.attempts == m.attempts)
  {}

  lemma RevokeIs(m: Manager, g: nat)
    ensures Revoke(m, g) == m.(revoked := m.revoked + {g})
  {}

  lemma ArmIs(m: Manager, plugin: PluginId, g: nat, transactional: bool)
    ensures var n := Arm(m, plugin, g, transactional);
            && n == m.(instances := n.instances, armed := n.armed) && n.instances.Keys == m.instances.Keys + {plugin}
            && (forall p :: p in m.instances && p != plugin ==> n.instances[p] == m.instances[p])
            && n.instances[plugin] == Instance(Armed, g, Some(g), transactional)
            && (forall p :: p != plugin ==> ArmedLog(n, p) == ArmedLog(m, p))
  {}

  lemma FailIs(m: Manager, plugin: PluginId, g: nat)
    ensures var n := Fail(m, plugin, g);
            && n == m.(instances := n.instances)
            && (forall p :: p in m.instances && p != plugin ==> p in n.instances && n.instances[p] == m.instances[p])
            && (forall p :: p in n.instances && p != plugin ==> p in m.instances)
            && plugin in n.instances
            && (if IsArmed(m, plugin) then n == m else n.instances[plugin] == Instance(Failed, g, None, false))
  {}

  lemma StartFinishNumbers(m: Manager, g: nat, outcome: Outcome)
    requires NumbersOK(m) && FuturesOK(m) && PendingOK(m)
    ensures var n := StartFinish(m, g, outcome); NumbersOK(n) && FuturesOK(n) && PendingOK(n)
  {
    hide StartFinish, ArmedLog, IsArmed;
    StartFinishEffect(m, g, outcome, 0);
    SameFuturesBut(m, StartFinish(m, g, outcome));
  }

  lemma SameFuturesBut(m: Manager, n: Manager)
    requires FuturesOK(m) && n.futures == m.futures && n.attempts.Keys == m.attempts.Keys
    ensures FuturesOK(n)
  {}

  lemma StartFinishArmed(m: Manager, g: nat, outcome: Outcome)
    requires NumbersOK(m) && PendingOK(m) && ArmedOK(m)
    ensures ArmedOK(StartFinish(m, g, outcome))
  {
    hide ArmedLog, NumbersOK, PendingOK, StartFinish;
    var n := StartFinish(m, g, outcome);
    StartFinishStarts(m, g, outcome);
    forall p | p in n.instances ensures InstanceOK(n, p) { StartFinishOne(m, g, outcome, p); }
  }

  lemma StartFinishStarts(m: Manager, g: nat, outcome: Outcome)
    ensures var n := StartFinish(m, g, outcome); forall h: nat, p: PluginId :: StartedBy(m, h, p) ==> StartedBy(n, h, p)
  {
    hide StartFinish, ArmedLog, IsArmed, Current;
    StartFinishEffect(m, g, outcome, 0);
  }

  lemma StartFinishOne(m: Manager, g: nat, outcome: Outcome, p: PluginId)
    requires PendingOK(m) && ArmedOK(m) && p in StartFinish(m, g, outcome).instances
    ensures InstanceOK(StartFinish(m, g, outcome), p)
  {
    hide StartFinish, ArmedLog, IsArmed;
    assert p in m.instances ==> InstanceOK(m, p);
    StartFinishEffect(m, g, outcome, p);
  }

  lemma StartFinishLogs(m: Manager, g: nat, outcome: Outcome)
    requires LogsOK(m) && NumbersOK(m)
    ensures LogsOK(StartFinish(m, g, outcome))
  {
    hide LogsOK, StartFinish, LogOK, NumbersOK, Quiet;
    var n := StartFinish(m, g, outcome);
    if Current(m, g) && outcome == Ready {
      forall p ensures LogOK(n, p) {
        OneLog(m, p);
        if p == m.attempts[g].plugin { LogGrows(m, g, p); } else { OtherLog(m, g, p); }
      }
      AllLogs(n);
    } else {
      StartFinishQuiet(m, g, outcome);
      QuietLogs(m, n);
    }
  }

  lemma AllLogs(m: Manager)
    requires forall p: PluginId :: LogOK(m, p)
    ensures LogsOK(m)
  {}

  lemma OtherLog(m: Manager, g: nat, p: PluginId)
    requires LogOK(m, p) && Current(m, g) && p != m.attempts[g].plugin
    ensures LogOK(StartFinish(m, g, Ready), p)
  {
    hide LogOK, StartFinish, ArmedLog;
    StartFinishEffect(m, g, Ready, p);
    StartFinishStarts(m, g, Ready);
    SameLog(m, StartFinish(m, g, Ready), p);
  }

  lemma StartFinishQuiet(m: Manager, g: nat, outcome: Outcome)
    requires !(Current(m, g) && outcome == Ready)
    ensures Quiet(m, StartFinish(m, g, outcome))
  {
    hide StartFinish, Current, StartedBy;
    StartFinishStarts(m, g, outcome);
    StartFinishEffect(m, g, outcome, 0);
    forall p | IsArmed(StartFinish(m, g, outcome), p) ensures IsArmed(m, p) && StartFinish(m, g, outcome).instances[p].generation == m.instances[p].generation {
      StartFinishEffect(m, g, outcome, p);
    }
  }

  lemma SameLog(m: Manager, n: Manager, p: PluginId)
    requires LogOK(m, p) && ArmedLog(n, p) == ArmedLog(m, p) && Latest(n, p) == Latest(m, p) && (forall g :: StartedBy(m, g, p) ==> StartedBy(n, g, p))
    requires IsArmed(n, p) ==> IsArmed(m, p) && n.instances[p].generation == m.instances[p].generation
    ensures LogOK(n, p)
  {
    hide Ascending, StartedBy, Latest, ArmedLog;
  }

  lemma LogGrows(m: Manager, g: nat, p: PluginId)
    requires LogOK(m, p) && g in m.attempts && !m.attempts[g].finished && m.attempts[g].plugin == p && Latest(m, p) == g && !m.closing
    ensures LogOK(StartFinish(m, g, Ready), p)
  {
    var log := ArmedLog(m, p);
    assert forall i :: 0 <= i < |log| ==> log[i] in log;
    assert g !in log;
  }

  lemma StopBeginInv(m: Manager, plugin: PluginId)
    requires Inv(m)
    ensures Inv(StopBegin(m, plugin))
  {
    hide NumbersOK, FuturesOK, ArmedOK, PendingOK, LogsOK, StopBegin, Quiet;
    StopBeginNumbers(m, plugin);
    StopBeginArmed(m, plugin);
    QuietLogs(m, StopBegin(m, plugin));
  }

  lemma StopBeginNumbers(m: Manager, plugin: PluginId)
    requires NumbersOK(m) && FuturesOK(m) && PendingOK(m) && ArmedOK(m)
    ensures var n := StopBegin(m, plugin); NumbersOK(n) && FuturesOK(n) && PendingOK(n)
  {
    hide NumbersOK, FuturesOK, PendingOK, StopBegin;
    if plugin in m.instances { assert InstanceOK(m, plugin); }
    StopBeginNumbersOnly(m, plugin);
    StopBeginFutures(m, plugin);
    StopBeginPending(m, plugin);
  }

  lemma StopBeginNumbersOnly(m: Manager, plugin: PluginId)
    requires NumbersOK(m) && (plugin in m.instances ==> InstanceOK(m, plugin))
    ensures NumbersOK(StopBegin(m, plugin))
  {
    hide StopJoins;
  }

  lemma StopBeginFutures(m: Manager, plugin: PluginId)
    requires FuturesOK(m) && (plugin in m.instances ==> InstanceOK(m, plugin))
    ensures FuturesOK(StopBegin(m, plugin))
  {
    hide StopJoins;
  }

  lemma StopBeginPending(m: Manager, plugin: PluginId)
    requires PendingOK(m) && NumbersOK(m) && (plugin in m.instances ==> InstanceOK(m, plugin))
    ensures PendingOK(StopBegin(m, plugin))
  {
    hide StopJoins, Forget;
  }

  lemma StopBeginArmed(m: Manager, plugin: PluginId)
    requires NumbersOK(m) && ArmedOK(m)
    ensures var n := StopBegin(m, plugin); ArmedOK(n) && Quiet(m, n)
  {
    hide Forget, StopJoins;
  }

  /** Only phases changed, and none to armed. */
  ghost predicate Rephased(a: map<PluginId, Instance>, b: map<PluginId, Instance>) {
    && (forall p :: p in b <==> p in a)
    && (forall p :: p in a ==> b[p] == a[p].(phase := b[p].phase) && (b[p].phase == Armed ==> a[p].phase == Armed))
  }

  /** Only statuses and futures changed, and no status to armed. */
  ghost predicate Relabelled(m: Manager, n: Manager) {
    && n.nextGen == m.nextGen && n.latestGen == m.latestGen && n.attempts == m.attempts && n.pending == m.pending
    && n.closing == m.closing && n.epochs == m.epochs && n.revoked == m.revoked && n.armed == m.armed
    && Rephased(m.instances, n.instances)
  }

  lemma RelabelledInv(m: Manager, n: Manager)
    requires Inv(m) && Relabelled(m, n) && n.futures.Keys == m.futures.Keys && FuturesOK(n)
    ensures Inv(n)
  {
    hide LogsOK;
    assert NumbersOK(n) && PendingOK(n) by { hide ArmedOK, FuturesOK; }
    assert ArmedOK(n) by { hide NumbersOK, PendingOK, FuturesOK; RelabelledArmed(m, n); }
    assert Quiet(m, n) by { hide NumbersOK, PendingOK, FuturesOK, ArmedOK; }
    QuietLogs(m, n);
  }

  lemma RelabelledArmed(m: Manager, n: Manager)
    requires ArmedOK(m) && Relabelled(m, n)
    ensures ArmedOK(n)
  {
    hide StartedBy;
    assert forall g: nat, p: PluginId :: StartedBy(m, g, p) ==> StartedBy(n, g, p) by { SameStarts(m, n); }
  }

  lemma SameStarts(m: Manager, n: Manager)
    requires n.attempts == m.attempts
    ensures forall g: nat, p: PluginId :: StartedBy(m, g, p) ==> StartedBy(n, g, p)
  {}

  lemma StopFinishInv(m: Manager, t: nat, failed: bool)
    requires Inv(m)
    ensures Inv(StopFinish(m, t, failed))
  {
    hide LogsOK, NumbersOK, ArmedOK, PendingOK, FuturesOK, StopFinish, Relabelled;
    StopFinishRelabels(m, t, failed);
    StopFinishFutures(m, t, failed);
    RelabelledInv(m, StopFinish(m, t, failed));
  }

  lemma StopFinishRelabels(m: Manager, t: nat, failed: bool)
    ensures Relabelled(m, StopFinish(m, t, failed))
  {
    hide Rephased, OwnsStatus;
    OnePhase(m.instances, if t in m.futures then m.futures[t].plugin else 0, if failed then Degraded else Stopped);
  }

  lemma OnePhase(a: map<PluginId, Instance>, p: PluginId, phase: Phase)
    requires phase != Armed
    ensures Rephased(a, a) && (p in a ==> Rephased(a, a[p := a[p].(phase := phase)]))
  {}

  lemma StopFinishFutures(m: Manager, t: nat, failed: bool)
    requires FuturesOK(m)
    ensures FuturesOK(StopFinish(m, t, failed)) && StopFinish(m, t, failed).futures.Keys == m.futures.Keys
  {
    hide OwnsStatus;
  }

  lemma StopTimeoutInv(m: Manager, t: nat)
    requires Inv(m)
    ensures Inv(StopTimeout(m, t))
  {
    hide LogsOK, NumbersOK, ArmedOK, PendingOK, FuturesOK;
    SameFutures(m, StopTimeout(m, t));
    RelabelledInv(m, StopTimeout(m, t));
  }

  lemma RemovePendingInv(m: Manager, t: nat)
    requires Inv(m)
    ensures Inv(RemovePending(m, t))
  {
    hide LogsOK, ArmedOK, FuturesOK, NumbersOK, PendingOK, Quiet;
    var n := RemovePending(m, t);
    UnpendedRest(m, n);
    QuietLogs(m, n);
    SameFutures(m, n);
    UnpendedArmed(m, n);
  }

  lemma UnpendedRest(m: Manager, n: Manager)
    requires NumbersOK(m) && PendingOK(m) && n == m.(pending := n.pending) && n.pending <= m.pending
    ensures NumbersOK(n) && PendingOK(n) && Quiet(m, n)
  {}

  lemma UnpendedArmed(m: Manager, n: Manager)
    requires ArmedOK(m) && n == m.(pending := n.pending)
    ensures ArmedOK(n)
  {
    hide StartedBy;
    SameStarts(m, n);
  }

  lemma SameFutures(m: Manager, n: Manager)
    requires FuturesOK(m) && n.futures == m.futures && n.attempts == m.attempts
    ensures FuturesOK(n)
  {}

  /** What burying the affected plugins does: each is at a tombstone newer than all before. */
  ghost predicate Buried(m: Manager, n: Manager, plugins: seq<PluginId>) {
    && n == m.(nextGen := n.nextGen, latestGen := n.latestGen, epochs := n.epochs, instances := n.instances) && n.nextGen >= m.nextGen
    && n.instances.Keys == m.instances.Keys + (set p | p in plugins)
    && (forall p: PluginId :: p in plugins ==> n.instances[p].phase == Stopping && n.instances[p].authority == None && n.instances[p].generation == Latest(n, p) > m.nextGen)
    && (forall p: PluginId :: p in plugins ==> p in n.epochs && n.epochs[p] == n.instances[p].generation)
    && (forall p: PluginId :: p in n.instances && p !in plugins ==> n.instances[p] == m.instances[p])
    && (forall p: PluginId :: p !in plugins ==> Latest(n, p) == Latest(m, p))
  }

  lemma {:induction false} BuryAllIs(m: Manager, plugins: seq<PluginId>)
    requires NumbersOK(m)
    ensures NumbersOK(BuryAll(m, plugins)) && Buried(m, BuryAll(m, plugins), plugins)
    decreases |plugins|
  {
    hide NumbersOK, Buried, Bury;
    if plugins == [] {
      BuryNone(m);
    } else {
      var init, last := plugins[..|plugins| - 1], plugins[|plugins| - 1];
      BuryAllIs(m, init);
      assert forall p: PluginId :: p in plugins <==> p in init || p == last;
      BuryOne(m, BuryAll(m, init), init, plugins, last);
    }
  }

  lemma BuryNone(m: Manager)
    ensures Buried(m, m, [])
  {}

  lemma BuryOne(m: Manager, b: Manager, init: seq<PluginId>, plugins: seq<PluginId>, last: PluginId)
    requires NumbersOK(b) && Buried(m, b, init) && forall p: PluginId :: p in plugins <==> p in init || p == last
    ensures NumbersOK(Bury(b, last)) && Buried(m, Bury(b, last), plugins)
  {
    assert b.nextGen + 1 !in b.attempts;
    assert NumbersOK(Bury(b, last)) by { hide Buried; }
    assert Buried(m, Bury(b, last), plugins) by { BuryPlaces(m, b, init, plugins, last); }
  }

  lemma BuryPlaces(m: Manager, b: Manager, init: seq<PluginId>, plugins: seq<PluginId>, last: PluginId)
    requires Buried(m, b, init) && forall p :: p in plugins <==> p in init || p == last
    ensures Buried(m, Bury(b, last), plugins)
  {}

  lemma ListMembers(s: set<PluginId>, order: seq<PluginId>)
    ensures forall x :: x in ListOf(s, order) <==> x in s
  {}

  ghost function Closing(m: Manager): Manager { m.(closing := true, pending := {}, revoked := m.revoked + HeldAuthorities(m)) }

  lemma HeldNumbers(m: Manager)
    requires Inv(m)
    ensures NumbersOK(Closing(m))
  {
    hide LogsOK;
  }

  /** Close: every plugin that had anything is at a fresh tombstone, and all they held is revoked. */
  lemma CloseIs(m: Manager, order: seq<PluginId>)
    requires Inv(m) && !m.closing
    ensures NumbersOK(CloseBegin(m, order)) && Buried(Closing(m), CloseBegin(m, order), ListOf(AffectedBy(m), order))
    ensures forall x :: x in ListOf(AffectedBy(m), order) <==> x in AffectedBy(m)
  {
    hide Inv, ListOf, Lists, BuryAll, NumbersOK, Buried, HeldAuthorities, AffectedBy;
    HeldNumbers(m);
    BuryAllIs(Closing(m), ListOf(AffectedBy(m), order));
    ListMembers(AffectedBy(m), order);
  }

  lemma CloseBeginInv(m: Manager, order: seq<PluginId>)
    requires Inv(m)
    ensures Inv(CloseBegin(m, order)) && CloseBegin(m, order).closing
  {
    hide LogsOK, CloseBegin, ListOf, HeldAuthorities, NumbersOK;
    if !m.closing {
      CloseIs(m, order);
      var n := CloseBegin(m, order);
      assert FuturesOK(n) by { SameFutures(m, n); }
      assert forall p: PluginId :: p in m.instances ==> p in AffectedBy(m);
      assert ArmedOK(n);
      CloseQuiet(m, order);
      QuietLogs(m, n);
    } else {
      CloseNoop(m, order);
    }
  }

  lemma CloseNoop(m: Manager, order: seq<PluginId>)
    requires m.closing
    ensures CloseBegin(m, order) == m
  {}

  lemma CloseQuiet(m: Manager, order: seq<PluginId>)
    requires Inv(m) && !m.closing
    ensures Quiet(m, CloseBegin(m, order))
  {
    hide LogsOK, CloseBegin, ListOf, HeldAuthorities, FuturesOK, PendingOK;
    CloseIs(m, order);
    var n := CloseBegin(m, order);
    assert forall p: PluginId :: Latest(m, p) <= m.nextGen;
    assert forall p: PluginId :: p in m.instances ==> p in AffectedBy(m);
  }

  lemma CloseEndInv(m: Manager, failures: set<PluginId>)
    requires Inv(m)
    ensures Inv(CloseTimeout(m)) && Inv(CloseFinish(m, failures))
  {
    hide LogsOK, NumbersOK, ArmedOK, PendingOK, FuturesOK;
    SameFutures(m, CloseTimeout(m));
    SameFutures(m, CloseFinish(m, failures));
    RelabelledInv(m, CloseTimeout(m));
    RelabelledInv(m, CloseFinish(m, failures));
  }

  lemma StepInv(m: Manager, op: Op)
    requires Inv(m)
    ensures Inv(Step(m, op))
  {
    hide Inv, StartBegin, StartFinish, StopBegin, StopFinish, StopTimeout, RemovePending, CloseBegin, CloseTimeout, CloseFinish;
    match op
    case DoStartBegin(plugin, transactional) => StartBeginInv(m, plugin, transactional);
    case DoStartFinish(g, outcome) => StartFinishInv(m, g, outcome);
    case DoRemovePending(g) => RemovePendingInv(m, g);
    case DoStop(plugin) => StopBeginInv(m, plugin);
    case DoStopFinish(t, failed) => StopFinishInv(m, t, failed);
    case DoStopTimeout(t) => StopTimeoutInv(m, t);
    case DoClose(order) => CloseBeginInv(m, order);
    case DoCloseTimeout => CloseEndInv(m, {});
    case DoCloseFinish(failures) => CloseEndInv(m, failures);
  }

  lemma {:induction false} ExecInv(m: Manager, run: seq<Op>)
    requires Inv(m)
    ensures Inv(Exec(m, run))
    decreases |run|
  {
    hide Inv, Step;
    if run != [] {
      ExecInv(m, run[..|run| - 1]);
      StepInv(Exec(m, run[..|run| - 1]), run[|run| - 1]);
    }
  }

  /*** Fencing ***/

  /** No Start numbered up to n can arm the plugin any more. */
  ghost predicate Fenced(m: Manager, plugin: PluginId, n: nat) {
    && n <= m.nextGen
    && (plugin in m.latestGen && m.latestGen[plugin] in m.attempts && !m.attempts[m.latestGen[plugin]].finished && !m.closing ==> m.latestGen[plugin] > n)
    && (IsArmed(m, plugin) ==> m.instances[plugin].generation > n)
  }

  lemma FenceHolds(m: Manager, op: Op, plugin: PluginId, n: nat)
    requires Inv(m) && Fenced(m, plugin, n)
    ensures Fenced(Step(m, op), plugin, n)
  {
    hide Inv, Fenced, CloseBegin, StopFinish, StopTimeout, CloseTimeout, CloseFinish, StartBegin, StartFinish, StopBegin, RemovePending;
    if op.DoClose? {
      if m.closing { CloseNoop(m, op.order); } else { FenceClose(m, op.order, plugin, n); }
    } else if op.DoStopFinish? || op.DoStopTimeout? || op.DoCloseTimeout? || op.DoCloseFinish? {
      FenceEnd(m, op, plugin, n);
    } else {
      FenceStart(m, op, plugin, n);
    }
  }

  lemma FenceStart(m: Manager, op: Op, plugin: PluginId, n: nat)
    requires Inv(m) && Fenced(m, plugin, n) && (op.DoStartBegin? || op.DoStartFinish? || op.DoStop? || op.DoRemovePending?)
    ensures Fenced(Step(m, op), plugin, n)
  {
    hide LogsOK, FuturesOK, PendingOK, ArmedOK, StopJoins, Forget, StartFinish, StopBegin, StartBegin;
    if op.DoStartBegin? {
      FenceStartBegin(m, op.plugin, op.transactional, plugin, n);
    } else if op.DoStop? {
      FenceStop(m, op.plugin, plugin, n);
    } else if op.DoStartFinish? {
      FenceStartFinish(m, op.generation, op.outcome, plugin, n);
    }
  }

  lemma FenceStartBegin(m: Manager, started: PluginId, transactional: bool, plugin: PluginId, n: nat)
    requires NumbersOK(m) && Fenced(m, plugin, n)
    ensures Fenced(StartBegin(m, started, transactional), plugin, n)
  {}

  lemma FenceStop(m: Manager, stopped: PluginId, plugin: PluginId, n: nat)
    requires NumbersOK(m) && Fenced(m, plugin, n)
    ensures Fenced(StopBegin(m, stopped), plugin, n)
  {
    hide StopJoins, Forget, PendingOf;
  }

  lemma FenceStartFinish(m: Manager, g: nat, outcome: Outcome, plugin: PluginId, n: nat)
    requires NumbersOK(m) && Fenced(m, plugin, n)
    ensures Fenced(StartFinish(m, g, outcome), plugin, n)
  {
    hide StartFinish, ArmedLog;
    StartFinishEffect(m, g, outcome, plugin);
  }

  lemma FenceClose(m: Manager, order: seq<PluginId>, plugin: PluginId, n: nat)
    requires Inv(m) && Fenced(m, plugin, n) && !m.closing
    ensures Fenced(CloseBegin(m, order), plugin, n)
  {
    hide LogsOK, FuturesOK, CloseBegin, PendingOK, HeldAuthorities, ListOf;
    CloseIs(m, order);
    CloseBeginInv(m, order);
  }

  lemma FenceEnd(m: Manager, op: Op, plugin: PluginId, n: nat)
    requires Fenced(m, plugin, n) && (op.DoStopFinish? || op.DoStopTimeout? || op.DoCloseTimeout? || op.DoCloseFinish?)
    ensures Fenced(Step(m, op), plugin, n)
  {
    hide StartBegin, StartFinish, StopBegin, CloseBegin, RemovePending, Forget;
  }

  lemma {:induction false} FenceHoldsAlways(m: Manager, run: seq<Op>, plugin: PluginId, n: nat)
    requires Inv(m) && Fenced(m, plugin, n)
    ensures Fenced(Exec(m, run), plugin, n)
    decreases |run|
  {
    hide Inv, Step, Fenced;
    if run != [] {
      var init := run[..|run| - 1];
      FenceHoldsAlways(m, init, plugin, n);
      ExecInv(m, init);
      FenceHolds(Exec(m, init), run[|run| - 1], plugin, n);
    }
  }

  /** Stop raises the fence, whether it draws a tombstone or joins the Stop that did. */
  lemma StopFences(m: Manager, plugin: PluginId)
    requires Inv(m) && !m.closing
    ensures Fenced(StopBegin(m, plugin), plugin, m.nextGen)
  {
    hide LogOK;
    StopBeginInv(m, plugin);
  }

  /** In every run: once Stop has returned from its first section, no Start that drew its
      generation before it is ever published as armed; whatever is armed later was
      started later. */
  lemma StopIsFinal(before: seq<Op>, plugin: PluginId, more: seq<Op>)
    ensures var m := Exec(NEW, before);
            var n := Exec(StopBegin(m, plugin), more);
            IsArmed(n, plugin) ==> n.instances[plugin].generation > m.nextGen
    ensures forall g :: g in Exec(NEW, before).attempts ==> g <= Exec(NEW, before).nextGen
  {
    hide Exec, StopBegin;
    NewInv();
    ExecInv(NEW, before);
    var m := Exec(NEW, before);
    StopBeginInv(m, plugin);
    StopKeepsClosing(m, plugin);
    ExecInv(StopBegin(m, plugin), more);
    if !m.closing {
      StopFences(m, plugin);
      FenceHoldsAlways(StopBegin(m, plugin), more, plugin, m.nextGen);
    } else {
      ClosingStays(StopBegin(m, plugin), more);
    }
  }

  lemma {:induction false} ClosingStays(m: Manager, run: seq<Op>)
    ensures m.closing ==> Exec(m, run).closing
    decreases |run|
  {
    if run != [] {
      var b := Exec(m, run[..|run| - 1]);
      ClosingStays(m, run[..|run| - 1]);
      ClosingStep(b, run[|run| - 1]);
    }
  }

  lemma StopKeepsClosing(m: Manager, plugin: PluginId)
    ensures StopBegin(m, plugin).closing == m.closing
  {}

  lemma ClosingStep(m: Manager, op: Op)
    ensures m.closing ==> Step(m, op).closing
  {}

  /** In every run: after Close nothing is armed, ever. */
  lemma CloseIsFinal(before: seq<Op>, order: seq<PluginId>, more: seq<Op>, plugin: PluginId)
    ensures !IsArmed(Exec(CloseBegin(Exec(NEW, before), order), more), plugin)
  {
    hide Exec, CloseBegin;
    NewInv();
    ExecInv(NEW, before);
    var c := CloseBegin(Exec(NEW, before), order);
    CloseBeginInv(Exec(NEW, before), order);
    ClosingStays(c, more);
    ExecInv(c, more);
  }

  /** In every run the generations a plugin was armed with strictly increase. */
  lemma ArmedGenerationsIncrease(run: seq<Op>, plugin: PluginId, i: nat, j: nat)
    requires i < j < |ArmedLog(Exec(NEW, run), plugin)|
    ensures ArmedLog(Exec(NEW, run), plugin)[i] < ArmedLog(Exec(NEW, run), plugin)[j]
  {
    hide Exec;
    NewInv();
    ExecInv(NEW, run);
    OneLog(Exec(NEW, run), plugin);
  }

  /** In every run, a plugin that stops being armed lost its authority in that same step,
      through Stop or Close; one that stays armed keeps it or is armed with a newer one. */
  lemma LeavingArmedRevokes(run: seq<Op>, op: Op, plugin: PluginId)
    requires IsArmed(Exec(NEW, run), plugin)
    ensures var m, n := Exec(NEW, run), Step(Exec(NEW, run), op);
            var g := m.instances[plugin].generation;
            && g !in m.revoked
            && (IsArmed(n, plugin) ==> n.instances[plugin] == m.instances[plugin] || n.instances[plugin].generation > g)
            && (!IsArmed(n, plugin) ==> g in n.revoked && (op.DoClose? || op == DoStop(plugin)))
  {
    hide Exec, Inv;
    NewInv();
    ExecInv(NEW, run);
    if op.DoStopFinish? || op.DoStopTimeout? || op.DoCloseTimeout? || op.DoCloseFinish? {
      EndingsNeverOverwrite(run, op, plugin);
      ArmedStands(Exec(NEW, run), plugin);
    } else {
      Leaving(Exec(NEW, run), op, plugin);
    }
  }

  lemma ArmedStands(m: Manager, plugin: PluginId)
    requires Inv(m) && IsArmed(m, plugin)
    ensures InstanceOK(m, plugin)
  {}

  /** What a step may do to an armed plugin. */
  ghost predicate LeavesWell(m: Manager, n: Manager, op: Op, plugin: PluginId)
    requires IsArmed(m, plugin)
  {
    var g := m.instances[plugin].generation;
    && (IsArmed(n, plugin) ==> n.instances[plugin] == m.instances[plugin] || n.instances[plugin].generation > g)
    && (!IsArmed(n, plugin) ==> g in n.revoked && (op.DoClose? || op == DoStop(plugin)))
  }

  lemma LeavingByClose(m: Manager, op: Op, plugin: PluginId)
    requires Inv(m) && IsArmed(m, plugin) && op.DoClose?
    ensures LeavesWell(m, CloseBegin(m, op.order), op, plugin)
  {
    hide CloseBegin, LogsOK, FuturesOK, ListOf, ArmedOK, PendingOK, NumbersOK;
    ArmedStands(m, plugin);
    CloseIs(m, op.order);
    assert m.instances[plugin].generation in Authorities(m.instances[plugin].authority);
    assert m.instances[plugin].generation in HeldAuthorities(m);
    assert plugin in AffectedBy(m);
  }

  lemma LeavingByStart(m: Manager, op: Op, plugin: PluginId)
    requires Inv(m) && IsArmed(m, plugin) && op.DoStartFinish?
    ensures LeavesWell(m, StartFinish(m, op.generation, op.outcome), op, plugin)
  {
    hide LogsOK, FuturesOK, ArmedOK, PendingOK, NumbersOK, StartFinish, LogOK, Latest;
    StartFinishEffect(m, op.generation, op.outcome, plugin);
    StartFinishStays(m, op.generation, op.outcome, plugin);
    if op.generation in m.attempts && m.attempts[op.generation].plugin == plugin && !m.attempts[op.generation].finished {
      assert LogOK(m, plugin) by { OneLog(m, plugin); }
      ArmedIsOlder(m, plugin, op.generation);
    }
  }

  lemma StartFinishStays(m: Manager, g: nat, outcome: Outcome, plugin: PluginId)
    requires IsArmed(m, plugin)
    ensures IsArmed(StartFinish(m, g, outcome), plugin)
  {}

  lemma LeavingByRest(m: Manager, op: Op, plugin: PluginId)
    requires Inv(m) && IsArmed(m, plugin) && (op.DoStartBegin? || op.DoRemovePending? || op.DoStop?)
    ensures LeavesWell(m, Step(m, op), op, plugin)
  {
    hide LogsOK, FuturesOK, ArmedOK, PendingOK, NumbersOK, Forget, StartFinish, CloseBegin, StopFinish, StopTimeout, CloseTimeout, CloseFinish;
    ArmedStands(m, plugin);
  }

  lemma Leaving(m: Manager, op: Op, plugin: PluginId)
    requires Inv(m) && IsArmed(m, plugin) && !(op.DoStopFinish? || op.DoStopTimeout? || op.DoCloseTimeout? || op.DoCloseFinish?)
    ensures m.instances[plugin].generation !in m.revoked && LeavesWell(m, Step(m, op), op, plugin)
  {
    hide Inv, StartBegin, StartFinish, StopBegin, CloseBegin, RemovePending, LeavesWell;
    ArmedStands(m, plugin);
    if op.DoClose? { LeavingByClose(m, op, plugin); }
    else if op.DoStartFinish? { LeavingByStart(m, op, plugin); }
    else { LeavingByRest(m, op, plugin); }
  }

  lemma OneLog(m: Manager, p: PluginId)
    requires LogsOK(m)
    ensures LogOK(m, p)
  {}

  lemma ArmedIsOlder(m: Manager, plugin: PluginId, g: nat)
    requires LogOK(m, plugin) && IsArmed(m, plugin) && g in m.attempts && !m.attempts[g].finished
    ensures Latest(m, plugin) == g ==> m.instances[plugin].generation < g
  {
    var log := ArmedLog(m, plugin);
    assert log[|log| - 1] in log;
  }

  /** In every run, a Stop or Close that finishes or times out changes only the status of a
      plugin still at the tombstone it drew itself, and never an armed one. */
  lemma EndingsNeverOverwrite(run: seq<Op>, op: Op, plugin: PluginId)
    requires op.DoStopFinish? || op.DoStopTimeout? || op.DoCloseTimeout? || op.DoCloseFinish?
    ensures var m, n := Exec(NEW, run), Step(Exec(NEW, run), op);
            && (forall p :: p in n.instances <==> p in m.instances)
            && (plugin in m.instances && n.instances[plugin] != m.instances[plugin] ==>
                  && m.instances[plugin].phase != Armed && m.instances[plugin].generation == Latest(m, plugin)
                  && (op.DoStopFinish? || op.DoStopTimeout? ==> m.instances[plugin].generation == op.tombstone && !m.closing)
                  && (op.DoCloseTimeout? || op.DoCloseFinish? ==> plugin in m.epochs && m.instances[plugin].generation == m.epochs[plugin]))
  {
    hide Exec, Inv, StopFinish, StopTimeout, CloseTimeout, CloseFinish;
    NewInv();
    ExecInv(NEW, run);
    var m := Exec(NEW, run);
    match op
    case DoStopFinish(t, failed) => StopEnds(m, t, failed, plugin);
    case DoStopTimeout(t) => StopEnds(m, t, false, plugin);
    case DoCloseTimeout => CloseEnds(m, {}, plugin);
    case DoCloseFinish(failures) => CloseEnds(m, failures, plugin);
    case _ =>
  }

  /** n differs from m at most in the status of a plugin that is at tombstone t, not armed. */
  ghost predicate OnlyAt(m: Manager, n: Manager, t: nat, plugin: PluginId) {
    && (forall p :: p in n.instances <==> p in m.instances)
    && (plugin in m.instances && n.instances[plugin] != m.instances[plugin] ==>
          m.instances[plugin].phase != Armed && m.instances[plugin].generation == Latest(m, plugin) == t)
  }

  lemma StopEnds(m: Manager, t: nat, failed: bool, plugin: PluginId)
    requires Inv(m)
    ensures OnlyAt(m, StopFinish(m, t, failed), t, plugin) && OnlyAt(m, StopTimeout(m, t), t, plugin)
    ensures m.closing ==> StopFinish(m, t, failed).instances == m.instances && StopTimeout(m, t).instances == m.instances
  {
    hide Inv, StopFinish, StopTimeout, OnlyAt;
    TombstoneNotArmed(m, t, plugin);
    StopFinishAt(m, t, failed, plugin);
    StopTimeoutAt(m, t, plugin);
  }

  lemma TombstoneNotArmed(m: Manager, t: nat, plugin: PluginId)
    requires Inv(m)
    ensures t in m.futures && plugin in m.instances && m.instances[plugin].generation == t ==> m.instances[plugin].phase != Armed
  {
    hide LogsOK, PendingOK, FuturesOK;
    if plugin in m.instances { assert InstanceOK(m, plugin); }
  }

  lemma StopFinishAt(m: Manager, t: nat, failed: bool, plugin: PluginId)
    requires t in m.futures && plugin in m.instances && m.instances[plugin].generation == t ==> m.instances[plugin].phase != Armed
    ensures OnlyAt(m, StopFinish(m, t, failed), t, plugin)
    ensures m.closing ==> StopFinish(m, t, failed).instances == m.instances
  {}

  lemma StopTimeoutAt(m: Manager, t: nat, plugin: PluginId)
    requires t in m.futures && plugin in m.instances && m.instances[plugin].generation == t ==> m.instances[plugin].phase != Armed
    ensures OnlyAt(m, StopTimeout(m, t), t, plugin)
    ensures m.closing ==> StopTimeout(m, t).instances == m.instances
  {}

  lemma CloseEnds(m: Manager, failures: set<PluginId>, plugin: PluginId)
    requires Inv(m)
    ensures forall n :: n == CloseTimeout(m) || n == CloseFinish(m, failures) ==>
              && (forall p :: p in n.instances <==> p in m.instances)
              && (plugin in m.instances && n.instances[plugin] != m.instances[plugin] ==> plugin in m.epochs && OnlyAt(m, n, m.epochs[plugin], plugin))
  {
    hide LogsOK, PendingOK, FuturesOK;
    if plugin in m.instances { assert InstanceOK(m, plugin); }
  }
}
