/** What the two analyses' tests mean for packets (internal/netguard/lint.go and admits.go). */
module NetAudience {
  import opened Options
  import opened NetPrefix
  import opened NetPlan
  import opened NetLint

  /*** The lint: when an accept is no way in ***/

  ghost predicate AllIn(p: Prefix, outer: Prefix) { forall a :: Contains(p, a) ==> Contains(outer, a) }

  /** Every address of the prefix is in one of the others. */
  ghost predicate Inside(p: Prefix, outers: seq<Prefix>) { exists j :: 0 <= j < |outers| && AllIn(p, outers[j]) }

  /** The drop sees the accept's interface, and each source of the accept is inside one of its own. */
  ghost predicate Covers(drop: InputRule, accept: InputRule) {
    && (drop.iface == "" || drop.iface == accept.iface)
    && (drop.sources == [] || (accept.sources != [] && forall i :: 0 <= i < |accept.sources| ==> Inside(accept.sources[i], drop.sources)))
  }

  lemma InsideExactly(p: Prefix, outers: seq<Prefix>)
    requires ValidPrefix(p) && ValidSources(outers)
    ensures WithinAny(p, outers) <==> Inside(p, outers)
  {
    hide Within, Contains, ValidPrefix;
    forall j | 0 <= j < |outers| ensures Within(p, outers[j]) <==> AllIn(p, outers[j]) {
      assert ValidPrefix(outers[j]);
      WithinExactly(p, outers[j]);
    }
  }

  lemma ShadowsExactly(drop: InputRule, accept: InputRule)
    requires ValidSources(drop.sources) && ValidSources(accept.sources)
    ensures Shadows(drop, accept) <==> Covers(drop, accept)
  {
    hide WithinAny, Inside, ValidPrefix;
    forall i | 0 <= i < |accept.sources| ensures WithinAny(accept.sources[i], drop.sources) <==> Inside(accept.sources[i], drop.sources) {
      assert ValidPrefix(accept.sources[i]);
      InsideExactly(accept.sources[i], drop.sources);
    }
  }

  lemma {:induction false} DropIsGathered(chain: seq<InputRule>, port: int, n: nat, m: nat)
    requires m < n <= |chain| && MatchesTCPPort(chain[m], port) && chain[m].action == Drop
    ensures chain[m] in DropsBefore(chain, port, n)
    decreases n
  {
    if m < n - 1 { DropIsGathered(chain, port, n - 1, m); }
  }

  ghost predicate ValidChain(chain: seq<InputRule>) { forall i :: 0 <= i < |chain| ==> ValidSources(chain[i].sources) }

  /** An accept for a port is a way in exactly when no one drop before it, for that port, covers it. */
  lemma WayInExactly(chain: seq<InputRule>, port: int, n: nat)
    requires n < |chain| && ValidChain(chain) && MatchesTCPPort(chain[n], port) && chain[n].action == Accept
    ensures WayIn(chain, port, n) <==> forall m: nat :: m < n && MatchesTCPPort(chain[m], port) && chain[m].action == Drop ==> !Covers(chain[m], chain[n])
  {
    hide Covers, Shadows, MatchesTCPPort, DropsBefore, ValidSources;
    forall m: nat | m < n ensures Shadows(chain[m], chain[n]) <==> Covers(chain[m], chain[n]) { ShadowsExactly(chain[m], chain[n]); }
    var drops := DropsBefore(chain, port, n);
    if Shadowed(drops, chain[n]) {
      var i :| 0 <= i < |drops| && Shadows(drops[i], chain[n]);
      DropsAre(chain, port, n, drops[i]);
    }
    forall m: nat | m < n && MatchesTCPPort(chain[m], port) && chain[m].action == Drop && Covers(chain[m], chain[n]) ensures Shadowed(drops, chain[n]) {
      DropIsGathered(chain, port, n, m);
      var i :| 0 <= i < |drops| && drops[i] == chain[m];
      assert Shadows(drops[i], chain[n]);
    }
  }

  /*** The audience ***/

  /** A packet of the audience, over the given protocol to the given port. */
  ghost predicate OfAudience(p: Plan, a: Audience, proto: Proto, port: int, pk: Packet)
    requires p.wireGuard.Some?
  {
    && pk.port == port && pk.proto == (if proto == Tcp then IsTcp else IsUdp) && |pk.src.bits| == Width(pk.src.family)
    && (if a.mesh then pk.iface in a.meshInterfaces && Contains(p.wireGuard.value, pk.src) else pk.iface == p.iface)
  }

  /** All addresses of a family. */
  ghost predicate HoldsFamily(s: Prefix) { forall x: Addr :: x.family == s.family && |x.bits| == Width(x.family) ==> Contains(s, x) }

  lemma WholeFamily(s: Prefix)
    requires ValidPrefix(s)
    ensures s.len == 0 <==> HoldsFamily(s)
  {
    if s.len > 0 {
      var x := Addr(s.family, s.bits[0 := !s.bits[0]]);
      assert x.bits[0] != s.bits[0];
      assert !Contains(s, x);
    }
  }

  /** A rule covers the audience exactly when it sees its interface and takes every source: for the
      mesh, its range inside one prefix; for the public, a whole address family in one prefix. */
  lemma CoversExactly(p: Plan, r: InputRule, a: Audience)
    requires p.wireGuard.Some? && ValidPrefix(p.wireGuard.value) && ValidSources(r.sources)
    ensures CoversAudience(p, r, a) <==>
              && OnAudienceInterface(p, r, a)
              && (r.sources == [] || if a.mesh then Inside(p.wireGuard.value, r.sources) else exists i :: 0 <= i < |r.sources| && HoldsFamily(r.sources[i]))
  {
    hide WithinAny, Inside, HoldsFamily, ValidPrefix;
    InsideExactly(p.wireGuard.value, r.sources);
    forall i | 0 <= i < |r.sources| ensures r.sources[i].len == 0 <==> HoldsFamily(r.sources[i]) {
      assert ValidPrefix(r.sources[i]);
      WholeFamily(r.sources[i]);
    }
  }

  /** A drop that matches the packet before any accept does. */
  ghost predicate DropsFirst(chain: seq<InputRule>, m: nat, pk: Packet) {
    m < |chain| && chain[m].action == Drop && RuleMatches(chain[m], pk) && forall k: nat :: k < m ==> !(chain[k].action == Accept && RuleMatches(chain[k], pk))
  }

  lemma FullIsAll(p: Plan)
    requires p.wireGuard.Some?
    ensures FullChain(p) == AllRules(p)
  {}

  /** When the check says yes for a protocol and port, it is by a rule that accepts the packets of the
      audience it covers, so such a packet is dropped exactly when a drop matches it first. */
  lemma AdmittedPacket(p: Plan, proto: Proto, port: int, a: Audience, pk: Packet) returns (n: nat)
    requires Normal(p).Ok? && proto != AnyProto && Admits(p, proto, port, a)
    ensures var e := Normal(p).value;
            && e.wireGuard.Some? && n < |FullChain(e)| && FullChain(e)[n].action == Accept && CoversAudience(e, FullChain(e)[n], a) && MatchesPort(FullChain(e)[n], proto, port)
            && (RuleMatches(FullChain(e)[n], pk) ==> (ChainVerdict(e, pk) == Drop <==> exists m: nat :: DropsFirst(FullChain(e), m, pk)))
  {
    hide FirstRule, FirstLine, Render, Settles, RuleMatches, WalkAudience, FullChain, AllRules, Normal;
    var e := Normal(p).value;
    assert e.wireGuard.Some? by { NormalHasPrefix(p); }
    n := AdmittedAt(e, FullChain(e), proto, port, a);
    SettlesParts(e, FullChain(e)[n], proto, port, a);
    FullIsAll(e);
    RenderSame(e, pk);
    if RuleMatches(FullChain(e)[n], pk) { FirstMatchIs(FullChain(e), n, pk); }
  }

  lemma NormalHasPrefix(p: Plan)
    requires Normal(p).Ok?
    ensures Normal(p).value.wireGuard.Some?
  {}

  lemma SettlesParts(p: Plan, r: InputRule, proto: Proto, port: int, a: Audience)
    requires Settles(p, r, proto, port, a)
    ensures CoversAudience(p, r, a) && MatchesPort(r, proto, port)
  {}

  lemma FirstMatchIs(chain: seq<InputRule>, n: nat, pk: Packet)
    requires n < |chain| && RuleMatches(chain[n], pk)
    ensures FirstRule(chain, pk).Some? && (FirstRule(chain, pk) == Some(Drop) <==> exists m: nat :: DropsFirst(chain, m, pk))
  {
    hide RuleMatches, FirstRule;
    if FirstRule(chain, pk).None? { NoneBefore(chain, pk); }
    var k := FirstAt(chain, pk);
    if chain[k].action == Drop { assert DropsFirst(chain, k, pk); }
    if m: nat :| DropsFirst(chain, m, pk) { assert k <= m; }
  }

  /** A rule on the audience's interfaces without sources, or with one prefix around all of them,
      matches every packet of the audience. */
  lemma CoveringMatches(p: Plan, r: InputRule, a: Audience, proto: Proto, port: int, pk: Packet)
    requires p.wireGuard.Some? && proto != AnyProto && CoversAudience(p, r, a) && MatchesPort(r, proto, port) && OfAudience(p, a, proto, port, pk)
    requires r.iface == "" || r.iface == pk.iface
    requires a.mesh || r.sources == [] || exists i :: 0 <= i < |r.sources| && r.sources[i].len == 0 && r.sources[i].family == pk.src.family
    ensures RuleMatches(r, pk)
  {
    if r.sources != [] {
      if a.mesh {
        var i :| 0 <= i < |r.sources| && Within(p.wireGuard.value, r.sources[i]);
        WithinContains(p.wireGuard.value, r.sources[i], pk.src);
      } else {
        var i :| 0 <= i < |r.sources| && r.sources[i].len == 0 && r.sources[i].family == pk.src.family;
        assert Contains(r.sources[i], pk.src);
      }
    }
  }

  /*** A yes that lets nothing through ***/

  /** Half of all addresses of a family. */
  function Half(f: Family, b: bool): Prefix { Prefix(f, [b] + seq(Width(f) - 1, i => false), 1) }

  function HalvesRule(f: Family): InputRule { InputRule("", [Half(f, false), Half(f, true)], AnyProto, [], Drop) }

  function HalvesPlan(port: int): Plan {
    Plan("eth0", Some(Prefix(V4, seq(32, i => false), 24)), [], [port], [], [], [HalvesRule(V4), HalvesRule(V6)], None)
  }

  lemma OneNormal(p: Prefix)
    requires ValidPrefix(p) && Masked(p) == p
    ensures NormalSources([p]) == [p]
  {
    assert [p][..0] == [];
    assert NormalSources([]) == [];
    assert [] + [p] == [p];
  }

  lemma TwoNormal(p: Prefix, q: Prefix)
    requires ValidPrefix(p) && Masked(p) == p && ValidPrefix(q) && Masked(q) == q && p != q
    ensures NormalSources([p, q]) == [p, q]
  {
    hide Masked, ValidPrefix;
    OneNormal(p);
    assert [p, q][..1] == [p];
  }

  lemma HalfIs(f: Family, b: bool)
    ensures ValidPrefix(Half(f, b)) && Masked(Half(f, b)) == Half(f, b) && Half(f, b).bits[0] == b
  {}

  lemma HalvesRuleIsNormal(f: Family)
    ensures NormalRule(HalvesRule(f)) == Ok(HalvesRule(f))
  {
    hide Masked, ValidPrefix, Half, NormalSources;
    HalfIs(f, false);
    HalfIs(f, true);
    TwoNormal(Half(f, false), Half(f, true));
  }

  lemma HalvesRulesAreNormal()
    ensures NormalRules([HalvesRule(V4), HalvesRule(V6)]) == Ok([HalvesRule(V4), HalvesRule(V6)])
  {
    hide NormalRule, HalvesRule;
    HalvesRuleIsNormal(V4);
    HalvesRuleIsNormal(V6);
    var a, b := HalvesRule(V4), HalvesRule(V6);
    assert [a][..0] == [] && NormalRules([]) == Ok([]) && [] + [a] == [a];
    assert [a, b][..1] == [a] && [a] + [b] == [a, b];
  }

  lemma HalvesAreNormal(port: int)
    requires ValidPort(port)
    ensures Normal(HalvesPlan(port)) == Ok(HalvesPlan(port))
  {
    var wg := HalvesPlan(port).wireGuard.value;
    assert Masked(wg) == wg;
    assert [port][..0] == [] && Sorted([port]) == [port];
    assert ValidName("eth0");
    HalvesRulesAreNormal();
    hide NormalRules, Masked, HalvesRule;
  }

  /** The public is admitted to a udp port of the public list, although two drops before it take every packet there is:
      the two prefixes of each cover a family only together, so neither is a drop of the audience. */
  lemma DropsTogether(port: int, pk: Packet)
    requires ValidPort(port) && |pk.src.bits| == Width(pk.src.family)
    ensures Admits(HalvesPlan(port), Udp, port, Audience(false, []))
    ensures Normal(HalvesPlan(port)) == Ok(HalvesPlan(port)) && ChainVerdict(HalvesPlan(port), pk) == Drop
  {
    hide Render, FirstLine, FirstRule, Normal, RuleMatches, WalkAudience, FullChain, HalvesRule;
    HalvesAreNormal(port);
    HalvesAdmit(port);
    var p := HalvesPlan(port);
    var chain, m := FullChain(p), if pk.src.family == V4 then 0 else 1;
    HalvesMatch(pk);
    FullIsAll(p);
    RenderSame(p, pk);
    FirstMatchIs(chain, m, pk);
    assert chain[0].action == chain[1].action == Drop by { HalvesDrop(V4); HalvesDrop(V6); }
    assert DropsFirst(chain, m, pk);
  }

  lemma HalvesDrop(f: Family)
    ensures HalvesRule(f).action == Drop
  {}

  lemma HalvesMatch(pk: Packet)
    requires |pk.src.bits| == Width(pk.src.family)
    ensures RuleMatches(HalvesRule(pk.src.family), pk)
  {
    var drop := HalvesRule(pk.src.family);
    assert Contains(drop.sources[if pk.src.bits[0] then 1 else 0], pk.src);
  }

  lemma HalvesAdmit(port: int)
    ensures FullChain(HalvesPlan(port)) == [HalvesRule(V4), HalvesRule(V6), InputRule("eth0", [], Udp, [port], Accept)]
    ensures WalkAudience(HalvesPlan(port), FullChain(HalvesPlan(port)), Udp, port, Audience(false, []))
  {
    hide Settles, HalvesRule;
    var p, a, b, accept, public := HalvesPlan(port), HalvesRule(V4), HalvesRule(V6), InputRule("eth0", [], Udp, [port], Accept), Audience(false, []);
    assert FullChain(p) == [a, b, accept];
    assert [a, b, accept][1..] == [b, accept] && [b, accept][1..] == [accept];
    HalvesSettleNothing(port);
    assert WalkAudience(p, [accept], Udp, port, public);
    assert WalkAudience(p, [b, accept], Udp, port, public);
  }

  lemma HalvesSettleNothing(port: int)
    ensures var p, public := HalvesPlan(port), Audience(false, []);
            && !Settles(p, HalvesRule(V4), Udp, port, public) && !Settles(p, HalvesRule(V6), Udp, port, public)
            && Settles(p, InputRule("eth0", [], Udp, [port], Accept), Udp, port, public)
  {}

  /*** Lists of one audience ***/

  /** A port only the wireguard list of its protocol opens is not admitted to the public. */
  lemma MeshOnlyIsNotPublic(p: Plan, proto: Proto, port: int, a: Audience)
    requires Normal(p).Ok? && proto != AnyProto && !a.mesh && Normal(p).value.wireGuard.Some? && Normal(p).value.wireGuard.value.len > 0
    requires forall i :: 0 <= i < |Normal(p).value.rules| ==> !MatchesPort(Normal(p).value.rules[i], proto, port)
    requires port !in (if proto == Tcp then Normal(p).value.publicTCP else Normal(p).value.publicUDP)
    ensures !Admits(p, proto, port, a)
  {
    hide WalkAudience, Normal, FullChain;
    if Admits(p, proto, port, a) {
      var e := Normal(p).value;
      NormalHasPrefix(p);
      var n := AdmittedAt(e, FullChain(e), proto, port, a);
      NothingSettles(e, proto, port, a, FullChain(e)[n]);
    }
  }

  lemma NothingSettles(e: Plan, proto: Proto, port: int, a: Audience, r: InputRule)
    requires e.wireGuard.Some? && proto != AnyProto && !a.mesh && e.wireGuard.value.len > 0 && r in FullChain(e)
    requires forall i :: 0 <= i < |e.rules| ==> !MatchesPort(e.rules[i], proto, port)
    requires port !in (if proto == Tcp then e.publicTCP else e.publicUDP)
    ensures !Settles(e, r, proto, port, a)
  {
    var lists := BroadRule(e.iface, [], Tcp, e.publicTCP) + BroadRule(e.iface, [], Udp, e.publicUDP)
                 + BroadRule("", WireGuardSources(e), Tcp, e.wireGuardTCP) + BroadRule("", WireGuardSources(e), Udp, e.wireGuardUDP);
    assert FullChain(e) == e.rules + lists;
    assert r in e.rules || r in lists;
  }
}
