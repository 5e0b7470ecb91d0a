/** Two analyses of the chain: the lockout lint (internal/netguard/lint.go) and the
    audience check (internal/netguard/admits.go). */
module NetLint {
  import opened Options
  import opened NetPrefix
  import opened NetPlan

  /** What both walks look at: the normalised plan when it normalises, else the plan as it is. */
  function Effective(p: Plan): Plan { if Normal(p).Ok? then Normal(p).value else p }

  function WireGuardSources(p: Plan): seq<Prefix> { if p.wireGuard.Some? then [p.wireGuard.value] else [UNPARSED] }

  /*** The lockout lint ***/

  predicate MatchesTCPPort(r: InputRule, port: int) {
    r.proto == AnyProto || (r.proto == Tcp && (r.ports == [] || port in r.ports))
  }

  /** drop matches every packet accept matches, on a port both match. */
  predicate Shadows(drop: InputRule, accept: InputRule) {
    && (drop.iface == "" || drop.iface == accept.iface)
    && (drop.sources == [] || (accept.sources != [] && forall i :: 0 <= i < |accept.sources| ==> WithinAny(accept.sources[i], drop.sources)))
  }

  predicate Shadowed(drops: seq<InputRule>, accept: InputRule) { exists i :: 0 <= i < |drops| && Shadows(drops[i], accept) }

  /** The chain the lint walks: the rules, then the public and the wireguard tcp list. */
  function TcpChain(p: Plan): seq<InputRule> {
    p.rules + BroadRule(p.iface, [], Tcp, p.publicTCP) + BroadRule("", WireGuardSources(p), Tcp, p.wireGuardTCP)
  }

  /** The drops before position n that match the port. */
  function DropsBefore(chain: seq<InputRule>, port: int, n: nat): seq<InputRule>
    requires n <= |chain|
  {
    if n == 0 then []
    else
      var before := DropsBefore(chain, port, n - 1);
      if MatchesTCPPort(chain[n - 1], port) && chain[n - 1].action == Drop then before + [chain[n - 1]] else before
  }

  /** Position n is a way in: an accept for the port that no earlier drop shadows. */
  predicate WayIn(chain: seq<InputRule>, port: int, n: nat) {
    n < |chain| && MatchesTCPPort(chain[n], port) && chain[n].action == Accept && !Shadowed(DropsBefore(chain, port, n), chain[n])
  }

  predicate PortOpen(chain: seq<InputRule>, port: int) { exists n: nat :: n < |chain| && WayIn(chain, port, n) }

  /** managementPathOpen: some port has a way in. */
  predicate PathOpen(p: Plan, ports: seq<int>) { exists i :: 0 <= i < |ports| && PortOpen(TcpChain(Effective(p)), ports[i]) }

  predicate AcceptsTCPPort(p: Plan, port: int) { PathOpen(p, [port]) }

  /** The walk as the code takes it: per port, drops gathered until an accept none of them shadows. */
  method ManagementPathOpen(p: Plan, ports: seq<int>) returns (open: bool)
    ensures open == PathOpen(p, ports)
  {
    var chain := TcpChain(Effective(p));
    for i := 0 to |ports|
      invariant forall j :: 0 <= j < i ==> !PortOpen(chain, ports[j])
    {
      var found := WalkPort(chain, ports[i]);
      if found { return true; }
    }
    return false;
  }

  method WalkPort(chain: seq<InputRule>, port: int) returns (open: bool)
    ensures open == PortOpen(chain, port)
  {
    var drops: seq<InputRule> := [];
    for n := 0 to |chain|
      invariant drops == DropsBefore(chain, port, n)
      invariant forall m: nat :: m < n ==> !WayIn(chain, port, m)
    {
      var rule := chain[n];
      if !MatchesTCPPort(rule, port) { continue; }
      if rule.action != Accept {
        drops := drops + [rule];
        continue;
      }
      var shadowed := false;
      for k := 0 to |drops|
        invariant !shadowed && forall j :: 0 <= j < k ==> !Shadows(drops[j], rule)
      {
        if Shadows(drops[k], rule) {
          shadowed := true;
          break;
        }
      }
      if !shadowed { assert WayIn(chain, port, n); return true; }
    }
    return false;
  }

  /*** The lint is sound ***/

  lemma {:induction false} WithinAnyContains(sources: seq<Prefix>, outers: seq<Prefix>, a: Addr)
    requires (forall i :: 0 <= i < |sources| ==> WithinAny(sources[i], outers)) && ContainsAny(sources, a)
    ensures ContainsAny(outers, a)
  {
    var i :| 0 <= i < |sources| && Contains(sources[i], a);
    assert WithinAny(sources[i], outers);
    var j :| 0 <= j < |outers| && Within(sources[i], outers[j]);
    WithinContains(sources[i], outers[j], a);
  }

  /** A shadowing drop matches every tcp packet its accept matches. */
  lemma ShadowMatches(drop: InputRule, accept: InputRule, pk: Packet)
    requires Shadows(drop, accept) && RuleMatches(accept, pk) && pk.proto == IsTcp && MatchesTCPPort(drop, pk.port)
    ensures RuleMatches(drop, pk)
  {
    hide ContainsAny;
    if drop.sources != [] { WithinAnyContains(accept.sources, drop.sources, pk.src); }
  }

  lemma {:induction false} DropsAre(chain: seq<InputRule>, port: int, n: nat, d: InputRule)
    requires n <= |chain| && d in DropsBefore(chain, port, n)
    ensures exists m: nat :: m < n && chain[m] == d && MatchesTCPPort(d, port) && d.action == Drop
  {
    if n > 0 && d in DropsBefore(chain, port, n - 1) { DropsAre(chain, port, n - 1, d); } else { assert chain[n - 1] == d; }
  }

  /** The position that decides a packet. */
  lemma {:induction false} FirstAt(chain: seq<InputRule>, pk: Packet) returns (n: nat)
    requires FirstRule(chain, pk).Some?
    ensures n < |chain| && RuleMatches(chain[n], pk) && FirstRule(chain, pk) == Some(chain[n].action)
    ensures forall m: nat :: m < n ==> !RuleMatches(chain[m], pk)
  {
    hide RuleMatches;
    var init := chain[..|chain| - 1];
    if FirstRule(init, pk).Some? {
      n := FirstAt(init, pk);
      assert forall m: nat :: m < n ==> chain[m] == init[m];
    } else {
      n := |chain| - 1;
      NoneBefore(init, pk);
      assert forall m: nat :: m < n ==> chain[m] == init[m];
    }
  }

  lemma {:induction false} NoneBefore(chain: seq<InputRule>, pk: Packet)
    requires FirstRule(chain, pk).None?
    ensures forall m: nat :: m < |chain| ==> !RuleMatches(chain[m], pk)
  {
    hide RuleMatches;
    if chain != [] {
      var init := chain[..|chain| - 1];
      NoneBefore(init, pk);
      forall m: nat | m < |chain| ensures !RuleMatches(chain[m], pk) { if m < |init| { assert chain[m] == init[m]; } }
    }
  }

  lemma MatchesPortToo(r: InputRule, pk: Packet)
    requires pk.proto == IsTcp
    ensures RuleMatches(r, pk) ==> MatchesTCPPort(r, pk.port)
  {}

  /** An accepted tcp packet came in by a way in. */
  lemma AcceptIsWayIn(chain: seq<InputRule>, pk: Packet)
    requires pk.proto == IsTcp && FirstRule(chain, pk) == Some(Accept)
    ensures PortOpen(chain, pk.port)
  {
    hide RuleMatches, FirstRule;
    var n := FirstAt(chain, pk);
    MatchesPortToo(chain[n], pk);
    var drops := DropsBefore(chain, pk.port, n);
    if Shadowed(drops, chain[n]) {
      var i :| 0 <= i < |drops| && Shadows(drops[i], chain[n]);
      DropsAre(chain, pk.port, n, drops[i]);
      ShadowMatches(drops[i], chain[n], pk);
      assert false;
    }
    assert WayIn(chain, pk.port, n);
  }

  /** The udp lists say nothing to a tcp packet. */
  lemma TcpChainSame(p: Plan, pk: Packet)
    requires p.wireGuard.Some? && pk.proto == IsTcp
    ensures FirstRule(TcpChain(p), pk) == FirstRule(AllRules(p), pk)
  {
    hide FirstRule;
    var wg := [p.wireGuard.value];
    var a, c := BroadRule(p.iface, [], Tcp, p.publicTCP), BroadRule("", wg, Tcp, p.wireGuardTCP);
    AllRulesSplit(p, pk);
    UdpSilent(p.iface, [], p.publicUDP, pk);
    UdpSilent("", wg, p.wireGuardUDP, pk);
    FirstRuleAppend(p.rules, a, pk);
    FirstRuleAppend(p.rules + a, c, pk);
  }

  lemma UdpSilent(iface: string, sources: seq<Prefix>, ports: seq<int>, pk: Packet)
    requires pk.proto == IsTcp
    ensures FirstRule(BroadRule(iface, sources, Udp, ports), pk) == None
  {
    if ports != [] { OneRule(InputRule(iface, sources, Udp, ports, Accept), pk); }
  }

  /** The lockout lint is sound: for every plan that renders, when it reports no path for a
      set of ports, the chain accepts no tcp packet to any of them, from any source on any
      interface. */
  lemma LintIsSound(p: Plan, ports: seq<int>, pk: Packet)
    requires Normal(p).Ok? && !PathOpen(p, ports) && pk.proto == IsTcp && pk.port in ports
    ensures ChainVerdict(Normal(p).value, pk) == Drop
  {
    hide FirstRule, FirstLine, Render, AllRules, PortOpen, TcpChain;
    var n := Normal(p).value;
    RenderSame(n, pk);
    TcpChainSame(n, pk);
    var i :| 0 <= i < |ports| && ports[i] == pk.port;
    assert !PortOpen(TcpChain(n), ports[i]);
    if FirstRule(TcpChain(n), pk) == Some(Accept) {
      AcceptIsWayIn(TcpChain(n), pk);
      assert false;
    }
  }

  /*** The audience check ***/

  datatype Audience = Audience(mesh: bool, meshInterfaces: seq<string>)

  predicate MatchesPort(r: InputRule, proto: Proto, port: int) {
    r.proto == AnyProto || (r.proto == proto && (r.ports == [] || port in r.ports))
  }

  predicate OnAudienceInterface(p: Plan, r: InputRule, a: Audience) {
    r.iface == "" || (if a.mesh then r.iface in a.meshInterfaces else r.iface == p.iface)
  }

  predicate Overlaps(s: Prefix, mesh: Prefix) {
    s.family == mesh.family && (Agree(s.bits, mesh.bits, s.len) || Agree(mesh.bits, s.bits, mesh.len))
  }

  predicate ReachesAudience(p: Plan, r: InputRule, a: Audience) {
    && OnAudienceInterface(p, r, a)
    && (r.sources == [] || !a.mesh || p.wireGuard.None? || exists i :: 0 <= i < |r.sources| && Overlaps(r.sources[i], p.wireGuard.value))
  }

  predicate Unrestricted(sources: seq<Prefix>) { sources == [] || exists i :: 0 <= i < |sources| && sources[i].len == 0 }

  predicate CoversAudience(p: Plan, r: InputRule, a: Audience) {
    && OnAudienceInterface(p, r, a)
    && (if a.mesh then r.sources == [] || (p.wireGuard.Some? && WithinAny(p.wireGuard.value, r.sources)) else Unrestricted(r.sources))
  }

  /** The chain Admits walks: the rules, then all four lists. */
  function FullChain(p: Plan): seq<InputRule> {
    p.rules
    + BroadRule(p.iface, [], Tcp, p.publicTCP)
    + BroadRule(p.iface, [], Udp, p.publicUDP)
    + BroadRule("", WireGuardSources(p), Tcp, p.wireGuardTCP)
    + BroadRule("", WireGuardSources(p), Udp, p.wireGuardUDP)
  }

  /** Whether a rule settles the question, and how. */
  predicate Settles(p: Plan, r: InputRule, proto: Proto, port: int, a: Audience) {
    MatchesPort(r, proto, port) && ReachesAudience(p, r, a) && CoversAudience(p, r, a)
  }

  function WalkAudience(p: Plan, chain: seq<InputRule>, proto: Proto, port: int, a: Audience): bool {
    if chain == [] then false
    else if Settles(p, chain[0], proto, port, a) then chain[0].action == Accept
    else WalkAudience(p, chain[1..], proto, port, a)
  }

  function Admits(p: Plan, proto: Proto, port: int, a: Audience): bool {
    WalkAudience(Effective(p), FullChain(Effective(p)), proto, port, a)
  }

  /** The walk as the code takes it. */
  method AdmitsAudience(p0: Plan, proto: Proto, port: int, a: Audience) returns (yes: bool)
    ensures yes == Admits(p0, proto, port, a)
  {
    hide Settles;
    var p := Effective(p0);
    var chain := FullChain(p);
    for i := 0 to |chain|
      invariant WalkAudience(p, chain, proto, port, a) == WalkAudience(p, chain[i..], proto, port, a)
    {
      assert chain[i..][1..] == chain[i + 1..];
      if Settles(p, chain[i], proto, port, a) { return chain[i].action == Accept; }
    }
    return false;
  }

  /** The accept that answered yes, and that nothing before it settled. */
  lemma {:induction false} AdmittedAt(p: Plan, chain: seq<InputRule>, proto: Proto, port: int, a: Audience) returns (n: nat)
    requires WalkAudience(p, chain, proto, port, a)
    ensures n < |chain| && Settles(p, chain[n], proto, port, a) && chain[n].action == Accept
    ensures forall m: nat :: m < n ==> !Settles(p, chain[m], proto, port, a)
  {
    hide Settles;
    if Settles(p, chain[0], proto, port, a) {
      n := 0;
    } else {
      n := AdmittedAt(p, chain[1..], proto, port, a);
      n := n + 1;
      forall m: nat | m < n ensures !Settles(p, chain[m], proto, port, a) { if m > 0 { assert chain[m] == chain[1..][m - 1]; } }
    }
  }

  /** A drop that shadows an accept covering the audience covers it too, and reaches it. */
  lemma ShadowSettles(p: Plan, drop: InputRule, accept: InputRule, port: int, a: Audience)
    requires Shadows(drop, accept) && Settles(p, accept, Tcp, port, a) && MatchesTCPPort(drop, port)
    ensures Settles(p, drop, Tcp, port, a)
  {
    if drop.sources != [] {
      if a.mesh {
        var wg := p.wireGuard.value;
        var i :| 0 <= i < |accept.sources| && Within(wg, accept.sources[i]);
        assert WithinAny(accept.sources[i], drop.sources);
        var j :| 0 <= j < |drop.sources| && Within(accept.sources[i], drop.sources[j]);
        WithinTrans(wg, accept.sources[i], drop.sources[j]);
        assert Within(wg, drop.sources[j]) && Overlaps(drop.sources[j], wg);
      } else {
        var i :| 0 <= i < |accept.sources| && accept.sources[i].len == 0;
        assert WithinAny(accept.sources[i], drop.sources);
        var j :| 0 <= j < |drop.sources| && Within(accept.sources[i], drop.sources[j]);
        assert drop.sources[j].len == 0;
      }
    }
  }

  /** A chain with an accept settled first for the audience has a way in for the port. */
  lemma SettledIsOpen(p: Plan, chain: seq<InputRule>, port: int, a: Audience)
    requires WalkAudience(p, chain, Tcp, port, a)
    ensures PortOpen(chain, port)
  {
    hide Settles, WalkAudience;
    var n := AdmittedAt(p, chain, Tcp, port, a);
    assert MatchesTCPPort(chain[n], port) by { SettlesPort(p, chain[n], port, a); }
    var drops := DropsBefore(chain, port, n);
    if Shadowed(drops, chain[n]) {
      var i :| 0 <= i < |drops| && Shadows(drops[i], chain[n]);
      DropsAre(chain, port, n, drops[i]);
      ShadowSettles(p, drops[i], chain[n], port, a);
      assert false;
    }
    assert WayIn(chain, port, n);
  }

  lemma SettlesPort(p: Plan, r: InputRule, port: int, a: Audience)
    requires Settles(p, r, Tcp, port, a)
    ensures MatchesTCPPort(r, port)
  {}

  /** Rules that never match tcp can be left out of the audience walk. */
  lemma {:induction false} WalkSkips(p: Plan, before: seq<InputRule>, udp: seq<InputRule>, after: seq<InputRule>, port: int, a: Audience)
    requires forall i :: 0 <= i < |udp| ==> udp[i].proto == Udp
    ensures WalkAudience(p, before + udp + after, Tcp, port, a) == WalkAudience(p, before + after, Tcp, port, a)
    decreases |before| + |udp|
  {
    hide Settles;
    if before != [] {
      assert (before + udp + after)[1..] == before[1..] + udp + after && (before + after)[1..] == before[1..] + after;
      WalkSkips(p, before[1..], udp, after, port, a);
    } else if udp != [] {
      assert (before + udp + after)[1..] == before + udp[1..] + after && (before + udp + after)[0] == udp[0];
      assert !Settles(p, udp[0], Tcp, port, a) by { UdpNever(p, udp[0], port, a); }
      WalkSkips(p, before, udp[1..], after, port, a);
    } else {
      assert before + udp + after == before + after;
    }
  }

  lemma UdpNever(p: Plan, r: InputRule, port: int, a: Audience)
    requires r.proto == Udp
    ensures !Settles(p, r, Tcp, port, a)
  {}

  /** The two analyses agree in the strict direction: for every plan, port and audience, what
      the audience check admits over tcp the lint's walk accepts on that port. */
  lemma AdmitsImpliesAccepts(p: Plan, port: int, a: Audience)
    requires Admits(p, Tcp, port, a)
    ensures AcceptsTCPPort(p, port)
  {
    hide WalkAudience, PortOpen;
    var e := Effective(p);
    var wg := WireGuardSources(e);
    var pub, wgTcp := BroadRule(e.iface, [], Tcp, e.publicTCP), BroadRule("", wg, Tcp, e.wireGuardTCP);
    var udp1, udp2 := BroadRule(e.iface, [], Udp, e.publicUDP), BroadRule("", wg, Udp, e.wireGuardUDP);
    assert FullChain(e) == (e.rules + pub + udp1 + wgTcp) + udp2 + [];
    WalkSkips(e, e.rules + pub + udp1 + wgTcp, udp2, [], port, a);
    assert (e.rules + pub + udp1 + wgTcp) + [] == (e.rules + pub) + udp1 + wgTcp;
    WalkSkips(e, e.rules + pub, udp1, wgTcp, port, a);
    assert (e.rules + pub) + wgTcp == TcpChain(e);
    SettledIsOpen(e, TcpChain(e), port, a);
    assert PortOpen(TcpChain(Effective(p)), [port][0]);
  }
}
