/** The NetGuard compiler (internal/netguard/compile.go): zones, overrides and security
    groups lowered into one plan, proved to mean what was authored. */
module NetCompile {
  import opened Options
  import opened NetPrefix
  import opened NetPlan

  datatype ZoneId = Public | WireGuard | Custom(n: nat)

  /** An interface name; blank ones are not modelled. */
  type Name = s: string | s != "" witness "eth0"

  datatype Zone = Zone(interfaces: seq<Name>, cidrs: seq<Prefix>)

  datatype Remote = AnyRemote | CidrRemote(cidr: Option<Prefix>) | NodeRemote(node: nat) | ZoneRemote(zone: ZoneId) | DomainRemote | GroupRemote(group: nat) | BadRemote

  datatype RuleAction = Allow | Deny | BadAction

  datatype RuleProto = RuleTcp | RuleUdp | RuleAny | RuleIcmp | BadProto

  /** An inclusive port range. */
  datatype Range = Range(from: int, to: int)

  datatype Rule = Rule(disabled: bool, ingress: bool, action: RuleAction, proto: RuleProto, log: bool, ports: seq<Range>, remote: Remote)

  datatype Beacon = Beacon(bind: Addr, port: int, allow: seq<Prefix>)

  /** The resolved authoring state of one node. `nodes` holds each known node's own addresses. */
  datatype Input = Input(
    managed: bool, resolver: bool, zoneIDs: seq<ZoneId>, overrides: seq<Rule>, groups: seq<seq<Rule>>,
    zones: map<ZoneId, Zone>, nodes: map<nat, seq<Prefix>>, memberLookup: bool, members: map<nat, seq<nat>>, beacon: Option<Beacon>)

  const MAX_EXPANDED_PORTS: nat := 1024

  /*** Ports ***/

  predicate ValidRange(r: Range) { ValidPort(r.from) && ValidPort(r.to) && r.from <= r.to }

  function RangeWidth(ranges: seq<Range>): int {
    if ranges == [] then 0 else RangeWidth(ranges[..|ranges| - 1]) + ranges[|ranges| - 1].to - ranges[|ranges| - 1].from + 1
  }

  function PortsOf(lo: int, hi: int): seq<int>
    decreases hi - lo + 1
  {
    if lo > hi then [] else PortsOf(lo, hi - 1) + [hi]
  }

  function PortsOfAll(ranges: seq<Range>): seq<int> {
    if ranges == [] then [] else PortsOfAll(ranges[..|ranges| - 1]) + PortsOf(ranges[|ranges| - 1].from, ranges[|ranges| - 1].to)
  }

  predicate InRanges(ranges: seq<Range>, p: int) { exists i :: 0 <= i < |ranges| && ranges[i].from <= p <= ranges[i].to }

  predicate Expandable(ranges: seq<Range>) { (forall i :: 0 <= i < |ranges| ==> ValidRange(ranges[i])) && RangeWidth(ranges) <= MAX_EXPANDED_PORTS }

  /** ExpandPortRanges: refused when a range is invalid or the ranges are too wide together. */
  function Expand(ranges: seq<Range>): Result<seq<int>> {
    if Expandable(ranges) then Ok(Sorted(PortsOfAll(ranges))) else Err
  }

  lemma {:induction false} PortsOfMembers(lo: int, hi: int)
    ensures forall p :: p in PortsOf(lo, hi) <==> lo <= p <= hi
    decreases hi - lo + 1
  {
    if lo <= hi { PortsOfMembers(lo, hi - 1); }
  }

  lemma {:induction false} PortsOfAllMembers(ranges: seq<Range>)
    ensures forall p :: p in PortsOfAll(ranges) <==> InRanges(ranges, p)
  {
    if ranges != [] {
      var init, last := ranges[..|ranges| - 1], ranges[|ranges| - 1];
      PortsOfAllMembers(init);
      PortsOfMembers(last.from, last.to);
      forall p ensures InRanges(ranges, p) <==> InRanges(init, p) || last.from <= p <= last.to {
        if InRanges(init, p) {
          var i :| 0 <= i < |init| && init[i].from <= p <= init[i].to;
          assert ranges[i].from <= p <= ranges[i].to;
        }
        if last.from <= p <= last.to { assert ranges[|ranges| - 1].from <= p <= ranges[|ranges| - 1].to; }
      }
    }
  }

  /** Expanding ranges gives exactly the ports in them, ascending. */
  lemma ExpandMembers(ranges: seq<Range>)
    requires Expand(ranges).Ok?
    ensures Ascending(Expand(ranges).value) && forall p :: p in Expand(ranges).value <==> InRanges(ranges, p)
    ensures Expand(ranges).value == [] <==> ranges == []
    ensures ValidPorts(Expand(ranges).value)
  {
    SortedFacts(PortsOfAll(ranges));
    PortsOfAllMembers(ranges);
    var ports := Expand(ranges).value;
    if ranges != [] {
      assert InRanges(ranges, ranges[0].from);
      assert ranges[0].from in ports;
    }
    assert forall i :: 0 <= i < |ports| ==> ports[i] in ports;
  }

  /*** Lowering ***/

  function PublicInterface(in_: Input): Name {
    if Public in in_.zones && in_.zones[Public].interfaces != [] then in_.zones[Public].interfaces[0] else DEFAULT_INTERFACE
  }

  function WireGuardRange(in_: Input): Prefix {
    if WireGuard in in_.zones && in_.zones[WireGuard].cidrs != [] then in_.zones[WireGuard].cidrs[0] else DEFAULT_WIREGUARD
  }

  function PlanProto(p: RuleProto): Proto { match p case RuleTcp => Tcp case RuleUdp => Udp case _ => AnyProto }

  function PlanAction(a: RuleAction): Action { if a == Deny then Drop else Accept }

  /** The legacy broad-allow shape: an allow of tcp or udp ports from the public or wireguard zone. */
  predicate BroadShape(r: Rule) {
    r.action == Allow && r.ports != [] && (r.remote == ZoneRemote(Public) || r.remote == ZoneRemote(WireGuard)) && (r.proto == RuleTcp || r.proto == RuleUdp)
  }

  function MemberSources(in_: Input, members: seq<nat>): seq<Prefix> {
    if members == [] then []
    else
      var init, m := MemberSources(in_, members[..|members| - 1]), members[|members| - 1];
      if m in in_.nodes then init + in_.nodes[m] else init
  }

  datatype Source = Source(sources: seq<Prefix>, iface: string)

  /** ruleSource */
  function RuleSource(r: Rule, in_: Input): Result<Source> {
    match r.remote
    case AnyRemote => Ok(Source([], ""))
    case CidrRemote(c) => if c.None? then Err else Ok(Source([c.value], ""))
    case NodeRemote(n) => if n !in in_.nodes || in_.nodes[n] == [] then Err else Ok(Source(in_.nodes[n], ""))
    case ZoneRemote(z) =>
      if z !in in_.zones then Err
      else if in_.zones[z].cidrs != [] then Ok(Source(in_.zones[z].cidrs, ""))
      else if |in_.zones[z].interfaces| == 1 then Ok(Source([], in_.zones[z].interfaces[0]))
      else Err
    case GroupRemote(g) => if !in_.memberLookup || g !in in_.members then Err else Ok(Source(MemberSources(in_, in_.members[g]), ""))
    case _ => Err
  }

  /** What a rule must be before anything is lowered. */
  predicate Lowerable(r: Rule) {
    r.ingress && r.action != BadAction && (r.proto == RuleTcp || r.proto == RuleUdp || r.proto == RuleAny) && !r.log
    && Expandable(r.ports) && (r.proto == RuleAny ==> r.ports == [])
  }

  /** The broad-shape rule in its authored place. */
  function BroadInPlace(plan: Plan, r: Rule, ports: seq<int>): InputRule
    requires plan.wireGuard.Some?
  {
    if r.remote == ZoneRemote(Public) then InputRule(plan.iface, [], PlanProto(r.proto), ports, Accept)
    else InputRule("", [plan.wireGuard.value], PlanProto(r.proto), ports, Accept)
  }

  /** The broad-shape rule's ports in the list the renderer puts last. */
  function BroadLast(plan: Plan, r: Rule, ports: seq<int>): Plan {
    if r.remote == ZoneRemote(Public)
    then (if r.proto == RuleTcp then plan.(publicTCP := plan.publicTCP + ports) else plan.(publicUDP := plan.publicUDP + ports))
    else (if r.proto == RuleTcp then plan.(wireGuardTCP := plan.wireGuardTCP + ports) else plan.(wireGuardUDP := plan.wireGuardUDP + ports))
  }

  /** lowerRule */
  function Lower(plan: Plan, r: Rule, in_: Input, fast: bool): Result<Plan>
    requires plan.wireGuard.Some?
  {
    if !Lowerable(r) then Err
    else
      var ports := Expand(r.ports).value;
      if BroadShape(r) then Ok(if fast then BroadLast(plan, r, ports) else plan.(rules := plan.rules + [BroadInPlace(plan, r, ports)]))
      else
        var s := RuleSource(r, in_);
        if s.Err? then Err
        else if r.remote.GroupRemote? && s.value.sources == [] then Ok(plan)
        else Ok(plan.(rules := plan.rules + [InputRule(s.value.iface, s.value.sources, PlanProto(r.proto), ports, PlanAction(r.action))]))
  }

  function LowerAll(plan: Plan, rules: seq<Rule>, in_: Input, fast: bool): (p: Result<Plan>)
    requires plan.wireGuard.Some?
    ensures p.Ok? ==> p.value.wireGuard == plan.wireGuard && p.value.iface == plan.iface && p.value.notrack == plan.notrack
  {
    if rules == [] then Ok(plan)
    else
      var p, r := LowerAll(plan, rules[..|rules| - 1], in_, fast), rules[|rules| - 1];
      if p.Err? then Err else if r.disabled then p else Lower(p.value, r, in_, fast)
  }

  function ZoneRules(z: Zone): seq<InputRule> {
    seq(|z.interfaces|, i requires 0 <= i < |z.interfaces| => InputRule(z.interfaces[i], [], AnyProto, [], Accept))
    + (if z.cidrs == [] then [] else [InputRule("", z.cidrs, AnyProto, [], Accept)])
  }

  predicate Trustable(in_: Input, z: ZoneId) { z in in_.zones && z != Public && (in_.zones[z].interfaces != [] || in_.zones[z].cidrs != []) }

  function TrustedRules(in_: Input, ids: seq<ZoneId>): Result<seq<InputRule>> {
    if ids == [] then Ok([])
    else
      var init, z := TrustedRules(in_, ids[..|ids| - 1]), ids[|ids| - 1];
      if init.Err? || !Trustable(in_, z) then Err else Ok(init.value + ZoneRules(in_.zones[z]))
  }

  function BeaconRules(b: Option<Beacon>): seq<InputRule> {
    if b.Some? && b.value.allow != [] then [InputRule("", b.value.allow, Udp, [b.value.port], Accept)] else []
  }

  function Concat(groups: seq<seq<Rule>>): seq<Rule> {
    if groups == [] then [] else Concat(groups[..|groups| - 1]) + groups[|groups| - 1]
  }

  /** Overrides, then the groups in binding order. */
  function Ordered(in_: Input): seq<Rule> { in_.overrides + Concat(in_.groups) }

  predicate HasDeny(rules: seq<Rule>) { exists i :: 0 <= i < |rules| && !rules[i].disabled && rules[i].action == Deny }

  function Start(in_: Input, trusted: seq<InputRule>): Plan {
    Plan(PublicInterface(in_), Some(WireGuardRange(in_)), [], [], [], [], BeaconRules(in_.beacon) + trusted,
         if in_.beacon.Some? then Some(Notrack(in_.beacon.value.bind, in_.beacon.value.port)) else None)
  }

  /** Compile, before the plan is normalised. */
  function Lowered(in_: Input): Result<Plan> {
    if !in_.managed || !in_.resolver then Err
    else if in_.beacon.Some? && !ValidPort(in_.beacon.value.port) then Err
    else
      var trusted := TrustedRules(in_, in_.zoneIDs);
      if trusted.Err? then Err
      else LowerAll(Start(in_, trusted.value), Ordered(in_), in_, !HasDeny(Ordered(in_)))
  }

  function Compile(in_: Input): Result<Plan> {
    var p := Lowered(in_);
    if p.Err? then Err else Normal(p.value)
  }

  /*** What was authored ***/

  /** The whole zone: all of its prefixes, or its interfaces when it has none. */
  predicate ZoneMatches(z: ZoneId, in_: Input, pk: Packet) {
    z in in_.zones && (if in_.zones[z].cidrs != [] then ContainsAny(in_.zones[z].cidrs, pk.src) else AnyInterface(in_.zones[z].interfaces, pk))
  }

  /** A broad-shape rule names its zone by one interface or one prefix, any other the whole zone;
      NetZones says when the two readings agree. */
  predicate RemoteMatches(r: Rule, in_: Input, pk: Packet) {
    if BroadShape(r) then
      if r.remote == ZoneRemote(Public) then pk.iface == PublicInterface(in_) else Contains(WireGuardRange(in_), pk.src)
    else match r.remote
      case AnyRemote => true
      case CidrRemote(c) => c.Some? && Contains(c.value, pk.src)
      case NodeRemote(n) => n in in_.nodes && ContainsAny(in_.nodes[n], pk.src)
      case ZoneRemote(z) => ZoneMatches(z, in_, pk)
      case GroupRemote(g) => g in in_.members && exists i :: 0 <= i < |in_.members[g]| && in_.members[g][i] in in_.nodes && ContainsAny(in_.nodes[in_.members[g][i]], pk.src)
      case _ => false
  }

  predicate AnyInterface(names: seq<Name>, pk: Packet) { exists i :: 0 <= i < |names| && names[i] == pk.iface }

  predicate RuleProtoMatches(r: Rule, pk: Packet) {
    match r.proto
    case RuleAny => true
    case RuleTcp => pk.proto == IsTcp && (r.ports == [] || InRanges(r.ports, pk.port))
    case RuleUdp => pk.proto == IsUdp && (r.ports == [] || InRanges(r.ports, pk.port))
    case _ => false
  }

  /** An authored rule matches when its protocol, its port ranges and its remote do. */
  predicate AuthoredMatches(r: Rule, in_: Input, pk: Packet) { !r.disabled && RuleProtoMatches(r, pk) && RemoteMatches(r, in_, pk) }

  /** What the operator asked for: denied packets are dropped, allowed ones accepted. */
  function Meant(a: RuleAction): Action { match a case Allow => Accept case Deny => Drop case BadAction => Drop }

  function FirstAuthored(rules: seq<Rule>, in_: Input, pk: Packet): Option<Action> {
    if rules == [] then None
    else
      var before := FirstAuthored(rules[..|rules| - 1], in_, pk);
      var r := rules[|rules| - 1];
      if before.Some? then before else if AuthoredMatches(r, in_, pk) then Some(Meant(r.action)) else None
  }

  predicate BeaconAdmits(in_: Input, pk: Packet) {
    in_.beacon.Some? && pk.proto == IsUdp && pk.port == in_.beacon.value.port && ContainsAny(in_.beacon.value.allow, pk.src)
  }

  predicate ZoneTrusts(z: Zone, pk: Packet) { AnyInterface(z.interfaces, pk) || ContainsAny(z.cidrs, pk.src) }

  predicate Trusts(in_: Input, ids: seq<ZoneId>, pk: Packet) { exists i :: 0 <= i < |ids| && ids[i] in in_.zones && ZoneTrusts(in_.zones[ids[i]], pk) }

  /** First match over the beacon, the trusted zones, then the rules as the operator wrote them; default drop. */
  function Authored(in_: Input, pk: Packet): Action {
    if BeaconAdmits(in_, pk) || Trusts(in_, in_.zoneIDs, pk) then Accept else Verdict(FirstAuthored(Ordered(in_), in_, pk))
  }

  /*** The beacon and the zones ***/

  lemma BeaconSame(in_: Input, pk: Packet)
    ensures FirstRule(BeaconRules(in_.beacon), pk) == if BeaconAdmits(in_, pk) then Some(Accept) else None
  {
    hide ContainsAny;
    NoneContains(pk.src);
    if in_.beacon.Some? && in_.beacon.value.allow != [] {
      OneRule(InputRule("", in_.beacon.value.allow, Udp, [in_.beacon.value.port], Accept), pk);
    }
  }

  /** Rules that all accept decide a packet exactly when one of them matches it. */
  predicate AllAccept(rules: seq<InputRule>) { forall i :: 0 <= i < |rules| ==> rules[i].action == Accept }

  predicate AnyMatches(rules: seq<InputRule>, pk: Packet) { exists i :: 0 <= i < |rules| && RuleMatches(rules[i], pk) }

  lemma {:induction false} AcceptAny(rules: seq<InputRule>, pk: Packet)
    requires AllAccept(rules)
    ensures FirstRule(rules, pk) == if AnyMatches(rules, pk) then Some(Accept) else None
  {
    hide RuleMatches;
    if rules != [] {
      var init, last := rules[..|rules| - 1], rules[|rules| - 1];
      AcceptAny(init, pk);
      if AnyMatches(init, pk) {
        var i :| 0 <= i < |init| && RuleMatches(init[i], pk);
        assert RuleMatches(rules[i], pk);
      }
      assert RuleMatches(last, pk) ==> RuleMatches(rules[|rules| - 1], pk);
    }
  }

  lemma ZoneRulesSame(z: Zone, pk: Packet)
    ensures AllAccept(ZoneRules(z)) && (AnyMatches(ZoneRules(z), pk) <==> ZoneTrusts(z, pk))
  {
    hide ContainsAny;
    NoneContains(pk.src);
    var rs := ZoneRules(z);
    if AnyInterface(z.interfaces, pk) {
      var i :| 0 <= i < |z.interfaces| && z.interfaces[i] == pk.iface;
      assert RuleMatches(rs[i], pk);
    }
    if ContainsAny(z.cidrs, pk.src) { assert RuleMatches(rs[|z.interfaces|], pk); }
    if AnyMatches(rs, pk) {
      var i :| 0 <= i < |rs| && RuleMatches(rs[i], pk);
      if i < |z.interfaces| { assert z.interfaces[i] == pk.iface; }
    }
  }

  lemma AnyMatchesAppend(a: seq<InputRule>, b: seq<InputRule>, pk: Packet)
    ensures AnyMatches(a + b, pk) <==> AnyMatches(a, pk) || AnyMatches(b, pk)
    ensures AllAccept(a + b) <==> AllAccept(a) && AllAccept(b)
  {
    hide RuleMatches;
    var c := a + b;
    assert forall i :: 0 <= i < |a| ==> c[i] == a[i];
    assert forall i :: 0 <= i < |b| ==> c[|a| + i] == b[i];
    if AnyMatches(a, pk) { var i :| 0 <= i < |a| && RuleMatches(a[i], pk); assert RuleMatches(c[i], pk); }
    if AnyMatches(b, pk) { var i :| 0 <= i < |b| && RuleMatches(b[i], pk); assert RuleMatches(c[|a| + i], pk); }
    if AnyMatches(c, pk) {
      var i :| 0 <= i < |c| && RuleMatches(c[i], pk);
      if i >= |a| { assert RuleMatches(b[i - |a|], pk); }
    }
  }

  lemma {:induction false} TrustedSame(in_: Input, ids: seq<ZoneId>, pk: Packet)
    requires TrustedRules(in_, ids).Ok?
    ensures var rs := TrustedRules(in_, ids).value; AllAccept(rs) && (AnyMatches(rs, pk) <==> Trusts(in_, ids, pk))
  {
    hide ZoneRules, ZoneTrusts, AnyMatches;
    if ids == [] {
      assert !AnyMatches([], pk) by { NoneMatch(pk); }
    } else {
      var init, z := ids[..|ids| - 1], ids[|ids| - 1];
      TrustedSame(in_, init, pk);
      ZoneRulesSame(in_.zones[z], pk);
      AnyMatchesAppend(TrustedRules(in_, init).value, ZoneRules(in_.zones[z]), pk);
      if Trusts(in_, init, pk) {
        var i :| 0 <= i < |init| && init[i] in in_.zones && ZoneTrusts(in_.zones[init[i]], pk);
        assert ids[i] in in_.zones && ZoneTrusts(in_.zones[ids[i]], pk);
      }
      assert ZoneTrusts(in_.zones[z], pk) ==> ids[|ids| - 1] in in_.zones && ZoneTrusts(in_.zones[ids[|ids| - 1]], pk);
    }
  }

  lemma NoneMatch(pk: Packet)
    ensures !AnyMatches([], pk)
  {}

  /*** One rule ***/

  lemma {:induction false} MembersSame(in_: Input, members: seq<nat>, a: Addr)
    ensures ContainsAny(MemberSources(in_, members), a) <==> exists i :: 0 <= i < |members| && members[i] in in_.nodes && ContainsAny(in_.nodes[members[i]], a)
  {
    hide ContainsAny;
    if members == [] {
      NoneContains(a);
    } else {
      var init, m := members[..|members| - 1], members[|members| - 1];
      MembersSame(in_, init, a);
      if m in in_.nodes { AnyConcat(MemberSources(in_, init), in_.nodes[m], a); }
      if exists i :: 0 <= i < |init| && init[i] in in_.nodes && ContainsAny(in_.nodes[init[i]], a) {
        var i :| 0 <= i < |init| && init[i] in in_.nodes && ContainsAny(in_.nodes[init[i]], a);
        assert members[i] in in_.nodes && ContainsAny(in_.nodes[members[i]], a);
      }
      assert m in in_.nodes && ContainsAny(in_.nodes[m], a) ==> members[|members| - 1] in in_.nodes && ContainsAny(in_.nodes[members[|members| - 1]], a);
    }
  }

  lemma AnyConcat(a: seq<Prefix>, b: seq<Prefix>, x: Addr)
    ensures ContainsAny(a + b, x) <==> ContainsAny(a, x) || ContainsAny(b, x)
  {
    var c := a + b;
    assert forall i :: 0 <= i < |a| ==> c[i] == a[i];
    assert forall i :: 0 <= i < |b| ==> c[|a| + i] == b[i];
    if ContainsAny(a, x) { var i :| 0 <= i < |a| && Contains(a[i], x); assert Contains(c[i], x); }
    if ContainsAny(b, x) { var i :| 0 <= i < |b| && Contains(b[i], x); assert Contains(c[|a| + i], x); }
    if ContainsAny(c, x) {
      var i :| 0 <= i < |c| && Contains(c[i], x);
      if i >= |a| { assert Contains(b[i - |a|], x); }
    }
  }

  /** Expanded ports match what the ranges match. */
  lemma ProtoSame(r: Rule, pk: Packet)
    requires Lowerable(r)
    ensures ProtoMatches(PlanProto(r.proto), Expand(r.ports).value, pk) == RuleProtoMatches(r, pk)
  {
    hide Expand, InRanges;
    assert Expand(r.ports).Ok? by { ExpandIs(r.ports); }
    ExpandMembers(r.ports);
  }

  lemma ExpandIs(ranges: seq<Range>)
    ensures Expand(ranges).Ok? <==> Expandable(ranges)
  {}

  /** A source resolved for a rule matches the remotes the rule names; a group with nobody to match is left out. */
  lemma SourceSame(r: Rule, in_: Input, pk: Packet)
    requires !BroadShape(r) && RuleSource(r, in_).Ok?
    ensures var s := RuleSource(r, in_).value;
            if r.remote.GroupRemote? && s.sources == [] then !RemoteMatches(r, in_, pk)
            else ((s.iface == "" || s.iface == pk.iface) && (s.sources == [] || ContainsAny(s.sources, pk.src))) == RemoteMatches(r, in_, pk)
  {
    hide ContainsAny;
    NoneContains(pk.src);
    match r.remote
    case CidrRemote(c) => OnePrefix(c.value, pk.src);
    case GroupRemote(g) => MembersSame(in_, in_.members[g], pk.src);
    case ZoneRemote(z) => OneInterface(in_.zones[z].interfaces, pk);
    case _ =>
  }

  lemma OneInterface(names: seq<Name>, pk: Packet)
    ensures |names| == 1 ==> (AnyInterface(names, pk) <==> names[0] == pk.iface)
  {}

  /** The rule a general lowering appends, when it appends one. */
  lemma GeneralSame(r: Rule, in_: Input, pk: Packet)
    requires Lowerable(r) && !r.disabled && !BroadShape(r) && RuleSource(r, in_).Ok?
    ensures var s := RuleSource(r, in_).value;
            if r.remote.GroupRemote? && s.sources == [] then !AuthoredMatches(r, in_, pk)
            else RuleMatches(InputRule(s.iface, s.sources, PlanProto(r.proto), Expand(r.ports).value, PlanAction(r.action)), pk) == AuthoredMatches(r, in_, pk)
  {
    hide Expand, RuleSource, RemoteMatches, RuleProtoMatches, ContainsAny, ProtoMatches;
    assert Expand(r.ports).Ok? by { ExpandIs(r.ports); }
    ProtoSame(r, pk);
    SourceSame(r, in_, pk);
  }

  lemma BroadInPlaceSame(plan: Plan, r: Rule, in_: Input, pk: Packet)
    requires Lowerable(r) && !r.disabled && BroadShape(r) && plan.wireGuard == Some(WireGuardRange(in_)) && plan.iface == PublicInterface(in_)
    ensures RuleMatches(BroadInPlace(plan, r, Expand(r.ports).value), pk) == AuthoredMatches(r, in_, pk)
  {
    hide Expand, RuleProtoMatches, ContainsAny, ProtoMatches;
    assert Expand(r.ports).Ok? by { ExpandIs(r.ports); }
    ProtoSame(r, pk);
    OnePrefix(WireGuardRange(in_), pk.src);
  }

  /*** All rules, in place ***/

  predicate NoBroad(p: Plan) { p.publicTCP == [] && p.publicUDP == [] && p.wireGuardTCP == [] && p.wireGuardUDP == [] }

  predicate Base(p: Plan, in_: Input) { p.wireGuard == Some(WireGuardRange(in_)) && p.iface == PublicInterface(in_) }

  lemma LowerInPlace(plan: Plan, r: Rule, in_: Input, pk: Packet)
    requires Base(plan, in_) && NoBroad(plan) && !r.disabled && Lower(plan, r, in_, false).Ok?
    ensures var p := Lower(plan, r, in_, false).value;
            NoBroad(p) && FirstRule(p.rules, pk) == Or(FirstRule(plan.rules, pk), if AuthoredMatches(r, in_, pk) then Some(Meant(r.action)) else None)
  {
    hide FirstRule, AuthoredMatches, RuleMatches, Expand, RuleSource;
    assert Expand(r.ports).Ok? by { ExpandIs(r.ports); }
    if BroadShape(r) {
      BroadInPlaceSame(plan, r, in_, pk);
      OneRule(BroadInPlace(plan, r, Expand(r.ports).value), pk);
      FirstRuleAppend(plan.rules, [BroadInPlace(plan, r, Expand(r.ports).value)], pk);
    } else {
      GeneralSame(r, in_, pk);
      var s := RuleSource(r, in_).value;
      var rule := InputRule(s.iface, s.sources, PlanProto(r.proto), Expand(r.ports).value, PlanAction(r.action));
      OneRule(rule, pk);
      FirstRuleAppend(plan.rules, [rule], pk);
    }
  }

  lemma {:induction false} LowerAllInPlace(plan: Plan, rules: seq<Rule>, in_: Input, pk: Packet)
    requires Base(plan, in_) && NoBroad(plan) && LowerAll(plan, rules, in_, false).Ok?
    ensures var p := LowerAll(plan, rules, in_, false).value;
            NoBroad(p) && FirstRule(p.rules, pk) == Or(FirstRule(plan.rules, pk), FirstAuthored(rules, in_, pk))
    decreases |rules|
  {
    hide FirstRule, Lower, RemoteMatches, RuleProtoMatches;
    if rules != [] {
      var init, r := rules[..|rules| - 1], rules[|rules| - 1];
      LowerAllInPlace(plan, init, in_, pk);
      var p := LowerAll(plan, init, in_, false).value;
      if !r.disabled { LowerInPlace(p, r, in_, pk); }
    }
  }

  /*** All rules, with the broad allows last ***/

  predicate BroadMatches(p: Plan, pk: Packet)
    requires p.wireGuard.Some?
  {
    || (pk.proto == IsTcp && pk.port in p.publicTCP && (p.iface == "" || p.iface == pk.iface))
    || (pk.proto == IsUdp && pk.port in p.publicUDP && (p.iface == "" || p.iface == pk.iface))
    || (pk.proto == IsTcp && pk.port in p.wireGuardTCP && Contains(p.wireGuard.value, pk.src))
    || (pk.proto == IsUdp && pk.port in p.wireGuardUDP && Contains(p.wireGuard.value, pk.src))
  }

  /** Some rule or broad list of the plan matches. */
  predicate PlanMatches(p: Plan, pk: Packet)
    requires p.wireGuard.Some?
  {
    AnyMatches(p.rules, pk) || BroadMatches(p, pk)
  }

  lemma BroadLastSame(plan: Plan, r: Rule, in_: Input, pk: Packet)
    requires Base(plan, in_) && Lowerable(r) && !r.disabled && BroadShape(r)
    ensures var p := BroadLast(plan, r, Expand(r.ports).value); BroadMatches(p, pk) <==> BroadMatches(plan, pk) || AuthoredMatches(r, in_, pk)
  {
    hide Expand, Contains, InRanges;
    assert Expand(r.ports).Ok? by { ExpandIs(r.ports); }
    ExpandMembers(r.ports);
  }

  lemma LowerLast(plan: Plan, r: Rule, in_: Input, pk: Packet)
    requires Base(plan, in_) && AllAccept(plan.rules) && !r.disabled && r.action != Deny && Lower(plan, r, in_, true).Ok?
    ensures var p := Lower(plan, r, in_, true).value;
            p.wireGuard == plan.wireGuard && AllAccept(p.rules) && r.action == Allow && (PlanMatches(p, pk) <==> PlanMatches(plan, pk) || AuthoredMatches(r, in_, pk))
  {
    hide AuthoredMatches, RuleMatches, Expand, RuleSource, BroadMatches, AnyMatches;
    assert Expand(r.ports).Ok? by { ExpandIs(r.ports); }
    if BroadShape(r) {
      BroadLastSame(plan, r, in_, pk);
    } else {
      GeneralSame(r, in_, pk);
      var s := RuleSource(r, in_).value;
      var rule := InputRule(s.iface, s.sources, PlanProto(r.proto), Expand(r.ports).value, PlanAction(r.action));
      AnyMatchesAppend(plan.rules, [rule], pk);
      OneMatch(rule, pk);
      SameBroad(plan, plan.(rules := plan.rules + [rule]), pk);
    }
  }

  lemma SameBroad(p: Plan, q: Plan, pk: Packet)
    requires p.wireGuard.Some? && q == p.(rules := q.rules)
    ensures BroadMatches(q, pk) == BroadMatches(p, pk)
  {}

  lemma OneMatch(r: InputRule, pk: Packet)
    ensures AnyMatches([r], pk) <==> RuleMatches(r, pk)
  {
    assert RuleMatches(r, pk) ==> RuleMatches([r][0], pk);
  }

  lemma {:induction false} LowerAllLast(plan: Plan, rules: seq<Rule>, in_: Input, pk: Packet)
    requires Base(plan, in_) && AllAccept(plan.rules) && !HasDeny(rules) && LowerAll(plan, rules, in_, true).Ok?
    ensures var p := LowerAll(plan, rules, in_, true).value;
            && p.wireGuard.Some? && AllAccept(p.rules) && (PlanMatches(p, pk) <==> PlanMatches(plan, pk) || FirstAuthored(rules, in_, pk).Some?)
            && (FirstAuthored(rules, in_, pk).Some? ==> FirstAuthored(rules, in_, pk) == Some(Accept))
    decreases |rules|
  {
    hide PlanMatches, Lower, RemoteMatches, RuleProtoMatches, AllAccept;
    if rules != [] {
      var init, r := rules[..|rules| - 1], rules[|rules| - 1];
      assert !HasDeny(init) && (r.disabled || r.action != Deny);
      LowerAllLast(plan, init, in_, pk);
      var p := LowerAll(plan, init, in_, true).value;
      if !r.disabled { LowerLast(p, r, in_, pk); }
    }
  }

  /** When every rule accepts, the plan accepts exactly the packets something in it matches. */
  lemma AcceptPlan(p: Plan, pk: Packet)
    requires p.wireGuard.Some? && AllAccept(p.rules)
    ensures FirstRule(AllRules(p), pk) == if PlanMatches(p, pk) then Some(Accept) else None
  {
    hide FirstRule, AnyMatches, Contains;
    AllRulesSplit(p, pk);
    AcceptAny(p.rules, pk);
    BroadIs(p.iface, [], Tcp, p.publicTCP, pk);
    BroadIs(p.iface, [], Udp, p.publicUDP, pk);
    BroadIs("", [p.wireGuard.value], Tcp, p.wireGuardTCP, pk);
    BroadIs("", [p.wireGuard.value], Udp, p.wireGuardUDP, pk);
    OnePrefix(p.wireGuard.value, pk.src);
  }

  lemma BroadIs(iface: string, sources: seq<Prefix>, proto: Proto, ports: seq<int>, pk: Packet)
    requires proto != AnyProto
    ensures FirstRule(BroadRule(iface, sources, proto, ports), pk) ==
            if pk.port in ports && pk.proto == (if proto == Tcp then IsTcp else IsUdp) && (iface == "" || iface == pk.iface) && (sources == [] || ContainsAny(sources, pk.src))
            then Some(Accept) else None
  {
    hide ContainsAny;
    if ports != [] { OneRule(InputRule(iface, sources, proto, ports, Accept), pk); }
  }

  /*** The theorem ***/

  lemma StartSame(in_: Input, pk: Packet)
    requires TrustedRules(in_, in_.zoneIDs).Ok?
    ensures var p := Start(in_, TrustedRules(in_, in_.zoneIDs).value);
            && Base(p, in_) && NoBroad(p) && AllAccept(p.rules)
            && FirstRule(p.rules, pk) == (if BeaconAdmits(in_, pk) || Trusts(in_, in_.zoneIDs, pk) then Some(Accept) else None)
            && (AnyMatches(p.rules, pk) <==> BeaconAdmits(in_, pk) || Trusts(in_, in_.zoneIDs, pk))
  {
    hide FirstRule, AnyMatches, BeaconAdmits, Trusts, BeaconRules;
    var trusted := TrustedRules(in_, in_.zoneIDs).value;
    BeaconSame(in_, pk);
    TrustedSame(in_, in_.zoneIDs, pk);
    BeaconAccepts(in_.beacon);
    AnyMatchesAppend(BeaconRules(in_.beacon), trusted, pk);
    AcceptAny(BeaconRules(in_.beacon), pk);
    AcceptAny(BeaconRules(in_.beacon) + trusted, pk);
  }

  lemma BeaconAccepts(b: Option<Beacon>)
    ensures AllAccept(BeaconRules(b))
  {}

  lemma LoweredSame(in_: Input, pk: Packet)
    requires Lowered(in_).Ok?
    ensures Lowered(in_).value.wireGuard.Some? && Verdict(FirstRule(AllRules(Lowered(in_).value), pk)) == Authored(in_, pk)
  {
    hide FirstRule, FirstAuthored, AnyMatches, BeaconAdmits, Trusts, LowerAll, HasDeny, Start, TrustedRules, Ordered;
    var start := Start(in_, TrustedRules(in_, in_.zoneIDs).value);
    StartSame(in_, pk);
    var p := Lowered(in_).value;
    if HasDeny(Ordered(in_)) {
      LowerAllInPlace(start, Ordered(in_), in_, pk);
      AllRulesSplit(p, pk);
      NoRules(pk);
    } else {
      LowerAllLast(start, Ordered(in_), in_, pk);
      AcceptPlan(p, pk);
    }
  }

  lemma NoRules(pk: Packet)
    ensures FirstRule([], pk) == None
  {}

  /** The compiler preserves meaning: for every input that compiles and every packet, the
      rendered chain after the fixed scaffold gives the verdict of first match over the
      beacon, the trusted zones, the overrides and the groups in authored order, whether
      or not the broad allows were moved to the end and their ports merged. */
  lemma CompilePreservesMeaning(in_: Input, pk: Packet)
    requires Compile(in_).Ok?
    ensures Compile(in_).value.wireGuard.Some? && ChainVerdict(Compile(in_).value, pk) == Authored(in_, pk)
  {
    hide FirstRule, FirstLine, Render, AllRules, Lowered, Authored;
    var p := Lowered(in_).value;
    LoweredSame(in_, pk);
    NormalSame(p, pk);
    RenderSame(Compile(in_).value, pk);
    HasWireGuard(in_);
  }

  lemma HasWireGuard(in_: Input)
    requires Lowered(in_).Ok?
    ensures var p := Lowered(in_).value;
            WithDefaults(p) == p
    ensures Lowered(in_).value.wireGuard.Some?
  {}
}
