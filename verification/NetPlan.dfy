/** The firewall plan and its rendered chain (internal/network/nft.go): what a plan
    means for a packet that reaches the rules after the fixed scaffold. */
module NetPlan {
  import opened Options
  import opened NetPrefix

  datatype Proto = Tcp | Udp | AnyProto

  datatype Action = Accept | Drop

  /** A new inbound packet: where it arrived, who sent it, and, for tcp and udp, the port. */
  datatype PacketProto = IsTcp | IsUdp | IsOther

  datatype Packet = Packet(iface: string, src: Addr, proto: PacketProto, port: int)

  /** An empty interface matches any; an empty source list matches everyone. */
  datatype InputRule = InputRule(iface: string, sources: seq<Prefix>, proto: Proto, ports: seq<int>, action: Action)

  datatype Notrack = Notrack(addr: Addr, port: int)

  datatype Plan = Plan(
    iface: string, wireGuard: Option<Prefix>,
    publicTCP: seq<int>, publicUDP: seq<int>, wireGuardTCP: seq<int>, wireGuardUDP: seq<int>,
    rules: seq<InputRule>, notrack: Option<Notrack>)

  datatype Result<T> = Ok(value: T) | Err

  /*** Normalising ***/

  predicate ValidPort(p: int) { 1 <= p <= 65535 }

  predicate NameChar(c: char) { 'a' <= c <= 'z' || 'A' <= c <= 'Z' || '0' <= c <= '9' || c == '_' || c == '.' || c == '-' }

  predicate ValidName(s: string) { 1 <= |s| <= 15 && forall i :: 0 <= i < |s| ==> NameChar(s[i]) }

  const DEFAULT_INTERFACE: string := "eth0"

  function Octet(n: nat): seq<bool> { seq(8, i requires 0 <= i < 8 => (n / Pow2(7 - i)) % 2 == 1) }

  function Pow2(n: nat): (r: nat)
    ensures r > 0
  {
    if n == 0 then 1 else 2 * Pow2(n - 1)
  }

  /** 10.66.0.0/24 */
  const DEFAULT_WIREGUARD: Prefix := Prefix(V4, Octet(10) + Octet(66) + Octet(0) + Octet(0), 24)

  predicate ValidPorts(ports: seq<int>) { forall i :: 0 <= i < |ports| ==> ValidPort(ports[i]) }

  /** normalizePorts */
  function NormalPorts(ports: seq<int>): Result<seq<int>> {
    if ValidPorts(ports) then Ok(Sorted(ports)) else Err
  }

  /** Each source in canonical form, the first of equals kept. */
  function NormalSources(sources: seq<Prefix>): seq<Prefix>
    requires forall i :: 0 <= i < |sources| ==> ValidPrefix(sources[i])
  {
    if sources == [] then []
    else
      var init, p := NormalSources(sources[..|sources| - 1]), Masked(sources[|sources| - 1]);
      if p in init then init else init + [p]
  }

  predicate ValidSources(sources: seq<Prefix>) { forall i :: 0 <= i < |sources| ==> ValidPrefix(sources[i]) }

  function NormalRule(r: InputRule): Result<InputRule> {
    if r.iface != "" && !ValidName(r.iface) then Err
    else if !ValidPorts(r.ports) || (r.proto == AnyProto && r.ports != []) || !ValidSources(r.sources) then Err
    else Ok(r.(ports := Sorted(r.ports), sources := NormalSources(r.sources)))
  }

  function NormalRules(rules: seq<InputRule>): Result<seq<InputRule>> {
    if rules == [] then Ok([])
    else
      var init, last := NormalRules(rules[..|rules| - 1]), NormalRule(rules[|rules| - 1]);
      if init.Ok? && last.Ok? then Ok(init.value + [last.value]) else Err
  }

  predicate ValidNotrack(n: Notrack) { n.addr.family == V4 && |n.addr.bits| == 32 && ValidPort(n.port) }

  /** NormalizeNFTPlan */
  function Normal(p: Plan): Result<Plan> {
    var iface := if p.iface == "" then DEFAULT_INTERFACE else p.iface;
    var wg := if p.wireGuard.None? then DEFAULT_WIREGUARD else p.wireGuard.value;
    var rules := NormalRules(p.rules);
    if !ValidName(iface) || !ValidPrefix(wg) || wg.family != V4 then Err
    else if !ValidPorts(p.publicTCP) || !ValidPorts(p.publicUDP) || !ValidPorts(p.wireGuardTCP) || !ValidPorts(p.wireGuardUDP) || rules.Err? then Err
    else if p.notrack.Some? && !ValidNotrack(p.notrack.value) then Err
    else Ok(Plan(iface, Some(Masked(wg)), Sorted(p.publicTCP), Sorted(p.publicUDP), Sorted(p.wireGuardTCP), Sorted(p.wireGuardUDP), rules.value, p.notrack))
  }

  /*** Rendering ***/

  /** One line of the chain: sources of one family, or none. */
  datatype Line = Line(iface: string, sources: Option<seq<Prefix>>, proto: Proto, ports: seq<int>, action: Action)

  function OfFamily(sources: seq<Prefix>, f: Family): seq<Prefix> {
    if sources == [] then []
    else
      var init, p := OfFamily(sources[..|sources| - 1], f), sources[|sources| - 1];
      if p.family == f then init + [p] else init
  }

  /** renderInputRule: one line per address family, or one line without a source. */
  function RenderRule(r: InputRule): seq<Line> {
    var v4, v6 := OfFamily(r.sources, V4), OfFamily(r.sources, V6);
    if v4 == [] && v6 == [] then [Line(r.iface, None, r.proto, r.ports, r.action)]
    else
      (if v4 == [] then [] else [Line(r.iface, Some(v4), r.proto, r.ports, r.action)]) +
      (if v6 == [] then [] else [Line(r.iface, Some(v6), r.proto, r.ports, r.action)])
  }

  function RenderRules(rules: seq<InputRule>): seq<Line> {
    if rules == [] then [] else RenderRules(rules[..|rules| - 1]) + RenderRule(rules[|rules| - 1])
  }

  function Broad(ports: seq<int>, line: Line): seq<Line> { if ports == [] then [] else [line] }

  /** The chain from the first operator line to the last; what falls off its end is dropped. */
  function Render(p: Plan): seq<Line>
    requires p.wireGuard.Some?
  {
    RenderRules(p.rules)
    + Broad(p.publicTCP, Line(p.iface, None, Tcp, p.publicTCP, Accept))
    + Broad(p.publicUDP, Line(p.iface, None, Udp, p.publicUDP, Accept))
    + Broad(p.wireGuardTCP, Line("", Some([p.wireGuard.value]), Tcp, p.wireGuardTCP, Accept))
    + Broad(p.wireGuardUDP, Line("", Some([p.wireGuard.value]), Udp, p.wireGuardUDP, Accept))
  }

  /*** Meaning ***/

  predicate ProtoMatches(proto: Proto, ports: seq<int>, pk: Packet) {
    match proto
    case AnyProto => true
    case Tcp => pk.proto == IsTcp && (ports == [] || pk.port in ports)
    case Udp => pk.proto == IsUdp && (ports == [] || pk.port in ports)
  }

  predicate LineMatches(l: Line, pk: Packet) {
    && (l.iface == "" || l.iface == pk.iface)
    && (l.sources.None? || ContainsAny(l.sources.value, pk.src))
    && ProtoMatches(l.proto, l.ports, pk)
  }

  predicate RuleMatches(r: InputRule, pk: Packet) {
    && (r.iface == "" || r.iface == pk.iface)
    && (r.sources == [] || ContainsAny(r.sources, pk.src))
    && ProtoMatches(r.proto, r.ports, pk)
  }

  /** The action of the first line that matches. */
  function FirstLine(chain: seq<Line>, pk: Packet): Option<Action> {
    if chain == [] then None
    else
      var before := FirstLine(chain[..|chain| - 1], pk);
      var l := chain[|chain| - 1];
      if before.Some? then before else if LineMatches(l, pk) then Some(l.action) else None
  }

  function Verdict(a: Option<Action>): Action { if a.Some? then a.value else Drop }

  /** What the rendered chain does with a packet: first match, default drop. */
  function ChainVerdict(p: Plan, pk: Packet): Action
    requires p.wireGuard.Some?
  {
    Verdict(FirstLine(Render(p), pk))
  }

  function FirstRule(rules: seq<InputRule>, pk: Packet): Option<Action> {
    if rules == [] then None
    else
      var before := FirstRule(rules[..|rules| - 1], pk);
      var r := rules[|rules| - 1];
      if before.Some? then before else if RuleMatches(r, pk) then Some(r.action) else None
  }

  function Or(a: Option<Action>, b: Option<Action>): Option<Action> { if a.Some? then a else b }

  lemma {:induction false} FirstLineAppend(a: seq<Line>, b: seq<Line>, pk: Packet)
    ensures FirstLine(a + b, pk) == Or(FirstLine(a, pk), FirstLine(b, pk))
    decreases |b|
  {
    if b == [] {
      assert a + b == a;
    } else {
      assert (a + b)[..|a + b| - 1] == a + b[..|b| - 1];
      FirstLineAppend(a, b[..|b| - 1], pk);
    }
  }

  lemma {:induction false} FirstRuleAppend(a: seq<InputRule>, b: seq<InputRule>, pk: Packet)
    ensures FirstRule(a + b, pk) == Or(FirstRule(a, pk), FirstRule(b, pk))
    decreases |b|
  {
    if b == [] {
      assert a + b == a;
    } else {
      assert (a + b)[..|a + b| - 1] == a + b[..|b| - 1];
      FirstRuleAppend(a, b[..|b| - 1], pk);
    }
  }

  /*** Rendering keeps the meaning ***/

  lemma {:induction false} FamilySplit(sources: seq<Prefix>, a: Addr)
    ensures ContainsAny(sources, a) <==> ContainsAny(OfFamily(sources, V4), a) || ContainsAny(OfFamily(sources, V6), a)
    ensures OfFamily(sources, V4) == [] && OfFamily(sources, V6) == [] <==> sources == []
  {
    if sources == [] {
      NoneContains(a);
    } else {
      hide ContainsAny, Contains, OfFamily;
      var init, p := sources[..|sources| - 1], sources[|sources| - 1];
      FamilySplit(init, a);
      AnyAppend(init, p, a);
      assert init + [p] == sources;
      FamilyAppend(sources, V4, a);
      FamilyAppend(sources, V6, a);
    }
  }

  lemma FamilyAppend(sources: seq<Prefix>, f: Family, a: Addr)
    requires sources != []
    ensures var init, p := OfFamily(sources[..|sources| - 1], f), sources[|sources| - 1];
            && OfFamily(sources, f) == (if p.family == f then init + [p] else init)
            && (ContainsAny(OfFamily(sources, f), a) <==> ContainsAny(init, a) || (p.family == f && Contains(p, a)))
  {
    AnyAppend(OfFamily(sources[..|sources| - 1], f), sources[|sources| - 1], a);
    hide ContainsAny, Contains;
  }

  lemma AnyAppend(ps: seq<Prefix>, p: Prefix, a: Addr)
    ensures ContainsAny(ps + [p], a) <==> ContainsAny(ps, a) || Contains(p, a)
  {
    var qs := ps + [p];
    if ContainsAny(ps, a) {
      var i :| 0 <= i < |ps| && Contains(ps[i], a);
      assert Contains(qs[i], a);
    }
    if Contains(p, a) { assert Contains(qs[|ps|], a); }
  }

  /** The lines of a rule decide exactly what the rule decides. */
  lemma RenderRuleSame(r: InputRule, pk: Packet)
    ensures FirstLine(RenderRule(r), pk) == if RuleMatches(r, pk) then Some(r.action) else None
  {
    hide ProtoMatches, ContainsAny;
    FamilySplit(r.sources, pk.src);
    var v4, v6 := OfFamily(r.sources, V4), OfFamily(r.sources, V6);
    OneLine(Line(r.iface, None, r.proto, r.ports, r.action), pk);
    var l4, l6 := Line(r.iface, Some(v4), r.proto, r.ports, r.action), Line(r.iface, Some(v6), r.proto, r.ports, r.action);
    OneLine(l4, pk);
    OneLine(l6, pk);
    FirstLineAppend([l4], [l6], pk);
    assert [] + [l6] == [l6] && [l4] + [] == [l4];
    assert !ContainsAny([], pk.src) by { NoneContains(pk.src); }
  }

  lemma NoneContains(a: Addr)
    ensures !ContainsAny([], a)
  {}

  lemma OneLine(l: Line, pk: Packet)
    ensures FirstLine([l], pk) == if LineMatches(l, pk) then Some(l.action) else None
  {
    assert [l][..0] == [];
  }

  lemma {:induction false} RenderRulesSame(rules: seq<InputRule>, pk: Packet)
    ensures FirstLine(RenderRules(rules), pk) == FirstRule(rules, pk)
  {
    hide RuleMatches, LineMatches, RenderRule;
    if rules != [] {
      var init, last := rules[..|rules| - 1], rules[|rules| - 1];
      RenderRulesSame(init, pk);
      RenderRuleSame(last, pk);
      FirstLineAppend(RenderRules(init), RenderRule(last), pk);
    }
  }

  /** A broad list seen as one more rule. */
  function BroadRule(iface: string, sources: seq<Prefix>, proto: Proto, ports: seq<int>): seq<InputRule> {
    if ports == [] then [] else [InputRule(iface, sources, proto, ports, Accept)]
  }

  /** The plan as one list of rules, in the order the chain has them. */
  function AllRules(p: Plan): seq<InputRule>
    requires p.wireGuard.Some?
  {
    p.rules
    + BroadRule(p.iface, [], Tcp, p.publicTCP)
    + BroadRule(p.iface, [], Udp, p.publicUDP)
    + BroadRule("", [p.wireGuard.value], Tcp, p.wireGuardTCP)
    + BroadRule("", [p.wireGuard.value], Udp, p.wireGuardUDP)
  }

  /** The rendered chain decides a packet as the rules and broad lists do, in order. */
  lemma RenderSame(p: Plan, pk: Packet)
    requires p.wireGuard.Some?
    ensures FirstLine(Render(p), pk) == FirstRule(AllRules(p), pk)
  {
    hide FirstLine, FirstRule, RenderRules;
    RenderRulesSame(p.rules, pk);
    var wg := [p.wireGuard.value];
    var a, b, c, d := BroadRule(p.iface, [], Tcp, p.publicTCP), BroadRule(p.iface, [], Udp, p.publicUDP), BroadRule("", wg, Tcp, p.wireGuardTCP), BroadRule("", wg, Udp, p.wireGuardUDP);
    var la, lb := Broad(p.publicTCP, Line(p.iface, None, Tcp, p.publicTCP, Accept)), Broad(p.publicUDP, Line(p.iface, None, Udp, p.publicUDP, Accept));
    var lc, ld := Broad(p.wireGuardTCP, Line("", Some(wg), Tcp, p.wireGuardTCP, Accept)), Broad(p.wireGuardUDP, Line("", Some(wg), Udp, p.wireGuardUDP, Accept));
    BroadSame(p.iface, [], Tcp, p.publicTCP, pk);
    BroadSame(p.iface, [], Udp, p.publicUDP, pk);
    BroadSame("", wg, Tcp, p.wireGuardTCP, pk);
    BroadSame("", wg, Udp, p.wireGuardUDP, pk);
    var rs, ls := p.rules, RenderRules(p.rules);
    FirstRuleAppend(rs, a, pk);
    FirstRuleAppend(rs + a, b, pk);
    FirstRuleAppend(rs + a + b, c, pk);
    FirstRuleAppend(rs + a + b + c, d, pk);
    FirstLineAppend(ls, la, pk);
    FirstLineAppend(ls + la, lb, pk);
    FirstLineAppend(ls + la + lb, lc, pk);
    FirstLineAppend(ls + la + lb + lc, ld, pk);
  }

  lemma BroadSame(iface: string, sources: seq<Prefix>, proto: Proto, ports: seq<int>, pk: Packet)
    ensures FirstLine(Broad(ports, Line(iface, if sources == [] then None else Some(sources), proto, ports, Accept)), pk) ==
            FirstRule(BroadRule(iface, sources, proto, ports), pk)
  {
    hide ProtoMatches, ContainsAny;
    if ports != [] {
      OneLine(Line(iface, if sources == [] then None else Some(sources), proto, ports, Accept), pk);
      OneRule(InputRule(iface, sources, proto, ports, Accept), pk);
    }
  }

  lemma OneRule(r: InputRule, pk: Packet)
    ensures FirstRule([r], pk) == if RuleMatches(r, pk) then Some(r.action) else None
  {
    assert [r][..0] == [];
  }

  /*** Normalising keeps the meaning ***/

  lemma {:induction false} NormalSourcesSame(sources: seq<Prefix>, a: Addr)
    requires ValidSources(sources)
    ensures ContainsAny(NormalSources(sources), a) == ContainsAny(sources, a) && (NormalSources(sources) == [] <==> sources == [])
  {
    if sources != [] {
      var init, p := sources[..|sources| - 1], sources[|sources| - 1];
      NormalSourcesSame(init, a);
      MaskedSame(p, a);
      AnyAppend(init, p, a);
      assert init + [p] == sources;
      AnyAppend(NormalSources(init), Masked(p), a);
      AnyHas(NormalSources(init), Masked(p), a);
    }
  }

  lemma AnyHas(ps: seq<Prefix>, p: Prefix, a: Addr)
    ensures p in ps && Contains(p, a) ==> ContainsAny(ps, a)
  {}

  lemma NormalRuleSame(r: InputRule, pk: Packet)
    requires NormalRule(r).Ok?
    ensures RuleMatches(NormalRule(r).value, pk) == RuleMatches(r, pk) && NormalRule(r).value.action == r.action
  {
    hide ContainsAny;
    NormalSourcesSame(r.sources, pk.src);
    SortedFacts(r.ports);
    SortedNone(r.ports);
  }

  lemma SortedNone(ports: seq<int>)
    ensures Sorted(ports) == [] <==> ports == []
  {
    SortedFacts(ports);
    HeadIn(ports);
    HeadIn(Sorted(ports));
  }

  lemma {:induction false} NormalRulesSame(rules: seq<InputRule>, pk: Packet)
    requires NormalRules(rules).Ok?
    ensures FirstRule(NormalRules(rules).value, pk) == FirstRule(rules, pk)
  {
    hide RuleMatches, NormalRule;
    if rules != [] {
      var init, last := rules[..|rules| - 1], rules[|rules| - 1];
      NormalRulesSame(init, pk);
      NormalRuleSame(last, pk);
      var n := NormalRules(init).value + [NormalRule(last).value];
      assert n[..|n| - 1] == NormalRules(init).value;
    }
  }

  /** The plan with the renderer's defaults filled in, nothing else changed. */
  function WithDefaults(p: Plan): Plan {
    p.(iface := if p.iface == "" then DEFAULT_INTERFACE else p.iface, wireGuard := Some(if p.wireGuard.None? then DEFAULT_WIREGUARD else p.wireGuard.value))
  }

  lemma NormalBroadSame(iface: string, sources: seq<Prefix>, sources': seq<Prefix>, proto: Proto, ports: seq<int>, pk: Packet)
    requires ContainsAny(sources, pk.src) == ContainsAny(sources', pk.src) && (sources == [] <==> sources' == [])
    ensures FirstRule(BroadRule(iface, sources', proto, Sorted(ports)), pk) == FirstRule(BroadRule(iface, sources, proto, ports), pk)
  {
    hide ContainsAny;
    SortedFacts(ports);
    SortedNone(ports);
    if ports != [] {
      OneRule(InputRule(iface, sources, proto, ports, Accept), pk);
      OneRule(InputRule(iface, sources', proto, Sorted(ports), Accept), pk);
    }
  }

  /** Normalising a plan does not change what it decides. */
  lemma NormalSame(p: Plan, pk: Packet)
    requires Normal(p).Ok?
    ensures FirstRule(AllRules(Normal(p).value), pk) == FirstRule(AllRules(WithDefaults(p)), pk)
  {
    hide FirstRule, Sorted, NormalRules, ContainsAny;
    var n, w := Normal(p).value, WithDefaults(p);
    NormalRulesSame(p.rules, pk);
    MaskedSame(w.wireGuard.value, pk.src);
    OnePrefix(w.wireGuard.value, pk.src);
    OnePrefix(n.wireGuard.value, pk.src);
    var wg, wg' := [w.wireGuard.value], [n.wireGuard.value];
    NormalBroadSame(w.iface, [], [], Tcp, p.publicTCP, pk);
    NormalBroadSame(w.iface, [], [], Udp, p.publicUDP, pk);
    NormalBroadSame("", wg, wg', Tcp, p.wireGuardTCP, pk);
    NormalBroadSame("", wg, wg', Udp, p.wireGuardUDP, pk);
    AllRulesSplit(n, pk);
    AllRulesSplit(w, pk);
  }

  lemma OnePrefix(p: Prefix, a: Addr)
    ensures ContainsAny([p], a) == Contains(p, a)
  {
    AnyAppend([], p, a);
    assert [] + [p] == [p];
  }

  lemma AllRulesSplit(p: Plan, pk: Packet)
    requires p.wireGuard.Some?
    ensures FirstRule(AllRules(p), pk) ==
            Or(Or(Or(Or(FirstRule(p.rules, pk), FirstRule(BroadRule(p.iface, [], Tcp, p.publicTCP), pk)),
                     FirstRule(BroadRule(p.iface, [], Udp, p.publicUDP), pk)),
                  FirstRule(BroadRule("", [p.wireGuard.value], Tcp, p.wireGuardTCP), pk)),
               FirstRule(BroadRule("", [p.wireGuard.value], Udp, p.wireGuardUDP), pk))
  {
    hide FirstRule;
    var wg := [p.wireGuard.value];
    var a, b, c, d := BroadRule(p.iface, [], Tcp, p.publicTCP), BroadRule(p.iface, [], Udp, p.publicUDP), BroadRule("", wg, Tcp, p.wireGuardTCP), BroadRule("", wg, Udp, p.wireGuardUDP);
    FirstRuleAppend(p.rules, a, pk);
    FirstRuleAppend(p.rules + a, b, pk);
    FirstRuleAppend(p.rules + a + b, c, pk);
    FirstRuleAppend(p.rules + a + b + c, d, pk);
  }

  /*** The loops ***/

  /** normalizePorts: values seen before are skipped, the rest sorted. */
  method NormalizePorts(ports: seq<int>) returns (r: Result<seq<int>>)
    ensures r == NormalPorts(ports)
  {
    var seen: set<int> := {};
    var out: seq<int> := [];
    for i := 0 to |ports|
      invariant ValidPorts(ports[..i]) && (forall x :: x in seen <==> x in ports[..i]) && (forall x :: x in out <==> x in ports[..i])
    {
      assert ports[..i + 1] == ports[..i] + [ports[i]];
      if !ValidPort(ports[i]) { return Err; }
      if ports[i] !in seen {
        seen, out := seen + {ports[i]}, out + [ports[i]];
      }
    }
    assert ports[..|ports|] == ports;
    out := SortInts(out);
    SortedFacts(ports);
    AscendingUnique(out, Sorted(ports));
    return Ok(out);
  }

  /** An insertion sort of distinct values. */
  method SortInts(values: seq<int>) returns (out: seq<int>)
    ensures Ascending(out) && forall x :: x in out <==> x in values
  {
    out := [];
    for i := 0 to |values|
      invariant Ascending(out) && forall x :: x in out <==> x in values[..i]
    {
      assert values[..i + 1] == values[..i] + [values[i]];
      InsertMembers(out, values[i]);
      InsertAscends(out, values[i]);
      out := Insert(out, values[i]);
    }
    assert values[..|values|] == values;
  }
}
