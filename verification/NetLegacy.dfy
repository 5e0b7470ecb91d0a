/** The converted legacy baseline (internal/netguard/convert.go): port lists compressed to
    ranges and compiled back give the plan the legacy inputs give directly. */
module NetLegacy {
  import opened Options
  import opened NetPrefix
  import opened NetPlan
  import opened NetCompile

  /** The legacy inputs of one node; a blank interface or range takes its default. */
  datatype Legacy = Legacy(iface: string, wireGuard: Option<Prefix>, publicTCP: seq<int>, publicUDP: seq<int>, wireGuardTCP: seq<int>, wireGuardUDP: seq<int>)

  /*** Compressing ports ***/

  /** An ascending list as maximal ranges: each value extends the last range or starts one. */
  function Compress(ports: seq<int>): seq<Range> {
    if ports == [] then []
    else
      var init, p := Compress(ports[..|ports| - 1]), ports[|ports| - 1];
      if init != [] && p == init[|init| - 1].to + 1 then init[..|init| - 1] + [Range(init[|init| - 1].from, p)] else init + [Range(p, p)]
  }

  function ValidOnly(ports: seq<int>): seq<int> {
    if ports == [] then []
    else if ValidPort(ports[|ports| - 1]) then ValidOnly(ports[..|ports| - 1]) + [ports[|ports| - 1]] else ValidOnly(ports[..|ports| - 1])
  }

  /** PortRanges: values out of range are dropped, the rest compressed. */
  function PortRanges(ports: seq<int>): seq<Range> { Compress(Sorted(ValidOnly(ports))) }

  lemma {:induction false} ValidOnlyFacts(ports: seq<int>)
    ensures forall x :: x in ValidOnly(ports) <==> x in ports && ValidPort(x)
    ensures ValidPorts(ports) ==> ValidOnly(ports) == ports
  {
    if ports != [] {
      var init, last := ports[..|ports| - 1], ports[|ports| - 1];
      ValidOnlyFacts(init);
      assert forall x :: x in ports <==> x in init || x == last;
      assert ports == init + [last];
    }
  }

  function LastRange(rs: seq<Range>): Range
    requires rs != []
  {
    rs[|rs| - 1]
  }

  /** The last range ends at the last port. */
  lemma {:induction false} CompressLast(ports: seq<int>)
    ensures Compress(ports) == [] <==> ports == []
    ensures ports != [] ==> LastRange(Compress(ports)).to == ports[|ports| - 1] && LastRange(Compress(ports)).from <= LastRange(Compress(ports)).to
  {
    if ports != [] { CompressLast(ports[..|ports| - 1]); }
  }

  /** The ranges together are as wide as the list is long. */
  lemma {:induction false} CompressWidth(ports: seq<int>)
    ensures RangeWidth(Compress(ports)) == |ports|
  {
    if ports != [] {
      var init, p := ports[..|ports| - 1], ports[|ports| - 1];
      CompressWidth(init);
      var before, rs := Compress(init), Compress(ports);
      if before != [] && p == before[|before| - 1].to + 1 {
        assert rs[..|rs| - 1] == before[..|before| - 1];
      } else {
        assert rs[..|rs| - 1] == before;
      }
    }
  }

  /** Compression loses nothing and adds nothing. */
  lemma {:induction false} CompressMembers(ports: seq<int>)
    ensures forall x :: InRanges(Compress(ports), x) <==> x in ports
  {
    hide InRanges;
    if ports == [] {
      NoRange();
    } else {
      var init, p := ports[..|ports| - 1], ports[|ports| - 1];
      CompressMembers(init);
      CompressLast(init);
      assert forall x :: x in ports <==> x in init || x == p;
      CompressStep(Compress(init), Compress(ports), p);
    }
  }

  lemma NoRange()
    ensures forall x :: !InRanges([], x)
  {}

  lemma {:induction false} CompressValid(ports: seq<int>)
    requires forall x :: x in ports ==> ValidPort(x)
    ensures forall i :: 0 <= i < |Compress(ports)| ==> ValidRange(Compress(ports)[i])
  {
    if ports != [] {
      assert ports[|ports| - 1] in ports;
      CompressValid(ports[..|ports| - 1]);
      CompressLast(ports[..|ports| - 1]);
    }
  }

  lemma CompressStep(before: seq<Range>, rs: seq<Range>, p: int)
    requires rs == (if before != [] && p == before[|before| - 1].to + 1 then before[..|before| - 1] + [Range(before[|before| - 1].from, p)] else before + [Range(p, p)])
    requires before != [] ==> before[|before| - 1].from <= before[|before| - 1].to
    ensures forall x :: InRanges(rs, x) <==> InRanges(before, x) || x == p
  {
    forall x ensures InRanges(rs, x) <==> InRanges(before, x) || x == p {
      if InRanges(rs, x) {
        var i :| 0 <= i < |rs| && rs[i].from <= x <= rs[i].to;
        if i < |rs| - 1 { assert before[i] == rs[i]; } else if x != p { assert before[|before| - 1].from <= x <= before[|before| - 1].to; }
      }
      if InRanges(before, x) {
        var i :| 0 <= i < |before| && before[i].from <= x <= before[i].to;
        assert rs[i].from <= x <= rs[i].to;
      }
      assert x == p ==> rs[|rs| - 1].from <= x <= rs[|rs| - 1].to;
    }
  }

  /** For valid ports, at most 1024 of them distinct, expanding the compressed ranges gives
      the sorted distinct ports; with more, the expansion is refused. */
  lemma RangesRoundTrip(ports: seq<int>)
    requires ValidPorts(ports)
    ensures Expand(PortRanges(ports)) == if |Sorted(ports)| <= MAX_EXPANDED_PORTS then Ok(Sorted(ports)) else Err
    ensures PortRanges(ports) == [] <==> ports == []
  {
    ValidOnlyFacts(ports);
    SortedFacts(ports);
    SortedNone(ports);
    var sorted, rs := Sorted(ports), PortRanges(ports);
    assert forall i :: 0 <= i < |ports| ==> ports[i] in ports;
    CompressMembers(sorted);
    CompressWidth(sorted);
    CompressLast(sorted);
    CompressValid(sorted);
    if Expand(rs).Ok? {
      ExpandMembers(rs);
      AscendingUnique(Expand(rs).value, sorted);
    }
  }

  /** PortRanges as the code runs it: duplicates of the last value are skipped, a successor
      widens the last range in place, anything else starts a new one. */
  method CompressPorts(ports: seq<int>) returns (out: seq<Range>)
    ensures out == PortRanges(ports)
  {
    hide KeptOf, Ascending, InOrder, Compress, Sorted, ValidOnly;
    var valid := KeepValid(ports);
    valid := SortAll(valid);
    out := [];
    ghost var kept: seq<int> := [];
    KeptNone(valid);
    for i := 0 to |valid|
      invariant KeptOf(kept, valid, i) && out == Compress(kept)
    {
      var p := valid[i];
      CompressLast(kept);
      CompressNext(kept, p);
      KeepNext(kept, valid, i);
      if out != [] && p == out[|out| - 1].to { continue; }
      kept := kept + [p];
      if out != [] && p == out[|out| - 1].to + 1 {
        out := out[..|out| - 1] + [Range(out[|out| - 1].from, p)];
      } else {
        out := out + [Range(p, p)];
      }
    }
    KeptAll(kept, valid, ports);
  }

  lemma KeptNone(valid: seq<int>)
    ensures KeptOf([], valid, 0) && Compress([]) == []
  {}

  lemma KeptAll(kept: seq<int>, valid: seq<int>, ports: seq<int>)
    requires KeptOf(kept, valid, |valid|) && forall x :: x in valid <==> x in ports && ValidPort(x)
    ensures kept == Sorted(ValidOnly(ports))
  {
    assert valid[..|valid|] == valid;
    ValidOnlyFacts(ports);
    SortedFacts(ValidOnly(ports));
    AscendingUnique(kept, Sorted(ValidOnly(ports)));
  }

  lemma CompressNext(kept: seq<int>, p: int)
    ensures var rs := Compress(kept);
            Compress(kept + [p]) ==
            if rs != [] && p == rs[|rs| - 1].to + 1 then rs[..|rs| - 1] + [Range(rs[|rs| - 1].from, p)] else rs + [Range(p, p)]
  {
    assert (kept + [p])[..|kept|] == kept;
  }

  /** The distinct values among the first i of an ordered list. */
  ghost predicate KeptOf(kept: seq<int>, valid: seq<int>, i: nat) {
    && i <= |valid| && Ascending(kept) && (forall x :: x in kept <==> x in valid[..i])
    && (kept == [] <==> i == 0) && (i > 0 ==> kept[|kept| - 1] == valid[i - 1])
  }

  lemma KeepNext(kept: seq<int>, valid: seq<int>, i: nat)
    requires KeptOf(kept, valid, i) && i < |valid| && InOrder(valid)
    ensures KeptOf(if kept != [] && kept[|kept| - 1] == valid[i] then kept else kept + [valid[i]], valid, i + 1)
  {
    var p := valid[i];
    assert valid[..i + 1] == valid[..i] + [p];
    if kept != [] {
      assert valid[i - 1] <= p;
      forall k | 0 <= k < |kept| ensures kept[k] <= kept[|kept| - 1] {}
    }
  }

  method KeepValid(ports: seq<int>) returns (valid: seq<int>)
    ensures forall x :: x in valid <==> x in ports && ValidPort(x)
  {
    valid := [];
    for i := 0 to |ports|
      invariant forall x :: x in valid <==> x in ports[..i] && ValidPort(x)
    {
      assert ports[..i + 1] == ports[..i] + [ports[i]];
      if ValidPort(ports[i]) { valid := valid + [ports[i]]; }
    }
    assert ports[..|ports|] == ports;
  }

  predicate InOrder(s: seq<int>) { forall i, j :: 0 <= i < j < |s| ==> s[i] <= s[j] }

  /** The members of r are those of s and v. */
  ghost predicate Adds(r: seq<int>, s: seq<int>, v: int) { forall x :: x in r <==> x in s || x == v }

  ghost predicate SameMembers(r: seq<int>, s: seq<int>) { forall x :: x in r <==> x in s }

  /** An insertion sort that keeps repeats. */
  method SortAll(values: seq<int>) returns (out: seq<int>)
    ensures InOrder(out) && forall x :: x in out <==> x in values
  {
    out := [];
    for i := 0 to |values|
      invariant InOrder(out) && SameMembers(out, values[..i])
    {
      hide InOrder, SameMembers, Adds;
      var k := Place(out, values[i]);
      PutOrder(out, values[i], k);
      PutMembers(out, values[i], k);
      OneMore(out, out[..k] + [values[i]] + out[k..], values, i);
      out := out[..k] + [values[i]] + out[k..];
    }
    assert values[..|values|] == values;
  }

  lemma OneMore(s: seq<int>, r: seq<int>, values: seq<int>, i: nat)
    requires i < |values| && SameMembers(s, values[..i]) && Adds(r, s, values[i])
    ensures SameMembers(r, values[..i + 1])
  {
    assert values[..i + 1] == values[..i] + [values[i]];
  }

  method Place(s: seq<int>, v: int) returns (k: nat)
    requires InOrder(s)
    ensures k <= |s| && (k > 0 ==> s[k - 1] <= v) && forall a :: k <= a < |s| ==> s[a] > v
  {
    k := |s|;
    while k > 0 && s[k - 1] > v
      invariant k <= |s| && forall a :: k <= a < |s| ==> s[a] > v
    {
      k := k - 1;
    }
  }

  lemma PutOrder(s: seq<int>, v: int, k: nat)
    requires InOrder(s) && k <= |s| && (k > 0 ==> s[k - 1] <= v) && (forall a :: k <= a < |s| ==> s[a] > v)
    ensures InOrder(s[..k] + [v] + s[k..])
  {
    var r := s[..k] + [v] + s[k..];
    assert r[k] == v && (forall a :: 0 <= a < k ==> r[a] == s[a]) && (forall a :: k < a < |r| ==> r[a] == s[a - 1]);
    assert forall a :: 0 <= a < k ==> s[a] <= v;
  }

  lemma PutMembers(s: seq<int>, v: int, k: nat)
    requires k <= |s|
    ensures Adds(s[..k] + [v] + s[k..], s, v)
  {
    assert s == s[..k] + s[k..];
  }

  /*** The baseline ***/

  function LegacyInterface(l: Legacy): Name { if l.iface == "" then DEFAULT_INTERFACE else l.iface }

  function LegacyRange(l: Legacy): Prefix { if l.wireGuard.None? then DEFAULT_WIREGUARD else l.wireGuard.value }

  function LegacyRule(proto: RuleProto, ports: seq<int>, zone: ZoneId): seq<Rule> {
    if PortRanges(ports) == [] then [] else [Rule(false, true, Allow, proto, false, PortRanges(ports), ZoneRemote(zone))]
  }

  function LegacyRules(l: Legacy): seq<Rule> {
    LegacyRule(RuleTcp, l.publicTCP, Public) + LegacyRule(RuleUdp, l.publicUDP, Public)
    + LegacyRule(RuleTcp, l.wireGuardTCP, WireGuard) + LegacyRule(RuleUdp, l.wireGuardUDP, WireGuard)
  }

  /** LegacyBaseline, once an operator has adopted the node. Custom(0) is the loopback zone. */
  function Adopted(l: Legacy): Input {
    Input(true, true, [], [], [LegacyRules(l)],
          map[Public := Zone([LegacyInterface(l)], []), WireGuard := Zone([], [LegacyRange(l)]), Custom(0) := Zone(["lo"], [])],
          map[], false, map[], None)
  }

  /** The plan the legacy path normalises directly. */
  function LegacyPlan(l: Legacy): Plan { Plan(l.iface, l.wireGuard, l.publicTCP, l.publicUDP, l.wireGuardTCP, l.wireGuardUDP, [], None) }

  predicate Fits(ports: seq<int>) { ValidPorts(ports) && |Sorted(ports)| <= MAX_EXPANDED_PORTS }

  lemma LowerLegacy(plan: Plan, l: Legacy, proto: RuleProto, ports: seq<int>, zone: ZoneId)
    requires plan.wireGuard.Some? && Fits(ports) && (proto == RuleTcp || proto == RuleUdp) && (zone == Public || zone == WireGuard)
    ensures var rs := LegacyRule(proto, ports, zone);
            rs != [] ==> Lower(plan, rs[0], Adopted(l), true) == Ok(BroadLast(plan, rs[0], Sorted(ports)))
    ensures LegacyRule(proto, ports, zone) == [] <==> ports == []
  {
    hide PortRanges;
    RangesRoundTrip(ports);
    ExpandIs(PortRanges(ports));
  }

  lemma {:induction false} LowerAppend(plan: Plan, a: seq<Rule>, b: seq<Rule>, in_: Input, fast: bool)
    requires plan.wireGuard.Some? && LowerAll(plan, a, in_, fast).Ok?
    ensures LowerAll(plan, a + b, in_, fast) == LowerAll(LowerAll(plan, a, in_, fast).value, b, in_, fast)
    decreases |b|
  {
    hide Lower;
    if b == [] {
      assert a + b == a;
    } else {
      assert (a + b)[..|a + b| - 1] == a + b[..|b| - 1];
      LowerAppend(plan, a, b[..|b| - 1], in_, fast);
    }
  }

  /** Lowering one legacy rule, or none, adds its sorted ports to its list. */
  lemma LowerOneLegacy(plan: Plan, l: Legacy, proto: RuleProto, ports: seq<int>, zone: ZoneId)
    requires plan.wireGuard.Some? && Fits(ports) && (proto == RuleTcp || proto == RuleUdp) && (zone == Public || zone == WireGuard)
    ensures LowerAll(plan, LegacyRule(proto, ports, zone), Adopted(l), true) ==
            Ok(BroadLast(plan, Rule(false, true, Allow, proto, false, [], ZoneRemote(zone)), Sorted(ports)))
  {
    hide Lower, PortRanges, Adopted;
    LowerLegacy(plan, l, proto, ports, zone);
    var rs := LegacyRule(proto, ports, zone);
    if rs == [] {
      assert plan.publicTCP + [] == plan.publicTCP && plan.publicUDP + [] == plan.publicUDP && plan.wireGuardTCP + [] == plan.wireGuardTCP && plan.wireGuardUDP + [] == plan.wireGuardUDP;
    } else {
      assert rs[..0] == [];
    }
  }

  lemma LegacyLowered(l: Legacy)
    requires Fits(l.publicTCP) && Fits(l.publicUDP) && Fits(l.wireGuardTCP) && Fits(l.wireGuardUDP)
    ensures Lowered(Adopted(l)) ==
            Ok(Plan(LegacyInterface(l), Some(LegacyRange(l)), Sorted(l.publicTCP), Sorted(l.publicUDP), Sorted(l.wireGuardTCP), Sorted(l.wireGuardUDP), [], None))
  {
    hide LowerAll, LegacyRule, Sorted;
    var in_ := Adopted(l);
    assert Ordered(in_) == LegacyRules(l) by { OneGroup(LegacyRules(l)); }
    assert !HasDeny(LegacyRules(l)) by { NoDeny(l); }
    var p0 := Start(in_, []);
    assert p0 == Plan(LegacyInterface(l), Some(LegacyRange(l)), [], [], [], [], [], None);
    var a, b, c, d := LegacyRule(RuleTcp, l.publicTCP, Public), LegacyRule(RuleUdp, l.publicUDP, Public), LegacyRule(RuleTcp, l.wireGuardTCP, WireGuard), LegacyRule(RuleUdp, l.wireGuardUDP, WireGuard);
    LowerOneLegacy(p0, l, RuleTcp, l.publicTCP, Public);
    var p1 := p0.(publicTCP := Sorted(l.publicTCP));
    assert [] + Sorted(l.publicTCP) == Sorted(l.publicTCP) && [] + Sorted(l.publicUDP) == Sorted(l.publicUDP);
    assert [] + Sorted(l.wireGuardTCP) == Sorted(l.wireGuardTCP) && [] + Sorted(l.wireGuardUDP) == Sorted(l.wireGuardUDP);
    LowerAppend(p0, a, b, in_, true);
    LowerOneLegacy(p1, l, RuleUdp, l.publicUDP, Public);
    var p2 := p1.(publicUDP := Sorted(l.publicUDP));
    LowerAppend(p0, a + b, c, in_, true);
    LowerOneLegacy(p2, l, RuleTcp, l.wireGuardTCP, WireGuard);
    var p3 := p2.(wireGuardTCP := Sorted(l.wireGuardTCP));
    LowerAppend(p0, a + b + c, d, in_, true);
    LowerOneLegacy(p3, l, RuleUdp, l.wireGuardUDP, WireGuard);
  }

  lemma OneGroup(rules: seq<Rule>)
    ensures [] + Concat([rules]) == rules
  {
    assert [rules][..0] == [];
  }

  lemma NoDeny(l: Legacy)
    ensures !HasDeny(LegacyRules(l))
  {
    hide PortRanges;
    var a, b, c, d := LegacyRule(RuleTcp, l.publicTCP, Public), LegacyRule(RuleUdp, l.publicUDP, Public), LegacyRule(RuleTcp, l.wireGuardTCP, WireGuard), LegacyRule(RuleUdp, l.wireGuardUDP, WireGuard);
    assert forall r :: r in a + b + c + d <==> r in a || r in b || r in c || r in d;
    assert forall r :: r in LegacyRules(l) ==> r.action == Allow;
    assert forall i :: 0 <= i < |LegacyRules(l)| ==> LegacyRules(l)[i] in LegacyRules(l);
  }

  lemma SortedTwice(ports: seq<int>)
    requires ValidPorts(ports)
    ensures ValidPorts(Sorted(ports)) && Sorted(Sorted(ports)) == Sorted(ports)
  {
    SortedFacts(ports);
    SortedOfAscending(Sorted(ports));
    var s := Sorted(ports);
    assert forall i :: 0 <= i < |s| ==> s[i] in s;
    forall i | 0 <= i < |s| ensures ValidPort(s[i]) { var j :| 0 <= j < |ports| && ports[j] == s[i]; }
  }

  /** Legacy parity: for valid ports, at most 1024 distinct per list, compiling the converted
      baseline gives the plan that normalising the legacy inputs gives, or fails as it does. */
  lemma LegacyParity(l: Legacy)
    requires Fits(l.publicTCP) && Fits(l.publicUDP) && Fits(l.wireGuardTCP) && Fits(l.wireGuardUDP)
    ensures Compile(Adopted(l)) == Normal(LegacyPlan(l))
  {
    hide Lowered, Sorted;
    LegacyLowered(l);
    SortedTwice(l.publicTCP);
    SortedTwice(l.publicUDP);
    SortedTwice(l.wireGuardTCP);
    SortedTwice(l.wireGuardUDP);
  }

  /*** Exactly when parity holds ***/

  /** The conversion keeps only valid ports; too many of those are refused when it is compiled. */
  predicate Wide(ports: seq<int>) { |Sorted(ValidOnly(ports))| > MAX_EXPANDED_PORTS }

  predicate AnyWide(l: Legacy) { Wide(l.publicTCP) || Wide(l.publicUDP) || Wide(l.wireGuardTCP) || Wide(l.wireGuardUDP) }

  predicate AllValid(l: Legacy) { ValidPorts(l.publicTCP) && ValidPorts(l.publicUDP) && ValidPorts(l.wireGuardTCP) && ValidPorts(l.wireGuardUDP) }

  /** Both paths ask for a good interface name and an IPv4 range. */
  predicate ValidBase(l: Legacy) { ValidName(LegacyInterface(l)) && ValidPrefix(LegacyRange(l)) && LegacyRange(l).family == V4 }

  /** The legacy inputs without their invalid ports. */
  function Cleaned(l: Legacy): Legacy {
    Legacy(l.iface, l.wireGuard, ValidOnly(l.publicTCP), ValidOnly(l.publicUDP), ValidOnly(l.wireGuardTCP), ValidOnly(l.wireGuardUDP))
  }

  lemma CleanPorts(ports: seq<int>)
    ensures ValidPorts(ValidOnly(ports)) && ValidOnly(ValidOnly(ports)) == ValidOnly(ports)
    ensures !Wide(ports) ==> Fits(ValidOnly(ports))
  {
    ValidOnlyFacts(ports);
    var s := ValidOnly(ports);
    assert forall i :: 0 <= i < |s| ==> s[i] in s;
    ValidOnlyFacts(s);
  }

  /** An invalid port leaves no trace in the converted baseline. */
  lemma CleanedConverts(l: Legacy)
    ensures Adopted(Cleaned(l)) == Adopted(l) && AllValid(Cleaned(l))
  {
    hide Compress, Sorted;
    CleanPorts(l.publicTCP);
    CleanPorts(l.publicUDP);
    CleanPorts(l.wireGuardTCP);
    CleanPorts(l.wireGuardUDP);
  }

  lemma {:induction false} OneFails(plan: Plan, rules: seq<Rule>, in_: Input, fast: bool, r: Rule)
    requires plan.wireGuard.Some? && r in rules && !r.disabled && !Lowerable(r)
    ensures LowerAll(plan, rules, in_, fast).Err?
    decreases |rules|
  {
    if rules[|rules| - 1] != r { OneFails(plan, rules[..|rules| - 1], in_, fast, r); }
  }

  lemma WideRule(proto: RuleProto, ports: seq<int>, zone: ZoneId)
    requires Wide(ports)
    ensures |LegacyRule(proto, ports, zone)| == 1 && !Lowerable(LegacyRule(proto, ports, zone)[0])
  {
    hide Compress, Sorted, Expandable;
    CleanPorts(ports);
    RangesRoundTrip(ValidOnly(ports));
    SortedNone(ValidOnly(ports));
  }

  lemma WideFails(l: Legacy)
    requires AnyWide(l)
    ensures Compile(Adopted(l)).Err?
  {
    hide LowerAll, LegacyRule, Wide, Lowerable;
    var in_ := Adopted(l);
    assert Ordered(in_) == LegacyRules(l) by { OneGroup(LegacyRules(l)); }
    var a, b, c, d := LegacyRule(RuleTcp, l.publicTCP, Public), LegacyRule(RuleUdp, l.publicUDP, Public), LegacyRule(RuleTcp, l.wireGuardTCP, WireGuard), LegacyRule(RuleUdp, l.wireGuardUDP, WireGuard);
    assert forall r :: r in a + b + c + d <==> r in a || r in b || r in c || r in d;
    var bad := if Wide(l.publicTCP) then a else if Wide(l.publicUDP) then b else if Wide(l.wireGuardTCP) then c else d;
    if Wide(l.publicTCP) { WideRule(RuleTcp, l.publicTCP, Public); }
    else if Wide(l.publicUDP) { WideRule(RuleUdp, l.publicUDP, Public); }
    else if Wide(l.wireGuardTCP) { WideRule(RuleTcp, l.wireGuardTCP, WireGuard); }
    else { WideRule(RuleUdp, l.wireGuardUDP, WireGuard); }
    assert bad[0] in bad && bad[0] in LegacyRules(l);
    assert !bad[0].disabled by { RuleIsOn(l, bad[0]); }
    OneFails(Start(in_, []), LegacyRules(l), in_, !HasDeny(LegacyRules(l)), bad[0]);
  }

  lemma RuleIsOn(l: Legacy, r: Rule)
    requires r in LegacyRules(l)
    ensures !r.disabled
  {
    hide PortRanges;
    var a, b, c, d := LegacyRule(RuleTcp, l.publicTCP, Public), LegacyRule(RuleUdp, l.publicUDP, Public), LegacyRule(RuleTcp, l.wireGuardTCP, WireGuard), LegacyRule(RuleUdp, l.wireGuardUDP, WireGuard);
    assert r in a || r in b || r in c || r in d;
  }

  /** The converted baseline compiles exactly when the base is good and no list is too wide. */
  lemma ConvertedCompiles(l: Legacy)
    ensures Compile(Adopted(l)).Ok? <==> ValidBase(l) && !AnyWide(l)
  {
    hide Compile, Normal, ValidBase, Wide, Adopted, Fits, ValidOnly;
    if AnyWide(l) {
      WideFails(l);
    } else {
      CleanedConverts(l);
      CleanPorts(l.publicTCP);
      CleanPorts(l.publicUDP);
      CleanPorts(l.wireGuardTCP);
      CleanPorts(l.wireGuardUDP);
      LegacyParity(Cleaned(l));
      LegacyNormalises(Cleaned(l));
      SameBase(l);
    }
  }

  lemma SameBase(l: Legacy)
    ensures ValidBase(Cleaned(l)) == ValidBase(l)
  {}

  /** The legacy path takes exactly a good base with valid ports. */
  lemma LegacyNormalises(l: Legacy)
    ensures Normal(LegacyPlan(l)).Ok? <==> ValidBase(l) && AllValid(l)
  {
    hide ValidPorts, Sorted, ValidPrefix, ValidName;
  }

  /** Parity holds exactly when both paths refuse the base, or the ports give neither path a
      reason to refuse, or give each path one: an invalid port to the legacy path, too many valid
      ones in a list to the compiler. */
  lemma LegacyParityExactly(l: Legacy)
    ensures Compile(Adopted(l)) == Normal(LegacyPlan(l)) <==>
              || !ValidBase(l)
              || (AllValid(l) && !AnyWide(l))
              || (!AllValid(l) && AnyWide(l))
  {
    hide Compile, Normal, ValidBase, Adopted, Sorted, ValidOnly;
    ConvertedCompiles(l);
    LegacyNormalises(l);
    if AllValid(l) && !AnyWide(l) {
      ValidOnlyFacts(l.publicTCP);
      ValidOnlyFacts(l.publicUDP);
      ValidOnlyFacts(l.wireGuardTCP);
      ValidOnlyFacts(l.wireGuardUDP);
      LegacyParity(l);
    }
  }

  /** Too many ports in any list: the compiler refuses what the legacy path takes. */
  lemma WiderIsRefused(l: Legacy)
    requires ValidBase(l) && AllValid(l) && AnyWide(l)
    ensures Compile(Adopted(l)).Err? && Normal(LegacyPlan(l)).Ok?
  {
    ConvertedCompiles(l);
    LegacyNormalises(l);
  }

  /** An invalid port: the compiler takes what the legacy path refuses. */
  lemma InvalidPortIsDropped()
    ensures var l := Legacy("", None, [0], [], [], []); Compile(Adopted(l)).Ok? && Normal(LegacyPlan(l)).Err?
  {
    hide Compile, Normal, Adopted;
    var l := Legacy("", None, [0], [], [], []);
    ConvertedCompiles(l);
    LegacyNormalises(l);
    assert ValidOnly([0]) == [] by { assert [0][..0] == []; }
    assert !ValidPort([0][0]);
    assert ValidName("eth0");
  }
}
