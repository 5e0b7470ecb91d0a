/** What Compile promises, told from the authored rules alone: which inputs it takes, and what
    becomes of a packet by the action of the rule that decides it. */
module NetVerdict {
  import opened Options
  import opened NetPrefix
  import opened NetPlan
  import opened NetCompile

  /*** The deciding rule ***/

  /** Rule i of the list is the first that matches. */
  ghost predicate FirstAt(rules: seq<Rule>, i: nat, in_: Input, pk: Packet) {
    i < |rules| && AuthoredMatches(rules[i], in_, pk) && forall j :: 0 <= j < i ==> !AuthoredMatches(rules[j], in_, pk)
  }

  ghost predicate NoneMatches(rules: seq<Rule>, in_: Input, pk: Packet) {
    forall j :: 0 <= j < |rules| ==> !AuthoredMatches(rules[j], in_, pk)
  }

  ghost predicate ByOverride(in_: Input, pk: Packet, i: nat) { FirstAt(in_.overrides, i, in_, pk) }

  /** No override matches, nor any rule of an earlier group, and rule i is the first of group g to. */
  ghost predicate ByGroup(in_: Input, pk: Packet, g: nat, i: nat) {
    && NoneMatches(in_.overrides, in_, pk) && g < |in_.groups|
    && (forall h :: 0 <= h < g ==> NoneMatches(in_.groups[h], in_, pk))
    && FirstAt(in_.groups[g], i, in_, pk)
  }

  ghost predicate Admitted(in_: Input, pk: Packet) { BeaconAdmits(in_, pk) || Trusts(in_, in_.zoneIDs, pk) }

  ghost predicate VerdictIs(in_: Input, pk: Packet, r: Rule)
    requires Compile(in_).Ok?
  {
    HasPrefix(in_);
    && (r.action == Deny ==> ChainVerdict(Compile(in_).value, pk) == Drop)
    && (r.action == Allow ==> ChainVerdict(Compile(in_).value, pk) == Accept)
    && r.action != BadAction
  }

  lemma HasPrefix(in_: Input)
    requires Compile(in_).Ok?
    ensures Compile(in_).value.wireGuard.Some?
  {}

  lemma {:induction false} FirstOf(rules: seq<Rule>, i: nat, in_: Input, pk: Packet)
    requires FirstAt(rules, i, in_, pk)
    ensures FirstAuthored(rules, in_, pk) == Some(Meant(rules[i].action))
    decreases |rules|
  {
    hide AuthoredMatches;
    var init := rules[..|rules| - 1];
    if i < |init| { FirstOf(init, i, in_, pk); } else { NoFirst(init, in_, pk); }
  }

  lemma {:induction false} NoFirst(rules: seq<Rule>, in_: Input, pk: Packet)
    requires NoneMatches(rules, in_, pk)
    ensures FirstAuthored(rules, in_, pk) == None
    decreases |rules|
  {
    hide AuthoredMatches;
    if rules != [] { NoFirst(rules[..|rules| - 1], in_, pk); }
  }

  lemma {:induction false} FirstOfBoth(a: seq<Rule>, b: seq<Rule>, in_: Input, pk: Packet)
    ensures FirstAuthored(a + b, in_, pk) == Or(FirstAuthored(a, in_, pk), FirstAuthored(b, in_, pk))
    decreases |b|
  {
    hide AuthoredMatches;
    if b == [] {
      assert a + b == a;
    } else {
      assert (a + b)[..|a + b| - 1] == a + b[..|b| - 1];
      FirstOfBoth(a, b[..|b| - 1], in_, pk);
    }
  }

  /** Groups decide in their order. */
  lemma {:induction false} FirstOfGroups(groups: seq<seq<Rule>>, n: nat, in_: Input, pk: Packet)
    requires n <= |groups| && forall h :: 0 <= h < n ==> NoneMatches(groups[h], in_, pk)
    ensures n == |groups| ==> FirstAuthored(Concat(groups), in_, pk) == None
    ensures n < |groups| ==> FirstAuthored(groups[n], in_, pk).Some? ==> FirstAuthored(Concat(groups), in_, pk) == FirstAuthored(groups[n], in_, pk)
    decreases |groups|
  {
    hide AuthoredMatches, NoneMatches, FirstAuthored;
    if groups == [] {
      assert FirstAuthored([], in_, pk) == None by { NoneIsNone(in_, pk); }
    } else {
      var init, last := groups[..|groups| - 1], groups[|groups| - 1];
      FirstOfBoth(Concat(init), last, in_, pk);
      if n == |groups| { NoFirst(last, in_, pk); }
      FirstOfGroups(init, if n == |groups| then n - 1 else n, in_, pk);
    }
  }

  lemma NoneIsNone(in_: Input, pk: Packet)
    ensures FirstAuthored([], in_, pk) == None
  {}

  lemma {:induction false} LoweredActions(plan: Plan, rules: seq<Rule>, in_: Input, fast: bool, i: nat)
    requires plan.wireGuard.Some? && LowerAll(plan, rules, in_, fast).Ok? && i < |rules| && !rules[i].disabled
    ensures Lowerable(rules[i])
    decreases |rules|
  {
    if i < |rules| - 1 { LoweredActions(plan, rules[..|rules| - 1], in_, fast, i); }
  }

  lemma ActionIsGood(in_: Input, r: Rule)
    requires Compile(in_).Ok? && r in Ordered(in_) && !r.disabled
    ensures r.action != BadAction
  {
    hide LowerAll, Ordered;
    var rules := Ordered(in_);
    var i :| 0 <= i < |rules| && rules[i] == r;
    LoweredActions(Start(in_, TrustedRules(in_, in_.zoneIDs).value), rules, in_, !HasDeny(rules), i);
  }

  lemma {:induction false} InGroup(groups: seq<seq<Rule>>, g: nat, r: Rule)
    requires g < |groups| && r in groups[g]
    ensures r in Concat(groups)
    decreases |groups|
  {
    if g < |groups| - 1 { InGroup(groups[..|groups| - 1], g, r); }
  }

  /** A packet that neither the beacon nor a trusted zone admits gets what the first override that
      matches it asks for: a deny drops it, an allow accepts it. */
  lemma OverrideDecides(in_: Input, pk: Packet, i: nat)
    requires Compile(in_).Ok? && !Admitted(in_, pk) && ByOverride(in_, pk, i)
    ensures VerdictIs(in_, pk, in_.overrides[i])
  {
    hide Compile, FirstAuthored, ChainVerdict, BeaconAdmits, Trusts;
    CompilePreservesMeaning(in_, pk);
    FirstOf(in_.overrides, i, in_, pk);
    FirstOfBoth(in_.overrides, Concat(in_.groups), in_, pk);
    ActionIsGood(in_, in_.overrides[i]);
  }

  /** When no override matches, the first rule to match decides, groups taken in binding order. */
  lemma GroupDecides(in_: Input, pk: Packet, g: nat, i: nat)
    requires Compile(in_).Ok? && !Admitted(in_, pk) && ByGroup(in_, pk, g, i)
    ensures VerdictIs(in_, pk, in_.groups[g][i])
  {
    hide Compile, FirstAuthored, ChainVerdict, BeaconAdmits, Trusts;
    CompilePreservesMeaning(in_, pk);
    NoFirst(in_.overrides, in_, pk);
    FirstOf(in_.groups[g], i, in_, pk);
    FirstOfGroups(in_.groups, g, in_, pk);
    FirstOfBoth(in_.overrides, Concat(in_.groups), in_, pk);
    InGroup(in_.groups, g, in_.groups[g][i]);
    ActionIsGood(in_, in_.groups[g][i]);
  }

  /** What the beacon or a trusted zone admits is accepted whatever the rules say; what nothing
      matches is dropped. */
  lemma RestDecides(in_: Input, pk: Packet)
    requires Compile(in_).Ok?
    ensures Compile(in_).value.wireGuard.Some?
    ensures Admitted(in_, pk) ==> ChainVerdict(Compile(in_).value, pk) == Accept
    ensures !Admitted(in_, pk) && NoneMatches(in_.overrides, in_, pk) && (forall h :: 0 <= h < |in_.groups| ==> NoneMatches(in_.groups[h], in_, pk))
            ==> ChainVerdict(Compile(in_).value, pk) == Drop
  {
    hide Compile, FirstAuthored, ChainVerdict, BeaconAdmits, Trusts, NoneMatches;
    CompilePreservesMeaning(in_, pk);
    if !Admitted(in_, pk) && NoneMatches(in_.overrides, in_, pk) && (forall h :: 0 <= h < |in_.groups| ==> NoneMatches(in_.groups[h], in_, pk)) {
      NoFirst(in_.overrides, in_, pk);
      FirstOfGroups(in_.groups, |in_.groups|, in_, pk);
      FirstOfBoth(in_.overrides, Concat(in_.groups), in_, pk);
    }
  }

  /*** Which inputs compile ***/

  /** The remote resolves to addresses or to one interface, and they are well formed. */
  predicate RemoteFine(r: Remote, in_: Input) {
    match r
    case AnyRemote => true
    case CidrRemote(c) => c.Some? && ValidPrefix(c.value)
    case NodeRemote(n) => n in in_.nodes && in_.nodes[n] != [] && ValidSources(in_.nodes[n])
    case ZoneRemote(z) =>
      z in in_.zones && if in_.zones[z].cidrs != [] then ValidSources(in_.zones[z].cidrs)
                        else |in_.zones[z].interfaces| == 1 && ValidName(in_.zones[z].interfaces[0])
    case GroupRemote(g) =>
      in_.memberLookup && g in in_.members && forall i :: 0 <= i < |in_.members[g]| && in_.members[g][i] in in_.nodes ==> ValidSources(in_.nodes[in_.members[g][i]])
    case DomainRemote => false
    case BadRemote => false
  }

  /** A rule the guard can carry: an ingress allow or deny, of tcp, udp or anything, unlogged, with
      good ranges of at most 1024 ports together and none without a protocol, from a remote that
      resolves. The allow of ports from a builtin zone needs no resolving. */
  predicate RuleFine(r: Rule, in_: Input) {
    && r.ingress && (r.action == Allow || r.action == Deny) && (r.proto == RuleTcp || r.proto == RuleUdp || r.proto == RuleAny) && !r.log
    && (forall i :: 0 <= i < |r.ports| ==> 1 <= r.ports[i].from <= r.ports[i].to <= 65535) && RangeWidth(r.ports) <= 1024
    && (r.proto == RuleAny ==> r.ports == [])
    && (BroadShape(r) || RemoteFine(r.remote, in_))
  }

  predicate BeaconFine(b: Beacon) { 1 <= b.port <= 65535 && ValidSources(b.allow) && b.bind.family == V4 && |b.bind.bits| == 32 }

  predicate ZoneFine(z: ZoneId, in_: Input) {
    && z != Public && z in in_.zones && (in_.zones[z].interfaces != [] || in_.zones[z].cidrs != [])
    && (forall i :: 0 <= i < |in_.zones[z].interfaces| ==> ValidName(in_.zones[z].interfaces[i])) && ValidSources(in_.zones[z].cidrs)
  }

  /** A name of at most 15 letters, digits, underscores, dots and dashes. */
  predicate NameFine(s: string) {
    1 <= |s| <= 15 && forall i :: 0 <= i < |s| ==> 'a' <= s[i] <= 'z' || 'A' <= s[i] <= 'Z' || '0' <= s[i] <= '9' || s[i] in "_.-"
  }

  predicate BaseFine(in_: Input) { NameFine(PublicInterface(in_)) && ValidPrefix(WireGuardRange(in_)) && WireGuardRange(in_).family == V4 }

  ghost predicate AllFine(rules: seq<Rule>, in_: Input) { forall i :: 0 <= i < |rules| && !rules[i].disabled ==> RuleFine(rules[i], in_) }

  ghost predicate ZonesFine(ids: seq<ZoneId>, in_: Input) { forall i :: 0 <= i < |ids| ==> ZoneFine(ids[i], in_) }

  predicate RulesOk(rules: seq<InputRule>) { NormalRules(rules).Ok? }

  predicate PortsOk(p: Plan) { ValidPorts(p.publicTCP) && ValidPorts(p.publicUDP) && ValidPorts(p.wireGuardTCP) && ValidPorts(p.wireGuardUDP) }

  lemma {:induction false} RulesOkParts(a: seq<InputRule>, b: seq<InputRule>)
    ensures RulesOk(a + b) <==> RulesOk(a) && RulesOk(b)
    decreases |b|
  {
    hide NormalRule;
    if b == [] {
      assert a + b == a;
    } else {
      assert (a + b)[..|a + b| - 1] == a + b[..|b| - 1];
      RulesOkParts(a, b[..|b| - 1]);
    }
  }

  lemma OneOk(r: InputRule)
    ensures RulesOk([r]) <==> NormalRule(r).Ok?
  {
    hide NormalRule;
    assert [r][..0] == [] && NormalRules([]).Ok?;
  }

  lemma {:induction false} MembersValid(in_: Input, members: seq<nat>)
    ensures ValidSources(MemberSources(in_, members)) <==> forall i :: 0 <= i < |members| && members[i] in in_.nodes ==> ValidSources(in_.nodes[members[i]])
    decreases |members|
  {
    hide ValidPrefix;
    if members != [] {
      var init, m := members[..|members| - 1], members[|members| - 1];
      MembersValid(in_, init);
      if m in in_.nodes { SourcesParts(MemberSources(in_, init), in_.nodes[m]); }
      assert members[|members| - 1] == m && forall i :: 0 <= i < |init| ==> members[i] == init[i];
    }
  }

  lemma SourcesParts(a: seq<Prefix>, b: seq<Prefix>)
    ensures ValidSources(a + b) <==> ValidSources(a) && ValidSources(b)
  {
    hide ValidPrefix;
    if ValidSources(a + b) {
      forall i | 0 <= i < |a| ensures ValidPrefix(a[i]) { assert (a + b)[i] == a[i]; }
      forall i | 0 <= i < |b| ensures ValidPrefix(b[i]) { assert (a + b)[|a| + i] == b[i]; }
    }
  }

  /** A rule that is not of the broad shape can be lowered and normalised exactly when it is fine. */
  lemma GeneralFine(r: Rule, in_: Input)
    requires !BroadShape(r) && Lowerable(r)
    ensures RuleFine(r, in_) <==>
              RuleSource(r, in_).Ok? && var s := RuleSource(r, in_).value;
              (r.remote.GroupRemote? && s.sources == []) || NormalRule(InputRule(s.iface, s.sources, PlanProto(r.proto), Expand(r.ports).value, PlanAction(r.action))).Ok?
  {
    hide ValidPrefix, ValidName, NormalSources, Sorted, RangeWidth;
    ExpandIs(r.ports);
    ExpandMembers(r.ports);
    match r.remote
    case GroupRemote(g) => if g in in_.members { MembersValid(in_, in_.members[g]); }
    case CidrRemote(c) => if c.Some? { OneSource(c.value); }
    case _ =>
  }

  lemma OneSource(p: Prefix)
    ensures ValidSources([p]) <==> ValidPrefix(p)
  {
    hide ValidPrefix;
    assert [p][0] == p;
  }

  lemma NamesAgree(s: string)
    ensures NameFine(s) <==> ValidName(s)
  {
    assert forall i :: 0 <= i < |s| ==> (NameChar(s[i]) <==> 'a' <= s[i] <= 'z' || 'A' <= s[i] <= 'Z' || '0' <= s[i] <= '9' || s[i] in "_.-");
  }

  lemma BroadFine(plan: Plan, r: Rule, in_: Input)
    requires BaseFine(in_) && Base(plan, in_) && BroadShape(r) && Lowerable(r)
    ensures RuleFine(r, in_) && NormalRule(BroadInPlace(plan, r, Expand(r.ports).value)).Ok?
    ensures PortsOk(BroadLast(plan, r, Expand(r.ports).value)) <==> PortsOk(plan)
  {
    NamesAgree(PublicInterface(in_));
    hide ValidPrefix, ValidName, NameFine, NormalSources, Sorted, RangeWidth;
    ExpandIs(r.ports);
    ExpandMembers(r.ports);
    var ports := Expand(r.ports).value;
    PortsParts(plan.publicTCP, ports);
    PortsParts(plan.publicUDP, ports);
    PortsParts(plan.wireGuardTCP, ports);
    PortsParts(plan.wireGuardUDP, ports);
  }

  lemma PortsParts(a: seq<int>, b: seq<int>)
    ensures ValidPorts(a + b) <==> ValidPorts(a) && ValidPorts(b)
  {
    if ValidPorts(a + b) {
      forall i | 0 <= i < |a| ensures ValidPort(a[i]) { assert (a + b)[i] == a[i]; }
      forall i | 0 <= i < |b| ensures ValidPort(b[i]) { assert (a + b)[|a| + i] == b[i]; }
    }
  }

  ghost predicate PlanOk(p: Plan) { RulesOk(p.rules) && PortsOk(p) }

  lemma FineIsLowerable(r: Rule, in_: Input)
    ensures RuleFine(r, in_) ==> Lowerable(r)
  {}

  lemma LowerFine(plan: Plan, r: Rule, in_: Input, fast: bool)
    requires BaseFine(in_) && Base(plan, in_) && PlanOk(plan)
    ensures RuleFine(r, in_) <==> Lower(plan, r, in_, fast).Ok? && PlanOk(Lower(plan, r, in_, fast).value)
  {
    hide RuleFine, NormalRule, RulesOk, PortsOk, RuleSource, Expand, BaseFine, Expandable, BroadInPlace;
    FineIsLowerable(r, in_);
    if Lowerable(r) {
      ExpandIs(r.ports);
      if BroadShape(r) {
        BroadFine(plan, r, in_);
        var rule := BroadInPlace(plan, r, Expand(r.ports).value);
        RulesOkParts(plan.rules, [rule]);
        OneOk(rule);
        SamePorts(plan, plan.(rules := plan.rules + [rule]));
      } else {
        GeneralFine(r, in_);
        if RuleSource(r, in_).Ok? {
          var s := RuleSource(r, in_).value;
          var rule := InputRule(s.iface, s.sources, PlanProto(r.proto), Expand(r.ports).value, PlanAction(r.action));
          RulesOkParts(plan.rules, [rule]);
          OneOk(rule);
          SamePorts(plan, plan.(rules := plan.rules + [rule]));
        }
      }
    }
  }

  lemma SamePorts(p: Plan, q: Plan)
    requires q == p.(rules := q.rules)
    ensures PortsOk(q) == PortsOk(p)
  {}

  lemma {:induction false} LowerAllFine(plan: Plan, rules: seq<Rule>, in_: Input, fast: bool)
    requires BaseFine(in_) && Base(plan, in_) && PlanOk(plan)
    ensures AllFine(rules, in_) <==> LowerAll(plan, rules, in_, fast).Ok? && PlanOk(LowerAll(plan, rules, in_, fast).value)
    decreases |rules|
  {
    hide RuleFine, Lower, BaseFine, PlanOk;
    if rules != [] {
      var init, r := rules[..|rules| - 1], rules[|rules| - 1];
      LowerAllFine(plan, init, in_, fast);
      assert AllFine(rules, in_) <==> AllFine(init, in_) && (r.disabled || RuleFine(r, in_));
      if AllFine(init, in_) {
        LowerFine(LowerAll(plan, init, in_, fast).value, r, in_, fast);
      } else if LowerAll(plan, rules, in_, fast).Ok? && !r.disabled {
        StaysBad(LowerAll(plan, init, in_, fast).value, r, in_, fast);
      }
    }
  }

  /** Lowering more never mends a plan. */
  lemma StaysBad(plan: Plan, r: Rule, in_: Input, fast: bool)
    requires plan.wireGuard.Some? && Lower(plan, r, in_, fast).Ok? && !PlanOk(plan)
    ensures !PlanOk(Lower(plan, r, in_, fast).value)
  {
    hide NormalRule, RulesOk, RuleSource, Expand, BroadInPlace, Expandable, ValidPorts;
    ExpandIs(r.ports);
    var ports := Expand(r.ports).value;
    if BroadShape(r) {
      RulesOkParts(plan.rules, [BroadInPlace(plan, r, ports)]);
      PortsParts(plan.publicTCP, ports);
      PortsParts(plan.publicUDP, ports);
      PortsParts(plan.wireGuardTCP, ports);
      PortsParts(plan.wireGuardUDP, ports);
    } else {
      var s := RuleSource(r, in_).value;
      RulesOkParts(plan.rules, [InputRule(s.iface, s.sources, PlanProto(r.proto), ports, PlanAction(r.action))]);
    }
  }

  function InterfaceRules(names: seq<Name>): seq<InputRule> {
    if names == [] then [] else InterfaceRules(names[..|names| - 1]) + [InputRule(names[|names| - 1], [], AnyProto, [], Accept)]
  }

  lemma {:induction false} InterfacesOk(names: seq<Name>)
    ensures RulesOk(InterfaceRules(names)) <==> forall i :: 0 <= i < |names| ==> ValidName(names[i])
    ensures |InterfaceRules(names)| == |names| && forall i :: 0 <= i < |names| ==> InterfaceRules(names)[i] == InputRule(names[i], [], AnyProto, [], Accept)
    decreases |names|
  {
    hide ValidName, RulesOk;
    if names == [] {
      NoRulesOk();
    } else {
      var init, last := names[..|names| - 1], names[|names| - 1];
      InterfacesOk(init);
      RulesOkParts(InterfaceRules(init), [InputRule(last, [], AnyProto, [], Accept)]);
      OneInterface(last);
      assert forall i :: 0 <= i < |init| ==> names[i] == init[i];
    }
  }

  lemma OneInterface(name: Name)
    ensures RulesOk([InputRule(name, [], AnyProto, [], Accept)]) <==> ValidName(name)
  {
    hide ValidName, RulesOk;
    OneOk(InputRule(name, [], AnyProto, [], Accept));
  }

  lemma ZoneRulesFine(z: Zone)
    ensures RulesOk(ZoneRules(z)) <==> (forall i :: 0 <= i < |z.interfaces| ==> ValidName(z.interfaces[i])) && ValidSources(z.cidrs)
  {
    hide ValidName, ValidPrefix, NormalSources;
    InterfacesOk(z.interfaces);
    var first := InterfaceRules(z.interfaces);
    var last := if z.cidrs == [] then [] else [InputRule("", z.cidrs, AnyProto, [], Accept)];
    assert ZoneRules(z) == first + last;
    RulesOkParts(first, last);
    OneOk(InputRule("", z.cidrs, AnyProto, [], Accept));
    NoRulesOk();
    hide RulesOk;
    assert z.cidrs == [] ==> ValidSources(z.cidrs);
  }

  lemma {:induction false} TrustedFine(in_: Input, ids: seq<ZoneId>)
    ensures ZonesFine(ids, in_) <==> TrustedRules(in_, ids).Ok? && RulesOk(TrustedRules(in_, ids).value)
    decreases |ids|
  {
    hide ZoneRules, RulesOk;
    if ids == [] {
      assert RulesOk([]) by { NoRulesOk(); }
    } else {
      var init, z := ids[..|ids| - 1], ids[|ids| - 1];
      TrustedFine(in_, init);
      assert ZonesFine(ids, in_) <==> ZonesFine(init, in_) && ZoneFine(z, in_) by { ZonesParts(ids, in_); }
      hide ZonesFine;
      if Trustable(in_, z) {
        ZoneRulesFine(in_.zones[z]);
        if TrustedRules(in_, init).Ok? { RulesOkParts(TrustedRules(in_, init).value, ZoneRules(in_.zones[z])); }
      }
    }
  }

  lemma NoRulesOk()
    ensures RulesOk([])
  {}

  lemma ZonesParts(ids: seq<ZoneId>, in_: Input)
    requires ids != []
    ensures ZonesFine(ids, in_) <==> ZonesFine(ids[..|ids| - 1], in_) && ZoneFine(ids[|ids| - 1], in_)
  {
    hide ZoneFine;
  }

  lemma BeaconRulesFine(b: Option<Beacon>)
    requires b.Some? ==> ValidPort(b.value.port)
    ensures RulesOk(BeaconRules(b)) <==> b.Some? ==> ValidSources(b.value.allow)
  {
    hide ValidPrefix, NormalSources, Sorted;
    if b.Some? { OneOk(InputRule("", b.value.allow, Udp, [b.value.port], Accept)); }
  }

  /** Compile takes exactly the inputs that are managed, can be resolved, and have a good base, a good
      beacon if any, trusted zones that can be, and nothing but fine rules enabled. */
  lemma CompilesExactly(in_: Input)
    ensures Compile(in_).Ok? <==>
              && in_.managed && in_.resolver && BaseFine(in_) && (in_.beacon.Some? ==> BeaconFine(in_.beacon.value))
              && ZonesFine(in_.zoneIDs, in_) && AllFine(in_.overrides, in_) && forall g :: 0 <= g < |in_.groups| ==> AllFine(in_.groups[g], in_)
  {
    hide BaseFine, RuleFine, ZoneFine, Expand, LowerAll, NormalRules, TrustedRules, Ordered, AllFine, ZonesFine, ValidSources;
    TrustedFine(in_, in_.zoneIDs);
    OrderedFine(in_);
    if in_.managed && in_.resolver && (in_.beacon.Some? ==> ValidPort(in_.beacon.value.port)) && TrustedRules(in_, in_.zoneIDs).Ok? {
      StartFine(in_);
      FineAgree(in_);
    }
  }

  lemma OrderedFine(in_: Input)
    ensures AllFine(Ordered(in_), in_) <==> AllFine(in_.overrides, in_) && forall g :: 0 <= g < |in_.groups| ==> AllFine(in_.groups[g], in_)
  {
    hide RuleFine;
    FineParts(in_.overrides, Concat(in_.groups), in_);
    ConcatFine(in_.groups, in_);
  }

  lemma FineParts(a: seq<Rule>, b: seq<Rule>, in_: Input)
    ensures AllFine(a + b, in_) <==> AllFine(a, in_) && AllFine(b, in_)
  {
    hide RuleFine;
    if AllFine(a + b, in_) {
      forall i | 0 <= i < |a| && !a[i].disabled ensures RuleFine(a[i], in_) { assert (a + b)[i] == a[i]; }
      forall i | 0 <= i < |b| && !b[i].disabled ensures RuleFine(b[i], in_) { assert (a + b)[|a| + i] == b[i]; }
    }
  }

  lemma {:induction false} ConcatFine(groups: seq<seq<Rule>>, in_: Input)
    ensures AllFine(Concat(groups), in_) <==> forall g :: 0 <= g < |groups| ==> AllFine(groups[g], in_)
    decreases |groups|
  {
    if groups == [] {
    } else {
      var init := groups[..|groups| - 1];
      ConcatFine(init, in_);
      FineParts(Concat(init), groups[|groups| - 1], in_);
      hide AllFine;
      assert forall g :: 0 <= g < |init| ==> groups[g] == init[g];
    }
  }

  lemma StartFine(in_: Input)
    requires TrustedRules(in_, in_.zoneIDs).Ok? && (in_.beacon.Some? ==> ValidPort(in_.beacon.value.port))
    ensures var p := Start(in_, TrustedRules(in_, in_.zoneIDs).value);
            PlanOk(p) <==> ZonesFine(in_.zoneIDs, in_) && (in_.beacon.Some? ==> ValidSources(in_.beacon.value.allow))
  {
    hide RulesOk, ZonesFine, TrustedRules, ValidSources, BeaconRules;
    TrustedFine(in_, in_.zoneIDs);
    BeaconRulesFine(in_.beacon);
    RulesOkParts(BeaconRules(in_.beacon), TrustedRules(in_, in_.zoneIDs).value);
  }

  lemma FineAgree(in_: Input)
    requires in_.managed && in_.resolver && (in_.beacon.Some? ==> ValidPort(in_.beacon.value.port)) && TrustedRules(in_, in_.zoneIDs).Ok?
    ensures var p := Start(in_, TrustedRules(in_, in_.zoneIDs).value);
            Compile(in_).Ok? <==> BaseFine(in_) && (in_.beacon.Some? ==> ValidNotrack(Notrack(in_.beacon.value.bind, in_.beacon.value.port))) && PlanOk(p) && AllFine(Ordered(in_), in_)
  {
    hide LowerAll, TrustedRules, Ordered, AllFine, ValidName, ValidPrefix, NormalRules, ValidPorts, BeaconRules;
    var p, fast := Start(in_, TrustedRules(in_, in_.zoneIDs).value), !HasDeny(Ordered(in_));
    assert Base(p, in_);
    var r := LowerAll(p, Ordered(in_), in_, fast);
    NamesAgree(PublicInterface(in_));
    if BaseFine(in_) && PlanOk(p) { LowerAllFine(p, Ordered(in_), in_, fast); }
    if !PlanOk(p) && r.Ok? { StaysBadAll(p, Ordered(in_), in_, fast); }
  }

  lemma {:induction false} StaysBadAll(plan: Plan, rules: seq<Rule>, in_: Input, fast: bool)
    requires plan.wireGuard.Some? && LowerAll(plan, rules, in_, fast).Ok? && !PlanOk(plan)
    ensures !PlanOk(LowerAll(plan, rules, in_, fast).value)
    decreases |rules|
  {
    hide Lower, PlanOk;
    if rules != [] {
      var init, r := rules[..|rules| - 1], rules[|rules| - 1];
      StaysBadAll(plan, init, in_, fast);
      if !r.disabled { StaysBad(LowerAll(plan, init, in_, fast).value, r, in_, fast); }
    }
  }
}
