/** The compiler's loops (internal/netguard/compile.go), each proved to compute its function. */
module NetCompiler {
  import opened Options
  import opened NetPrefix
  import opened NetPlan
  import opened NetCompile

  lemma {:induction false} WidthGrows(ranges: seq<Range>, i: nat)
    requires i <= |ranges| && forall j :: 0 <= j < |ranges| ==> ValidRange(ranges[j])
    ensures RangeWidth(ranges[..i]) <= RangeWidth(ranges)
    decreases |ranges| - i
  {
    if i == |ranges| {
      assert ranges[..i] == ranges;
    } else {
      WidthGrows(ranges, i + 1);
      assert ranges[..i + 1][..i] == ranges[..i];
    }
  }

  /** ExpandPortRanges: the ranges are checked and counted, then listed without repeats and sorted. */
  method ExpandPortRanges(ranges: seq<Range>) returns (r: Result<seq<int>>)
    ensures r == Expand(ranges)
  {
    var total := 0;
    for i := 0 to |ranges|
      invariant (forall j :: 0 <= j < i ==> ValidRange(ranges[j])) && total == RangeWidth(ranges[..i]) <= MAX_EXPANDED_PORTS
    {
      var range := ranges[i];
      if !ValidPort(range.from) || !ValidPort(range.to) || range.from > range.to { return Err; }
      assert ranges[..i + 1][..i] == ranges[..i];
      total := total + range.to - range.from + 1;
      if total > MAX_EXPANDED_PORTS {
        if forall j :: 0 <= j < |ranges| ==> ValidRange(ranges[j]) { WidthGrows(ranges, i + 1); }
        return Err;
      }
    }
    assert ranges[..|ranges|] == ranges;
    var out: seq<int> := [];
    for i := 0 to |ranges|
      invariant forall x :: x in out <==> x in PortsOfAll(ranges[..i])
    {
      assert ranges[..i + 1][..i] == ranges[..i];
      out := ListRange(out, ranges[i]);
    }
    out := SortInts(out);
    SortedFacts(PortsOfAll(ranges));
    AscendingUnique(out, Sorted(PortsOfAll(ranges)));
    return Ok(out);
  }

  method ListRange(out0: seq<int>, range: Range) returns (out: seq<int>)
    ensures forall x :: x in out <==> x in out0 || x in PortsOf(range.from, range.to)
  {
    out := out0;
    var p := range.from;
    while p <= range.to
      invariant p <= range.to + 1 || p == range.from
      invariant forall x :: x in out <==> x in out0 || (range.from <= x < p)
      decreases range.to - p
    {
      if p !in out { out := out + [p]; }
      p := p + 1;
    }
    PortsOfMembers(range.from, range.to);
  }

  /** trustedZoneRules, appended zone by zone. */
  method TrustZones(in_: Input) returns (r: Result<seq<InputRule>>)
    ensures r == TrustedRules(in_, in_.zoneIDs)
  {
    var rules: seq<InputRule> := [];
    for i := 0 to |in_.zoneIDs|
      invariant TrustedRules(in_, in_.zoneIDs[..i]) == Ok(rules)
    {
      var z := in_.zoneIDs[i];
      assert in_.zoneIDs[..i + 1][..i] == in_.zoneIDs[..i];
      if z !in in_.zones || z == Public || (in_.zones[z].interfaces == [] && in_.zones[z].cidrs == []) {
        TrustFails(in_, in_.zoneIDs, i + 1);
        return Err;
      }
      var zone := in_.zones[z];
      var added: seq<InputRule> := [];
      for j := 0 to |zone.interfaces|
        invariant added == ZoneRules(zone)[..j]
      {
        added := added + [InputRule(zone.interfaces[j], [], AnyProto, [], Accept)];
      }
      if zone.cidrs != [] { added := added + [InputRule("", zone.cidrs, AnyProto, [], Accept)]; }
      assert added == ZoneRules(zone);
      rules := rules + added;
    }
    assert in_.zoneIDs[..|in_.zoneIDs|] == in_.zoneIDs;
    return Ok(rules);
  }

  lemma {:induction false} TrustFails(in_: Input, ids: seq<ZoneId>, i: nat)
    requires i <= |ids| && TrustedRules(in_, ids[..i]).Err?
    ensures TrustedRules(in_, ids).Err?
    decreases |ids| - i
  {
    if i == |ids| {
      assert ids[..i] == ids;
    } else {
      assert ids[..i + 1][..i] == ids[..i];
      TrustFails(in_, ids, i + 1);
    }
  }

  method Flatten(in_: Input) returns (ordered: seq<Rule>)
    ensures ordered == Ordered(in_)
  {
    ordered := in_.overrides;
    for i := 0 to |in_.groups|
      invariant ordered == in_.overrides + Concat(in_.groups[..i])
    {
      assert in_.groups[..i + 1][..i] == in_.groups[..i];
      ordered := ordered + in_.groups[i];
    }
    assert in_.groups[..|in_.groups|] == in_.groups;
  }

  /** Compile: the plan is built up rule by rule, then normalised. */
  method CompilePlan(in_: Input) returns (r: Result<Plan>)
    ensures r == Compile(in_)
  {
    hide Normal, Lower, TrustedRules, Ordered, BeaconRules, PublicInterface, WireGuardRange;
    if !in_.managed || !in_.resolver { return Err; }
    if in_.beacon.Some? && !ValidPort(in_.beacon.value.port) { return Err; }
    var trusted := TrustZones(in_);
    if trusted.Err? { return Err; }
    var ordered := Flatten(in_);
    var fast := true;
    for i := 0 to |ordered|
      invariant fast && forall j :: 0 <= j < i ==> ordered[j].disabled || ordered[j].action != Deny
    {
      if !ordered[i].disabled && ordered[i].action == Deny {
        fast := false;
        break;
      }
    }
    var start := Start(in_, trusted.value);
    var plan := start;
    for i := 0 to |ordered|
      invariant LowerAll(start, ordered[..i], in_, fast) == Ok(plan)
    {
      var rule := ordered[i];
      assert ordered[..i + 1][..i] == ordered[..i];
      if rule.disabled { continue; }
      var lowered := Lower(plan, rule, in_, fast);
      if lowered.Err? {
        LowerFails(start, ordered, in_, fast, i + 1);
        return Err;
      }
      plan := lowered.value;
    }
    assert ordered[..|ordered|] == ordered;
    return Normal(plan);
  }

  lemma {:induction false} LowerFails(plan: Plan, rules: seq<Rule>, in_: Input, fast: bool, i: nat)
    requires plan.wireGuard.Some? && i <= |rules| && LowerAll(plan, rules[..i], in_, fast).Err?
    ensures LowerAll(plan, rules, in_, fast).Err?
    decreases |rules| - i
  {
    hide Lower;
    if i == |rules| {
      assert rules[..i] == rules;
    } else {
      assert rules[..i + 1][..i] == rules[..i];
      LowerFails(plan, rules, in_, fast, i + 1);
    }
  }
}
