/** The two readings of a builtin zone (internal/netguard/compile.go): an allow of ports from the
    public or wireguard zone means the zone's first interface or first prefix, while any other
    rule means the whole zone. */
module NetZones {
  import opened NetPrefix
  import opened NetPlan
  import opened NetCompile

  ghost predicate ValidZones(in_: Input) { forall z :: z in in_.zones ==> ValidSources(in_.zones[z].cidrs) }

  /** The zone has one interface and nothing else to go by. */
  predicate OneWay(names: seq<Name>) { names != [] && forall i :: 0 <= i < |names| ==> names[i] == names[0] }

  /** Every prefix lies in the first. */
  predicate FirstCovers(cidrs: seq<Prefix>) { cidrs != [] && forall i :: 0 <= i < |cidrs| ==> Within(cidrs[i], cidrs[0]) }

  ghost predicate ReadAlike(r: Rule, in_: Input)
    requires BroadShape(r)
  {
    forall pk :: RemoteMatches(r, in_, pk) == ZoneMatches(r.remote.zone, in_, pk)
  }

  lemma CoveredSame(cidrs: seq<Prefix>, a: Addr)
    requires FirstCovers(cidrs)
    ensures ContainsAny(cidrs, a) == Contains(cidrs[0], a)
  {
    hide Contains, Within;
    if ContainsAny(cidrs, a) {
      var i :| 0 <= i < |cidrs| && Contains(cidrs[i], a);
      WithinContains(cidrs[i], cidrs[0], a);
    }
  }

  lemma PublicReads(r: Rule, in_: Input)
    requires BroadShape(r) && r.remote == ZoneRemote(Public) && ValidZones(in_)
    ensures ReadAlike(r, in_) <==> Public in in_.zones && in_.zones[Public].cidrs == [] && OneWay(in_.zones[Public].interfaces)
  {
    hide ContainsAny, Contains;
    var first, nowhere := PublicInterface(in_), Addr(V4, []);
    var pk := Packet(first, nowhere, IsTcp, 1);
    if Public !in in_.zones {
      assert RemoteMatches(r, in_, pk) && !ZoneMatches(Public, in_, pk);
    } else {
      var names, cidrs := in_.zones[Public].interfaces, in_.zones[Public].cidrs;
      if cidrs != [] {
        assert ValidPrefix(cidrs[0]);
        OwnAddress(cidrs[0]);
        pk := Packet("", Addr(cidrs[0].family, cidrs[0].bits), IsTcp, 1);
        assert ContainsAny(cidrs, pk.src) by { SomeContains(cidrs, 0, pk.src); }
        assert !RemoteMatches(r, in_, pk) && ZoneMatches(Public, in_, pk);
      } else if names == [] {
        assert RemoteMatches(r, in_, pk) && !ZoneMatches(Public, in_, pk);
      } else if i :| 0 <= i < |names| && names[i] != names[0] {
        pk := Packet(names[i], nowhere, IsTcp, 1);
        assert !RemoteMatches(r, in_, pk) && ZoneMatches(Public, in_, pk);
      } else {
        forall q ensures RemoteMatches(r, in_, q) == ZoneMatches(Public, in_, q) {
          assert names[0] == q.iface ==> AnyInterface(names, q);
        }
      }
    }
  }

  lemma SomeContains(ps: seq<Prefix>, i: nat, a: Addr)
    requires i < |ps| && Contains(ps[i], a)
    ensures ContainsAny(ps, a)
  {}

  lemma DefaultIsValid()
    ensures ValidPrefix(DEFAULT_WIREGUARD)
  {}

  lemma WireGuardReads(r: Rule, in_: Input)
    requires BroadShape(r) && r.remote == ZoneRemote(WireGuard) && ValidZones(in_)
    ensures ReadAlike(r, in_) <==> WireGuard in in_.zones && FirstCovers(in_.zones[WireGuard].cidrs)
  {
    hide ContainsAny, Contains, Within, ValidPrefix;
    DefaultIsValid();
    if WireGuard !in in_.zones || in_.zones[WireGuard].cidrs == [] {
      OwnAddress(DEFAULT_WIREGUARD);
      var pk := Packet("", Addr(DEFAULT_WIREGUARD.family, DEFAULT_WIREGUARD.bits), IsTcp, 1);
      assert RemoteMatches(r, in_, pk) && !ZoneMatches(WireGuard, in_, pk);
    } else {
      var cidrs := in_.zones[WireGuard].cidrs;
      if i :| 0 <= i < |cidrs| && !Within(cidrs[i], cidrs[0]) {
        var a := OutsideAddress(cidrs[i], cidrs[0]);
        SomeContains(cidrs, i, a);
        var pk := Packet("", a, IsTcp, 1);
        assert !RemoteMatches(r, in_, pk) && ZoneMatches(WireGuard, in_, pk);
      } else {
        forall q ensures RemoteMatches(r, in_, q) == ZoneMatches(WireGuard, in_, q) { CoveredSame(cidrs, q.src); }
      }
    }
  }

  /** An allow of ports reads its zone as any other rule does exactly when the zone is one
      interface without prefixes (public), or prefixes the first of which covers the rest
      (wireguard). */
  lemma BroadReadsZoneExactly(r: Rule, in_: Input)
    requires BroadShape(r) && ValidZones(in_)
    ensures ReadAlike(r, in_) <==>
              var z := r.remote.zone;
              && z in in_.zones
              && if z == Public then in_.zones[z].cidrs == [] && OneWay(in_.zones[z].interfaces) else FirstCovers(in_.zones[z].cidrs)
  {
    hide ReadAlike, OneWay, FirstCovers, ValidZones;
    if r.remote.zone == Public { PublicReads(r, in_); } else { WireGuardReads(r, in_); }
  }

  /** Where they part: with a second wireguard prefix, allowing port 22 from the zone leaves its
      hosts out, and denying the same port from the zone reaches them. */
  lemma SecondPrefixIsLeftOut(in_: Input, second: Prefix)
    requires WireGuard in in_.zones && in_.zones[WireGuard].cidrs == [DEFAULT_WIREGUARD, second]
    requires ValidPrefix(second) && !Within(second, DEFAULT_WIREGUARD)
    ensures var allow := Rule(false, true, Allow, RuleTcp, false, [Range(22, 22)], ZoneRemote(WireGuard));
            exists pk :: !AuthoredMatches(allow, in_, pk) && AuthoredMatches(allow.(action := Deny), in_, pk)
  {
    hide Contains, ContainsAny, Within, ValidPrefix;
    var allow := Rule(false, true, Allow, RuleTcp, false, [Range(22, 22)], ZoneRemote(WireGuard));
    DefaultIsValid();
    var a := OutsideAddress(second, DEFAULT_WIREGUARD);
    SomeContains([DEFAULT_WIREGUARD, second], 1, a);
    var pk := Packet("", a, IsTcp, 22);
    assert InRanges(allow.ports, 22) by { assert allow.ports[0].from <= 22 <= allow.ports[0].to; }
    assert !AuthoredMatches(allow, in_, pk) && AuthoredMatches(allow.(action := Deny), in_, pk);
  }

  /** Without a public zone the interface is eth0; without a wireguard prefix the range is 10.66.0.0/24. */
  lemma DefaultsAre(in_: Input, a: Addr)
    ensures Public !in in_.zones ==> PublicInterface(in_) == "eth0"
    ensures WireGuard !in in_.zones && |a.bits| == 32 ==>
              (Contains(WireGuardRange(in_), a) <==>
               a.family == V4 && a.bits[..24] == [false, false, false, false, true, false, true, false,
                                                  false, true, false, false, false, false, true, false,
                                                  false, false, false, false, false, false, false, false])
  {
    var first := [false, false, false, false, true, false, true, false, false, true, false, false, false, false, true, false,
                  false, false, false, false, false, false, false, false];
    Octets();
    assert DEFAULT_WIREGUARD.bits[..24] == first;
    if |a.bits| == 32 {
      AgreeIs(DEFAULT_WIREGUARD.bits, a.bits, 24);
    }
  }

  lemma AgreeIs(b: seq<bool>, a: seq<bool>, n: nat)
    requires n <= |a| && n <= |b|
    ensures Agree(b, a, n) <==> a[..n] == b[..n]
  {
    if a[..n] == b[..n] {
      forall i | 0 <= i < n ensures a[i] == b[i] { assert a[..n][i] == b[..n][i]; }
    }
  }

  lemma Octets()
    ensures Octet(10) == [false, false, false, false, true, false, true, false]
    ensures Octet(66) == [false, true, false, false, false, false, true, false]
    ensures Octet(0) == [false, false, false, false, false, false, false, false]
  {
    hide Octet;
    OctetTen();
    OctetSixtySix();
    OctetZero();
  }

  lemma Powers()
    ensures Pow2(0) == 1 && Pow2(1) == 2 && Pow2(2) == 4 && Pow2(3) == 8 && Pow2(4) == 16 && Pow2(5) == 32 && Pow2(6) == 64 && Pow2(7) == 128
  {}

  lemma OctetTen()
    ensures Octet(10) == [false, false, false, false, true, false, true, false]
  {
    Powers();
    hide Pow2;
  }

  lemma OctetSixtySix()
    ensures Octet(66) == [false, true, false, false, false, false, true, false]
  {
    Powers();
    hide Pow2;
  }

  lemma OctetZero()
    ensures Octet(0) == [false, false, false, false, false, false, false, false]
  {
    Powers();
    hide Pow2;
  }
}
