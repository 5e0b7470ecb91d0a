/** Addresses and prefixes, in the notation of section 3.1 of RFC 4632 (an address and the
    number of its leading bits that count), and ascending port lists. */
module NetPrefix {
  datatype Family = V4 | V6

  function Width(f: Family): nat { if f == V4 then 32 else 128 }

  datatype Addr = Addr(family: Family, bits: seq<bool>)

  datatype Prefix = Prefix(family: Family, bits: seq<bool>, len: nat)

  predicate ValidPrefix(p: Prefix) { |p.bits| == Width(p.family) && p.len <= Width(p.family) }

  /** The first n bits agree. */
  predicate Agree(a: seq<bool>, b: seq<bool>, n: nat) {
    n <= |a| && n <= |b| && forall i :: 0 <= i < n ==> a[i] == b[i]
  }

  /** The address lies in the prefix. */
  predicate Contains(p: Prefix, a: Addr) { p.family == a.family && Agree(p.bits, a.bits, p.len) }

  predicate ContainsAny(ps: seq<Prefix>, a: Addr) { exists i :: 0 <= i < |ps| && Contains(ps[i], a) }

  /** Every address of inner lies in outer. */
  predicate Within(inner: Prefix, outer: Prefix) {
    outer.family == inner.family && outer.len <= inner.len <= |inner.bits| && Agree(outer.bits, inner.bits, outer.len)
  }

  /** Stands for a source that is no prefix: it contains nothing and lies in nothing. */
  const UNPARSED: Prefix := Prefix(V4, [], 1)

  predicate WithinAny(inner: Prefix, outers: seq<Prefix>) { exists i :: 0 <= i < |outers| && Within(inner, outers[i]) }

  lemma WithinContains(inner: Prefix, outer: Prefix, a: Addr)
    requires Within(inner, outer) && Contains(inner, a)
    ensures Contains(outer, a)
  {}

  /** A prefix that does not lie in another has an address outside it. */
  lemma OutsideAddress(inner: Prefix, outer: Prefix) returns (a: Addr)
    requires ValidPrefix(inner) && ValidPrefix(outer) && !Within(inner, outer)
    ensures Contains(inner, a) && !Contains(outer, a)
  {
    a := Addr(inner.family, inner.bits);
    if Contains(outer, a) {
      var j := inner.len;
      a := Addr(inner.family, inner.bits[j := !outer.bits[j]]);
      assert a.bits[j] != outer.bits[j];
    }
  }

  lemma OwnAddress(p: Prefix)
    requires ValidPrefix(p)
    ensures Contains(p, Addr(p.family, p.bits))
  {}

  /** One prefix lies in another exactly when every address of it does. */
  lemma WithinExactly(inner: Prefix, outer: Prefix)
    requires ValidPrefix(inner) && ValidPrefix(outer)
    ensures Within(inner, outer) <==> forall a :: Contains(inner, a) ==> Contains(outer, a)
  {
    hide Within, Contains;
    if Within(inner, outer) {
      forall a | Contains(inner, a) ensures Contains(outer, a) { WithinContains(inner, outer, a); }
    } else {
      var a := OutsideAddress(inner, outer);
    }
  }

  lemma WithinTrans(a: Prefix, b: Prefix, c: Prefix)
    requires Within(a, b) && Within(b, c)
    ensures Within(a, c)
  {}

  /** The prefix with the bits that do not count cleared. */
  function Masked(p: Prefix): Prefix
    requires ValidPrefix(p)
  {
    Prefix(p.family, p.bits[..p.len] + seq(|p.bits| - p.len, i => false), p.len)
  }

  lemma MaskedSame(p: Prefix, a: Addr)
    requires ValidPrefix(p)
    ensures ValidPrefix(Masked(p)) && Contains(Masked(p), a) == Contains(p, a) && Masked(Masked(p)) == Masked(p)
  {
    assert forall i :: 0 <= i < p.len ==> Masked(p).bits[i] == p.bits[i];
    assert Masked(p).bits[..p.len] == p.bits[..p.len];
  }

  /*** Ascending lists ***/

  predicate Ascending(s: seq<int>) { forall i, j :: 0 <= i < j < |s| ==> s[i] < s[j] }

  /** p put in its place, unless it is there already. */
  function Insert(s: seq<int>, p: int): seq<int> {
    if s == [] then [p]
    else if p < s[0] then [p] + s
    else if p == s[0] then s
    else [s[0]] + Insert(s[1..], p)
  }

  /** The distinct values in ascending order. */
  function Sorted(ports: seq<int>): seq<int> {
    if ports == [] then [] else Insert(Sorted(ports[..|ports| - 1]), ports[|ports| - 1])
  }

  lemma {:induction false} InsertMembers(s: seq<int>, p: int)
    ensures forall x :: x in Insert(s, p) <==> x in s || x == p
  {
    if s != [] && p > s[0] {
      InsertMembers(s[1..], p);
      assert forall x :: x in s <==> x == s[0] || x in s[1..];
    }
  }

  lemma {:induction false} InsertAscends(s: seq<int>, p: int)
    requires Ascending(s)
    ensures Ascending(Insert(s, p))
  {
    if s != [] && p > s[0] {
      InsertAscends(s[1..], p);
      InsertMembers(s[1..], p);
      hide Insert;
      TailAbove(s);
      ConsAscends(s[0], Insert(s[1..], p));
    }
  }

  lemma TailAbove(s: seq<int>)
    requires Ascending(s) && s != []
    ensures forall y :: y in s[1..] ==> s[0] < y
  {}

  lemma ConsAscends(a: int, s: seq<int>)
    requires Ascending(s) && forall y :: y in s ==> a < y
    ensures Ascending([a] + s)
  {
    assert forall i :: 0 <= i < |s| ==> s[i] in s;
  }

  lemma {:induction false} SortedFacts(ports: seq<int>)
    ensures Ascending(Sorted(ports)) && forall x :: x in Sorted(ports) <==> x in ports
  {
    if ports != [] {
      var init, last := ports[..|ports| - 1], ports[|ports| - 1];
      SortedFacts(init);
      InsertMembers(Sorted(init), last);
      InsertAscends(Sorted(init), last);
      assert forall x :: x in ports <==> x in init || x == last;
    }
  }

  lemma FirstIsLeast(s: seq<int>, x: int)
    requires Ascending(s) && s != [] && x in s
    ensures s[0] <= x && (x != s[0] ==> x in s[1..])
  {}

  lemma HeadIn(s: seq<int>)
    ensures s == [] || s[0] in s
  {}

  /** Ascending lists with the same members are the same list. */
  lemma {:induction false} AscendingUnique(a: seq<int>, b: seq<int>)
    requires Ascending(a) && Ascending(b) && forall x :: x in a <==> x in b
    ensures a == b
    decreases |a|
  {
    if a == [] {
      HeadIn(b);
    } else {
      assert a[0] in a && a[0] in b;
      FirstIsLeast(b, a[0]);
      FirstIsLeast(a, b[0]);
      assert a[0] == b[0];
      forall x ensures x in a[1..] <==> x in b[1..] {
        if x in a[1..] { TailLarger(a, x); FirstIsLeast(b, x); }
        if x in b[1..] { TailLarger(b, x); FirstIsLeast(a, x); }
      }
      AscendingUnique(a[1..], b[1..]);
      assert a == [a[0]] + a[1..] && b == [b[0]] + b[1..];
    }
  }

  lemma TailLarger(s: seq<int>, x: int)
    requires Ascending(s) && s != [] && x in s[1..]
    ensures x in s && x != s[0]
  {}

  lemma SortedOfAscending(s: seq<int>)
    requires Ascending(s)
    ensures Sorted(s) == s
  {
    SortedFacts(s);
    AscendingUnique(Sorted(s), s);
  }
}
