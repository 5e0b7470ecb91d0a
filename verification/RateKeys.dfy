/** What the cap on tracked keys does to the rate: a run over no more keys than the cap never
    reaches it, and one key more lets a spent bucket be forgotten. */
module RateKeys {
  import opened Sets
  import opened RateModel
  import opened RateTheorems

  /** A run with no more keys than the cap never reaches it. */
  lemma {:induction false} FewKeysHaveRoom(c: Config, s: State, rs: seq<Request>, keys: set<nat>)
    requires s.buckets.Keys <= keys && Keys(rs) <= keys && |keys| <= c.maxKeys
    ensures HasRoom(c, s, rs)
    decreases |rs|
  {
    if rs != [] {
      var m := Sweep(c, s, rs[0].at).buckets;
      assert m.Keys <= s.buckets.Keys;
      assert rs[0].key in Keys(rs);
      if rs[0].key !in m { Smaller(m.Keys, keys, rs[0].key); }
      assert forall i :: 0 <= i < |rs[1..]| ==> rs[1..][i] == rs[i + 1];
      FewKeysHaveRoom(c, Allow(c, s, rs[0]).state, rs[1..], keys);
    }
  }

  lemma Smaller(a: set<nat>, b: set<nat>, x: nat)
    requires a <= b && x in b && x !in a
    ensures |a| < |b|
  {
    SubsetSize(a, b - {x});
  }

  /** Whenever room has to be made, it is made by a least recently seen bucket. */
  ghost predicate Evicts(c: Config, s: State, rs: seq<Request>)
    decreases |rs|
  {
    rs == [] || ((rs[0].n > 0.0 && Full(c, Sweep(c, s, rs[0].at).buckets, rs[0].key) ==> Oldest(Sweep(c, s, rs[0].at).buckets, rs[0].victim))
                 && Evicts(c, Allow(c, s, rs[0]).state, rs[1..]))
  }

  /*** One key too many ***/

  /** The spent buckets of keys lo to hi - 1, all last seen at instant 0. */
  function Spent(lo: nat, hi: nat): map<nat, Bucket> { map k | lo <= k < hi :: SpentBucket(k) }

  function SpentBucket(key: nat): Bucket { Bucket(0.0, 0.0, 0.0) }

  /** Every key from j on takes its burst, the last one for want of room at key 0's expense; then
      key 0 asks again. All of it happens at instant 0. */
  function Overfill(c: Config, j: nat): seq<Request>
    decreases c.maxKeys - j
  {
    if j < c.maxKeys then [Request(j, c.burst, 0.0, 0)] + Overfill(c, j + 1)
    else [Request(c.maxKeys, c.burst, 0.0, 0), Request(0, c.burst, 0.0, c.maxKeys)]
  }

  lemma {:induction false} SpentSize(lo: nat, hi: nat)
    requires lo <= hi
    ensures |Spent(lo, hi)| == hi - lo
    decreases hi
  {
    if lo == hi {
      assert Spent(lo, hi) == map[];
    } else {
      SpentSize(lo, hi - 1);
      assert Spent(lo, hi) == Spent(lo, hi - 1)[hi - 1 := Bucket(0.0, 0.0, 0.0)];
    }
  }

  lemma SpentOldest(lo: nat, hi: nat, k: nat)
    requires lo <= k < hi
    ensures Oldest(Spent(lo, hi), k)
  {}

  /** A key without a bucket is granted its burst and left with nothing. */
  lemma TakesAll(c: Config, m: map<nat, Bucket>, key: nat, victim: nat)
    requires ConfigOK(c) && key !in m
    ensures var r := Request(key, c.burst, 0.0, victim); var kept := if Full(c, m, key) then m - {victim} else m;
            Allow(c, State(m, 0.0), r) == Outcome(State(kept[key := Bucket(0.0, 0.0, 0.0)], 0.0), true)
  {}

  ghost predicate Repeats(c: Config, j: nat, s: State, granted: real) {
    var rs := Overfill(c, j);
    AnswersLength(c, s, map[], rs);
    InOrder(0.0, rs) && Evicts(c, s, rs) && Granted(rs, Answers(c, s, rs), 0, 0.0, 0.0) == granted
  }

  /** One more request at the front of a run. */
  lemma Front(c: Config, s: State, r: Request, rest: seq<Request>, granted: real)
    requires r.at == 0.0 && r.n == c.burst > 0.0 && Allow(c, s, r).ok && (Full(c, Sweep(c, s, 0.0).buckets, r.key) ==> Oldest(Sweep(c, s, 0.0).buckets, r.victim))
    requires var s' := Allow(c, s, r).state; InOrder(0.0, rest) && Evicts(c, s', rest) && |Answers(c, s', rest)| == |rest| && Granted(rest, Answers(c, s', rest), 0, 0.0, 0.0) == granted
    ensures var rs := [r] + rest;
            && InOrder(0.0, rs) && Evicts(c, s, rs) && |Answers(c, s, rs)| == |rs|
            && Granted(rs, Answers(c, s, rs), 0, 0.0, 0.0) == granted + (if r.key == 0 then c.burst else 0.0)
  {
    hide Allow, Sweep, Full, Oldest;
    var rs := [r] + rest;
    assert rs[1..] == rest;
    assert Answers(c, s, rs)[1..] == Answers(c, Allow(c, s, r).state, rest);
  }

  lemma LastTwo(c: Config)
    requires ConfigOK(c)
    ensures Repeats(c, c.maxKeys, State(Spent(0, c.maxKeys), 0.0), c.burst)
  {
    var k := c.maxKeys;
    var s0, s1 := State(Spent(0, k), 0.0), State(Spent(1, k + 1), 0.0);
    var p, q := Request(k, c.burst, 0.0, 0), Request(0, c.burst, 0.0, k);
    SpentSize(0, k);
    SpentSize(1, k + 1);
    SpentOldest(0, k, 0);
    SpentOldest(1, k + 1, k);
    TakesAll(c, Spent(0, k), k, 0);
    TakesAll(c, Spent(1, k + 1), 0, k);
    assert (Spent(0, k) - {0})[k := Bucket(0.0, 0.0, 0.0)] == Spent(1, k + 1);
    hide Allow, Spent;
    Front(c, s1, q, [], 0.0);
    assert [q] + [] == [q] && [p] + [q] == [p, q];
    Front(c, s0, p, [q], c.burst);
  }

  lemma {:induction false} OverfillRuns(c: Config, j: nat)
    requires ConfigOK(c) && j <= c.maxKeys
    ensures Repeats(c, j, State(Spent(0, j), 0.0), if j == 0 then c.burst + c.burst else c.burst)
    decreases c.maxKeys - j
  {
    if j == c.maxKeys {
      LastTwo(c);
    } else {
      SpentSize(0, j);
      TakesAll(c, Spent(0, j), j, 0);
      assert Spent(0, j)[j := Bucket(0.0, 0.0, 0.0)] == Spent(0, j + 1);
      hide Allow, Spent;
      OverfillRuns(c, j + 1);
      AnswersLength(c, State(Spent(0, j + 1), 0.0), map[], Overfill(c, j + 1));
      Front(c, State(Spent(0, j), 0.0), Request(j, c.burst, 0.0, 0), Overfill(c, j + 1), c.burst);
    }
  }

  lemma {:induction false} OverfillKeys(c: Config, j: nat, i: nat)
    requires j <= c.maxKeys && i < |Overfill(c, j)|
    ensures Overfill(c, j)[i].key <= c.maxKeys
    decreases c.maxKeys - j
  {
    if j < c.maxKeys && i > 0 { OverfillKeys(c, j + 1, i - 1); }
  }

  lemma OverfillKeyCount(c: Config)
    ensures |Keys(Overfill(c, 0))| <= c.maxKeys + 1
  {
    var all := Spent(0, c.maxKeys + 1).Keys;
    SpentSize(0, c.maxKeys + 1);
    forall k | k in Keys(Overfill(c, 0)) ensures k in all {
      var i :| 0 <= i < |Overfill(c, 0)| && Overfill(c, 0)[i].key == k;
      OverfillKeys(c, 0, i);
    }
    SubsetSize(Keys(Overfill(c, 0)), all);
  }

  /** At every cap, one key more than it holds lets key 0 have its burst twice at one instant. */
  lemma EvictionForgives(c: Config)
    requires ConfigOK(c)
    ensures var rs := Overfill(c, 0);
            InOrder(0.0, rs) && Evicts(c, Start(0.0), rs) && |Keys(rs)| <= c.maxKeys + 1 && !WithinRate(c, 0.0, rs, 0, 0.0, 0.0)
  {
    OverfillRuns(c, 0);
    OverfillKeyCount(c);
    assert Spent(0, 0) == map[];
    assert c.rate * 0.0 == 0.0;
    hide Answers, Granted, Overfill, InOrder, Evicts, Keys;
  }

  /*** Exactly how many keys ***/

  ghost predicate OverKeys(c: Config, n: nat, t: real, rs: seq<Request>) {
    InOrder(t, rs) && Evicts(c, Start(t), rs) && |Keys(rs)| <= n
  }

  /** In every run over at most n keys, every window of every key is within the rate. */
  ghost predicate BoundedFor(c: Config, n: nat) {
    forall t, rs, key, a, b :: OverKeys(c, n, t, rs) && a <= b ==> WithinRate(c, t, rs, key, a, b)
  }

  lemma {:induction false} RoomEvicts(c: Config, s: State, rs: seq<Request>)
    requires HasRoom(c, s, rs)
    ensures Evicts(c, s, rs)
    decreases |rs|
  {
    if rs != [] { RoomEvicts(c, Allow(c, s, rs[0]).state, rs[1..]); }
  }

  /** The bound holds in every run over at most n keys exactly when n keys fit the cap and a bucket
      is remembered for as long as it takes to fill. */
  lemma BoundNeedsRoom(c: Config, n: nat)
    requires ConfigOK(c) && n > 0
    ensures BoundedFor(c, n) <==> n <= c.maxKeys && c.rate * c.ttl >= c.burst
  {
    hide WithinRate, InOrder, Evicts, HasRoom, Keys, Overfill, Answers, Remembered;
    if c.rate * c.ttl < c.burst {
      var rs, u := ShortMemoryForgives(c);
      RoomEvicts(c, Start(0.0), rs);
      assert |Keys(rs)| <= 1 by { OneKey(c, rs); }
      assert OverKeys(c, n, 0.0, rs) && !WithinRate(c, 0.0, rs, 0, 0.0, u);
    } else if n > c.maxKeys {
      EvictionForgives(c);
      assert OverKeys(c, n, 0.0, Overfill(c, 0)) && !WithinRate(c, 0.0, Overfill(c, 0), 0, 0.0, 0.0);
    } else {
      forall t, rs, key, a, b | OverKeys(c, n, t, rs) && a <= b ensures WithinRate(c, t, rs, key, a, b) {
        FewKeysHaveRoom(c, Start(t), rs, Keys(rs));
        RateBound(c, t, rs, key, a, b);
      }
    }
  }

  lemma OneKey(c: Config, rs: seq<Request>)
    requires forall i :: 0 <= i < |rs| ==> rs[i].key == 0
    ensures |Keys(rs)| <= 1
  {
    SubsetSize(Keys(rs), {0});
  }
}
