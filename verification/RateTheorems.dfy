/** What the limiter promises: forgetting idle keys is never visible, and a key is granted at most
    the burst plus the rate over any window. Both hold exactly when a bucket is remembered for at
    least as long as it takes to fill. */
module RateTheorems {
  import opened RateModel

  /** The same answer to every question from here on. */
  ghost predicate SameLevels(c: Config, m: map<nat, Bucket>, m': map<nat, Bucket>, t: real) {
    forall k: nat :: Level(c, m, k, t) == Level(c, m', k, t)
  }

  function Start(now: real): State { State(map[], now) }

  /*** Forgetting ***/

  lemma SameLater(c: Config, m: map<nat, Bucket>, m': map<nat, Bucket>, t: real, u: real)
    requires ConfigOK(c) && Fresh(c, m, t) && Fresh(c, m', t) && SameLevels(c, m, m', t) && t <= u
    ensures SameLevels(c, m, m', u) && Fresh(c, m, u) && Fresh(c, m', u)
  {
    hide Fresh, Level, Gain;
    FreshLater(c, m, t, u);
    FreshLater(c, m', t, u);
    forall k: nat ensures Level(c, m, k, u) == Level(c, m', k, u) {
      LevelLater(c, m, k, t, u);
      LevelLater(c, m', k, t, u);
    }
  }

  lemma ServeSame(c: Config, m: map<nat, Bucket>, m': map<nat, Bucket>, r: Request)
    requires ConfigOK(c) && Fresh(c, m, r.at) && Fresh(c, m', r.at) && SameLevels(c, m, m', r.at) && r.n > 0.0
    ensures var v, v' := Serve(c, m, r), Serve(c, m', r);
            v.ok == v'.ok && Fresh(c, v.buckets, r.at) && Fresh(c, v'.buckets, r.at) && SameLevels(c, v.buckets, v'.buckets, r.at)
  {
    hide Fresh, Level, Serve;
    ServeLevel(c, m, r, r.at, r.key);
    ServeLevel(c, m', r, r.at, r.key);
    forall k: nat ensures Level(c, Serve(c, m, r).buckets, k, r.at) == Level(c, Serve(c, m', r).buckets, k, r.at) {
      ServeLevel(c, m, r, r.at, k);
      ServeLevel(c, m', r, r.at, k);
    }
  }

  lemma SweepSame(c: Config, s: State, m': map<nat, Bucket>, now: real)
    requires ConfigOK(c) && c.rate * c.ttl >= c.burst
    requires Fresh(c, s.buckets, now) && SameLevels(c, s.buckets, m', now)
    ensures Fresh(c, Sweep(c, s, now).buckets, now) && SameLevels(c, Sweep(c, s, now).buckets, m', now)
  {
    hide Fresh, Level, Sweep;
    SweepLevel(c, s, now, now, 0);
    forall k: nat ensures Level(c, Sweep(c, s, now).buckets, k, now) == Level(c, m', k, now) {
      SweepLevel(c, s, now, now, k);
    }
  }

  /** One request, asked of the limiter and of one that forgets nothing. */
  lemma StepSame(c: Config, s: State, m: map<nat, Bucket>, r: Request, t: real)
    requires ConfigOK(c) && c.rate * c.ttl >= c.burst && t <= r.at
    requires Fresh(c, s.buckets, t) && Fresh(c, m, t) && SameLevels(c, s.buckets, m, t)
    requires r.n <= 0.0 || !Full(c, Sweep(c, s, r.at).buckets, r.key)
    ensures var o, v := Allow(c, s, r), Remember(c, m, r);
            && o.ok == v.ok && Fresh(c, o.state.buckets, r.at) && Fresh(c, v.buckets, r.at)
            && SameLevels(c, o.state.buckets, v.buckets, r.at)
  {
    hide Fresh, SameLevels, Sweep, Serve, Full;
    SameLater(c, s.buckets, m, t, r.at);
    if r.n > 0.0 {
      SweepSame(c, s, m, r.at);
      ServeSame(c, Sweep(c, s, r.at).buckets, m, r);
    }
  }

  lemma {:induction false} RunSame(c: Config, s: State, m: map<nat, Bucket>, rs: seq<Request>, t: real)
    requires ConfigOK(c) && c.rate * c.ttl >= c.burst && InOrder(t, rs) && HasRoom(c, s, rs)
    requires Fresh(c, s.buckets, t) && Fresh(c, m, t) && SameLevels(c, s.buckets, m, t)
    ensures Answers(c, s, rs) == Remembered(c, m, rs)
    decreases |rs|
  {
    if rs != [] {
      hide Fresh, SameLevels, Sweep, Allow, Remember, Full;
      StepSame(c, s, m, rs[0], t);
      RunSame(c, Allow(c, s, rs[0]).state, Remember(c, m, rs[0]).buckets, rs[1..], rs[0].at);
    }
  }

  /*** The rate ***/

  function Tokens(r: Request, ok: bool, key: nat): real {
    if ok && r.key == key && r.n > 0.0 then r.n else 0.0
  }

  /** Tokens are conserved: what a request is granted leaves its key's level. */
  lemma StepTakes(c: Config, m: map<nat, Bucket>, r: Request, t: real, key: nat)
    requires ConfigOK(c) && Fresh(c, m, t) && t <= r.at
    ensures var v := Remember(c, m, r);
            Fresh(c, v.buckets, r.at) && Level(c, v.buckets, key, r.at) == Level(c, m, key, r.at) - Tokens(r, v.ok, key)
  {
    hide Fresh, Level, Serve;
    FreshLater(c, m, t, r.at);
    if r.n > 0.0 { ServeLevel(c, m, r, t, key); }
  }

  /** What a key can still be granted in a window, seen from instant t. */
  function Budget(c: Config, m: map<nat, Bucket>, key: nat, t: real, a: real, b: real): real {
    var u := if t < a then a else t;
    if u > b then 0.0 else Level(c, m, key, u) + Gain(c, b - u)
  }

  lemma StepBudget(c: Config, m: map<nat, Bucket>, r: Request, t: real, key: nat, a: real, b: real)
    requires ConfigOK(c) && Fresh(c, m, t) && t <= r.at && a <= b
    ensures var v := Remember(c, m, r);
            (if a <= r.at <= b then Tokens(r, v.ok, key) else 0.0) + Budget(c, v.buckets, key, r.at, a, b)
            <= Budget(c, m, key, t, a, b)
  {
    hide Fresh, Level, Gain, Remember;
    var x, u, v := r.at, if t < a then a else t, Remember(c, m, r);
    StepTakes(c, m, r, t, key);
    FreshLater(c, m, t, x);
    LevelLater(c, m, key, x, x);
    LevelLater(c, v.buckets, key, x, x);
    if x > b {
      if u <= b {
        LevelLater(c, m, key, t, u);
        Gains(c, b - u, 0.0);
      }
    } else if x < a {
      LevelLater(c, m, key, x, a);
      LevelLater(c, v.buckets, key, x, a);
    } else {
      FreshLater(c, m, t, u);
      LevelLater(c, m, key, u, x);
      Gains(c, x - u, b - x);
      assert (x - u) + (b - x) == b - u;
    }
  }

  lemma BudgetIsPositive(c: Config, m: map<nat, Bucket>, key: nat, t: real, a: real, b: real)
    requires ConfigOK(c) && Fresh(c, m, t)
    ensures Budget(c, m, key, t, a, b) >= 0.0
  {
    hide Fresh, Level, Gain;
    var u := if t < a then a else t;
    LevelLater(c, m, key, t, u);
    Gains(c, b - u, 0.0);
  }

  lemma {:induction false} GrantedWithinBudget(c: Config, m: map<nat, Bucket>, rs: seq<Request>, t: real, key: nat, a: real, b: real)
    requires ConfigOK(c) && Fresh(c, m, t) && InOrder(t, rs) && a <= b
    ensures |Remembered(c, m, rs)| == |rs|
    ensures Granted(rs, Remembered(c, m, rs), key, a, b) <= Budget(c, m, key, t, a, b)
    decreases |rs|
  {
    AnswersLength(c, Start(t), m, rs);
    if rs == [] {
      BudgetIsPositive(c, m, key, t, a, b);
    } else {
      hide Fresh, Budget, Remember;
      var v := Remember(c, m, rs[0]);
      StepTakes(c, m, rs[0], t, key);
      StepBudget(c, m, rs[0], t, key, a, b);
      GrantedWithinBudget(c, v.buckets, rs[1..], rs[0].at, key, a, b);
      assert Remembered(c, m, rs)[1..] == Remembered(c, v.buckets, rs[1..]);
    }
  }

  /*** The two promises, and exactly when they are kept ***/

  /** A sweep never changes an answer. */
  ghost predicate SweepIsInvisible(c: Config) {
    forall t, rs :: InOrder(t, rs) && HasRoom(c, Start(t), rs) ==> Answers(c, Start(t), rs) == Remembered(c, map[], rs)
  }

  ghost predicate WithinRate(c: Config, t: real, rs: seq<Request>, key: nat, a: real, b: real) {
    AnswersLength(c, Start(t), map[], rs);
    Granted(rs, Answers(c, Start(t), rs), key, a, b) <= c.burst + c.rate * (b - a)
  }

  /** In every window a key is granted at most the burst and the rate times its length. */
  ghost predicate RateIsBounded(c: Config) {
    forall t, rs, key, a, b :: InOrder(t, rs) && HasRoom(c, Start(t), rs) && a <= b ==> WithinRate(c, t, rs, key, a, b)
  }

  /** A limiter that remembers a bucket until it must be full answers as if it forgot nothing. */
  lemma SweepingChangesNothing(c: Config, t: real, rs: seq<Request>)
    requires ConfigOK(c) && c.rate * c.ttl >= c.burst && InOrder(t, rs) && HasRoom(c, Start(t), rs)
    ensures Answers(c, Start(t), rs) == Remembered(c, map[], rs)
  {
    RunSame(c, Start(t), map[], rs, t);
  }

  lemma RateBound(c: Config, t: real, rs: seq<Request>, key: nat, a: real, b: real)
    requires ConfigOK(c) && c.rate * c.ttl >= c.burst && InOrder(t, rs) && HasRoom(c, Start(t), rs) && a <= b
    ensures WithinRate(c, t, rs, key, a, b)
  {
    hide Answers, Remembered, Granted, Budget, InOrder, HasRoom;
    SweepingChangesNothing(c, t, rs);
    GrantedWithinBudget(c, map[], rs, t, key, a, b);
    FirstBudget(c, key, t, a, b);
  }

  lemma FirstBudget(c: Config, key: nat, t: real, a: real, b: real)
    requires ConfigOK(c) && a <= b
    ensures Budget(c, map[], key, t, a, b) <= c.burst + c.rate * (b - a)
  {
    var u := if t < a then a else t;
    Gains(c, u - a, b - u);
    Gains(c, b - a, 0.0);
    assert Gain(c, b - a) == c.rate * (b - a);
    hide Gain;
    assert (u - a) + (b - u) == b - a;
  }

  /** With a shorter memory, a spent bucket can be forgotten and handed out afresh. */
  lemma ShortMemoryForgives(c: Config) returns (rs: seq<Request>, u: real)
    requires ConfigOK(c) && c.rate * c.ttl < c.burst
    ensures 0.0 <= u && InOrder(0.0, rs) && HasRoom(c, Start(0.0), rs)
    ensures Answers(c, Start(0.0), rs) == [true, true] && Remembered(c, map[], rs) == [true, false]
    ensures !WithinRate(c, 0.0, rs, 0, 0.0, u) && forall i :: 0 <= i < |rs| ==> rs[i].key == 0
  {
    u := Between(c);
    var p, q := Request(0, c.burst, 0.0, 0), Request(0, c.burst, u, 0);
    rs := [p, q];
    assert rs[1..] == [q] && [q][1..] == [];
    var spent := map[0 := Bucket(0.0, 0.0, 0.0)];
    assert Serve(c, map[], p) == Served(spent, true);
    assert Allow(c, Start(0.0), p) == Outcome(State(spent, 0.0), true);
    assert Unexpired(c, spent, u) == map[];
    assert Sweep(c, State(spent, 0.0), u) == State(map[], u);
    assert Serve(c, map[], q).ok && !Serve(c, spent, q).ok by { Gains(c, 0.0, 0.0); }
    assert Allow(c, State(spent, 0.0), q).ok;
    assert Answers(c, State(spent, 0.0), [q]) == [true];
    assert Remembered(c, spent, [q]) == [false];
    assert Granted([q], [true], 0, 0.0, u) == c.burst;
    assert [true, true][1..] == [true];
  }

  /** An instant after a bucket is forgotten and before it would be full. */
  lemma Between(c: Config) returns (u: real)
    requires ConfigOK(c) && c.rate * c.ttl < c.burst
    ensures c.ttl < u && Gain(c, u) < c.burst && c.rate * u < c.burst
  {
    var d := (c.burst - c.rate * c.ttl) / (2.0 * c.rate);
    assert d * (2.0 * c.rate) == c.burst - c.rate * c.ttl;
    u := c.ttl + d;
    assert c.rate * u == c.rate * c.ttl + c.rate * d;
  }

  /** Both promises are kept exactly when a bucket is remembered for as long as it takes to fill. */
  lemma PromisesNeedMemory(c: Config)
    requires ConfigOK(c)
    ensures SweepIsInvisible(c) <==> c.rate * c.ttl >= c.burst
    ensures RateIsBounded(c) <==> c.rate * c.ttl >= c.burst
  {
    hide WithinRate, Answers, Remembered, HasRoom, InOrder;
    if c.rate * c.ttl >= c.burst {
      forall t, rs | InOrder(t, rs) && HasRoom(c, Start(t), rs)
        ensures Answers(c, Start(t), rs) == Remembered(c, map[], rs)
      {
        SweepingChangesNothing(c, t, rs);
      }
      forall t, rs, key, a, b | InOrder(t, rs) && HasRoom(c, Start(t), rs) && a <= b
        ensures WithinRate(c, t, rs, key, a, b)
      {
        RateBound(c, t, rs, key, a, b);
      }
    } else {
      var rs, u := ShortMemoryForgives(c);
      assert [true, true][1] != [true, false][1];
    }
  }
}
