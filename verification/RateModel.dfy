/** The per-key token bucket limiter (internal/ratelimit/ratelimit.go), over reals: times are in
    seconds, and rounding is not part of the model. */
module RateModel {
  /** Tokens per second, the most a bucket holds, how long an idle bucket is remembered, and how
      many keys are tracked. */
  datatype Config = Config(rate: real, burst: real, ttl: real, maxKeys: nat)

  datatype Bucket = Bucket(tokens: real, lastFill: real, lastSeen: real)

  datatype State = State(buckets: map<nat, Bucket>, lastSweep: real)

  /** n events for a key at one reading of the clock; victim is the bucket that makes room if
      there is none. */
  datatype Request = Request(key: nat, n: real, at: real, victim: nat)

  datatype Served = Served(buckets: map<nat, Bucket>, ok: bool)

  datatype Outcome = Outcome(state: State, ok: bool)

  predicate ConfigOK(c: Config) { c.rate > 0.0 && c.burst > 0.0 && c.ttl > 0.0 && c.maxKeys > 0 }

  function Min(a: real, b: real): real { if a <= b then a else b }

  /*** The limiter ***/

  /** The tokens a stretch of time is worth. */
  function Gain(c: Config, elapsed: real): real { elapsed * c.rate }

  /** Tokens for the time since the last fill, up to the burst; none when the clock has not moved on. */
  function Refill(c: Config, b: Bucket, now: real): Bucket {
    if now - b.lastFill > 0.0 then Bucket(Min(c.burst, b.tokens + Gain(c, now - b.lastFill)), now, now)
    else b.(lastSeen := now)
  }

  function Take(b: Bucket, n: real): Bucket { if b.tokens >= n then b.(tokens := b.tokens - n) else b }

  predicate Expired(c: Config, b: Bucket, now: real) { now - b.lastSeen > c.ttl }

  function Unexpired(c: Config, m: map<nat, Bucket>, now: real): map<nat, Bucket> {
    map k | k in m && !Expired(c, m[k], now) :: m[k]
  }

  /** At most once per TTL, buckets idle for longer than it are dropped. */
  function Sweep(c: Config, s: State, now: real): State {
    if now - s.lastSweep < c.ttl then s else State(Unexpired(c, s.buckets, now), now)
  }

  predicate Full(c: Config, m: map<nat, Bucket>, key: nat) { key !in m && |m| >= c.maxKeys }

  ghost predicate Oldest(m: map<nat, Bucket>, k: nat) {
    k in m && forall j :: j in m ==> m[k].lastSeen <= m[j].lastSeen
  }

  /** The bucket of the key, new and full when there is none, is refilled and asked for n. */
  function Serve(c: Config, m: map<nat, Bucket>, r: Request): Served {
    var b := Refill(c, if r.key in m then m[r.key] else Bucket(c.burst, r.at, r.at), r.at);
    Served(m[r.key := Take(b, r.n)], b.tokens >= r.n)
  }

  function Allow(c: Config, s: State, r: Request): Outcome {
    if r.n <= 0.0 then Outcome(s, true)
    else
      var t := Sweep(c, s, r.at);
      var v := Serve(c, if Full(c, t.buckets, r.key) then t.buckets - {r.victim} else t.buckets, r);
      Outcome(State(v.buckets, t.lastSweep), v.ok)
  }

  function Answers(c: Config, s: State, rs: seq<Request>): seq<bool>
    decreases |rs|
  {
    if rs == [] then [] else var o := Allow(c, s, rs[0]); [o.ok] + Answers(c, o.state, rs[1..])
  }

  /*** The reference: a limiter that forgets nothing ***/

  function Remember(c: Config, m: map<nat, Bucket>, r: Request): Served {
    if r.n <= 0.0 then Served(m, true) else Serve(c, m, r)
  }

  function Remembered(c: Config, m: map<nat, Bucket>, rs: seq<Request>): seq<bool>
    decreases |rs|
  {
    if rs == [] then [] else var v := Remember(c, m, rs[0]); [v.ok] + Remembered(c, v.buckets, rs[1..])
  }

  /*** Runs ***/

  /** The clock never goes back. */
  predicate InOrder(t: real, rs: seq<Request>)
    decreases |rs|
  {
    rs == [] || (t <= rs[0].at && InOrder(rs[0].at, rs[1..]))
  }

  /** The key cap is never reached: every new key finds room. */
  predicate HasRoom(c: Config, s: State, rs: seq<Request>)
    decreases |rs|
  {
    rs == [] || ((rs[0].n <= 0.0 || !Full(c, Sweep(c, s, rs[0].at).buckets, rs[0].key))
                 && HasRoom(c, Allow(c, s, rs[0]).state, rs[1..]))
  }

  function Keys(rs: seq<Request>): set<nat> { set i | 0 <= i < |rs| :: rs[i].key }

  /** The tokens granted to a key between two instants, both included. */
  function Granted(rs: seq<Request>, ok: seq<bool>, key: nat, a: real, b: real): real
    requires |rs| == |ok|
  {
    if rs == [] then 0.0
    else (if ok[0] && rs[0].key == key && a <= rs[0].at <= b && rs[0].n > 0.0 then rs[0].n else 0.0)
         + Granted(rs[1..], ok[1..], key, a, b)
  }

  lemma {:induction false} AnswersLength(c: Config, s: State, m: map<nat, Bucket>, rs: seq<Request>)
    ensures |Answers(c, s, rs)| == |Remembered(c, m, rs)| == |rs|
    decreases |rs|
  {
    if rs != [] { AnswersLength(c, Allow(c, s, rs[0]).state, Remember(c, m, rs[0]).buckets, rs[1..]); }
  }

  /*** Levels ***/

  /** What a bucket could be granted at an instant. */
  function LevelOf(c: Config, b: Bucket, t: real): real { Min(c.burst, b.tokens + Gain(c, t - b.lastFill)) }

  /** What a key could be granted at an instant. */
  function Level(c: Config, m: map<nat, Bucket>, key: nat, t: real): real {
    if key in m then LevelOf(c, m[key], t) else c.burst
  }

  ghost predicate BucketOK(c: Config, b: Bucket, t: real) {
    0.0 <= b.tokens <= c.burst && b.lastFill == b.lastSeen <= t
  }

  ghost predicate Fresh(c: Config, m: map<nat, Bucket>, t: real) {
    forall k :: k in m ==> BucketOK(c, m[k], t)
  }

  lemma Gains(c: Config, x: real, y: real)
    ensures Gain(c, 0.0) == 0.0 && Gain(c, x + y) == Gain(c, x) + Gain(c, y)
    ensures c.rate >= 0.0 && x >= 0.0 ==> Gain(c, x) >= 0.0
    ensures c.rate > 0.0 && x < y ==> Gain(c, x) < Gain(c, y)
  {}

  lemma BucketLater(c: Config, b: Bucket, t: real, u: real)
    requires ConfigOK(c) && BucketOK(c, b, t) && t <= u
    ensures 0.0 <= LevelOf(c, b, t) <= LevelOf(c, b, u) <= c.burst
    ensures LevelOf(c, b, u) == Min(c.burst, LevelOf(c, b, t) + Gain(c, u - t))
  {
    hide Gain;
    var f := b.lastFill;
    Gains(c, t - f, u - t);
    Gains(c, u - t, 0.0);
    assert (t - f) + (u - t) == u - f;
  }

  /** A level at a later instant follows from the level now. */
  lemma LevelLater(c: Config, m: map<nat, Bucket>, key: nat, t: real, u: real)
    requires ConfigOK(c) && Fresh(c, m, t) && t <= u
    ensures 0.0 <= Level(c, m, key, t) <= Level(c, m, key, u) <= c.burst
    ensures Level(c, m, key, u) == Min(c.burst, Level(c, m, key, t) + Gain(c, u - t))
  {
    hide Gain, LevelOf, BucketOK;
    Gains(c, u - t, 0.0);
    if key in m { BucketLater(c, m[key], t, u); }
  }

  lemma RefillIs(c: Config, b: Bucket, t: real, now: real)
    requires ConfigOK(c) && BucketOK(c, b, t) && t <= now
    ensures Refill(c, b, now) == Bucket(LevelOf(c, b, now), now, now)
  {
    hide Gain;
    Gains(c, 0.0, 0.0);
  }

  lemma LevelNow(c: Config, x: real, now: real)
    requires x <= c.burst
    ensures LevelOf(c, Bucket(x, now, now), now) == x
  {
    Gains(c, 0.0, 0.0);
  }

  /** Serving grants exactly when the level suffices, takes what it grants from it, and leaves
      every other key alone. */
  lemma ServeLevel(c: Config, m: map<nat, Bucket>, r: Request, t: real, k: nat)
    requires ConfigOK(c) && Fresh(c, m, t) && t <= r.at && r.n > 0.0
    ensures var v := Serve(c, m, r); var l := Level(c, m, r.key, r.at);
            && Fresh(c, v.buckets, r.at) && v.ok == (l >= r.n)
            && Level(c, v.buckets, r.key, r.at) == (if v.ok then l - r.n else l)
            && (k != r.key ==> Level(c, v.buckets, k, r.at) == Level(c, m, k, r.at))
  {
    hide Gain, LevelOf, Refill;
    var b := if r.key in m then m[r.key] else Bucket(c.burst, r.at, r.at);
    var l := Level(c, m, r.key, r.at);
    LevelLater(c, m, r.key, t, r.at);
    LevelNow(c, c.burst, r.at);
    RefillIs(c, b, r.at, r.at);
    LevelNow(c, if l >= r.n then l - r.n else l, r.at);
    FreshLater(c, m, t, r.at);
  }

  lemma FreshLater(c: Config, m: map<nat, Bucket>, t: real, u: real)
    requires Fresh(c, m, t) && t <= u
    ensures Fresh(c, m, u)
  {}

  lemma ExpiredIsFull(c: Config, b: Bucket, t: real, now: real)
    requires ConfigOK(c) && c.rate * c.ttl >= c.burst && BucketOK(c, b, t) && Expired(c, b, now)
    ensures LevelOf(c, b, now) == c.burst
  {
    Gains(c, c.ttl, now - b.lastFill);
    assert Gain(c, c.ttl) >= c.burst;
    hide Gain;
  }

  /** A bucket that is swept was full. */
  lemma SweepLevel(c: Config, s: State, now: real, t: real, k: nat)
    requires ConfigOK(c) && c.rate * c.ttl >= c.burst && Fresh(c, s.buckets, t) && t <= now
    ensures Fresh(c, Sweep(c, s, now).buckets, t)
    ensures Level(c, Sweep(c, s, now).buckets, k, now) == Level(c, s.buckets, k, now)
  {
    hide Gain, LevelOf, BucketOK;
    if k in s.buckets && Expired(c, s.buckets[k], now) { ExpiredIsFull(c, s.buckets[k], t, now); }
  }
}
