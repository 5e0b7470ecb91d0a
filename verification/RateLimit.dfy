/** The limiter itself: its sweep and eviction loops, and AllowN. */
module RateLimit {
  import opened RateModel

  class Limiter {
    const cfg: Config
    var buckets: map<nat, Bucket>
    var lastSweep: real

    function Now(): State
      reads this
    {
      State(buckets, lastSweep)
    }

    /** Settings that are not positive get their defaults; the limiter starts with no bucket. */
    constructor (rate: real, burst: real, ttl: real, maxKeys: int, now: real)
      ensures ConfigOK(cfg) && Now() == State(map[], now)
      ensures rate > 0.0 ==> cfg.rate == rate
      ensures burst > 0.0 ==> cfg.burst == burst
      ensures ttl > 0.0 ==> cfg.ttl == ttl
      ensures maxKeys > 0 ==> cfg.maxKeys == maxKeys
      ensures rate <= 0.0 ==> cfg.rate == 1.0
      ensures burst <= 0.0 ==> cfg.burst == cfg.rate
      ensures ttl <= 0.0 ==> cfg.ttl == 600.0
      ensures maxKeys <= 0 ==> cfg.maxKeys == 100_000
    {
      var r := if rate <= 0.0 then 1.0 else rate;
      cfg := Config(r, if burst <= 0.0 then r else burst, if ttl <= 0.0 then 600.0 else ttl,
                    if maxKeys <= 0 then 100_000 else maxKeys);
      buckets, lastSweep := map[], now;
    }

    /** sweepLocked */
    method SweepLocked(now: real)
      modifies this
      ensures Now() == Sweep(cfg, old(Now()), now)
    {
      if now - lastSweep < cfg.ttl { return; }
      lastSweep := now;
      var left := buckets.Keys;
      while left != {}
        invariant left <= buckets.Keys <= old(buckets).Keys && lastSweep == now
        invariant forall k :: k in buckets ==> buckets[k] == old(buckets)[k]
        invariant forall k :: k in old(buckets) && k !in left ==> (k in buckets <==> !Expired(cfg, old(buckets)[k], now))
        invariant forall k :: k in left ==> k in buckets
        decreases |left|
      {
        var k :| k in left;
        left := left - {k};
        if now - buckets[k].lastSeen > cfg.ttl { buckets := buckets - {k}; }
      }
      assert buckets == Unexpired(cfg, old(buckets), now);
    }

    /** evictOldestLocked: the least recently seen bucket goes, if there is any. */
    method EvictOldestLocked() returns (oldest: nat)
      modifies `buckets
      ensures old(buckets) == map[] ==> buckets == map[]
      ensures old(buckets) != map[] ==> Oldest(old(buckets), oldest)
      ensures buckets == old(buckets) - {oldest}
    {
      oldest := 0;
      var left, first := buckets.Keys, true;
      while left != {}
        invariant left <= buckets.Keys && (first <==> left == buckets.Keys)
        invariant !first ==> oldest in buckets && forall k :: k in buckets && k !in left ==> buckets[oldest].lastSeen <= buckets[k].lastSeen
        decreases |left|
      {
        var k :| k in left;
        left := left - {k};
        if first || buckets[k].lastSeen < buckets[oldest].lastSeen {
          oldest, first := k, false;
        }
      }
      buckets := buckets - {oldest};
    }

    /** AllowN: what the model's Allow answers and leaves behind; the bucket that makes room, when
        one has to, is a least recently seen one. */
    method AllowN(key: nat, n: real, now: real) returns (ok: bool, ghost victim: nat)
      requires ConfigOK(cfg)
      modifies this
      ensures var r := Request(key, n, now, victim); Outcome(Now(), ok) == Allow(cfg, old(Now()), r)
      ensures n <= 0.0 ==> ok && Now() == old(Now())
      ensures var m := Sweep(cfg, old(Now()), now).buckets; n > 0.0 && Full(cfg, m, key) ==> Oldest(m, victim)
    {
      hide Gain;
      victim := 0;
      if n <= 0.0 { return true, 0; }
      SweepLocked(now);
      if key !in buckets {
        if |buckets| >= cfg.maxKeys {
          var k := EvictOldestLocked();
          victim := k;
        }
        buckets := buckets[key := Bucket(cfg.burst, now, now)];
      }
      var b := buckets[key];
      var elapsed := now - b.lastFill;
      if elapsed > 0.0 {
        b := b.(tokens := b.tokens + Gain(cfg, elapsed));
        if b.tokens > cfg.burst { b := b.(tokens := cfg.burst); }
        b := b.(lastFill := now);
      }
      b := b.(lastSeen := now);
      ok := b.tokens >= n;
      if ok { b := b.(tokens := b.tokens - n); }
      buckets := buckets[key := b];
    }
  }
}
