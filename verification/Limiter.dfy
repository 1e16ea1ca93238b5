/** Per-tenant token buckets. Times are in seconds; arithmetic is over the reals. */
module Limiter {
  /** One bucket: the tokens left when it was last used. */
  datatype Level = Level(tokens: real, last: real)

  type Levels = map<string, Level>

  /** Whole tokens per second, and the most a bucket holds. */
  datatype Config = Config(qps: int, burst: int)

  predicate Proper(c: Config) {
    c.qps > 0 && c.burst > 0
  }

  function Rate(c: Config): real {
    c.qps as real
  }

  function Burst(c: Config): real {
    c.burst as real
  }

  function Configured(qps: int, burst: int): (c: Config)
    ensures Proper(c)
  {
    var q := if qps <= 0 then 1000 else qps;
    Config(q, if burst <= 0 then q else burst)
  }

  // ---------------------------------------------------------------- what the operations mean

  function Min(a: real, b: real): real {
    if a < b then a else b
  }

  function Refilled(c: Config, b: Level, now: real): real {
    Min(Burst(c), b.tokens + (now - b.last) * Rate(c))
  }

  /** The tokens a tenant could draw on now; one without a bucket has a full one. */
  function Available(c: Config, s: Levels, tenant: string, now: real): real {
    if tenant in s then Refilled(c, s[tenant], now) else Burst(c)
  }

  function Allowed(c: Config, s: Levels, tenant: string, now: real): (bool, Levels) {
    if tenant == "" then (true, s)
    else
      var have := Available(c, s, tenant, now);
      if have < 1.0 then (false, s[tenant := Level(have, now)]) else (true, s[tenant := Level(have - 1.0, now)])
  }

  function Pruned(s: Levels, idle: real, now: real): Levels {
    map t | t in s && s[t].last >= now - idle :: s[t]
  }

  // ---------------------------------------------------------------- the limiter

  class Bucket {
    var tokens: real
    var last: real
    ghost const owner: string

    constructor (tokens: real, last: real, ghost owner: string)
      ensures this.tokens == tokens && this.last == last && this.owner == owner
    {
      this.tokens, this.last, this.owner := tokens, last, owner;
    }

    /** Draws one token, if there is one. */
    method Draw(c: Config, now: real) returns (ok: bool)
      modifies this
      ensures ok <==> Refilled(c, Level(old(tokens), old(last)), now) >= 1.0
      ensures last == now
      ensures tokens == Refilled(c, Level(old(tokens), old(last)), now) - if ok then 1.0 else 0.0
    {
      var elapsed := now - last;
      tokens := tokens + elapsed * Rate(c);
      if tokens > Burst(c) {
        tokens := Burst(c);
      }
      last := now;
      if tokens < 1.0 {
        return false;
      }
      tokens := tokens - 1.0;
      return true;
    }
  }

  class TokenLimiter {
    var buckets: map<string, Bucket>
    const config: Config
    ghost var levels: Levels

    ghost function Owned(): set<Bucket>
      reads this
    {
      set t | t in buckets :: buckets[t]
    }

    /** levels shows the buckets, which belong to one tenant each. */
    ghost predicate Valid()
      reads this, Owned()
    {
      && Proper(config)
      && buckets.Keys == levels.Keys
      && forall t :: t in buckets ==> Level(buckets[t].tokens, buckets[t].last) == levels[t] && buckets[t].owner == t
    }

    constructor (qps: int, burst: int)
      ensures Valid() && levels == map[] && config == Configured(qps, burst)
      ensures config.qps == if qps <= 0 then 1000 else qps
      ensures config.burst == if 0 < burst then burst else if 0 < qps then qps else 1000
    {
      config := Configured(qps, burst);
      buckets, levels := map[], map[];
    }

    method Allow(tenant: string, now: real) returns (ok: bool)
      requires Valid()
      modifies this, Owned()
      ensures Valid() && fresh(Owned() - old(Owned()))
      ensures (ok, levels) == Allowed(config, old(levels), tenant, now)
      ensures tenant == "" ==> ok && levels == old(levels)
    {
      if tenant == "" {
        return true;
      }
      if tenant !in buckets {
        var b := new Bucket(Burst(config) - 1.0, now, tenant);
        buckets := buckets[tenant := b];
        levels := levels[tenant := Level(Burst(config) - 1.0, now)];
        return true;
      }
      var b := buckets[tenant];
      ok := b.Draw(config, now);
      levels := levels[tenant := Level(b.tokens, b.last)];
    }

    method Prune(idle: real, now: real)
      requires Valid()
      modifies this
      ensures Valid() && Owned() <= old(Owned())
      ensures levels == Pruned(old(levels), idle, now)
    {
      var cutoff := now - idle;
      ghost var was := levels;
      var todo := buckets.Keys;
      while todo != {}
        invariant Valid() && Owned() <= old(Owned())
        invariant todo <= buckets.Keys
        invariant levels == map t | t in was && (t in todo || was[t].last >= cutoff) :: was[t]
      {
        var t :| t in todo;
        if buckets[t].last < cutoff {
          buckets, levels := buckets - {t}, levels - {t};
        }
        todo := todo - {t};
      }
    }
  }
}
