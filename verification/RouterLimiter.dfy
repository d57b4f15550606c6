/**
 The router's limiter as the server keeps it: a map of buckets changed by every
 call, a background sweep, and a cap on the number of buckets. Both locks are
 held for a whole call here.
 */
module RouterLimiter {
  import opened TokenBucket

  /** A bucket that no other bucket is older than. */
  ghost predicate Oldest(bs: Buckets, victim: Key) {
    victim in bs && forall k :: k in bs ==> bs[victim].last <= bs[k].last
  }

  lemma InsertSize(bs: Buckets, k: Key, b: Bucket)
    ensures |bs[k := b]| == if k in bs then |bs| else |bs| + 1
  {
    if k in bs {
      assert bs[k := b].Keys == bs.Keys;
    } else {
      assert bs[k := b].Keys == bs.Keys + {k};
    }
  }

  lemma RemoveSize(bs: Buckets, k: Key)
    requires k in bs
    ensures |bs - {k}| == |bs| - 1
  {
    assert (bs - {k}).Keys == bs.Keys - {k};
  }

  /** Making room and then drawing is drawing and then making room; a new client that is its own victim is not kept. */
  lemma EvictThenDraw(bs: Buckets, key: Key, full: Bucket, after: Bucket, victim: Key)
    ensures var left := bs[key := full] - {victim};
      (if victim == key then left else left[key := after]) == bs[key := after] - {victim}
  {
  }

  class PerClientRateLimiter {
    const cfg: Config
    const maxSize: nat
    var buckets: Buckets

    /** Client keys carry a prefix, so none is empty; the map never outgrows its cap. */
    ghost predicate Valid() reads this {
      Key("") !in buckets && |buckets| <= maxSize
    }

    constructor (cfg: Config, maxSize: nat)
      ensures Valid() && buckets == map[] && this.cfg == cfg && this.maxSize == maxSize
    {
      this.cfg := cfg;
      this.maxSize := maxSize;
      buckets := map[];
    }

    /** Drops one bucket, and it is an oldest one. */
    method EvictOldest() returns (victim: Key)
      requires Key("") !in buckets && buckets != map[]
      modifies this
      ensures Oldest(old(buckets), victim)
      ensures buckets == old(buckets) - {victim}
    {
      victim := Key("");
      var oldestTime := 0.0;
      var todo := buckets.Keys;
      while todo != {}
        invariant todo <= buckets.Keys && buckets == old(buckets)
        invariant victim == Key("") ==> todo == buckets.Keys
        invariant victim != Key("") ==>
          victim in buckets && oldestTime == buckets[victim].last
          && forall k :: k in buckets && k !in todo ==> oldestTime <= buckets[k].last
        decreases todo
      {
        var key :| key in todo;
        var last := buckets[key].last;
        if victim == Key("") || last < oldestTime {
          victim, oldestTime := key, last;
        }
        todo := todo - {key};
      }
      assert victim != Key("") by {
        assert buckets.Keys != {};
      }
      buckets := buckets - {victim};
    }

    /** Refills a bucket and takes a token if there is one. */
    method Draw(bucket: Bucket, now: real) returns (after: Bucket, ok: bool)
      ensures ok <==> Refill(cfg, bucket, now) >= 1.0
      ensures after == Bucket(Refill(cfg, bucket, now) - (if ok then 1.0 else 0.0), now)
    {
      hide Earned;
      var tokens := bucket.tokens + Earned(cfg, now - bucket.last);
      if tokens > cfg.burst as real {
        tokens := cfg.burst as real;
      }
      ok := tokens >= 1.0;
      if ok {
        tokens := tokens - 1.0;
      }
      after := Bucket(tokens, now);
    }

    /**
     The answer is always the uncapped limiter's, and so is the new map unless a
     new client arrives at a full map: then an oldest bucket is missing from it.
     */
    method Allow(key: Key, now: real) returns (ok: bool)
      requires Valid() && key != Key("")
      modifies this
      ensures Valid()
      ensures ok == Take(cfg, old(buckets), key, now).1
      ensures key in old(buckets) || |old(buckets)| < maxSize ==> buckets == Take(cfg, old(buckets), key, now).0
      ensures key !in old(buckets) && |old(buckets)| == maxSize ==>
        exists victim ::
          && Oldest(old(buckets)[key := Bucket(cfg.burst as real, now)], victim)
          && buckets == Take(cfg, old(buckets), key, now).0 - {victim}
    {
      assert Refill(cfg, Bucket(cfg.burst as real, now), now) == cfg.burst as real by {
        Touched(cfg, now);
      }
      hide Refill, Oldest;
      var bucket;
      var detached := false;
      var victim := Key("");
      if key in buckets {
        bucket := buckets[key];
      } else {
        bucket := Bucket(cfg.burst as real, now);
        InsertSize(buckets, key, bucket);
        buckets := buckets[key := bucket];
        if |buckets| > maxSize {
          victim := EvictOldest();
          RemoveSize(old(buckets)[key := bucket], victim);
          detached := victim == key;
        }
      }
      var after;
      after, ok := Draw(bucket, now);
      assert Take(cfg, old(buckets), key, now) == (old(buckets)[key := after], ok);
      EvictThenDraw(old(buckets), key, bucket, after, victim);
      hide Take, Level;
      if !detached {
        InsertSize(buckets, key, after);
        buckets := buckets[key := after];
      }
    }

    /** The sweep keeps exactly the buckets used within the idle time. */
    method SweepStale(now: real)
      requires Valid()
      modifies this
      ensures Valid()
      ensures buckets == EvictStale(cfg, old(buckets), now)
    {
      var cutoff := now - cfg.idle;
      var todo := buckets.Keys;
      while todo != {}
        invariant todo <= old(buckets).Keys && todo <= buckets.Keys <= old(buckets).Keys
        invariant |buckets| <= maxSize
        invariant forall k :: k in old(buckets) ==>
          (k in buckets <==> k in todo || old(buckets)[k].last >= cutoff)
        invariant forall k :: k in buckets ==> buckets[k] == old(buckets)[k]
        decreases todo
      {
        var key :| key in todo;
        if buckets[key].last < cutoff {
          RemoveSize(buckets, key);
          buckets := buckets - {key};
        }
        todo := todo - {key};
      }
      assert buckets == EvictStale(cfg, old(buckets), now);
    }
  }
}
