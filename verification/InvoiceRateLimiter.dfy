/**
 The limiter object behind POST /invoices: its client map changes with every
 call, and each bucket's log is compacted inside its own storage.
 */
module InvoiceLimiter {
  import opened SlidingWindow

  /** Live timestamps move down over dead ones in the same storage: exactly the live ones remain, in order. */
  method CompactInPlace(storage: array<int>, cutoff: int) returns (w: nat)
    modifies storage
    ensures w <= storage.Length
    ensures storage[..w] == Live(old(storage[..]), cutoff)
    ensures forall k :: w <= k < storage.Length ==> storage[k] == old(storage[k])
  {
    w := 0;
    ghost var log := storage[..];
    for r := 0 to storage.Length
      invariant w <= r
      invariant forall k :: w <= k < storage.Length ==> storage[k] == log[k]
      invariant storage[..w] == Live(log[..r], cutoff)
    {
      assert log[..r + 1][..r] == log[..r];
      var t := storage[r];
      if t > cutoff {
        ghost var head := storage[..w];
        storage[w] := t;
        w := w + 1;
        assert storage[..w] == head + [t];
      }
    }
    assert log[..storage.Length] == log;
  }

  /** The compacted log of a bucket. */
  method Compact(log: seq<int>, cutoff: int) returns (kept: seq<int>)
    ensures kept == Live(log, cutoff)
  {
    var storage := new int[|log|](i requires 0 <= i < |log| => log[i]);
    assert storage[..] == log;
    var w := CompactInPlace(storage, cutoff);
    kept := storage[..w];
  }

  class InvoiceRateLimiter {
    const cfg: Config
    var clients: Clients

    constructor (cfg: Config)
      ensures this.cfg == cfg && clients == map[]
    {
      this.cfg := cfg;
      clients := map[];
    }

    method Allow(c: Client, now: int) returns (ok: bool)
      modifies this
      ensures (clients, ok) == SlidingWindow.Allow(cfg, old(clients), c, now)
    {
      if c !in clients {
        clients := clients[c := Bucket([], now)];
      }
      var live := Compact(clients[c].attempts, now - cfg.window);
      clients := clients[c := Bucket(live, now)];
      assert clients == old(clients)[c := Bucket(live, now)];
      if |live| >= cfg.limit {
        return false;
      }
      clients := clients[c := Bucket(live + [now], now)];
      assert clients == old(clients)[c := Bucket(live + [now], now)];
      return true;
    }

    method RemainingAttempts(c: Client, now: int) returns (remaining: nat, resetAt: int)
      ensures (remaining, resetAt) == Remaining(cfg, clients, c, now)
    {
      if c !in clients {
        return cfg.limit, now + cfg.window;
      }
      var log, cutoff := clients[c].attempts, now - cfg.window;
      var count, earliest := 0, now;
      for i := 0 to |log|
        invariant count == |Live(log[..i], cutoff)|
        invariant earliest == Earliest(Live(log[..i], cutoff), now)
      {
        assert log[..i + 1][..i] == log[..i];
        var t, live := log[i], Live(log[..i], cutoff);
        if t > cutoff {
          assert (live + [t])[..|live|] == live;
          count := count + 1;
          if t < earliest {
            earliest := t;
          }
        }
      }
      assert log[..|log|] == log;
      return if count <= cfg.limit then cfg.limit - count else 0, earliest + cfg.window;
    }

    /** Visit every client in any order; drop those not seen since the cutoff. */
    method EvictStale(now: int)
      modifies this
      ensures clients == Evict(cfg, old(clients), now)
    {
      var cutoff := now - cfg.idle;
      var unseen := clients.Keys;
      while unseen != {}
        invariant unseen <= clients.Keys <= old(clients).Keys
        invariant forall c :: c in clients ==> clients[c] == old(clients)[c]
        invariant forall c :: c in old(clients) && (c in unseen || old(clients)[c].lastSeen >= cutoff) ==> c in clients
        invariant forall c :: c in clients && c !in unseen ==> clients[c].lastSeen >= cutoff
        decreases |unseen|
      {
        var c :| c in unseen;
        if clients[c].lastSeen < cutoff {
          clients := clients - {c};
        }
        unseen := unseen - {c};
      }
    }
  }
}
