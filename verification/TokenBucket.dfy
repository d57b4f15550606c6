/**
 The API's per-client token bucket, over the reals: a bucket refills at `rps`
 up to `burst`, a call costs one token, and a sweep drops buckets idle for
 longer than `idle` seconds. Every call is one atomic step and the clock never
 goes back.
 */
module TokenBucket {
  datatype Config = Config(rps: real, burst: nat, idle: real)

  predicate Legal(cfg: Config) { cfg.rps >= 0.0 && cfg.idle >= 0.0 }

  datatype Key = Key(name: string)
  datatype Bucket = Bucket(tokens: real, last: real)
  type Buckets = map<Key, Bucket>

  /** Tokens earned in a span of time. */
  function Earned(cfg: Config, span: real): real { span * cfg.rps }

  function Refill(cfg: Config, b: Bucket, now: real): real {
    var tokens := b.tokens + Earned(cfg, now - b.last);
    if tokens > cfg.burst as real then cfg.burst as real else tokens
  }

  /** What a client could spend right now; a client without a bucket starts full. */
  function Level(cfg: Config, bs: Buckets, k: Key, now: real): real {
    if k in bs then Refill(cfg, bs[k], now) else cfg.burst as real
  }

  function Take(cfg: Config, bs: Buckets, k: Key, now: real): (Buckets, bool) {
    var level := Level(cfg, bs, k, now);
    if level >= 1.0 then (bs[k := Bucket(level - 1.0, now)], true) else (bs[k := Bucket(level, now)], false)
  }

  function EvictStale(cfg: Config, bs: Buckets, now: real): Buckets {
    map k | k in bs && bs[k].last >= now - cfg.idle :: bs[k]
  }

  // ----- runs -----

  datatype Op = Call(key: Key, at: real) | Sweep(at: real)

  predicate Timed(ops: seq<Op>) { forall i, j :: 0 <= i < j < |ops| ==> ops[i].at <= ops[j].at }

  function StepOp(cfg: Config, bs: Buckets, op: Op, sweeps: bool): Buckets {
    match op
    case Call(k, at) => Take(cfg, bs, k, at).0
    case Sweep(at) => if sweeps then EvictStale(cfg, bs, at) else bs
  }

  /** A run from no buckets; `sweeps` false is the same run with every sweep ignored. */
  function Exec(cfg: Config, ops: seq<Op>, sweeps: bool): Buckets {
    if ops == [] then map[]
    else StepOp(cfg, Exec(cfg, ops[..|ops| - 1], sweeps), ops[|ops| - 1], sweeps)
  }

  function Answers(cfg: Config, ops: seq<Op>, sweeps: bool): seq<bool> {
    if ops == [] then []
    else
      var init, op := ops[..|ops| - 1], ops[|ops| - 1];
      if op.Sweep? then Answers(cfg, init, sweeps)
      else Answers(cfg, init, sweeps) + [Take(cfg, Exec(cfg, init, sweeps), op.key, op.at).1]
  }

  /** Admissions of a client in [s, t]. */
  function Admissions(cfg: Config, ops: seq<Op>, k: Key, s: real, t: real): nat {
    if ops == [] then 0
    else
      var init, op := ops[..|ops| - 1], ops[|ops| - 1];
      Admissions(cfg, init, k, s, t) +
      (if op.Call? && op.key == k && s <= op.at <= t && Take(cfg, Exec(cfg, init, true), k, op.at).1 then 1 else 0)
  }

  lemma RunSnoc(cfg: Config, ops: seq<Op>, op: Op, sweeps: bool)
    ensures Exec(cfg, ops + [op], sweeps) == StepOp(cfg, Exec(cfg, ops, sweeps), op, sweeps)
    ensures Answers(cfg, ops + [op], sweeps) ==
      if op.Sweep? then Answers(cfg, ops, sweeps)
      else Answers(cfg, ops, sweeps) + [Take(cfg, Exec(cfg, ops, sweeps), op.key, op.at).1]
  {
    assert (ops + [op])[..|ops|] == ops;
  }

  lemma AdmissionsSnoc(cfg: Config, ops: seq<Op>, op: Op, k: Key, s: real, t: real)
    ensures Admissions(cfg, ops + [op], k, s, t) == Admissions(cfg, ops, k, s, t) +
      (if op.Call? && op.key == k && s <= op.at <= t && Take(cfg, Exec(cfg, ops, true), k, op.at).1 then 1 else 0)
  {
    assert (ops + [op])[..|ops|] == ops;
  }

  lemma TimedPrefix(ops: seq<Op>, op: Op)
    requires Timed(ops + [op])
    ensures Timed(ops) && forall i :: 0 <= i < |ops| ==> ops[i].at <= op.at
  {
    assert forall i :: 0 <= i < |ops| ==> (ops + [op])[i] == ops[i];
    assert (ops + [op])[|ops|] == op;
  }

  // ----- earning -----

  lemma EarnedAdds(cfg: Config, a: real, b: real)
    ensures Earned(cfg, a + b) == Earned(cfg, a) + Earned(cfg, b)
  {
  }

  lemma EarnedGrows(cfg: Config, a: real, b: real)
    requires Legal(cfg) && a <= b
    ensures Earned(cfg, a) <= Earned(cfg, b)
    ensures 0.0 <= a ==> 0.0 <= Earned(cfg, a)
  {
    assert (b - a) * cfg.rps >= 0.0;
    assert 0.0 <= a ==> a * cfg.rps >= 0.0;
  }

  /** Every bucket holds between nothing and a full burst, last touched in the past. */
  ghost predicate Sane(cfg: Config, bs: Buckets, now: real) {
    forall k :: k in bs ==> 0.0 <= bs[k].tokens <= cfg.burst as real && bs[k].last <= now
  }

  lemma LevelBetween(cfg: Config, bs: Buckets, k: Key, now: real)
    requires Legal(cfg) && Sane(cfg, bs, now)
    ensures 0.0 <= Level(cfg, bs, k, now) <= cfg.burst as real
  {
    if k in bs {
      EarnedGrows(cfg, 0.0, now - bs[k].last);
    }
  }

  lemma TakeSane(cfg: Config, bs: Buckets, k: Key, now: real, at: real)
    requires Legal(cfg) && Sane(cfg, bs, now) && now <= at
    ensures Sane(cfg, Take(cfg, bs, k, at).0, at)
  {
    LevelBetween(cfg, bs, k, at);
    hide Level;
  }

  /** Waiting earns at most rps per second. */
  lemma LevelGrows(cfg: Config, bs: Buckets, k: Key, a: real, b: real)
    requires Legal(cfg) && Sane(cfg, bs, a) && a <= b
    ensures Level(cfg, bs, k, b) <= Level(cfg, bs, k, a) + Earned(cfg, b - a)
  {
    EarnedGrows(cfg, 0.0, b - a);
    if k in bs {
      EarnedAdds(cfg, a - bs[k].last, b - a);
      assert a - bs[k].last + (b - a) == b - bs[k].last;
    }
    hide Earned;
  }

  // ----- the sweep is invisible -----

  /** The run with sweeps lacks a bucket only where the other's has refilled. */
  ghost predicate Alike(cfg: Config, swept: Buckets, kept: Buckets, now: real) {
    && (forall k :: k in swept ==> k in kept && kept[k] == swept[k])
    && (forall k :: k in kept && k !in swept ==> kept[k].tokens + Earned(cfg, now - kept[k].last) >= cfg.burst as real)
  }

  lemma AlikeLater(cfg: Config, swept: Buckets, kept: Buckets, now: real, later: real)
    requires Legal(cfg) && Alike(cfg, swept, kept, now) && now <= later
    ensures Alike(cfg, swept, kept, later)
    ensures forall k :: Level(cfg, swept, k, later) == Level(cfg, kept, k, later)
  {
    forall k | k in kept && k !in swept
      ensures kept[k].tokens + Earned(cfg, later - kept[k].last) >= cfg.burst as real
    {
      EarnedGrows(cfg, now - kept[k].last, later - kept[k].last);
    }
    hide Earned;
  }

  lemma SweepAlike(cfg: Config, swept: Buckets, kept: Buckets, at: real)
    requires Legal(cfg) && cfg.burst as real <= Earned(cfg, cfg.idle)
    requires Alike(cfg, swept, kept, at) && Sane(cfg, kept, at)
    ensures Alike(cfg, EvictStale(cfg, swept, at), kept, at)
  {
    forall k | k in swept && swept[k].last < at - cfg.idle
      ensures kept[k].tokens + Earned(cfg, at - kept[k].last) >= cfg.burst as real
    {
      EarnedGrows(cfg, cfg.idle, at - kept[k].last);
    }
    hide Earned;
  }

  lemma CallAlike(cfg: Config, swept: Buckets, kept: Buckets, k: Key, at: real)
    requires Legal(cfg) && Alike(cfg, swept, kept, at)
    ensures Take(cfg, swept, k, at).1 == Take(cfg, kept, k, at).1
    ensures Alike(cfg, Take(cfg, swept, k, at).0, Take(cfg, kept, k, at).0, at)
  {
    AlikeLater(cfg, swept, kept, at, at);
    hide Level, Earned;
  }

  lemma {:induction false} RunsAlike(cfg: Config, ops: seq<Op>)
    requires Legal(cfg) && cfg.burst as real <= Earned(cfg, cfg.idle) && Timed(ops)
    ensures Answers(cfg, ops, true) == Answers(cfg, ops, false)
    ensures ops != [] ==>
      && Alike(cfg, Exec(cfg, ops, true), Exec(cfg, ops, false), ops[|ops| - 1].at)
      && Sane(cfg, Exec(cfg, ops, true), ops[|ops| - 1].at) && Sane(cfg, Exec(cfg, ops, false), ops[|ops| - 1].at)
  {
    if ops != [] {
      hide Take, Level, Earned, Timed, EvictStale;
      var init, op := ops[..|ops| - 1], ops[|ops| - 1];
      assert ops == init + [op];
      TimedPrefix(init, op);
      RunsAlike(cfg, init);
      var swept, kept := Exec(cfg, init, true), Exec(cfg, init, false);
      if init != [] {
        AlikeLater(cfg, swept, kept, init[|init| - 1].at, op.at);
        SaneLater(cfg, swept, init[|init| - 1].at, op.at);
        SaneLater(cfg, kept, init[|init| - 1].at, op.at);
      } else {
        NoBuckets(cfg, op.at);
      }
      RunSnoc(cfg, init, op, true);
      RunSnoc(cfg, init, op, false);
      hide Exec, Answers, Alike, Sane;
      match op
      case Call(k, at) =>
        CallAlike(cfg, swept, kept, k, at);
        TakeSane(cfg, swept, k, at, at);
        TakeSane(cfg, kept, k, at, at);
      case Sweep(at) =>
        SweepAlike(cfg, swept, kept, at);
        SweepSane(cfg, swept, at);
    }
  }

  lemma NoBuckets(cfg: Config, at: real)
    ensures Alike(cfg, map[], map[], at) && Sane(cfg, map[], at)
  {
  }

  lemma SaneLater(cfg: Config, bs: Buckets, now: real, later: real)
    requires Sane(cfg, bs, now) && now <= later
    ensures Sane(cfg, bs, later)
  {
  }

  lemma SweepSane(cfg: Config, bs: Buckets, at: real)
    requires Sane(cfg, bs, at)
    ensures Sane(cfg, EvictStale(cfg, bs, at), at)
  {
  }

  // ----- the bound -----

  /** This sweep drops the client's bucket before it has refilled. */
  ghost predicate Refunds(cfg: Config, bs: Buckets, k: Key, op: Op) {
    op.Sweep? && k in bs && bs[k].last < op.at - cfg.idle && Level(cfg, bs, k, op.at) < cfg.burst as real
  }

  /** No sweep of the run hands the client tokens it has not earned. */
  ghost predicate Fair(cfg: Config, ops: seq<Op>, k: Key) {
    forall i :: 0 <= i < |ops| ==> !Refunds(cfg, Exec(cfg, ops[..i], true), k, ops[i])
  }

  predicate NoSweeps(ops: seq<Op>) { forall i :: 0 <= i < |ops| ==> ops[i].Call? }

  /** Runs without a sweep are fair, however slowly buckets refill. */
  lemma UnsweptFair(cfg: Config, ops: seq<Op>, k: Key)
    requires NoSweeps(ops)
    ensures Fair(cfg, ops, k)
  {
  }

  lemma FairSnoc(cfg: Config, ops: seq<Op>, op: Op, k: Key)
    requires Fair(cfg, ops + [op], k)
    ensures Fair(cfg, ops, k) && !Refunds(cfg, Exec(cfg, ops, true), k, op)
  {
    hide Refunds, Exec;
    var all := ops + [op];
    assert all[..|ops|] == ops && all[|ops|] == op;
    forall i | 0 <= i < |ops| ensures !Refunds(cfg, Exec(cfg, ops[..i], true), k, ops[i]) {
      assert all[..i] == ops[..i] && all[i] == ops[i];
    }
  }

  /** A bucket that refills within the idle time is full when swept. */
  lemma RefilledWhenSwept(cfg: Config, bs: Buckets, k: Key, op: Op)
    requires Legal(cfg) && cfg.burst as real <= Earned(cfg, cfg.idle) && Sane(cfg, bs, op.at)
    ensures !Refunds(cfg, bs, k, op)
  {
    if k in bs && bs[k].last < op.at - cfg.idle {
      EarnedGrows(cfg, cfg.idle, op.at - bs[k].last);
    }
    hide Earned;
  }

  /** Admissions since `s` plus what is left never exceed a burst and the tokens earned since `s`. */
  lemma {:induction false} Budget(cfg: Config, ops: seq<Op>, k: Key, s: real, t: real)
    requires Legal(cfg) && Timed(ops) && (cfg.burst as real <= Earned(cfg, cfg.idle) || Fair(cfg, ops, k))
    requires s <= t && forall i :: 0 <= i < |ops| ==> ops[i].at <= t
    ensures Admissions(cfg, ops, k, s, t) as real + Level(cfg, Exec(cfg, ops, true), k, t)
            <= cfg.burst as real + Earned(cfg, t - s)
    ensures Sane(cfg, Exec(cfg, ops, true), t)
  {
    EarnedGrows(cfg, 0.0, t - s);
    RunSane(cfg, ops, t);
    LevelBetween(cfg, Exec(cfg, ops, true), k, t);
    if ops != [] {
      var init, op := ops[..|ops| - 1], ops[|ops| - 1];
      assert ops == init + [op];
      TimedPrefix(init, op);
      hide Take, Level, Earned, Timed, EvictStale, Exec, Admissions, Sane, Fair, Refunds, StepOp;
      if op.at < s {
        BeforeStart(cfg, ops, k, s, t);
      } else {
        if cfg.burst as real > Earned(cfg, cfg.idle) {
          FairSnoc(cfg, init, op, k);
        }
        Budget(cfg, init, k, s, op.at);
        BudgetSnoc(cfg, init, op, k, s, t);
      }
    }
  }

  lemma BudgetSnoc(cfg: Config, init: seq<Op>, op: Op, k: Key, s: real, t: real)
    requires Legal(cfg) && s <= op.at <= t && (forall i :: 0 <= i < |init| ==> init[i].at <= op.at)
    requires Sane(cfg, Exec(cfg, init, true), op.at)
    requires cfg.burst as real <= Earned(cfg, cfg.idle) || !Refunds(cfg, Exec(cfg, init, true), k, op)
    requires Admissions(cfg, init, k, s, op.at) as real + Level(cfg, Exec(cfg, init, true), k, op.at)
             <= cfg.burst as real + Earned(cfg, op.at - s)
    ensures Admissions(cfg, init + [op], k, s, t) as real + Level(cfg, Exec(cfg, init + [op], true), k, t)
            <= cfg.burst as real + Earned(cfg, t - s)
  {
    hide Take, Level, Earned, EvictStale, Exec, Admissions, Sane, Refunds, StepOp;
    var bs := Exec(cfg, init, true);
    RunSnoc(cfg, init, op, true);
    AdmissionsSnoc(cfg, init, op, k, s, t);
    SameCount(cfg, init, k, s, op.at, t);
    if cfg.burst as real <= Earned(cfg, cfg.idle) {
      RefilledWhenSwept(cfg, bs, k, op);
    }
    BudgetStep(cfg, bs, op, k, t);
    EarnedAdds(cfg, op.at - s, t - op.at);
    assert op.at - s + (t - op.at) == t - s;
  }

  /** One step conserves the budget: a token spent is an admission, and time earns at most rps. */
  lemma BudgetStep(cfg: Config, bs: Buckets, op: Op, k: Key, t: real)
    requires Legal(cfg) && Sane(cfg, bs, op.at) && op.at <= t && !Refunds(cfg, bs, k, op)
    ensures Level(cfg, StepOp(cfg, bs, op, true), k, t)
            + (if op.Call? && op.key == k && Take(cfg, bs, k, op.at).1 then 1.0 else 0.0)
      <= Level(cfg, bs, k, op.at) + Earned(cfg, t - op.at)
  {
    hide Level, Take, EvictStale, Earned, Sane;
    EarnedGrows(cfg, 0.0, t - op.at);
    match op
    case Call(d, at) =>
      TakeSane(cfg, bs, d, at, at);
      LevelGrows(cfg, Take(cfg, bs, d, at).0, k, at, t);
      TakeLevel(cfg, bs, d, at, k);
    case Sweep(at) =>
      SweepLevel(cfg, bs, at, k);
      SweepSane(cfg, bs, at);
      LevelGrows(cfg, EvictStale(cfg, bs, at), k, at, t);
  }

  lemma TakeLevel(cfg: Config, bs: Buckets, d: Key, at: real, k: Key)
    requires Legal(cfg) && Sane(cfg, bs, at)
    ensures Level(cfg, Take(cfg, bs, d, at).0, k, at)
            == Level(cfg, bs, k, at) - (if d == k && Take(cfg, bs, k, at).1 then 1.0 else 0.0)
  {
    LevelBetween(cfg, bs, d, at);
    Touched(cfg, at);
    hide Earned;
  }

  /** A bucket touched now has earned nothing since. */
  lemma Touched(cfg: Config, at: real)
    ensures Earned(cfg, at - at) == 0.0
    ensures forall tokens ::
      Refill(cfg, Bucket(tokens, at), at) == if tokens > cfg.burst as real then cfg.burst as real else tokens
  {
    assert at - at == 0.0;
    assert Earned(cfg, 0.0) == 0.0;
  }

  /** A bucket swept away was full, so starting afresh gives the client nothing extra. */
  lemma SweepLevel(cfg: Config, bs: Buckets, at: real, k: Key)
    requires !Refunds(cfg, bs, k, Sweep(at))
    ensures Level(cfg, EvictStale(cfg, bs, at), k, at) == Level(cfg, bs, k, at)
  {
    hide Earned;
  }

  lemma {:induction false} RunSane(cfg: Config, ops: seq<Op>, t: real)
    requires Legal(cfg) && Timed(ops) && forall i :: 0 <= i < |ops| ==> ops[i].at <= t
    ensures Sane(cfg, Exec(cfg, ops, true), t)
  {
    if ops != [] {
      hide Take, Timed, EvictStale, Sane;
      var init, op := ops[..|ops| - 1], ops[|ops| - 1];
      assert ops == init + [op];
      TimedPrefix(init, op);
      RunSane(cfg, init, op.at);
      RunSnoc(cfg, init, op, true);
      match op
      case Call(k, at) => TakeSane(cfg, Exec(cfg, init, true), k, at, at);
      case Sweep(at) => SweepSane(cfg, Exec(cfg, init, true), at);
      SaneLater(cfg, Exec(cfg, ops, true), op.at, t);
    }
  }

  lemma {:induction false} BeforeStart(cfg: Config, ops: seq<Op>, k: Key, s: real, t: real)
    requires forall i :: 0 <= i < |ops| ==> ops[i].at < s
    ensures Admissions(cfg, ops, k, s, t) == 0
  {
    if ops != [] {
      hide Take, Exec;
      BeforeStart(cfg, ops[..|ops| - 1], k, s, t);
    }
  }

  lemma {:induction false} SameCount(cfg: Config, ops: seq<Op>, k: Key, s: real, t: real, later: real)
    requires t <= later && forall i :: 0 <= i < |ops| ==> ops[i].at <= t
    ensures Admissions(cfg, ops, k, s, t) == Admissions(cfg, ops, k, s, later)
  {
    if ops != [] {
      hide Take, Exec;
      SameCount(cfg, ops[..|ops| - 1], k, s, t, later);
    }
  }

  ghost predicate InBudget(cfg: Config, ops: seq<Op>, k: Key, s: real, t: real) {
    Admissions(cfg, ops, k, s, t) as real <= cfg.burst as real + Earned(cfg, t - s)
  }

  /** A client gets at most a burst plus rps per second in any interval of any run whose sweeps only drop full
      buckets: of every run at all when a bucket refills within the idle time, and of every run without sweeps. */
  lemma {:induction false} TokenBound(cfg: Config, ops: seq<Op>, k: Key, s: real, t: real)
    requires Legal(cfg) && Timed(ops) && s <= t && (cfg.burst as real <= Earned(cfg, cfg.idle) || Fair(cfg, ops, k))
    ensures InBudget(cfg, ops, k, s, t)
  {
    hide Level, Take, Timed, Earned, Fair;
    if ops == [] || ops[|ops| - 1].at <= t {
      assert forall i :: 0 <= i < |ops| ==> ops[i].at <= t by {
        if ops != [] {
          assert ops == ops[..|ops| - 1] + [ops[|ops| - 1]];
          TimedPrefix(ops[..|ops| - 1], ops[|ops| - 1]);
        }
      }
      Budget(cfg, ops, k, s, t);
      LevelBetween(cfg, Exec(cfg, ops, true), k, t);
    } else {
      assert ops == ops[..|ops| - 1] + [ops[|ops| - 1]];
      TimedPrefix(ops[..|ops| - 1], ops[|ops| - 1]);
      if cfg.burst as real > Earned(cfg, cfg.idle) {
        FairSnoc(cfg, ops[..|ops| - 1], ops[|ops| - 1], k);
      }
      TokenBound(cfg, ops[..|ops| - 1], k, s, t);
    }
  }

  /** Without sweeps the bound holds however slowly buckets refill. */
  lemma UnsweptBound(cfg: Config, ops: seq<Op>, k: Key, s: real, t: real)
    requires Legal(cfg) && Timed(ops) && s <= t && NoSweeps(ops)
    ensures InBudget(cfg, ops, k, s, t)
  {
    UnsweptFair(cfg, ops, k);
    TokenBound(cfg, ops, k, s, t);
  }

  // ----- the condition is exact -----

  function Calls(k: Key, at: real, n: nat): (ops: seq<Op>)
    ensures |ops| == n && forall i :: 0 <= i < n ==> ops[i] == Call(k, at)
  {
    if n == 0 then [] else Calls(k, at, n - 1) + [Call(k, at)]
  }

  /** A full burst at time zero, a sweep, a full burst again. */
  function TwoBursts(cfg: Config, k: Key, at: real, n: nat): seq<Op> {
    Calls(k, 0.0, cfg.burst) + [Sweep(at)] + Calls(k, at, n)
  }

  lemma CallSnoc(cfg: Config, ops: seq<Op>, k: Key, at: real, n: nat, sweeps: bool)
    requires n > 0
    ensures var before := ops + Calls(k, at, n - 1);
      && Exec(cfg, ops + Calls(k, at, n), sweeps) == Take(cfg, Exec(cfg, before, sweeps), k, at).0
      && Answers(cfg, ops + Calls(k, at, n), sweeps)
         == Answers(cfg, before, sweeps) + [Take(cfg, Exec(cfg, before, sweeps), k, at).1]
  {
    var before := ops + Calls(k, at, n - 1);
    assert ops + Calls(k, at, n) == before + [Call(k, at)];
    hide Take, Exec, Answers;
    RunSnoc(cfg, before, Call(k, at), sweeps);
  }

  /** At one instant n calls take n tokens from a level that has them. */
  lemma {:induction false} SpendAll(cfg: Config, k: Key, ops: seq<Op>, at: real, n: nat, sweeps: bool)
    requires n <= cfg.burst && Level(cfg, Exec(cfg, ops, sweeps), k, at) == cfg.burst as real
    ensures Level(cfg, Exec(cfg, ops + Calls(k, at, n), sweeps), k, at) == (cfg.burst - n) as real
    ensures n > 0 ==> k in Exec(cfg, ops + Calls(k, at, n), sweeps)
                      && Exec(cfg, ops + Calls(k, at, n), sweeps)[k] == Bucket((cfg.burst - n) as real, at)
    ensures n > 0 ==> Answers(cfg, ops + Calls(k, at, n), sweeps) != []
                      && Answers(cfg, ops + Calls(k, at, n), sweeps)[|Answers(cfg, ops + Calls(k, at, n), sweeps)| - 1]
  {
    if n == 0 {
      assert ops + Calls(k, at, 0) == ops;
    } else {
      hide Exec, Answers, Level, Take, Calls;
      SpendAll(cfg, k, ops, at, n - 1, sweeps);
      CallSnoc(cfg, ops, k, at, n, sweeps);
      SpendOne(cfg, Exec(cfg, ops + Calls(k, at, n - 1), sweeps), k, at);
    }
  }

  lemma SpendOne(cfg: Config, bs: Buckets, k: Key, at: real)
    ensures Take(cfg, bs, k, at).1 <==> Level(cfg, bs, k, at) >= 1.0
    ensures Level(cfg, bs, k, at) <= cfg.burst as real
    ensures Level(cfg, Take(cfg, bs, k, at).0, k, at)
            == Level(cfg, bs, k, at) - (if Take(cfg, bs, k, at).1 then 1.0 else 0.0)
    ensures k in Take(cfg, bs, k, at).0
            && Take(cfg, bs, k, at).0[k] == Bucket(Level(cfg, Take(cfg, bs, k, at).0, k, at), at)
  {
    Touched(cfg, at);
    hide Earned;
  }

  /** From a level short of a burst, one of a burst of calls is refused: by then the level is below one. */
  lemma {:induction false} SpendShort(cfg: Config, k: Key, ops: seq<Op>, at: real, n: nat, sweeps: bool)
    requires n < cfg.burst && Level(cfg, Exec(cfg, ops, sweeps), k, at) < cfg.burst as real
    ensures var level := Level(cfg, Exec(cfg, ops + Calls(k, at, n), sweeps), k, at);
      level < (cfg.burst - n) as real || level < 1.0
  {
    if n == 0 {
      assert ops + Calls(k, at, 0) == ops;
    } else {
      hide Exec, Answers, Level, Take, Calls;
      SpendShort(cfg, k, ops, at, n - 1, sweeps);
      CallSnoc(cfg, ops, k, at, n, sweeps);
      SpendOne(cfg, Exec(cfg, ops + Calls(k, at, n - 1), sweeps), k, at);
    }
  }

  /** After a full burst the sweep hands out a fresh bucket; without the sweep the client is still short. */
  lemma AfterBurst(cfg: Config, k: Key, at: real)
    requires Legal(cfg) && cfg.burst > 0 && at > cfg.idle && Earned(cfg, at) < cfg.burst as real
    ensures var ops := Calls(k, 0.0, cfg.burst) + [Sweep(at)];
      && Level(cfg, Exec(cfg, ops, true), k, at) == cfg.burst as real
      && Level(cfg, Exec(cfg, ops, false), k, at) < cfg.burst as real
  {
    var burst := Calls(k, 0.0, cfg.burst);
    assert [] + burst == burst;
    assert Exec(cfg, [], true) == map[] && Exec(cfg, [], false) == map[];
    hide Exec, Answers, Calls, Take, Earned;
    SpendAll(cfg, k, [], 0.0, cfg.burst, true);
    SpendAll(cfg, k, [], 0.0, cfg.burst, false);
    RunSnoc(cfg, burst, Sweep(at), true);
    RunSnoc(cfg, burst, Sweep(at), false);
    hide Level, EvictStale;
    SpentLevels(cfg, Exec(cfg, burst, true), k, at);
    SpentLevels(cfg, Exec(cfg, burst, false), k, at);
  }

  /** A bucket spent at time zero: swept it is full again, kept it is short. */
  lemma SpentLevels(cfg: Config, bs: Buckets, k: Key, at: real)
    requires k in bs && bs[k] == Bucket(0.0, 0.0) && at > cfg.idle && Earned(cfg, at) < cfg.burst as real
    ensures Level(cfg, EvictStale(cfg, bs, at), k, at) == cfg.burst as real
    ensures Level(cfg, bs, k, at) < cfg.burst as real
  {
    assert at - 0.0 == at;
    hide Earned;
    assert k !in EvictStale(cfg, bs, at);
  }

  /** When a bucket cannot refill within the idle time, a sweep changes an answer. */
  lemma SlowRefillShows(cfg: Config, k: Key, at: real)
    requires Legal(cfg) && at > cfg.idle && Earned(cfg, at) < cfg.burst as real && cfg.burst > 0
    ensures Answers(cfg, TwoBursts(cfg, k, at, cfg.burst), true)
            != Answers(cfg, TwoBursts(cfg, k, at, cfg.burst), false)
  {
    hide Exec, Answers, Level, Take, Earned;
    var ops := Calls(k, 0.0, cfg.burst) + [Sweep(at)];
    AfterBurst(cfg, k, at);
    SpendAll(cfg, k, ops, at, cfg.burst, true);
    SpendShort(cfg, k, ops, at, cfg.burst - 1, false);
    var before := ops + Calls(k, at, cfg.burst - 1);
    assert ops + Calls(k, at, cfg.burst) == before + [Call(k, at)];
    RunSnoc(cfg, before, Call(k, at), false);
    SpendOne(cfg, Exec(cfg, before, false), k, at);
  }

  ghost predicate Invisible(cfg: Config, ops: seq<Op>) { Answers(cfg, ops, true) == Answers(cfg, ops, false) }

  lemma TwoBurstsTimed(cfg: Config, k: Key, at: real, n: nat)
    requires at >= 0.0
    ensures Timed(TwoBursts(cfg, k, at, n))
  {
    var ops := TwoBursts(cfg, k, at, n);
    assert forall i :: 0 <= i < |ops| ==> ops[i].at == if i < cfg.burst then 0.0 else at;
  }

  /** Sweeping is invisible in every run exactly when a bucket refills within the idle time. */
  lemma SweepInvisibleIff(cfg: Config)
    requires Legal(cfg)
    ensures (forall ops :: Timed(ops) ==> Invisible(cfg, ops)) <==> cfg.burst as real <= cfg.idle * cfg.rps
  {
    hide Answers, Timed;
    if cfg.burst as real <= cfg.idle * cfg.rps {
      forall ops | Timed(ops) ensures Invisible(cfg, ops) { RunsAlike(cfg, ops); }
    } else {
      var at := JustPastIdle(cfg);
      assert cfg.burst > 0;
      SlowRefillShows(cfg, Key("ip:"), at);
      TwoBurstsTimed(cfg, Key("ip:"), at, cfg.burst);
    }
  }

  /** Some instant past the idle time at which a drained bucket is still short of a burst. */
  lemma JustPastIdle(cfg: Config) returns (at: real)
    requires Legal(cfg) && cfg.burst as real > cfg.idle * cfg.rps
    ensures at > cfg.idle && Earned(cfg, at) < cfg.burst as real && cfg.burst as real > 0.0
  {
    assert cfg.idle * cfg.rps >= 0.0;
    if cfg.rps == 0.0 {
      at := cfg.idle + 1.0;
      assert at * cfg.rps == 0.0;
    } else {
      var gap := cfg.burst as real - cfg.idle * cfg.rps;
      var extra := gap / (2.0 * cfg.rps);
      at := cfg.idle + extra;
      assert extra * cfg.rps == gap / 2.0;
      assert at * cfg.rps == cfg.idle * cfg.rps + extra * cfg.rps;
    }
  }

  /** All of a burst of calls on a full bucket is admitted. */
  lemma {:induction false} SpendCount(cfg: Config, k: Key, ops: seq<Op>, at: real, n: nat, s: real, t: real)
    requires n <= cfg.burst && Level(cfg, Exec(cfg, ops, true), k, at) == cfg.burst as real && s <= at <= t
    ensures Admissions(cfg, ops + Calls(k, at, n), k, s, t) == Admissions(cfg, ops, k, s, t) + n
  {
    if n == 0 {
      assert ops + Calls(k, at, 0) == ops;
    } else {
      var before := ops + Calls(k, at, n - 1);
      assert ops + Calls(k, at, n) == before + [Call(k, at)];
      hide Exec, Admissions, Level, Take, Calls;
      SpendCount(cfg, k, ops, at, n - 1, s, t);
      SpendAll(cfg, k, ops, at, n - 1, true);
      SpendOne(cfg, Exec(cfg, before, true), k, at);
      AdmissionsSnoc(cfg, before, Call(k, at), k, s, t);
    }
  }

  /** When a bucket cannot refill in time, a sweep lets a client have two bursts where it has earned less. */
  lemma SlowRefillOverspends(cfg: Config, k: Key, at: real)
    requires Legal(cfg) && at > cfg.idle && Earned(cfg, at) < cfg.burst as real && cfg.burst > 0
    ensures !InBudget(cfg, TwoBursts(cfg, k, at, cfg.burst), k, 0.0, at)
  {
    var burst := Calls(k, 0.0, cfg.burst);
    assert [] + burst == burst;
    assert Exec(cfg, [], true) == map[] && Admissions(cfg, [], k, 0.0, at) == 0;
    assert at - 0.0 == at;
    hide Exec, Admissions, Calls, Take, Earned, Level;
    SpendCount(cfg, k, [], 0.0, cfg.burst, 0.0, at);
    AdmissionsSnoc(cfg, burst, Sweep(at), k, 0.0, at);
    AfterBurst(cfg, k, at);
    SpendCount(cfg, k, burst + [Sweep(at)], at, cfg.burst, 0.0, at);
  }

  /** The bound holds in every interval of every run exactly when a bucket refills within the idle time. */
  lemma TokenBoundIff(cfg: Config)
    requires Legal(cfg)
    ensures (forall ops, k, s, t :: Timed(ops) && s <= t ==> InBudget(cfg, ops, k, s, t))
            <==> cfg.burst as real <= cfg.idle * cfg.rps
  {
    hide Timed, InBudget, Fair;
    if cfg.burst as real <= cfg.idle * cfg.rps {
      forall ops, k, s, t | Timed(ops) && s <= t ensures InBudget(cfg, ops, k, s, t) {
        TokenBound(cfg, ops, k, s, t);
      }
    } else {
      var at := JustPastIdle(cfg);
      assert cfg.burst > 0;
      SlowRefillOverspends(cfg, Key("ip:"), at);
      TwoBurstsTimed(cfg, Key("ip:"), at, cfg.burst);
    }
  }

  /** As shipped, with burst twice the rate and a ten-minute idle time, sweeping never shows. */
  lemma ShippedSweepInvisible(rps: nat, ops: seq<Op>)
    requires rps >= 1 && Timed(ops)
    ensures Invisible(Config(rps as real, 2 * rps, 600.0), ops)
  {
    RunsAlike(Config(rps as real, 2 * rps, 600.0), ops);
  }
}
