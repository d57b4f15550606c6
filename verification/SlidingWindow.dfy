/**
 The invoice-creation rate limiter: a log of recent attempts per client, a
 sliding window over it, and a background sweep that forgets idle clients.
 Times are clock ticks; every call is one atomic step and the clock never
 goes back.
 */
module SlidingWindow {
  /** `idle` is two cleanup intervals: a client not seen for longer is forgotten. */
  datatype Config = Config(limit: nat, window: int, idle: int)

  predicate Legal(cfg: Config) { cfg.limit >= 1 && cfg.window >= 1 && cfg.idle >= 0 }

  datatype Client = Client(address: string)

  datatype Bucket = Bucket(attempts: seq<int>, lastSeen: int)
  type Clients = map<Client, Bucket>

  function Live(attempts: seq<int>, cutoff: int): seq<int> {
    if attempts == [] then []
    else
      var init, t := attempts[..|attempts| - 1], attempts[|attempts| - 1];
      if t > cutoff then Live(init, cutoff) + [t] else Live(init, cutoff)
  }

  function Attempts(clients: Clients, c: Client): seq<int> { if c in clients then clients[c].attempts else [] }

  function Allow(cfg: Config, clients: Clients, c: Client, now: int): (Clients, bool) {
    var live := Live(Attempts(clients, c), now - cfg.window);
    if |live| >= cfg.limit then (clients[c := Bucket(live, now)], false)
    else (clients[c := Bucket(live + [now], now)], true)
  }

  function Evict(cfg: Config, clients: Clients, now: int): Clients {
    map c | c in clients && clients[c].lastSeen >= now - cfg.idle :: clients[c]
  }

  function Earliest(times: seq<int>, now: int): int {
    if times == [] then now
    else var e := Earliest(times[..|times| - 1], now); var t := times[|times| - 1]; if t < e then t else e
  }

  /** How many attempts are left, and when the oldest live one ages out. */
  function Remaining(cfg: Config, clients: Clients, c: Client, now: int): (nat, int) {
    if c !in clients then (cfg.limit, now + cfg.window)
    else
      var live := Live(clients[c].attempts, now - cfg.window);
      (if |live| <= cfg.limit then cfg.limit - |live| else 0, Earliest(live, now) + cfg.window)
  }

  // ----- runs -----

  datatype Op = Call(client: Client, at: int) | Sweep(at: int)

  predicate Timed(ops: seq<Op>) { forall i, j :: 0 <= i < j < |ops| ==> ops[i].at <= ops[j].at }

  function StepOp(cfg: Config, clients: Clients, op: Op): Clients {
    match op
    case Call(c, at) => Allow(cfg, clients, c, at).0
    case Sweep(at) => Evict(cfg, clients, at)
  }

  function ExecFrom(cfg: Config, clients: Clients, ops: seq<Op>): Clients {
    if ops == [] then clients else StepOp(cfg, ExecFrom(cfg, clients, ops[..|ops| - 1]), ops[|ops| - 1])
  }

  function Exec(cfg: Config, ops: seq<Op>): Clients { ExecFrom(cfg, map[], ops) }

  /** The times at which a client's calls were admitted, in order. */
  function Admitted(cfg: Config, ops: seq<Op>, c: Client): seq<int> {
    if ops == [] then []
    else
      var init, op := ops[..|ops| - 1], ops[|ops| - 1];
      if op.Call? && op.client == c && Allow(cfg, Exec(cfg, init), c, op.at).1
      then Admitted(cfg, init, c) + [op.at] else Admitted(cfg, init, c)
  }

  /** The part of a time log in (lo, hi]. */
  function Within(times: seq<int>, lo: int, hi: int): seq<int> {
    if times == [] then []
    else
      var init, t := times[..|times| - 1], times[|times| - 1];
      if lo < t <= hi then Within(init, lo, hi) + [t] else Within(init, lo, hi)
  }

  // ----- logs -----

  lemma {:induction false} LiveAgain(s: seq<int>, a: int, b: int)
    requires a <= b
    ensures Live(Live(s, a), b) == Live(s, b)
  {
    if s != [] {
      var init, t := s[..|s| - 1], s[|s| - 1];
      LiveAgain(init, a, b);
      if t > a {
        LiveSnoc(Live(init, a), t, b);
      }
    }
  }

  lemma LiveSnoc(s: seq<int>, t: int, cutoff: int)
    ensures Live(s + [t], cutoff) == if t > cutoff then Live(s, cutoff) + [t] else Live(s, cutoff)
  {
    assert (s + [t])[..|s|] == s;
  }

  lemma {:induction false} LiveFacts(s: seq<int>, cutoff: int)
    ensures |Live(s, cutoff)| <= |s|
    ensures forall i :: 0 <= i < |Live(s, cutoff)| ==> Live(s, cutoff)[i] > cutoff && Live(s, cutoff)[i] in s
    ensures (forall i :: 0 <= i < |s| ==> s[i] > cutoff) ==> Live(s, cutoff) == s
    ensures (forall i :: 0 <= i < |s| ==> s[i] <= cutoff) ==> Live(s, cutoff) == []
    ensures (exists i :: 0 <= i < |s| && s[i] <= cutoff) ==> |Live(s, cutoff)| < |s|
  {
    if s != [] {
      var init, t := s[..|s| - 1], s[|s| - 1];
      LiveFacts(init, cutoff);
      assert s == init + [t];
      assert Live(s, cutoff) == if t > cutoff then Live(init, cutoff) + [t] else Live(init, cutoff);
      hide Live;
      assert forall i :: 0 <= i < |init| ==> init[i] == s[i];
    }
  }

  lemma {:induction false} WithinFits(s: seq<int>, lo: int, hi: int, cutoff: int)
    requires cutoff <= lo
    ensures |Within(s, lo, hi)| <= |Live(s, cutoff)|
  {
    if s != [] {
      WithinFits(s[..|s| - 1], lo, hi, cutoff);
    }
  }

  lemma {:induction false} WithinNone(s: seq<int>, lo: int, hi: int)
    requires forall i :: 0 <= i < |s| ==> s[i] <= lo
    ensures Within(s, lo, hi) == []
  {
    if s != [] {
      WithinNone(s[..|s| - 1], lo, hi);
    }
  }

  lemma {:induction false} EarliestIsLeast(times: seq<int>, now: int)
    ensures Earliest(times, now) <= now
    ensures forall i :: 0 <= i < |times| ==> Earliest(times, now) <= times[i]
    ensures Earliest(times, now) == now || Earliest(times, now) in times
  {
    if times != [] {
      EarliestIsLeast(times[..|times| - 1], now);
      assert times == times[..|times| - 1] + [times[|times| - 1]];
    }
  }

  // ----- the bound -----

  /** A client's bucket holds every admission that can still count at any time from `now` on. */
  ghost predicate Tracks(cfg: Config, clients: Clients, c: Client, admitted: seq<int>, now: int) {
    && Live(Attempts(clients, c), now - cfg.window) == Live(admitted, now - cfg.window)
    && (forall i :: 0 <= i < |admitted| ==> admitted[i] <= now)
    && (c in clients ==>
          && clients[c].lastSeen <= now && |clients[c].attempts| <= cfg.limit
          && forall i :: 0 <= i < |clients[c].attempts| ==> clients[c].attempts[i] <= clients[c].lastSeen)
  }

  lemma Later(cfg: Config, clients: Clients, c: Client, admitted: seq<int>, now: int, later: int)
    requires Tracks(cfg, clients, c, admitted, now) && now <= later
    ensures Tracks(cfg, clients, c, admitted, later)
  {
    LiveAgain(Attempts(clients, c), now - cfg.window, later - cfg.window);
    LiveAgain(admitted, now - cfg.window, later - cfg.window);
  }

  /** This sweep drops the client while an attempt of its is still in the window. */
  ghost predicate Forgets(cfg: Config, clients: Clients, c: Client, op: Op) {
    && op.Sweep? && c in clients && clients[c].lastSeen < op.at - cfg.idle
    && Live(clients[c].attempts, op.at - cfg.window) != []
  }

  /** No sweep of the run forgets the client in mid-window. */
  ghost predicate RemembersFrom(cfg: Config, clients: Clients, ops: seq<Op>, c: Client) {
    forall i :: 0 <= i < |ops| ==> !Forgets(cfg, ExecFrom(cfg, clients, ops[..i]), c, ops[i])
  }

  ghost predicate Remembers(cfg: Config, ops: seq<Op>, c: Client) { RemembersFrom(cfg, map[], ops, c) }

  lemma RemembersSnoc(cfg: Config, clients: Clients, ops: seq<Op>, op: Op, c: Client)
    requires RemembersFrom(cfg, clients, ops + [op], c)
    ensures RemembersFrom(cfg, clients, ops, c) && !Forgets(cfg, ExecFrom(cfg, clients, ops), c, op)
  {
    hide Forgets, ExecFrom;
    var all := ops + [op];
    assert all[..|ops|] == ops && all[|ops|] == op;
    forall i | 0 <= i < |ops| ensures !Forgets(cfg, ExecFrom(cfg, clients, ops[..i]), c, ops[i]) {
      assert all[..i] == ops[..i] && all[i] == ops[i];
    }
  }

  predicate NoSweeps(ops: seq<Op>) { forall i :: 0 <= i < |ops| ==> ops[i].Call? }

  /** Runs without a sweep forget nobody, whatever the window. */
  lemma UnsweptRemembers(cfg: Config, clients: Clients, ops: seq<Op>, c: Client)
    requires NoSweeps(ops)
    ensures RemembersFrom(cfg, clients, ops, c)
  {
  }

  /** Forgetting an idle client forgets nothing that still counts. */
  lemma EvictTracks(cfg: Config, clients: Clients, c: Client, admitted: seq<int>, now: int)
    requires Tracks(cfg, clients, c, admitted, now) && !Forgets(cfg, clients, c, Sweep(now))
    ensures Tracks(cfg, Evict(cfg, clients, now), c, admitted, now)
  {
    LiveNone(now - cfg.window);
    hide Live;
  }

  /** With a window that fits in the idle time a sweep drops only clients whose attempts have all aged out. */
  lemma FitsRemembers(cfg: Config, clients: Clients, c: Client, admitted: seq<int>, now: int)
    requires cfg.window <= cfg.idle + 1 && Tracks(cfg, clients, c, admitted, now)
    ensures !Forgets(cfg, clients, c, Sweep(now))
  {
    hide Live;
    LiveFacts(Attempts(clients, c), now - cfg.window);
  }

  /** A call's own log: what it keeps and what it appends stay in step with the admissions. */
  lemma CallLog(cfg: Config, log: seq<int>, admitted: seq<int>, now: int)
    requires cfg.window >= 1 && Live(log, now - cfg.window) == Live(admitted, now - cfg.window)
    ensures var cutoff := now - cfg.window;
      var live := Live(log, cutoff);
      && Live(live, cutoff) == live && |live| <= |log|
      && Live(live + [now], cutoff) == Live(admitted + [now], cutoff)
      && (forall i :: 0 <= i < |live| ==> live[i] in log)
  {
    hide Live;
    var cutoff := now - cfg.window;
    LiveFacts(log, cutoff);
    LiveAgain(log, cutoff, cutoff);
    LiveSnoc(Live(log, cutoff), now, cutoff);
    LiveSnoc(admitted, now, cutoff);
  }

  lemma CallTracks(cfg: Config, clients: Clients, c: Client, admitted: seq<int>, now: int)
    requires Legal(cfg) && Tracks(cfg, clients, c, admitted, now)
    ensures var (after, ok) := Allow(cfg, clients, c, now);
      && Tracks(cfg, after, c, if ok then admitted + [now] else admitted, now)
      && (ok <==> |Live(admitted, now - cfg.window)| < cfg.limit)
  {
    hide Live;
    var log := Attempts(clients, c);
    CallLog(cfg, log, admitted, now);
    var live := Live(log, now - cfg.window);
    assert forall i :: 0 <= i < |live| ==> live[i] <= now by {
      forall i | 0 <= i < |live| ensures live[i] <= now {
        assert live[i] in log;
      }
    }
  }

  lemma {:induction false} RunTracks(cfg: Config, ops: seq<Op>, c: Client)
    requires Legal(cfg) && Timed(ops) && (cfg.window <= cfg.idle + 1 || Remembers(cfg, ops, c))
    ensures ops != [] ==> Tracks(cfg, Exec(cfg, ops), c, Admitted(cfg, ops, c), ops[|ops| - 1].at)
  {
    if ops != [] {
      hide Live, Exec, Admitted, Timed, Evict, Forgets, RemembersFrom, Tracks;
      var init, op := ops[..|ops| - 1], ops[|ops| - 1];
      assert ops == init + [op];
      TimedPrefix(init, op);
      if cfg.window > cfg.idle + 1 {
        ExecFromExec(cfg, init);
        RemembersSnoc(cfg, map[], init, op, c);
      }
      RunTracks(cfg, init, c);
      EmptyTracks(cfg, c, op.at);
      var clients, admitted := Exec(cfg, init), Admitted(cfg, init, c);
      if init != [] {
        Later(cfg, clients, c, admitted, init[|init| - 1].at, op.at);
      }
      ExecSnoc(cfg, init, op, c);
      match op
      case Call(d, at) =>
        if d == c {
          CallTracks(cfg, clients, c, admitted, at);
        } else {
          OtherTracks(cfg, clients, c, d, admitted, at);
        }
      case Sweep(at) =>
        if cfg.window <= cfg.idle + 1 {
          FitsRemembers(cfg, clients, c, admitted, at);
        }
        EvictTracks(cfg, clients, c, admitted, at);
    }
  }

  lemma ExecFromExec(cfg: Config, ops: seq<Op>)
    ensures ExecFrom(cfg, map[], ops) == Exec(cfg, ops)
  {
  }

  lemma OtherTracks(cfg: Config, clients: Clients, c: Client, d: Client, admitted: seq<int>, now: int)
    requires Tracks(cfg, clients, c, admitted, now) && c != d
    ensures Tracks(cfg, Allow(cfg, clients, d, now).0, c, admitted, now)
  {
    hide Live;
  }

  lemma AdmitFits(cfg: Config, before: seq<int>, at: int, x: int)
    requires |Live(before, at - cfg.window)| < cfg.limit && |Within(before, x, x + cfg.window)| <= cfg.limit
    ensures |Within(before + [at], x, x + cfg.window)| <= cfg.limit
  {
    assert (before + [at])[..|before|] == before;
    if x < at <= x + cfg.window {
      WithinFits(before, x, x + cfg.window, at - cfg.window);
    }
  }

  /** No window (x, x + window] holds more than `limit` admissions of the client. */
  ghost predicate Bounded(cfg: Config, ops: seq<Op>, c: Client, x: int) {
    |Within(Admitted(cfg, ops, c), x, x + cfg.window)| <= cfg.limit
  }

  lemma BoundedEmpty(cfg: Config, c: Client, x: int)
    ensures Bounded(cfg, [], c, x)
  {
  }

  lemma BoundedSnoc(cfg: Config, ops: seq<Op>, op: Op, c: Client, x: int)
    requires Bounded(cfg, ops, c, x)
    requires op.Call? && op.client == c && Allow(cfg, Exec(cfg, ops), c, op.at).1 ==>
      |Live(Admitted(cfg, ops, c), op.at - cfg.window)| < cfg.limit
    ensures Bounded(cfg, ops + [op], c, x)
  {
    hide Live, Within, Exec, Admitted, Allow;
    ExecSnoc(cfg, ops, op, c);
    if op.Call? && op.client == c && Allow(cfg, Exec(cfg, ops), c, op.at).1 {
      AdmitFits(cfg, Admitted(cfg, ops, c), op.at, x);
    }
  }

  /** The limit holds in every window of every run whose sweeps forget no client in mid-window: of every run
      at all when the window fits in the idle time, and of every run without sweeps. */
  lemma {:induction false} WindowBound(cfg: Config, ops: seq<Op>, c: Client, x: int)
    requires Legal(cfg) && Timed(ops) && (cfg.window <= cfg.idle + 1 || Remembers(cfg, ops, c))
    ensures Bounded(cfg, ops, c, x)
  {
    hide Live, Exec, Admitted, Allow, Tracks, Timed, Bounded, RemembersFrom, Forgets;
    if ops == [] {
      BoundedEmpty(cfg, c, x);
    } else {
      var init, op := ops[..|ops| - 1], ops[|ops| - 1];
      assert ops == init + [op];
      TimedPrefix(init, op);
      if cfg.window > cfg.idle + 1 {
        RemembersSnoc(cfg, map[], init, op, c);
      }
      WindowBound(cfg, init, c, x);
      RunTracks(cfg, init, c);
      EmptyTracks(cfg, c, op.at);
      if init != [] {
        Later(cfg, Exec(cfg, init), c, Admitted(cfg, init, c), init[|init| - 1].at, op.at);
      }
      CallTracks(cfg, Exec(cfg, init), c, Admitted(cfg, init, c), op.at);
      BoundedSnoc(cfg, init, op, c, x);
    }
  }

  lemma EmptyTracks(cfg: Config, c: Client, now: int)
    ensures Tracks(cfg, Exec(cfg, []), c, Admitted(cfg, [], c), now)
  {
  }

  // ----- the bound is exact -----

  function Zeros(n: nat): (s: seq<int>)
    ensures |s| == n && forall i :: 0 <= i < n ==> s[i] == 0
  {
    if n == 0 then [] else Zeros(n - 1) + [0]
  }

  function Burst(c: Client, n: nat): (ops: seq<Op>)
    ensures |ops| == n && forall i :: 0 <= i < n ==> ops[i] == Call(c, 0)
  {
    if n == 0 then [] else Burst(c, n - 1) + [Call(c, 0)]
  }

  lemma AllowZero(cfg: Config, clients: Clients, c: Client, n: nat)
    requires Legal(cfg) && n < cfg.limit && Attempts(clients, c) == Zeros(n)
    ensures Allow(cfg, clients, c, 0) == (clients[c := Bucket(Zeros(n + 1), 0)], true)
  {
    hide Live;
    LiveFacts(Zeros(n), 0 - cfg.window);
  }

  lemma {:induction false} BurstAdmitted(cfg: Config, c: Client, n: nat)
    requires Legal(cfg) && n <= cfg.limit
    ensures Attempts(Exec(cfg, Burst(c, n)), c) == Zeros(n) == Admitted(cfg, Burst(c, n), c)
    ensures forall d :: d in Exec(cfg, Burst(c, n)) ==> Exec(cfg, Burst(c, n))[d].lastSeen == 0
  {
    if n > 0 {
      hide Exec, Admitted, Allow, Live;
      BurstAdmitted(cfg, c, n - 1);
      AllowZero(cfg, Exec(cfg, Burst(c, n - 1)), c, n - 1);
      ExecSnoc(cfg, Burst(c, n - 1), Call(c, 0), c);
    }
  }

  lemma WithinSnoc(s: seq<int>, t: int, lo: int, hi: int)
    ensures Within(s + [t], lo, hi) == if lo < t <= hi then Within(s, lo, hi) + [t] else Within(s, lo, hi)
  {
    assert (s + [t])[..|s|] == s;
  }

  lemma {:induction false} WithinZeros(n: nat, hi: int)
    requires 0 <= hi
    ensures Within(Zeros(n), -1, hi) == Zeros(n)
  {
    if n > 0 {
      hide Within;
      WithinZeros(n - 1, hi);
      WithinSnoc(Zeros(n - 1), 0, -1, hi);
    }
  }

  /** A full burst, a sweep past the idle time, one more call. */
  function EarlySweep(cfg: Config, c: Client): seq<Op> {
    Burst(c, cfg.limit) + [Sweep(cfg.idle + 1)] + [Call(c, cfg.idle + 1)]
  }

  lemma ExecSnoc(cfg: Config, ops: seq<Op>, op: Op, c: Client)
    ensures Exec(cfg, ops + [op]) == StepOp(cfg, Exec(cfg, ops), op)
    ensures Admitted(cfg, ops + [op], c) ==
      if op.Call? && op.client == c && Allow(cfg, Exec(cfg, ops), c, op.at).1
      then Admitted(cfg, ops, c) + [op.at] else Admitted(cfg, ops, c)
  {
    assert (ops + [op])[..|ops|] == ops;
  }

  lemma EarlySweepAdmits(cfg: Config, c: Client)
    requires Legal(cfg)
    ensures Admitted(cfg, EarlySweep(cfg, c), c) == Zeros(cfg.limit) + [cfg.idle + 1]
  {
    hide Exec, Admitted;
    var burst := Burst(c, cfg.limit);
    var at := cfg.idle + 1;
    BurstAdmitted(cfg, c, cfg.limit);
    ExecSnoc(cfg, burst, Sweep(at), c);
    assert Evict(cfg, Exec(cfg, burst), at) == map[];
    ExecSnoc(cfg, burst + [Sweep(at)], Call(c, at), c);
    assert Live([], at - cfg.window) == [];
  }

  /** With a longer window the sweep forgets live attempts, and a client gets past the limit. */
  lemma EarlySweepOverLimit(cfg: Config, c: Client)
    requires Legal(cfg) && cfg.window > cfg.idle + 1
    ensures Timed(EarlySweep(cfg, c))
        && |Within(Admitted(cfg, EarlySweep(cfg, c), c), -1, -1 + cfg.window)| == cfg.limit + 1
    ensures !Bounded(cfg, EarlySweep(cfg, c), c, -1)
  {
    hide Exec, Admitted, Within;
    EarlySweepAdmits(cfg, c);
    WithinZeros(cfg.limit, -1 + cfg.window);
    WithinSnoc(Zeros(cfg.limit), cfg.idle + 1, -1, -1 + cfg.window);
  }

  /** The limit holds in every window of every run exactly when the window fits in the idle time. */
  lemma WindowBoundIff(cfg: Config)
    requires Legal(cfg)
    ensures (forall ops, c, x :: Timed(ops) ==> Bounded(cfg, ops, c, x)) <==> cfg.window <= cfg.idle + 1
  {
    if cfg.window <= cfg.idle + 1 {
      forall ops, c, x | Timed(ops) ensures Bounded(cfg, ops, c, x) { WindowBound(cfg, ops, c, x); }
    } else {
      EarlySweepOverLimit(cfg, Client("G"));
    }
  }

  /** The shipped limiter keeps its 5 per hour in every run that is not swept. */
  lemma DefaultsUnswept(ops: seq<Op>, c: Client, x: int)
    requires Timed(ops) && NoSweeps(ops)
    ensures Bounded(Config(5, 3600, 1200), ops, c, x)
  {
    UnsweptRemembers(Config(5, 3600, 1200), map[], ops, c);
    WindowBound(Config(5, 3600, 1200), ops, c, x);
  }

  /** The shipped values, 5 per hour swept at twice ten minutes (in seconds), admit 6 within one hour. */
  lemma DefaultsOverLimit(c: Client)
    ensures var cfg := Config(5, 3600, 1200);
      Timed(EarlySweep(cfg, c)) && |Within(Admitted(cfg, EarlySweep(cfg, c), c), -1, 3599)| == 6
  {
    EarlySweepOverLimit(Config(5, 3600, 1200), c);
  }

  // ----- the reset time -----

  /** At any instant a call is admitted exactly when attempts remain. */
  lemma AdmitsIffRemaining(cfg: Config, clients: Clients, c: Client, now: int)
    requires Legal(cfg)
    ensures Allow(cfg, clients, c, now).1 <==> Remaining(cfg, clients, c, now).0 > 0
  {
    LiveFacts([], now - cfg.window);
  }

  /** The map after n calls of a client at one instant. */
  function AfterCalls(cfg: Config, clients: Clients, c: Client, now: int, n: nat): Clients {
    if n == 0 then clients else Allow(cfg, AfterCalls(cfg, clients, c, now, n - 1), c, now).0
  }

  /** All of n calls of a client at one instant are admitted. */
  predicate AllAdmitted(cfg: Config, clients: Clients, c: Client, now: int, n: nat) {
    n == 0 || (AllAdmitted(cfg, clients, c, now, n - 1)
               && Allow(cfg, AfterCalls(cfg, clients, c, now, n - 1), c, now).1)
  }

  /** How many attempts of the client count at this instant. */
  function Counting(cfg: Config, clients: Clients, c: Client, now: int): nat {
    |Live(Attempts(clients, c), now - cfg.window)|
  }

  /** One call is admitted while fewer than the limit count, and then one more does. */
  lemma CallGrows(cfg: Config, clients: Clients, c: Client, now: int)
    requires Legal(cfg)
    ensures Allow(cfg, clients, c, now).1 <==> Counting(cfg, clients, c, now) < cfg.limit
    ensures Allow(cfg, clients, c, now).1 ==>
      Counting(cfg, Allow(cfg, clients, c, now).0, c, now) == Counting(cfg, clients, c, now) + 1
  {
    hide Live;
    var log, cutoff := Attempts(clients, c), now - cfg.window;
    LiveAgain(log, cutoff, cutoff);
    LiveSnoc(Live(log, cutoff), now, cutoff);
  }

  lemma OneMoreCall(cfg: Config, clients: Clients, c: Client, now: int, n: nat)
    requires n > 0
    ensures var mid := AfterCalls(cfg, clients, c, now, n - 1);
      && AfterCalls(cfg, clients, c, now, n) == Allow(cfg, mid, c, now).0
      && (AllAdmitted(cfg, clients, c, now, n) <==>
            AllAdmitted(cfg, clients, c, now, n - 1) && Allow(cfg, mid, c, now).1)
  {
    hide Allow;
  }

  /** n calls at one instant are all admitted exactly when they fit, and then n more attempts count. */
  lemma {:induction false} BurstLog(cfg: Config, clients: Clients, c: Client, now: int, n: nat)
    requires Legal(cfg)
    ensures AllAdmitted(cfg, clients, c, now, n) <==> n == 0 || Counting(cfg, clients, c, now) + n <= cfg.limit
    ensures AllAdmitted(cfg, clients, c, now, n) ==>
      Counting(cfg, AfterCalls(cfg, clients, c, now, n), c, now) == Counting(cfg, clients, c, now) + n
  {
    hide Counting, Allow;
    if n > 0 {
      hide AfterCalls, AllAdmitted;
      BurstLog(cfg, clients, c, now, n - 1);
      OneMoreCall(cfg, clients, c, now, n);
      CallGrows(cfg, AfterCalls(cfg, clients, c, now, n - 1), c, now);
    }
  }

  /** `remaining` is the most calls that would all be admitted at this instant. */
  lemma RemainingIsMost(cfg: Config, clients: Clients, c: Client, now: int, n: nat)
    requires Legal(cfg)
    ensures AllAdmitted(cfg, clients, c, now, n) <==> n <= Remaining(cfg, clients, c, now).0
  {
    hide AllAdmitted, Remaining, Counting;
    BurstLog(cfg, clients, c, now, n);
    RemainingIs(cfg, clients, c, now);
  }

  lemma RemainingIs(cfg: Config, clients: Clients, c: Client, now: int)
    ensures var n := Counting(cfg, clients, c, now);
      Remaining(cfg, clients, c, now).0 == if n <= cfg.limit then cfg.limit - n else 0
  {
    LiveNone(now - cfg.window);
    hide Live, Earliest;
  }

  /** The reset time is the first at which one of the attempts that count now no longer does. */
  lemma ResetIsFirst(cfg: Config, clients: Clients, c: Client, now: int, t: int)
    requires Legal(cfg) && now <= t && c in clients && Live(clients[c].attempts, now - cfg.window) != []
    requires forall i :: 0 <= i < |clients[c].attempts| ==> clients[c].attempts[i] <= now
    ensures |Live(clients[c].attempts, t - cfg.window)| < |Live(clients[c].attempts, now - cfg.window)|
            <==> Remaining(cfg, clients, c, now).1 <= t
  {
    hide Live, Earliest;
    var log := clients[c].attempts;
    var live := Live(log, now - cfg.window);
    LiveFacts(log, now - cfg.window);
    LiveAgain(log, now - cfg.window, t - cfg.window);
    LiveFacts(live, t - cfg.window);
    EarliestIsLeast(live, now);
    assert live[0] in log;
  }

  predicate Quiet(ops: seq<Op>, c: Client) { forall i :: 0 <= i < |ops| ==> !(ops[i].Call? && ops[i].client == c) }

  /** Swept away at or before t with every attempt aged out. */
  ghost predicate AgedOut(cfg: Config, clients: Clients, c: Client, t: int) {
    c in clients && Live(clients[c].attempts, t - cfg.window) == []
  }

  /** While a client stays away its bucket is untouched, or swept when nothing in it counted any more. */
  lemma {:induction false} QuietKeeps(cfg: Config, clients: Clients, ops: seq<Op>, c: Client, t: int)
    requires c in clients && Quiet(ops, c) && forall i :: 0 <= i < |ops| ==> ops[i].at <= t
    requires RemembersFrom(cfg, clients, ops, c)
    ensures var after := ExecFrom(cfg, clients, ops);
      (c in after && after[c] == clients[c]) || (c !in after && AgedOut(cfg, clients, c, t))
  {
    if ops != [] {
      hide Live, RemembersFrom, AgedOut, StepOp, Forgets;
      var init, op := ops[..|ops| - 1], ops[|ops| - 1];
      assert ops == init + [op];
      RemembersSnoc(cfg, clients, init, op, c);
      QuietKeeps(cfg, clients, init, c, t);
      QuietStep(cfg, clients, ExecFrom(cfg, clients, init), op, c, t);
    }
  }

  lemma QuietStep(cfg: Config, clients: Clients, mid: Clients, op: Op, c: Client, t: int)
    requires c in clients && !(op.Call? && op.client == c) && op.at <= t && !Forgets(cfg, mid, c, op)
    requires (c in mid && mid[c] == clients[c]) || (c !in mid && AgedOut(cfg, clients, c, t))
    ensures var after := StepOp(cfg, mid, op);
      (c in after && after[c] == clients[c]) || (c !in after && AgedOut(cfg, clients, c, t))
  {
    hide Live;
    LiveAgain(clients[c].attempts, op.at - cfg.window, t - cfg.window);
    LiveNone(t - cfg.window);
  }

  /** When the window fits in the idle time, sweeps while a client stays away forget nothing. */
  lemma {:induction false} QuietRemembers(cfg: Config, clients: Clients, ops: seq<Op>, c: Client)
    requires cfg.window <= cfg.idle + 1 && c in clients && Quiet(ops, c)
    requires forall i :: 0 <= i < |clients[c].attempts| ==> clients[c].attempts[i] <= clients[c].lastSeen
    ensures RemembersFrom(cfg, clients, ops, c)
    ensures var after := ExecFrom(cfg, clients, ops); c in after ==> after[c] == clients[c]
  {
    if ops != [] {
      hide Live, Forgets, StepOp;
      var init, op := ops[..|ops| - 1], ops[|ops| - 1];
      assert ops == init + [op];
      QuietRemembers(cfg, clients, init, c);
      var mid := ExecFrom(cfg, clients, init);
      QuietForgets(cfg, clients, mid, op, c);
      forall i | 0 <= i < |ops| ensures !Forgets(cfg, ExecFrom(cfg, clients, ops[..i]), c, ops[i]) {
        assert i < |init| ==> init[..i] == ops[..i];
      }
    }
  }

  lemma QuietForgets(cfg: Config, clients: Clients, mid: Clients, op: Op, c: Client)
    requires cfg.window <= cfg.idle + 1 && c in clients && !(op.Call? && op.client == c)
    requires forall i :: 0 <= i < |clients[c].attempts| ==> clients[c].attempts[i] <= clients[c].lastSeen
    requires c in mid ==> mid[c] == clients[c]
    ensures !Forgets(cfg, mid, c, op)
    ensures c in StepOp(cfg, mid, op) ==> StepOp(cfg, mid, op)[c] == clients[c]
  {
    hide Live;
    LiveFacts(clients[c].attempts, op.at - cfg.window);
  }

  /** A rejection leaves exactly `limit` attempts on record, all of them live and none in the future. */
  lemma RejectionLog(cfg: Config, ops: seq<Op>, c: Client, r: int)
    requires Legal(cfg) && Timed(ops + [Call(c, r)]) && (cfg.window <= cfg.idle + 1 || Remembers(cfg, ops, c))
    requires !Allow(cfg, Exec(cfg, ops), c, r).1
    ensures var after := Allow(cfg, Exec(cfg, ops), c, r).0;
      && c in after && after[c].lastSeen == r && |after[c].attempts| == cfg.limit
      && Live(after[c].attempts, r - cfg.window) == after[c].attempts
      && (forall i :: 0 <= i < cfg.limit ==> r - cfg.window < after[c].attempts[i] <= r)
  {
    hide Live, Exec, Admitted, Timed, RemembersFrom;
    var log := Attempts(Exec(cfg, ops), c);
    TimedPrefix(ops, Call(c, r));
    RunTracks(cfg, ops, c);
    EmptyTracks(cfg, c, r);
    LiveFacts(log, r - cfg.window);
    LiveAgain(log, r - cfg.window, r - cfg.window);
    assert |log| <= cfg.limit;
  }

  /** After a rejection the reported reset time is tight: a lone retry is rejected before it and admitted from
      it on, whatever other clients do meanwhile, unless a sweep forgets the client in mid-window. */
  lemma ResetIsTight(cfg: Config, ops: seq<Op>, c: Client, r: int, others: seq<Op>, t: int)
    requires Legal(cfg) && Timed(ops + [Call(c, r)])
    requires !Allow(cfg, Exec(cfg, ops), c, r).1
    requires Quiet(others, c) && r <= t && forall i :: 0 <= i < |others| ==> others[i].at <= t
    requires cfg.window <= cfg.idle + 1
             || (Remembers(cfg, ops, c) && RemembersFrom(cfg, Allow(cfg, Exec(cfg, ops), c, r).0, others, c))
    ensures var after := Allow(cfg, Exec(cfg, ops), c, r).0;
      var resetAt := Remaining(cfg, after, c, r).1;
      Allow(cfg, ExecFrom(cfg, after, others), c, t).1 <==> resetAt <= t
  {
    hide Live, Exec, ExecFrom, Timed, Allow, Remaining, RemembersFrom;
    RejectionLog(cfg, ops, c, r);
    var after := Allow(cfg, Exec(cfg, ops), c, r).0;
    if cfg.window <= cfg.idle + 1 {
      QuietRemembers(cfg, after, others, c);
    }
    QuietKeeps(cfg, after, others, c, t);
    RetryFrom(cfg, after, ExecFrom(cfg, after, others), c, r, t);
  }

  /** A retry against the rejected client's own bucket, or after that bucket was swept. */
  lemma RetryFrom(cfg: Config, after: Clients, later: Clients, c: Client, r: int, t: int)
    requires Legal(cfg) && r <= t
    requires c in after && after[c].lastSeen == r && |after[c].attempts| == cfg.limit
    requires Live(after[c].attempts, r - cfg.window) == after[c].attempts
    requires forall i :: 0 <= i < cfg.limit ==> r - cfg.window < after[c].attempts[i] <= r
    requires (c in later && later[c] == after[c]) || (c !in later && AgedOut(cfg, after, c, t))
    ensures Allow(cfg, later, c, t).1 <==> Remaining(cfg, after, c, r).1 <= t
  {
    hide Live, Earliest, Allow;
    RetryIsTight(cfg, after[c].attempts, r, t);
    RetryAnswer(cfg, later, c, t);
    LiveNone(t - cfg.window);
  }

  lemma LiveNone(cutoff: int)
    ensures Live([], cutoff) == []
  {
  }

  lemma RetryAnswer(cfg: Config, clients: Clients, c: Client, t: int)
    ensures Allow(cfg, clients, c, t).1 <==> |Live(Attempts(clients, c), t - cfg.window)| < cfg.limit
  {
  }

  lemma RetryIsTight(cfg: Config, log: seq<int>, r: int, t: int)
    requires Legal(cfg) && |log| == cfg.limit && r <= t
    requires forall i :: 0 <= i < |log| ==> r - cfg.window < log[i] <= r
    ensures |Live(log, t - cfg.window)| < cfg.limit <==> Earliest(log, r) + cfg.window <= t
    ensures Earliest(log, r) <= r
  {
    hide Live, Earliest;
    EarliestIsLeast(log, r);
    LiveFacts(log, t - cfg.window);
    assert log[0] <= r;
  }

  lemma TimedPrefix(ops: seq<Op>, op: Op)
    requires Timed(ops + [op])
    ensures Timed(ops) && forall i :: 0 <= i < |ops| ==> ops[i].at <= op.at
  {
    assert forall i :: 0 <= i < |ops| ==> (ops + [op])[i] == ops[i];
    assert (ops + [op])[|ops|] == op;
  }
}
