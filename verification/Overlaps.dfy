/**
 The lease bound of the delivery queue is exact: for every shorter lease there is a
 run in which two workers attempt one row at the same time.
 */
module Overlaps {
  import opened Options
  import opened DeliveryQueue

  lemma {:induction false} RunsOne(p: Params, s: State, actions: seq<Action>, s': State, a: Action)
    requires Runs(p, s, actions, s') && Enabled(p, s', a)
    ensures Runs(p, s, actions + [a], Next(p, s', a))
    decreases |actions|
  {
    var all := actions + [a];
    if actions == [] {
      assert all[1..] == [];
    } else {
      assert all[0] == actions[0] && all[1..] == actions[1..] + [a];
      RunsOne(p, Next(p, s, actions[0]), actions[1..], s', a);
    }
  }

  lemma Reach(p: Params, s: State, a: Action)
    requires Reachable(p, s) && Enabled(p, s, a)
    ensures Reachable(p, Next(p, s, a))
  {
    var actions :| Runs(p, INIT, actions, s);
    RunsOne(p, INIT, actions, s, a);
  }

  function Below(n: nat): (r: set<int>)
    ensures |r| == n
    ensures forall i :: i in r <==> 0 <= i < n
  {
    if n == 0 then {} else Below(n - 1) + {n - 1}
  }

  /** Rows 0..n waiting since time zero, none claimed. */
  function Waiting(n: nat): State {
    State(0, map id: nat | id in Below(n) :: Row(Pending, 0, 1, 0, None), map id: nat | id in Below(n) :: [], {}, map[])
  }

  function Identity(n: nat): seq<nat> { seq(n, i requires 0 <= i < n => i) }

  function WorkRows(p: Params, n: nat, f: nat): map<nat, Row> {
    map id: nat | id in Below(n) ::
      if id < f then Row(Delivered, 1, 1, 0, None) else Row(Pending, 0, 1, 0, Some(p.lease))
  }

  function WorkHistory(n: nat, f: nat): map<nat, seq<Mark>> {
    map id: nat | id in Below(n) :: if id < f then [Success] else []
  }

  lemma WorkDelivers(p: Params, n: nat, f: nat)
    requires f < n
    ensures f in WorkRows(p, n, f)
        && WorkRows(p, n, f)[f := AfterSuccess(WorkRows(p, n, f)[f])] == WorkRows(p, n, f + 1)
    ensures f in WorkHistory(n, f) && WorkHistory(n, f)[f := WorkHistory(n, f)[f] + [Success]] == WorkHistory(n, f + 1)
  {
    hide Below;
    assert [] + [Success] == [Success];
  }

  function WorkBatch(n: nat, started: seq<int>, f: nat): Batch {
    Batch(0, Identity(n), seq(n, i => 0), started, Below(f), n)
  }

  lemma WorkFinishes(n: nat, started: seq<int>, f: nat)
    requires f < n
    ensures var b := WorkBatch(n, started, f);
      |b.items| == n && b.items[f] == f && b.(finished := b.finished + {f as int}) == WorkBatch(n, started, f + 1)
  {
    assert Below(f) + {f as int} == Below(f + 1);
  }

  /** One worker with the whole batch, the first `f` items delivered, the launched ones in `started`. */
  function Working(p: Params, n: nat, now: int, started: seq<int>, f: nat): State {
    State(now,
          WorkRows(p, n, f),
          WorkHistory(n, f),
          {},
          map[0 := WorkBatch(n, started, f)])
  }

  lemma InsertWaiting(p: Params, n: nat)
    requires n > 0
    ensures Enabled(p, Waiting(n - 1), Insert(n - 1, 1))
    ensures Next(p, Waiting(n - 1), Insert(n - 1, 1)) == Waiting(n)
  {
    hide Below;
    var s, t := Next(p, Waiting(n - 1), Insert(n - 1, 1)), Waiting(n);
    assert s.rows == t.rows;
    assert s.history == t.history;
  }

  lemma {:induction false} ReachWaiting(p: Params, n: nat)
    ensures Reachable(p, Waiting(n))
  {
    if n == 0 {
      assert Runs(p, INIT, [], Waiting(0));
    } else {
      ReachWaiting(p, n - 1);
      InsertWaiting(p, n);
      hide Reachable, Enabled, Waiting, Next;
      Reach(p, Waiting(n - 1), Insert(n - 1, 1));
    }
  }

  lemma ClaimAll(p: Params, n: nat)
    requires Legal(p) && 1 <= n <= p.batch
    ensures Enabled(p, Waiting(n), Claim(0, Identity(n)))
  {
    hide Below;
    forall id: nat | Ready(Waiting(n), id) ensures id in Identity(n) {
      assert Identity(n)[id] == id;
    }
  }

  lemma ClaimAllNext(p: Params, n: nat)
    requires Enabled(p, Waiting(n), Claim(0, Identity(n)))
    ensures Next(p, Waiting(n), Claim(0, Identity(n))) == Working(p, n, 0, [], 0)
  {
    hide Enabled, Below, Claimable;
    var s, t := Next(p, Waiting(n), Claim(0, Identity(n))), Working(p, n, 0, [], 0);
    assert s.rows == t.rows by {
      forall id: nat | id in Below(n) ensures id in Identity(n) { assert Identity(n)[id] == id; }
    }
    assert Below(0) == {};
    assert s.history == t.history;
    assert s.workers[0].seen == t.workers[0].seen;
    assert s.workers == t.workers;
  }

  lemma ReachClaimed(p: Params, n: nat)
    requires Legal(p) && 1 <= n <= p.batch
    ensures Reachable(p, Working(p, n, 0, [], 0))
  {
    hide Reachable, Enabled, Waiting, Working, Next, Identity;
    ReachWaiting(p, n);
    ClaimAll(p, n);
    Reach(p, Waiting(n), Claim(0, Identity(n)));
    ClaimAllNext(p, n);
  }

  lemma ReachLaunch(p: Params, n: nat, now: int, started: seq<int>, f: nat)
    requires f <= |started| < n && |started| - f < p.slots && Reachable(p, Working(p, n, now, started, f))
    ensures Reachable(p, Working(p, n, now, started + [now], f))
  {
    var s, t := Working(p, n, now, started, f), Working(p, n, now, started + [now], f);
    Reach(p, s, Launch(0));
    assert Next(p, s, Launch(0)).workers == t.workers;
    assert Next(p, s, Launch(0)) == t;
  }

  lemma DeliveredNext(p: Params, s: State, w: nat, i: nat)
    requires Enabled(p, s, Finish(w, i, Answered2xx)) && s.workers[w].items[i] in s.rows
    ensures var b := s.workers[w];
      Next(p, s, Finish(w, i, Answered2xx)) ==
        State(s.now, s.rows[b.items[i] := AfterSuccess(s.rows[b.items[i]])], Recorded(s.history, b.items[i], Success),
              s.inactive, s.workers[w := b.(finished := b.finished + {i})])
  {
  }

  lemma FinishWorking(p: Params, n: nat, now: int, started: seq<int>, f: nat)
    requires f < |started| <= n
    requires Enabled(p, Working(p, n, now, started, f), Finish(0, f, Answered2xx))
    ensures Next(p, Working(p, n, now, started, f), Finish(0, f, Answered2xx)) == Working(p, n, now, started, f + 1)
  {
    WorkDelivers(p, n, f);
    WorkFinishes(n, started, f);
    hide WorkRows, WorkHistory, WorkBatch, AfterSuccess, Enabled;
    var b := WorkBatch(n, started, f);
    assert map[0 as nat := b][0 := b.(finished := b.finished + {f as int})]
        == map[0 as nat := WorkBatch(n, started, f + 1)];
    DeliveredNext(p, Working(p, n, now, started, f), 0, f);
    hide Next;
  }

  lemma ReachFinish(p: Params, n: nat, now: int, started: seq<int>, f: nat)
    requires f < |started| <= n && Reachable(p, Working(p, n, now, started, f))
    ensures Reachable(p, Working(p, n, now, started, f + 1))
  {
    var s := Working(p, n, now, started, f);
    assert Enabled(p, s, Finish(0, f, Answered2xx)) by { assert s.workers[0].items[f] == f; }
    hide Enabled, Working, Next;
    Reach(p, s, Finish(0, f, Answered2xx));
    FinishWorking(p, n, now, started, f);
  }

  lemma ReachAdvance(p: Params, n: nat, now: int, to: int, started: seq<int>, f: nat)
    requires now <= to && f <= |started| <= n && Reachable(p, Working(p, n, now, started, f))
    requires |started| == n || |started| - f == p.slots
    requires forall i :: f <= i < |started| ==> to <= started[i] + p.attempt
    ensures Reachable(p, Working(p, n, to, started, f))
  {
    Reach(p, Working(p, n, now, started, f), Advance(to));
  }

  /** Launch up to `k` items at one instant. */
  lemma {:induction false} ReachLaunches(p: Params, n: nat, now: int, started: seq<int>, f: nat, k: nat)
    returns (started': seq<int>)
    requires f == |started| && f + k <= n && k <= p.slots && Reachable(p, Working(p, n, now, started, f))
    ensures |started'| == f + k && (forall i :: f <= i < f + k ==> started'[i] == now)
    ensures Reachable(p, Working(p, n, now, started', f))
  {
    if k == 0 {
      started' := started;
    } else {
      started' := ReachLaunches(p, n, now, started, f, k - 1);
      ReachLaunch(p, n, now, started', f);
      started' := started' + [now];
    }
  }

  lemma {:induction false} ReachFinishes(p: Params, n: nat, now: int, started: seq<int>, f: nat, k: nat)
    requires f + k <= |started| <= n && Reachable(p, Working(p, n, now, started, f))
    ensures Reachable(p, Working(p, n, now, started, f + k))
  {
    hide Reachable, Working;
    if k > 0 {
      ReachFinishes(p, n, now, started, f, k - 1);
      ReachFinish(p, n, now, started, f + k - 1);
    }
  }

  /** One turn of the pool, every attempt taking the full time. */
  lemma ReachTurn(p: Params, n: nat, now: int, started: seq<int>, f: nat) returns (started': seq<int>)
    requires Legal(p) && f == |started| && f + p.slots <= n && Reachable(p, Working(p, n, now, started, f))
    ensures |started'| == f + p.slots && Reachable(p, Working(p, n, now + p.attempt, started', f + p.slots))
  {
    hide Reachable, Working;
    started' := ReachLaunches(p, n, now, started, f, p.slots);
    ReachAdvance(p, n, now, now + p.attempt, started', f);
    ReachFinishes(p, n, now + p.attempt, started', f, p.slots);
  }

  /** After r turns the worker has finished r * slots items at time r * attempt. */
  lemma {:induction false} ReachRounds(p: Params, n: nat, r: nat) returns (started: seq<int>)
    requires Legal(p) && r * p.slots < n <= p.batch
    ensures |started| == r * p.slots
    ensures Reachable(p, Working(p, n, r * p.attempt, started, r * p.slots))
  {
    hide Reachable, Working;
    if r == 0 {
      started := [];
      ReachClaimed(p, n);
    } else {
      assert r * p.slots == (r - 1) * p.slots + p.slots && r * p.attempt == (r - 1) * p.attempt + p.attempt;
      started := ReachRounds(p, n, r - 1);
      started := ReachTurn(p, n, (r - 1) * p.attempt, started, (r - 1) * p.slots);
    }
  }

  /** The second worker takes the last row while the first is still attempting it. */
  lemma SecondClaim(p: Params, n: nat, now: int, started: seq<int>)
    returns (s: State)
    requires Legal(p) && n >= 1 && |started| == n && p.lease < now
    requires Reachable(p, Working(p, n, now, started, n - 1))
    ensures Reachable(p, s) && !Exclusive(s)
  {
    var s0 := Working(p, n, now, started, n - 1);
    var a := Claim(1, [n - 1]);
    assert forall id :: Ready(s0, id) ==> id == n - 1;
    assert [n - 1][0] == n - 1;
    Reach(p, s0, a);
    var s1 := Next(p, s0, a);
    Reach(p, s1, Launch(1));
    s := Next(p, s1, Launch(1));
    assert s.workers[0] == s0.workers[0];
    assert InFlight(s.workers[0], n - 1) && s.workers[0].items[n - 1] == n - 1;
    assert InFlight(s.workers[1], 0) && s.workers[1].items == [n - 1];
    assert 0 in s.workers && 1 in s.workers;
    assert s.workers[0].items[n - 1] == s.workers[1].items[0];
  }

  /** With a shorter lease some run attempts one row on two workers at once. */
  lemma ShortLeaseOverlaps(p: Params) returns (s: State)
    requires Legal(p) && !LongLease(p)
    ensures Reachable(p, s) && !Exclusive(s)
  {
    hide Reachable, Working, Exclusive;
    var m := Rounds(p);
    var r := m - 1;
    assert 1 <= m && r * p.slots < p.batch by { LastRoundNeeded(p); }
    var n := r * p.slots + 1;
    var started := ReachRounds(p, n, r);
    var now := r * p.attempt;
    ReachLaunch(p, n, now, started, n - 1);
    started := started + [now];
    assert m * p.attempt == now + p.attempt;
    var late := if now < p.lease + 1 then p.lease + 1 else now;
    ReachAdvance(p, n, now, late, started, n - 1);
    s := SecondClaim(p, n, late, started);
  }

  lemma LastRoundNeeded(p: Params)
    requires Legal(p)
    ensures 1 <= Rounds(p) && (Rounds(p) - 1) * p.slots < p.batch
  {
    var x, c := p.batch + p.slots - 1, p.slots;
    assert x == c * (x / c) + x % c;
    assert (x / c - 1) * c == c * (x / c) - c;
    QuotientTurn(p.batch - 1, c);
  }

  /** No row is ever attempted by two workers, over any number of workers and interleavings,
      exactly when ceil(BatchSize / Concurrency) attempt times fit in the lease. */
  lemma ExclusiveIff(p: Params)
    requires Legal(p)
    ensures (forall s :: Reachable(p, s) ==> Exclusive(s)) <==>
        ((p.batch + p.slots - 1) / p.slots) * p.attempt <= p.lease
  {
    if LongLease(p) {
      forall s | Reachable(p, s) ensures Exclusive(s) { LeaseExclusivity(p, s); }
    } else {
      var s := ShortLeaseOverlaps(p);
    }
  }

  /** The shipped defaults, 50 rows, 8 slots, 10 s per attempt and a 60 s lease, do not meet the bound. */
  lemma DefaultsOverlap() returns (s: State)
    ensures Reachable(Params(50, 8, 10, 60, 10), s) && !Exclusive(s)
  {
    s := ShortLeaseOverlaps(Params(50, 8, 10, 60, 10));
  }
}
