/**
 The webhook delivery queue as a timed state machine: any number of workers
 claim batches of rows under a lease, attempt each batch from a bounded pool,
 and record an outcome, lose the write, or die.

 Time moves only when nothing is due: a worker with a free slot launches its
 next item at once, and an attempt ends within `attempt` of its start.
 */
module DeliveryQueue {
  import opened Options
  import opened Powers

  datatype Status = Pending | Delivered | DeadLetter

  datatype Row = Row(status: Status, attempts: nat, maxAttempts: nat, nextAt: int, lockedUntil: Option<int>)

  /** BatchSize, Concurrency, the longest attempt, LockDuration and the backoff base. */
  datatype Params = Params(batch: nat, slots: nat, attempt: nat, lease: nat, backoff: nat)

  predicate Legal(p: Params) { p.batch >= 1 && p.slots >= 1 && p.attempt >= 1 && p.lease >= 1 }

  // ----- the row statements -----

  function AfterSuccess(row: Row): Row { row.(status := Delivered, attempts := row.attempts + 1, lockedUntil := None) }

  function AfterRetry(row: Row, nextAt: int): Row {
    if row.attempts + 1 >= row.maxAttempts
    then row.(status := DeadLetter, attempts := row.attempts + 1, lockedUntil := None)
    else row.(status := Pending, attempts := row.attempts + 1, nextAt := nextAt, lockedUntil := None)
  }

  function AfterDeadLetter(row: Row): Row { row.(status := DeadLetter, lockedUntil := None) }

  /** The worker decides from the attempt count it saw when it claimed the row, and from that row's limit. */
  function FailureMark(p: Params, row: Row, seen: nat, maxAttempts: nat, now: int): Row {
    if seen + 1 >= maxAttempts then AfterDeadLetter(row)
    else AfterRetry(row, now + p.backoff * Pow2(seen + 1))
  }

  /** The limit of a row never changes, so the worker's copy of it is the row's. */
  function AfterFailure(p: Params, row: Row, seen: nat, now: int): Row {
    FailureMark(p, row, seen, row.maxAttempts, now)
  }

  predicate Claimable(row: Row, now: int) {
    row.status == Pending && row.nextAt <= now && (row.lockedUntil.None? || row.lockedUntil.value < now)
  }

  // ----- the machine -----

  /** A claimed batch: when, which rows, the attempt counts seen, launch times so far, finished indices, and how many
      items the loop will launch in all: every one, or after a cancellation those launched and perhaps the one that
      had passed the loop's check and was waiting for a slot. */
  datatype Batch = Batch(claimedAt: int, items: seq<nat>, seen: seq<nat>, started: seq<int>,
                         finished: set<int>, upTo: nat)

  /** What was recorded of an attempt; a failure with the time it was recorded. */
  datatype Mark = Success | Failure(at: int)

  /** `history` is what has been recorded about each row that ever was; `inactive` rows belong to disabled
      subscriptions. */
  datatype State = State(now: int, rows: map<nat, Row>, history: map<nat, seq<Mark>>,
                         inactive: set<nat>, workers: map<nat, Batch>)

  datatype Outcome = Answered2xx | Failed | MarkLost

  datatype Action =
    | Advance(to: int)
    | Insert(id: nat, maxAttempts: nat)
    | Delete(id: nat)
    | SetActive(id: nat, active: bool)
    | Claim(w: nat, items: seq<nat>)
    | Launch(w: nat)
    | Finish(w: nat, i: nat, outcome: Outcome)
    | Cancel(w: nat, upTo: nat)
    | EndBatch(w: nat)
    | Die(w: nat)

  predicate InFlight(b: Batch, i: int) { 0 <= i < |b.started| && i !in b.finished }

  /** Items the worker is attempting or will still attempt. */
  predicate Open(b: Batch, i: int) { 0 <= i < |b.items| && i < b.upTo && i !in b.finished }

  predicate CanLaunch(p: Params, b: Batch) {
    |b.started| < b.upTo && |b.started| < |b.items| && |b.started| - |b.finished| < p.slots
  }

  predicate Distinct(items: seq<nat>) { forall i, j :: 0 <= i < j < |items| ==> items[i] != items[j] }

  predicate Ready(s: State, id: nat) { id in s.rows && id !in s.inactive && Claimable(s.rows[id], s.now) }

  /** A claim takes ready rows, up to the batch size: rows that another statement holds are skipped, so any may be
      missing. */
  ghost predicate ClaimTakes(p: Params, s: State, items: seq<nat>) {
    && 1 <= |items| <= p.batch && Distinct(items)
    && forall i :: 0 <= i < |items| ==> Ready(s, items[i])
  }

  ghost predicate Enabled(p: Params, s: State, a: Action) {
    match a
    case Advance(to) =>
      && s.now <= to
      && (s.now < to ==> forall w :: w in s.workers ==> !CanLaunch(p, s.workers[w]))
      && (forall w, i :: w in s.workers && InFlight(s.workers[w], i) ==> to <= s.workers[w].started[i] + p.attempt)
    case Insert(id, maxAttempts) => id !in s.history && maxAttempts >= 1
    case Delete(id) => id in s.rows
    case SetActive(id, active) => true
    case Claim(w, items) => w !in s.workers && ClaimTakes(p, s, items)
    case Launch(w) => w in s.workers && CanLaunch(p, s.workers[w])
    case Finish(w, i, outcome) => w in s.workers && InFlight(s.workers[w], i)
        && |s.workers[w].started| <= |s.workers[w].items|
      && |s.workers[w].seen| == |s.workers[w].items|
    case Cancel(w, upTo) =>
      w in s.workers && |s.workers[w].started| <= upTo <= |s.workers[w].started| + 1
      && upTo <= s.workers[w].upTo == |s.workers[w].items|
    case EndBatch(w) => w in s.workers && forall i :: 0 <= i < |s.workers[w].items| ==> !Open(s.workers[w], i)
    case Die(w) => w in s.workers
  }

  function Locked(rows: map<nat, Row>, items: seq<nat>, until: int): map<nat, Row> {
    map id | id in rows :: if id in items then rows[id].(lockedUntil := Some(until)) else rows[id]
  }

  function Recorded(history: map<nat, seq<Mark>>, id: nat, m: Mark): map<nat, seq<Mark>> {
    history[id := (if id in history then history[id] else []) + [m]]
  }

  /** What an attempt writes: nothing when the write is lost or the row is gone. */
  function MarkRows(p: Params, rows: map<nat, Row>, id: nat, seen: nat, outcome: Outcome, now: int): map<nat, Row> {
    if id !in rows || outcome.MarkLost? then rows
    else rows[id := if outcome.Answered2xx? then AfterSuccess(rows[id]) else AfterFailure(p, rows[id], seen, now)]
  }

  function MarkHistory(rows: map<nat, Row>, history: map<nat, seq<Mark>>, id: nat, outcome: Outcome, now: int)
    : map<nat, seq<Mark>>
  {
    if id !in rows || outcome.MarkLost? then history
    else Recorded(history, id, if outcome.Answered2xx? then Success else Failure(now))
  }

  ghost function Next(p: Params, s: State, a: Action): State
    requires Enabled(p, s, a)
  {
    match a
    case Advance(to) => s.(now := to)
    case Insert(id, maxAttempts) =>
      s.(rows := s.rows[id := Row(Pending, 0, maxAttempts, s.now, None)], history := s.history[id := []])
    case Delete(id) => s.(rows := s.rows - {id})
    case SetActive(id, active) => s.(inactive := if active then s.inactive - {id} else s.inactive + {id})
    case Claim(w, items) =>
      var seen := seq(|items|, i requires 0 <= i < |items| => s.rows[items[i]].attempts);
      s.(rows := Locked(s.rows, items, s.now + p.lease),
         workers := s.workers[w := Batch(s.now, items, seen, [], {}, |items|)])
    case Launch(w) =>
      var b := s.workers[w];
      s.(workers := s.workers[w := b.(started := b.started + [s.now])])
    case Finish(w, i, outcome) =>
      var b := s.workers[w];
      s.(workers := s.workers[w := b.(finished := b.finished + {i})],
         rows := MarkRows(p, s.rows, b.items[i], b.seen[i], outcome, s.now),
         history := MarkHistory(s.rows, s.history, b.items[i], outcome, s.now))
    case Cancel(w, upTo) => s.(workers := s.workers[w := s.workers[w].(upTo := upTo)])
    case EndBatch(w) => s.(workers := s.workers - {w})
    case Die(w) => s.(workers := s.workers - {w})
  }

  const INIT := State(0, map[], map[], {}, map[])

  ghost predicate Runs(p: Params, s: State, actions: seq<Action>, s': State)
    decreases |actions|
  {
    if actions == [] then s == s'
    else Enabled(p, s, actions[0]) && Runs(p, Next(p, s, actions[0]), actions[1..], s')
  }

  ghost predicate Reachable(p: Params, s: State) { exists actions :: Runs(p, INIT, actions, s) }

  /** No row is being attempted by two workers. */
  ghost predicate Exclusive(s: State) {
    forall w, w', i, j :: w in s.workers && w' in s.workers && w != w'
      && InFlight(s.workers[w], i) && InFlight(s.workers[w'], j)
      && i < |s.workers[w].items| && j < |s.workers[w'].items|
      ==> s.workers[w].items[i] != s.workers[w'].items[j]
  }

  // ----- the scheduling bound -----

  /** How many times the pool of slots must turn over to attempt a full batch. */
  function Rounds(p: Params): nat
    requires Legal(p)
  {
    (p.batch + p.slots - 1) / p.slots
  }

  /** The latest start of item i: one attempt time per full turn of the slots before it. */
  function StartBy(p: Params, claimedAt: int, i: nat): int
    requires Legal(p)
  {
    if i < p.slots then claimedAt else StartBy(p, claimedAt, i - p.slots) + p.attempt
  }

  lemma Quotient(x: int, c: int, q: int, r: int)
    requires c >= 1 && x == c * q + r && 0 <= r < c
    ensures x / c == q
  {
    var d := q - x / c;
    assert c * d == x % c - r;
    assert d >= 1 ==> c * d >= c;
    assert d <= -1 ==> c * d <= -c;
  }

  lemma QuotientTurn(i: nat, c: nat)
    requires c >= 1
    ensures (i + c) / c == i / c + 1
  {
    Quotient(i + c, c, i / c + 1, i % c);
  }

  /** The bound in closed form: item i starts within floor(i / slots) attempt times of the claim. */
  lemma StartByClosed(p: Params, at: int, i: nat)
    requires Legal(p)
    ensures StartBy(p, at, i) == at + (i / p.slots) * p.attempt
  {
    if i < p.slots {
      Quotient(i, p.slots, 0, i);
    } else {
      StartByClosed(p, at, i - p.slots);
      QuotientTurn(i - p.slots, p.slots);
      assert ((i - p.slots) / p.slots + 1) * p.attempt == ((i - p.slots) / p.slots) * p.attempt + p.attempt;
    }
  }

  lemma StartByGrows(p: Params, at: int, i: nat, j: nat)
    requires Legal(p) && i <= j
    ensures at <= StartBy(p, at, i) <= StartBy(p, at, j)
    decreases j
  {
    if j >= p.slots {
      StartByGrows(p, at, if i < p.slots then 0 else i - p.slots, j - p.slots);
    }
  }

  /** Every item of a legal batch ends within `Rounds` attempt times of the claim. */
  lemma StartByEnds(p: Params, at: int, i: nat)
    requires Legal(p) && i < p.batch
    ensures StartBy(p, at, i) + p.attempt <= at + Rounds(p) * p.attempt
  {
    StartByGrows(p, at, i + p.slots, p.batch + p.slots - 1);
    StartByClosed(p, at, p.batch + p.slots - 1);
  }

  lemma RangeSize(n: nat, f: set<int>)
    requires forall i :: 0 <= i < n ==> i in f
    ensures n <= |f|
  {
    if n > 0 {
      RangeSize(n - 1, f - {n - 1});
    }
  }

  /** When all slots are busy, one of them has held an item a full turn older than the next. */
  lemma OldestRunning(b: Batch, c: nat) returns (j: int)
    requires c >= 1 && |b.started| - |b.finished| >= c
    ensures j + c <= |b.started| && InFlight(b, j)
  {
    var n := |b.started| - c + 1;
    if forall i :: 0 <= i < n ==> i in b.finished {
      RangeSize(n, b.finished);
      assert false;
    }
    j :| 0 <= j < n && j !in b.finished;
  }

  // ----- the invariant -----

  /** The lease outlasts a full batch. */
  predicate LongLease(p: Params)
    requires Legal(p)
  {
    Rounds(p) * p.attempt <= p.lease
  }

  ghost predicate BatchOk(p: Params, now: int, b: Batch)
    requires Legal(p)
  {
    && |b.seen| == |b.items| <= p.batch && |b.started| <= b.upTo <= |b.items| && Distinct(b.items)
    && (forall i :: i in b.finished ==> 0 <= i < |b.started|)
    && |b.started| - |b.finished| <= p.slots
    && b.claimedAt <= now
    && (forall i :: 0 <= i < |b.started| ==> b.started[i] <= now && b.started[i] <= StartBy(p, b.claimedAt, i))
    && (forall i :: InFlight(b, i) ==> now <= b.started[i] + p.attempt)
    && (|b.started| < b.upTo ==> now <= StartBy(p, b.claimedAt, |b.started|))
  }

  /** Every open item is still the worker's own: pending, under its lease, with the count it saw. */
  ghost predicate Holds(p: Params, rows: map<nat, Row>, b: Batch)
  {
    |b.seen| == |b.items| && forall i :: Open(b, i) && b.items[i] in rows ==>
      && rows[b.items[i]].status == Pending
      && rows[b.items[i]].lockedUntil == Some(b.claimedAt + p.lease)
      && rows[b.items[i]].attempts == b.seen[i]
  }

  predicate AllFailures(h: seq<Mark>) { forall i :: 0 <= i < |h| ==> h[i].Failure? }

  /** When a row that has failed |h| times may be tried again. */
  function DueAt(p: Params, h: seq<Mark>): int
    requires h != [] && h[|h| - 1].Failure?
  {
    h[|h| - 1].at + p.backoff * Pow2(|h|)
  }

  /** A failed row waits out its backoff, and nobody holds it who claimed it before that. */
  predicate OnSchedule(p: Params, row: Row, h: seq<Mark>) {
    h != [] && h[|h| - 1].Failure? ==>
      && row.nextAt == DueAt(p, h)
      && (row.lockedUntil.Some? ==> DueAt(p, h) + p.lease <= row.lockedUntil.value)
  }

  /** What a row's status, counter and retry time say about the outcomes recorded for it. */
  predicate RowOk(p: Params, row: Row, h: seq<Mark>) {
    && row.maxAttempts >= 1
    && match row.status
       case Pending => AllFailures(h) && |h| == row.attempts < row.maxAttempts && OnSchedule(p, row, h)
       case Delivered => |h| == row.attempts && 1 <= |h| <= row.maxAttempts
                         && h[|h| - 1] == Success && AllFailures(h[..|h| - 1])
       case DeadLetter => AllFailures(h) && |h| == row.maxAttempts == row.attempts + 1
  }

  ghost predicate RowsOk(p: Params, s: State) {
    && s.rows.Keys <= s.history.Keys
    && (forall id :: id in s.rows ==> RowOk(p, s.rows[id], s.history[id]))
  }

  /** Claimed rows are rows that exist or existed: their ids are not used again. */
  ghost predicate Known(s: State) {
    forall w, i :: w in s.workers && 0 <= i < |s.workers[w].items| ==> s.workers[w].items[i] in s.history
  }

  ghost predicate BatchesOk(p: Params, s: State)
    requires Legal(p)
  {
    forall w :: w in s.workers ==> BatchOk(p, s.now, s.workers[w]) && Holds(p, s.rows, s.workers[w])
  }

  ghost predicate Apart(b: Batch, b': Batch) {
    forall i, j :: Open(b, i) && Open(b', j) ==> b.items[i] != b'.items[j]
  }

  ghost predicate AllApart(s: State) {
    forall w, w' :: w in s.workers && w' in s.workers && w != w' ==> Apart(s.workers[w], s.workers[w'])
  }

  ghost predicate Inv(p: Params, s: State)
    requires Legal(p)
  {
    RowsOk(p, s) && BatchesOk(p, s) && AllApart(s) && Known(s)
  }

  /** While an item is open its lease has not run out. */
  lemma OpenInTime(p: Params, now: int, b: Batch, i: int)
    requires Legal(p) && LongLease(p) && BatchOk(p, now, b) && Open(b, i)
    ensures now <= b.claimedAt + p.lease
  {
    StartByEnds(p, b.claimedAt, i);
    if i >= |b.started| {
      StartByGrows(p, b.claimedAt, |b.started|, i);
    }
  }

  /** Time passes: the scheduling argument. */
  lemma AdvanceBatch(p: Params, now: int, to: int, b: Batch)
    requires Legal(p) && BatchOk(p, now, b) && now < to && !CanLaunch(p, b)
    requires forall i :: InFlight(b, i) ==> to <= b.started[i] + p.attempt
    ensures BatchOk(p, to, b)
  {
    if |b.started| < b.upTo {
      var j := OldestRunning(b, p.slots);
      StartByGrows(p, b.claimedAt, j + p.slots, |b.started|);
      assert StartBy(p, b.claimedAt, j + p.slots) == StartBy(p, b.claimedAt, j) + p.attempt;
      hide StartBy;
    }
    hide StartBy, Distinct, CanLaunch;
  }

  lemma LaunchBatch(p: Params, now: int, b: Batch)
    requires Legal(p) && BatchOk(p, now, b) && CanLaunch(p, b)
    ensures BatchOk(p, now, b.(started := b.started + [now]))
    ensures forall i :: Open(b.(started := b.started + [now]), i) <==> Open(b, i)
  {
    StartByGrows(p, b.claimedAt, |b.started|, |b.started| + 1);
  }

  lemma FinishBatch(p: Params, now: int, b: Batch, i: int)
    requires Legal(p) && BatchOk(p, now, b) && InFlight(b, i)
    ensures BatchOk(p, now, b.(finished := b.finished + {i}))
    ensures forall j :: Open(b.(finished := b.finished + {i}), j) ==> Open(b, j) && j != i
  {
  }

  /** A finished attempt moves exactly its own row, as the recorded outcome says. */
  lemma FinishRow(p: Params, row: Row, h: seq<Mark>, now: int)
    requires RowOk(p, row, h) && row.status == Pending
    ensures RowOk(p, AfterSuccess(row), h + [Success])
    ensures RowOk(p, AfterFailure(p, row, row.attempts, now), h + [Failure(now)])
    ensures AfterSuccess(row).lockedUntil.None? && AfterFailure(p, row, row.attempts, now).lockedUntil.None?
  {
    assert (h + [Success])[..|h|] == h;
  }

  /** A row some batch still has open is not ready, so no claim can take it. */
  lemma OpenNotReady(p: Params, s: State, w: nat, i: int)
    requires Legal(p) && LongLease(p) && BatchesOk(p, s) && w in s.workers && Open(s.workers[w], i)
    ensures !Ready(s, s.workers[w].items[i])
  {
    OpenInTime(p, s.now, s.workers[w], i);
    assert Holds(p, s.rows, s.workers[w]);
  }

  lemma ClaimRows(p: Params, s: State, w: nat, items: seq<nat>)
    requires Legal(p) && RowsOk(p, s) && Enabled(p, s, Claim(w, items))
    ensures RowsOk(p, Next(p, s, Claim(w, items)))
  {
    hide RowOk, Distinct;
    var s' := Next(p, s, Claim(w, items));
    forall id | id in s.rows ensures RowOk(p, s'.rows[id], s.history[id]) {
      assert RowOk(p, s.rows[id], s.history[id]);
      if id in items {
        assert Ready(s, id);
        LockKeepsRow(p, s.rows[id], s.history[id], s.now);
      }
    }
  }

  lemma LockKeepsRow(p: Params, row: Row, h: seq<Mark>, now: int)
    requires RowOk(p, row, h) && row.nextAt <= now
    ensures RowOk(p, row.(lockedUntil := Some(now + p.lease)), h)
  {
  }

  lemma ClaimHolds(p: Params, s: State, w: nat, items: seq<nat>)
    requires Legal(p) && Enabled(p, s, Claim(w, items))
    ensures var s' := Next(p, s, Claim(w, items));
      BatchOk(p, s.now, s'.workers[w]) && Holds(p, s'.rows, s'.workers[w])
  {
    StartByGrows(p, s.now, 0, 0);
  }

  lemma OthersHold(p: Params, rows: map<nat, Row>, rows': map<nat, Row>, b: Batch)
    requires Holds(p, rows, b)
    requires forall i :: Open(b, i) && b.items[i] in rows' ==>
        b.items[i] in rows && rows'[b.items[i]] == rows[b.items[i]]
    ensures Holds(p, rows', b)
  {
  }

  /** A claim that takes no row which some batch still has open. */
  ghost predicate Clean(s: State, a: Action) {
    a.Claim? ==> forall w, i :: w in s.workers && Open(s.workers[w], i) ==> s.workers[w].items[i] !in a.items
  }

  /** A long enough lease makes every claim clean. */
  lemma LongLeaseClean(p: Params, s: State, a: Action)
    requires Legal(p) && LongLease(p) && BatchesOk(p, s) && Enabled(p, s, a)
    ensures Clean(s, a)
  {
    if a.Claim? {
      forall w, i | w in s.workers && Open(s.workers[w], i) ensures s.workers[w].items[i] !in a.items {
        OpenNotReady(p, s, w, i);
      }
    }
  }

  lemma ClaimKeeps(p: Params, s: State, w: nat, items: seq<nat>)
    requires Legal(p) && Inv(p, s) && Enabled(p, s, Claim(w, items)) && Clean(s, Claim(w, items))
    ensures Inv(p, Next(p, s, Claim(w, items)))
  {
    var s' := Next(p, s, Claim(w, items));
    ClaimRows(p, s, w, items);
    ClaimHolds(p, s, w, items);
    KnownKeeps(p, s, Claim(w, items));
    hide RowOk, Distinct, Holds, Open, Ready, InFlight, Known;
    forall v | v in s.workers
      ensures Holds(p, s'.rows, s.workers[v])
      ensures Apart(s.workers[v], s'.workers[w]) && Apart(s'.workers[w], s.workers[v])
    {
      assert forall i :: Open(s.workers[v], i) ==> s.workers[v].items[i] !in items;
      OthersHold(p, s.rows, s'.rows, s.workers[v]);
      ApartFromClaim(s.workers[v], s'.workers[w]);
    }
  }

  lemma KnownKeeps(p: Params, s: State, a: Action)
    requires RowsOk(p, s) && Known(s) && Enabled(p, s, a)
    ensures Known(Next(p, s, a))
  {
    hide RowOk, AfterFailure, AfterSuccess, CanLaunch;
    var s' := Next(p, s, a);
    assert s.history.Keys <= s'.history.Keys;
  }

  lemma ApartFromClaim(b: Batch, c: Batch)
    requires forall i :: Open(b, i) ==> b.items[i] !in c.items
    ensures Apart(b, c) && Apart(c, b)
  {
  }

  /** The row of an attempt in flight, if it still exists, is pending with the count the worker saw. */
  lemma FinishPending(p: Params, s: State, w: nat, i: nat)
    requires Legal(p) && BatchesOk(p, s) && w in s.workers && InFlight(s.workers[w], i)
    ensures var b := s.workers[w];
      && i < |b.items| == |b.seen|
      && (b.items[i] in s.rows ==>
            s.rows[b.items[i]].status == Pending && s.rows[b.items[i]].attempts == b.seen[i])
  {
    var b := s.workers[w];
    assert BatchOk(p, s.now, b) && Holds(p, s.rows, b);
    assert Open(b, i);
    hide BatchOk;
  }

  /** What an attempt writes keeps its row in step with what is recorded about it, and touches no other. */
  lemma MarkRow(p: Params, rows: map<nat, Row>, history: map<nat, seq<Mark>>, id: nat, outcome: Outcome, now: int,
                x: nat)
    requires x in rows && x in history && RowOk(p, rows[x], history[x])
    requires id in rows ==> id in history && rows[id].status == Pending
    ensures var seen := if id in rows then rows[id].attempts else 0;
      var rows', history' := MarkRows(p, rows, id, seen, outcome, now), MarkHistory(rows, history, id, outcome, now);
      x in rows' && x in history' && RowOk(p, rows'[x], history'[x])
  {
    if x == id {
      FinishRow(p, rows[x], history[x], now);
    }
    hide RowOk, AfterFailure, AfterSuccess;
  }

  lemma MarkKeys(p: Params, rows: map<nat, Row>, id: nat, seen: nat, outcome: Outcome, now: int)
    ensures MarkRows(p, rows, id, seen, outcome, now).Keys == rows.Keys
  {
    hide AfterFailure, AfterSuccess;
  }

  lemma FinishRows(p: Params, s: State, w: nat, i: nat, outcome: Outcome)
    requires Legal(p) && RowsOk(p, s) && BatchesOk(p, s) && Enabled(p, s, Finish(w, i, outcome))
    ensures RowsOk(p, Next(p, s, Finish(w, i, outcome)))
  {
    FinishPending(p, s, w, i);
    hide RowOk, BatchesOk, MarkRows, MarkHistory, InFlight;
    var b, s' := s.workers[w], Next(p, s, Finish(w, i, outcome));
    var id := b.items[i];
    MarkKeys(p, s.rows, id, b.seen[i], outcome, s.now);
    if id !in s.rows {
      MarkGone(p, s.rows, s.history, id, b.seen[i], outcome, s.now);
    } else {
      forall x | x in s'.rows ensures x in s'.history && RowOk(p, s'.rows[x], s'.history[x]) {
        MarkRow(p, s.rows, s.history, id, outcome, s.now, x);
      }
    }
  }

  lemma MarkGone(p: Params, rows: map<nat, Row>, history: map<nat, seq<Mark>>, id: nat, seen: nat, outcome: Outcome,
                 now: int)
    requires id !in rows
    ensures MarkRows(p, rows, id, seen, outcome, now) == rows && MarkHistory(rows, history, id, outcome, now) == history
  {
  }

  /** The finished item leaves the batch and no open item anywhere names its row. */
  lemma FinishOpens(p: Params, s: State, w: nat, i: nat, outcome: Outcome, v: nat, j: int)
    requires Legal(p) && BatchesOk(p, s) && AllApart(s) && Enabled(p, s, Finish(w, i, outcome)) && v in s.workers
    requires Open(Next(p, s, Finish(w, i, outcome)).workers[v], j)
    ensures Open(s.workers[v], j) && 0 <= j < |s.workers[v].items| && s.workers[v].items[j] != s.workers[w].items[i]
  {
    hide Holds, StartBy;
    assert BatchOk(p, s.now, s.workers[w]) && Open(s.workers[w], i);
    if v == w {
      assert j != i && Distinct(s.workers[w].items);
    } else {
      assert Apart(s.workers[v], s.workers[w]);
    }
  }

  /** A batch whose open items only shrank, none of them row `id`, still holds and stays apart. */
  lemma ShrunkHolds(p: Params, rows: map<nat, Row>, b: Batch, b': Batch, id: nat, row: Row)
    requires Holds(p, rows, b) && b'.items == b.items && b'.seen == b.seen && b'.claimedAt == b.claimedAt
    requires forall j :: Open(b', j) ==> Open(b, j) && b.items[j] != id
    ensures Holds(p, rows, b') && Holds(p, rows[id := row], b')
  {
  }

  lemma ShrunkApart(b: Batch, b': Batch, c: Batch, c': Batch)
    requires Apart(b, c) && b'.items == b.items && c'.items == c.items
    requires forall j :: Open(b', j) ==> Open(b, j)
    requires forall j :: Open(c', j) ==> Open(c, j)
    ensures Apart(b', c')
  {
  }

  lemma FinishHolds(p: Params, s: State, w: nat, i: nat, outcome: Outcome, v: nat)
    requires Legal(p) && BatchesOk(p, s) && AllApart(s) && Enabled(p, s, Finish(w, i, outcome)) && v in s.workers
    ensures var s' := Next(p, s, Finish(w, i, outcome));
      BatchOk(p, s.now, s'.workers[v]) && Holds(p, s'.rows, s'.workers[v])
      && forall j :: Open(s'.workers[v], j) ==> Open(s.workers[v], j)
  {
    var s' := Next(p, s, Finish(w, i, outcome));
    var id := s.workers[w].items[i];
    forall j | Open(s'.workers[v], j) ensures Open(s.workers[v], j) && s.workers[v].items[j] != id {
      FinishOpens(p, s, w, i, outcome, v, j);
    }
    if v == w {
      FinishBatch(p, s.now, s.workers[w], i);
    }
    hide Open, InFlight, AfterFailure, AfterSuccess, Holds, BatchOk;
    ShrunkHolds(p, s.rows, s.workers[v], s'.workers[v], id,
                if id in s'.rows then s'.rows[id] else Row(Pending, 0, 0, 0, None));
  }

  lemma FinishApart(p: Params, s: State, w: nat, i: nat, outcome: Outcome, v: nat, v': nat)
    requires Legal(p) && BatchesOk(p, s) && AllApart(s) && Enabled(p, s, Finish(w, i, outcome))
    requires v in s.workers && v' in s.workers && v != v'
    ensures Apart(Next(p, s, Finish(w, i, outcome)).workers[v], Next(p, s, Finish(w, i, outcome)).workers[v'])
  {
    FinishHolds(p, s, w, i, outcome, v);
    FinishHolds(p, s, w, i, outcome, v');
    assert w in s.workers;
    hide Enabled, BatchesOk, Open, InFlight, Holds, Apart, BatchOk, AfterFailure, AfterSuccess, Recorded;
    var s' := Next(p, s, Finish(w, i, outcome));
    ShrunkApart(s.workers[v], s'.workers[v], s.workers[v'], s'.workers[v']);
  }

  lemma FinishFrame(p: Params, s: State, w: nat, i: nat, outcome: Outcome)
    requires Enabled(p, s, Finish(w, i, outcome))
    ensures var s' := Next(p, s, Finish(w, i, outcome)); s'.now == s.now && s'.workers.Keys == s.workers.Keys
  {
    hide AfterFailure, AfterSuccess, Recorded;
  }

  lemma FinishKeeps(p: Params, s: State, w: nat, i: nat, outcome: Outcome)
    requires Legal(p) && Inv(p, s) && Enabled(p, s, Finish(w, i, outcome))
    ensures Inv(p, Next(p, s, Finish(w, i, outcome)))
  {
    var s' := Next(p, s, Finish(w, i, outcome));
    FinishFrame(p, s, w, i, outcome);
    KnownKeeps(p, s, Finish(w, i, outcome));
    hide Next, RowsOk, Enabled, Open, InFlight, Holds, Apart, BatchOk, Known;
    FinishRows(p, s, w, i, outcome);
    forall v | v in s'.workers ensures BatchOk(p, s'.now, s'.workers[v]) && Holds(p, s'.rows, s'.workers[v]) {
      FinishHolds(p, s, w, i, outcome, v);
    }
    forall v, v' | v in s'.workers && v' in s'.workers && v != v' ensures Apart(s'.workers[v], s'.workers[v']) {
      FinishApart(p, s, w, i, outcome, v, v');
    }
  }

  /** A step that leaves rows and clock alone and opens nothing new. */
  lemma QuietKeeps(p: Params, s: State, s': State)
    requires Legal(p) && Inv(p, s) && s'.rows == s.rows && s'.history == s.history && s'.now == s.now
    requires forall w :: w in s'.workers ==>
      && w in s.workers && BatchOk(p, s.now, s'.workers[w])
      && s'.workers[w].items == s.workers[w].items && s'.workers[w].seen == s.workers[w].seen
      && s'.workers[w].claimedAt == s.workers[w].claimedAt
      && forall i :: Open(s'.workers[w], i) ==> Open(s.workers[w], i)
    ensures Inv(p, s')
  {
    hide RowOk, BatchOk, Open;
    assert Known(s');
    forall w | w in s'.workers ensures Holds(p, s'.rows, s'.workers[w]) {
      assert Holds(p, s.rows, s.workers[w]);
    }
  }

  lemma InsertKeeps(p: Params, s: State, id: nat, maxAttempts: nat)
    requires Legal(p) && Inv(p, s) && Enabled(p, s, Insert(id, maxAttempts))
    ensures Inv(p, Next(p, s, Insert(id, maxAttempts)))
  {
    var s' := Next(p, s, Insert(id, maxAttempts));
    assert RowOk(p, s'.rows[id], s'.history[id]);
    KnownKeeps(p, s, Insert(id, maxAttempts));
    hide RowOk, BatchOk;
    forall w | w in s.workers ensures Holds(p, s'.rows, s.workers[w]) {
      forall i | Open(s.workers[w], i) ensures s.workers[w].items[i] != id {
        assert s.workers[w].items[i] in s.history;
      }
      assert Holds(p, s.rows, s.workers[w]);
      OthersHold(p, s.rows, s'.rows, s.workers[w]);
    }
    hide Open, Holds, Known;
  }

  lemma DeleteKeeps(p: Params, s: State, id: nat)
    requires Legal(p) && Inv(p, s) && Enabled(p, s, Delete(id))
    ensures Inv(p, Next(p, s, Delete(id)))
  {
    var s' := Next(p, s, Delete(id));
    KnownKeeps(p, s, Delete(id));
    hide RowOk, BatchOk, Open, Known;
    forall w | w in s.workers ensures Holds(p, s'.rows, s.workers[w]) {
      OthersHold(p, s.rows, s'.rows, s.workers[w]);
    }
    hide Holds;
  }

  lemma AdvanceKeeps(p: Params, s: State, to: int)
    requires Legal(p) && Inv(p, s) && Enabled(p, s, Advance(to))
    ensures Inv(p, Next(p, s, Advance(to)))
  {
    hide RowOk, Holds, Distinct, Open, Apart;
    if s.now < to {
      forall w | w in s.workers ensures BatchOk(p, to, s.workers[w]) { AdvanceBatch(p, s.now, to, s.workers[w]); }
    }
  }

  lemma StepKeeps(p: Params, s: State, a: Action)
    requires Legal(p) && Inv(p, s) && Enabled(p, s, a) && Clean(s, a)
    ensures Inv(p, Next(p, s, a))
  {
    hide Next, Inv, Enabled, Clean;
    match a
    case Advance(to) => AdvanceKeeps(p, s, to);
    case Insert(id, maxAttempts) => InsertKeeps(p, s, id, maxAttempts);
    case Delete(id) => DeleteKeeps(p, s, id);
    case Claim(w, items) => ClaimKeeps(p, s, w, items);
    case Launch(w) => LaunchKeeps(p, s, w);
    case Finish(w, i, outcome) => FinishKeeps(p, s, w, i, outcome);
    case Cancel(w, upTo) => CancelKeeps(p, s, w, upTo);
    case _ => LeaveKeeps(p, s, a);
  }

  lemma LaunchKeeps(p: Params, s: State, w: nat)
    requires Legal(p) && Inv(p, s) && Enabled(p, s, Launch(w))
    ensures Inv(p, Next(p, s, Launch(w)))
  {
    LaunchBatch(p, s.now, s.workers[w]);
    hide Holds, BatchOk, CanLaunch, Open, RowsOk, AllApart;
    QuietKeeps(p, s, Next(p, s, Launch(w)));
  }

  lemma CancelKeeps(p: Params, s: State, w: nat, upTo: nat)
    requires Legal(p) && Inv(p, s) && Enabled(p, s, Cancel(w, upTo))
    ensures Inv(p, Next(p, s, Cancel(w, upTo)))
  {
    CancelBatch(p, s.now, s.workers[w], upTo);
    hide Holds, BatchOk, Open, RowsOk, AllApart;
    QuietKeeps(p, s, Next(p, s, Cancel(w, upTo)));
  }

  lemma LeaveKeeps(p: Params, s: State, a: Action)
    requires Legal(p) && Inv(p, s) && Enabled(p, s, a) && (a.EndBatch? || a.Die? || a.SetActive?)
    ensures Inv(p, Next(p, s, a))
  {
    hide Holds, BatchOk, Open, RowsOk, AllApart;
    QuietKeeps(p, s, Next(p, s, a));
  }

  /** After a cancellation nothing more is launched but the item that was already waiting for a slot. */
  lemma CancelBatch(p: Params, now: int, b: Batch, upTo: nat)
    requires Legal(p) && BatchOk(p, now, b) && |b.started| <= upTo <= b.upTo
    ensures BatchOk(p, now, b.(upTo := upTo))
    ensures forall i :: Open(b.(upTo := upTo), i) ==> Open(b, i)
  {
  }

  /** A run in which every claim is clean. */
  ghost predicate CleanRuns(p: Params, s: State, actions: seq<Action>, s': State)
    decreases |actions|
  {
    if actions == [] then s == s'
    else Enabled(p, s, actions[0]) && Clean(s, actions[0]) && CleanRuns(p, Next(p, s, actions[0]), actions[1..], s')
  }

  ghost predicate CleanlyReachable(p: Params, s: State) { exists actions :: CleanRuns(p, INIT, actions, s) }

  lemma {:induction false} RunKeeps(p: Params, s: State, actions: seq<Action>, s': State)
    requires Legal(p) && Inv(p, s) && CleanRuns(p, s, actions, s')
    ensures Inv(p, s')
    decreases |actions|
  {
    if actions != [] {
      hide Inv, Next, Enabled, Clean;
      StepKeeps(p, s, actions[0]);
      RunKeeps(p, Next(p, s, actions[0]), actions[1..], s');
    }
  }

  lemma CleanlyInv(p: Params, s: State)
    requires Legal(p) && CleanlyReachable(p, s)
    ensures Inv(p, s)
  {
    var actions :| CleanRuns(p, INIT, actions, s);
    RunKeeps(p, INIT, actions, s);
  }

  lemma {:induction false} LongLeaseRuns(p: Params, s: State, actions: seq<Action>, s': State)
    requires Legal(p) && LongLease(p) && Inv(p, s) && Runs(p, s, actions, s')
    ensures CleanRuns(p, s, actions, s')
    decreases |actions|
  {
    if actions != [] {
      assert BatchesOk(p, s);
      hide Inv, Next, Enabled, Clean, BatchesOk, LongLease;
      LongLeaseClean(p, s, actions[0]);
      StepKeeps(p, s, actions[0]);
      LongLeaseRuns(p, Next(p, s, actions[0]), actions[1..], s');
    }
  }

  /** With a long enough lease no run has anything but clean claims. */
  lemma LongLeaseCleanly(p: Params, s: State)
    requires Legal(p) && LongLease(p) && Reachable(p, s)
    ensures CleanlyReachable(p, s)
  {
    var actions :| Runs(p, INIT, actions, s);
    LongLeaseRuns(p, INIT, actions, s);
  }

  // ----- what follows for every run -----

  /** Two workers attempt one row only after a claim took a row that some batch still had open. */
  lemma CleanExclusive(p: Params, s: State)
    requires Legal(p) && CleanlyReachable(p, s)
    ensures Exclusive(s)
  {
    CleanlyInv(p, s);
    hide RowOk, Holds;
    forall w, w', i, j | w in s.workers && w' in s.workers && w != w'
      && InFlight(s.workers[w], i) && InFlight(s.workers[w'], j)
      && i < |s.workers[w].items| && j < |s.workers[w'].items|
      ensures s.workers[w].items[i] != s.workers[w'].items[j]
    {
      assert Apart(s.workers[w], s.workers[w']) && Open(s.workers[w], i) && Open(s.workers[w'], j);
    }
  }

  lemma LeaseExclusivity(p: Params, s: State)
    requires Legal(p) && LongLease(p) && Reachable(p, s)
    ensures Exclusive(s)
  {
    LongLeaseCleanly(p, s);
    CleanExclusive(p, s);
  }

  /** Every batch keeps its schedule, and every lock ends within a lease, whatever the lease. */
  ghost predicate OnTime(p: Params, s: State)
    requires Legal(p)
  {
    && (forall w :: w in s.workers ==> BatchOk(p, s.now, s.workers[w]))
    && (forall id :: id in s.rows && s.rows[id].lockedUntil.Some? ==> s.rows[id].lockedUntil.value <= s.now + p.lease)
  }

  /** The locks' half: only a claim sets a lock, to a lease from now. */
  lemma StepLocks(p: Params, s: State, a: Action)
    requires Legal(p) && OnTime(p, s) && Enabled(p, s, a)
    ensures var s' := Next(p, s, a);
      forall id :: id in s'.rows && s'.rows[id].lockedUntil.Some? ==> s'.rows[id].lockedUntil.value <= s'.now + p.lease
  {
    hide BatchOk, ClaimTakes, CanLaunch;
  }

  /** The batches' half: no worker's step disturbs another's batch. */
  lemma StepBatch(p: Params, s: State, a: Action, w: nat)
    requires Legal(p) && OnTime(p, s) && Enabled(p, s, a) && w in Next(p, s, a).workers
    ensures BatchOk(p, Next(p, s, a).now, Next(p, s, a).workers[w])
  {
    if a.Advance? {
      if s.now < a.to {
        AdvanceBatch(p, s.now, a.to, s.workers[w]);
      }
    } else if a.Claim? && a.w == w {
      ClaimHolds(p, s, w, a.items);
    } else if a.Launch? && a.w == w {
      LaunchBatch(p, s.now, s.workers[w]);
    } else if a.Finish? && a.w == w {
      FinishBatch(p, s.now, s.workers[w], a.i);
    } else if a.Cancel? && a.w == w {
      CancelBatch(p, s.now, s.workers[w], a.upTo);
    }
    hide BatchOk, ClaimTakes, CanLaunch, Holds, Open, MarkRows, MarkHistory, Locked;
  }

  lemma StepOnTime(p: Params, s: State, a: Action)
    requires Legal(p) && OnTime(p, s) && Enabled(p, s, a)
    ensures OnTime(p, Next(p, s, a))
  {
    hide Next, BatchOk, Enabled;
    StepLocks(p, s, a);
    forall w | w in Next(p, s, a).workers ensures BatchOk(p, Next(p, s, a).now, Next(p, s, a).workers[w]) {
      StepBatch(p, s, a, w);
    }
  }

  lemma {:induction false} RunOnTime(p: Params, s: State, actions: seq<Action>, s': State)
    requires Legal(p) && OnTime(p, s) && Runs(p, s, actions, s')
    ensures OnTime(p, s')
    decreases |actions|
  {
    if actions != [] {
      hide OnTime, Next, Enabled;
      StepOnTime(p, s, actions[0]);
      RunOnTime(p, Next(p, s, actions[0]), actions[1..], s');
    }
  }

  lemma ReachableOnTime(p: Params, s: State)
    requires Legal(p) && Reachable(p, s)
    ensures OnTime(p, s)
  {
    var actions :| Runs(p, INIT, actions, s);
    RunOnTime(p, INIT, actions, s);
  }

  /** In every run, whatever the lease, item i of a batch starts within floor(i / slots) attempt times of the claim. */
  lemma StartsInTime(p: Params, s: State, w: nat, i: int)
    requires Legal(p) && Reachable(p, s) && w in s.workers && 0 <= i < |s.workers[w].started|
    ensures s.workers[w].started[i] <= s.workers[w].claimedAt + (i / p.slots) * p.attempt
  {
    ReachableOnTime(p, s);
    assert BatchOk(p, s.now, s.workers[w]);
    StartByClosed(p, s.workers[w].claimedAt, i);
  }

  /** With a long enough lease no attempt outlives it. */
  lemma OverByLease(p: Params, s: State, w: nat, i: int)
    requires Legal(p) && LongLease(p) && Reachable(p, s) && w in s.workers && InFlight(s.workers[w], i)
    ensures s.now <= s.workers[w].claimedAt + p.lease
  {
    ReachableOnTime(p, s);
    assert BatchOk(p, s.now, s.workers[w]) && Open(s.workers[w], i);
    OpenInTime(p, s.now, s.workers[w], i);
  }

  function Failures(h: seq<Mark>): nat {
    if h == [] then 0 else Failures(h[..|h| - 1]) + (if h[|h| - 1].Failure? then 1 else 0)
  }

  lemma {:induction false} FailuresAll(h: seq<Mark>)
    ensures Failures(h) <= |h|
    ensures AllFailures(h) ==> Failures(h) == |h|
  {
    if h != [] {
      FailuresAll(h[..|h| - 1]);
    }
  }

  /** The status of every row is exactly its recorded outcomes, in every run with clean claims. */
  lemma DeliveryAccounting(p: Params, s: State, id: nat)
    requires Legal(p) && CleanlyReachable(p, s) && id in s.rows
    ensures id in s.history
    ensures var row, h := s.rows[id], s.history[id];
      && (row.status == DeadLetter <==> Failures(h) == row.maxAttempts)
      && (row.status == Delivered <==> h != [] && h[|h| - 1] == Success)
      && (row.status == Pending ==> row.attempts == Failures(h) == |h| < row.maxAttempts)
  {
    CleanlyInv(p, s);
    var row, h := s.rows[id], s.history[id];
    assert RowOk(p, row, h);
    FailuresAll(h);
    if row.status == Delivered {
      FailuresAll(h[..|h| - 1]);
    }
  }

  /** A recorded failure that is not the last schedules the next attempt base * 2^k after it, for the k-th failure. */
  lemma FailureBacksOff(p: Params, s: State, w: nat, i: nat)
    requires Legal(p) && CleanlyReachable(p, s) && Enabled(p, s, Finish(w, i, Failed))
    requires s.workers[w].items[i] in s.rows
    ensures var id, s' := s.workers[w].items[i], Next(p, s, Finish(w, i, Failed));
      && id in s.history && id in s'.rows && id in s'.history && s'.history[id] == s.history[id] + [Failure(s.now)]
      && (if |s'.history[id]| < s.rows[id].maxAttempts
          then s'.rows[id].status == Pending && s'.rows[id].lockedUntil.None?
               && s'.rows[id].nextAt == s.now + p.backoff * Pow2(|s'.history[id]|)
          else s'.rows[id].status == DeadLetter)
  {
    CleanlyInv(p, s);
    FinishPending(p, s, w, i);
    assert RowOk(p, s.rows[s.workers[w].items[i]], s.history[s.workers[w].items[i]]);
    hide BatchesOk, Pow2, InFlight, AllApart, Known;
  }

  /** In every run with clean claims: a pending row whose k-th failure was recorded at t is taken by no claim before
      t + base * 2^k, is held by nobody until then, and is ready at that time if its subscription is active. */
  lemma RetryOnSchedule(p: Params, s: State, id: nat)
    requires Legal(p) && CleanlyReachable(p, s) && id in s.rows && s.rows[id].status == Pending
    requires id in s.history && s.history[id] != []
    ensures var h := s.history[id];
      && h[|h| - 1].Failure?
      && var due := h[|h| - 1].at + p.backoff * Pow2(|h|);
      && (forall w, items :: Enabled(p, s, Claim(w, items)) && id in items ==> s.now >= due && id !in s.inactive)
      && (s.now < due ==> s.rows[id].lockedUntil.None? && (id !in s.inactive ==> Ready(s.(now := due), id)))
  {
    CleanlyInv(p, s);
    assert RowOk(p, s.rows[id], s.history[id]);
    LocksRecent(p, s);
    hide BatchesOk, Pow2, AllApart, Known;
  }

  /** No lock reaches further than a lease from now. */
  lemma LocksRecent(p: Params, s: State)
    requires Legal(p) && CleanlyReachable(p, s)
    ensures forall id :: id in s.rows && s.rows[id].lockedUntil.Some? ==>
      s.rows[id].lockedUntil.value <= s.now + p.lease
  {
    CleanlyPlain(p, s);
    ReachableOnTime(p, s);
    hide BatchOk;
  }

  lemma CleanlyPlain(p: Params, s: State)
    requires CleanlyReachable(p, s)
    ensures Reachable(p, s)
  {
    var actions :| CleanRuns(p, INIT, actions, s);
    CleanRunsRun(p, INIT, actions, s);
  }

  lemma {:induction false} CleanRunsRun(p: Params, s: State, actions: seq<Action>, s': State)
    requires CleanRuns(p, s, actions, s')
    ensures Runs(p, s, actions, s')
    decreases |actions|
  {
    if actions != [] {
      hide Next, Enabled, Clean;
      CleanRunsRun(p, Next(p, s, actions[0]), actions[1..], s');
    }
  }

  /** A delivered or dead-lettered row is never claimed and never written again, only deleted. */
  lemma TerminalIsFinal(p: Params, s: State, a: Action, id: nat)
    requires Legal(p) && CleanlyReachable(p, s) && Enabled(p, s, a)
    requires id in s.rows && s.rows[id].status != Pending
    ensures a.Claim? ==> id !in a.items
    ensures a != Delete(id) ==> id in Next(p, s, a).rows && Next(p, s, a).rows[id] == s.rows[id]
    ensures id in s.history && id in Next(p, s, a).history && Next(p, s, a).history[id] == s.history[id]
  {
    CleanlyInv(p, s);
    if a.Finish? {
      assert Open(s.workers[a.w], a.i) && Holds(p, s.rows, s.workers[a.w]);
    }
    hide RowOk, BatchOk;
  }

  /** In every run, whatever the lease: a pending row whose worker died, or whose outcome was lost, can be claimed
      again once its lease has run out, at the latest one tick after a full lease from now, if its retry time has
      come. */
  lemma AbandonedBecomesClaimable(p: Params, s: State, id: nat, later: int)
    requires Legal(p) && Reachable(p, s)
    requires id in s.rows && s.rows[id].status == Pending
    requires later > s.now + p.lease && later >= s.rows[id].nextAt
    ensures Claimable(s.rows[id], later)
  {
    ReachableOnTime(p, s);
    hide BatchOk;
  }
}
