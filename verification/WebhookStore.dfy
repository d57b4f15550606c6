/**
 The webhook_deliveries table as the worker uses it: claiming, and recording
 what an attempt came to. The statements are the ones the queue's state machine
 is built from.
 */
module WebhookStore {
  import opened Options
  import opened Powers
  import opened DeliveryQueue

  const DEFAULT_CLAIM_LOCK: int := 60

  lemma DistinctNone()
    ensures Distinct([])
  {
  }

  lemma DistinctSnoc(items: seq<nat>, id: nat)
    requires Distinct(items) && id !in items
    ensures Distinct(items + [id])
  {
  }

  class Store {
    var now: int
    var rows: map<nat, Row>
    var inactive: set<nat>

    constructor (now: int, rows: map<nat, Row>, inactive: set<nat>)
      ensures this.now == now && this.rows == rows && this.inactive == inactive
    {
      this.now, this.rows, this.inactive := now, rows, inactive;
    }

    ghost predicate IsReady(id: nat)
      reads this
    {
      id in rows && id !in inactive && Claimable(rows[id], now)
    }

    /** A candidate with the earliest retry time. */
    method Earliest(candidates: set<nat>) returns (first: nat)
      requires candidates != {} && candidates <= rows.Keys
      ensures first in candidates
      ensures forall id :: id in candidates ==> rows[first].nextAt <= rows[id].nextAt
    {
      first :| first in candidates;
      var rest := candidates - {first};
      while rest != {}
        invariant first in candidates && rest <= candidates
        invariant forall id :: id in candidates && id !in rest ==> rows[first].nextAt <= rows[id].nextAt
        decreases |rest|
      {
        var id :| id in rest;
        if rows[id].nextAt < rows[first].nextAt {
          first := id;
        }
        rest := rest - {id};
      }
    }

    /** Claim up to `limit` rows whose retry time has come and whose previous claim has expired, earliest first,
        skipping rows that another statement holds; every claimed row is locked, nothing else changes. */
    method ClaimPendingDeliveries(limit: int, lockFor: int, held: set<nat>) returns (claimed: Option<seq<nat>>)
      modifies this`rows
      ensures claimed.None? <==> limit <= 0
      ensures claimed.None? ==> rows == old(rows)
      ensures claimed.Some? ==>
        var items := claimed.value;
        && |items| <= limit && Distinct(items)
        && (forall i :: 0 <= i < |items| ==> old(IsReady(items[i])) && items[i] !in held)
        && (forall id :: old(IsReady(id)) && id !in held && id !in items ==>
              |items| == limit && forall i :: 0 <= i < |items| ==> old(rows)[items[i]].nextAt <= old(rows)[id].nextAt)
        && rows == Locked(old(rows), items, now + (if lockFor <= 0 then DEFAULT_CLAIM_LOCK else lockFor))
    {
      hide Locked, Distinct, Claimable;
      if limit <= 0 {
        return None;
      }
      var lock := if lockFor <= 0 then DEFAULT_CLAIM_LOCK else lockFor;
      var candidates := set id | id in rows && id !in inactive && Claimable(rows[id], now) && id !in held;
      var items := EarliestUpTo(candidates, limit);
      rows := Locked(rows, items, now + lock);
      return Some(items);
    }

    /** ORDER BY next_attempt_at LIMIT: the earliest candidates, all of them when they fit. */
    method EarliestUpTo(candidates: set<nat>, limit: nat) returns (items: seq<nat>)
      requires candidates <= rows.Keys
      ensures |items| <= limit && Distinct(items)
      ensures forall i :: 0 <= i < |items| ==> items[i] in candidates
      ensures forall id :: id in candidates && id !in items ==>
        |items| == limit && forall i :: 0 <= i < |items| ==> rows[items[i]].nextAt <= rows[id].nextAt
    {
      hide Distinct;
      items := [];
      DistinctNone();
      var left := candidates;
      while left != {} && |items| < limit
        invariant |items| <= limit && Distinct(items) && left <= candidates
        invariant forall i :: 0 <= i < |items| ==> items[i] in candidates && items[i] !in left
        invariant forall id :: id in candidates && id !in left ==> id in items
        invariant forall i, id :: 0 <= i < |items| && id in left ==> rows[items[i]].nextAt <= rows[id].nextAt
        decreases |left|
      {
        var first := Earliest(left);
        DistinctSnoc(items, first);
        items := items + [first];
        left := left - {first};
      }
    }

    /** A 2xx answer; a row deleted meanwhile is no row to update. */
    method MarkDeliverySuccess(id: nat)
      modifies this`rows
      ensures rows == if id in old(rows) then old(rows)[id := AfterSuccess(old(rows)[id])] else old(rows)
      ensures id in old(rows) ==>
        var row := old(rows)[id];
        rows[id] == Row(Delivered, row.attempts + 1, row.maxAttempts, row.nextAt, None)
    {
      if id in rows {
        rows := rows[id := rows[id].(status := Delivered, attempts := rows[id].attempts + 1, lockedUntil := None)];
      }
    }

    /** A failed attempt that is to be tried again, or not, by the row's own counter. */
    method MarkDeliveryRetry(id: nat, nextAt: int)
      modifies this`rows
      ensures rows == if id in old(rows) then old(rows)[id := AfterRetry(old(rows)[id], nextAt)] else old(rows)
      ensures id in old(rows) ==>
        var row := old(rows)[id];
        rows[id] == if row.attempts + 1 < row.maxAttempts
                    then Row(Pending, row.attempts + 1, row.maxAttempts, nextAt, None)
                    else Row(DeadLetter, row.attempts + 1, row.maxAttempts, row.nextAt, None)
    {
      if id in rows {
        var row := rows[id];
        var last := row.attempts + 1 >= row.maxAttempts;
        rows := rows[id := Row(if last then DeadLetter else Pending, row.attempts + 1, row.maxAttempts,
                               if last then row.nextAt else nextAt, None)];
      }
    }

    method MarkDeliveryDeadLetter(id: nat)
      modifies this`rows
      ensures rows == if id in old(rows) then old(rows)[id := AfterDeadLetter(old(rows)[id])] else old(rows)
      ensures id in old(rows) ==>
        var row := old(rows)[id];
        rows[id] == Row(DeadLetter, row.attempts, row.maxAttempts, row.nextAt, None)
    {
      if id in rows {
        rows := rows[id := rows[id].(status := DeadLetter, lockedUntil := None)];
      }
    }

    /** The worker's reaction to a failure, from the counters of the delivery it claimed: dead-letter on the last
        attempt, else back off exponentially. */
    method HandleFailure(p: Params, id: nat, seen: nat, maxAttempts: nat)
      modifies this`rows
      ensures rows == if id in old(rows) then old(rows)[id := FailureMark(p, old(rows)[id], seen, maxAttempts, now)]
                      else old(rows)
      ensures id in old(rows) && seen + 1 >= maxAttempts ==>
        var row := old(rows)[id];
        rows[id] == Row(DeadLetter, row.attempts, row.maxAttempts, row.nextAt, None)
      ensures id in old(rows) && seen + 1 < maxAttempts && old(rows)[id].attempts + 1 < old(rows)[id].maxAttempts ==>
        var row := old(rows)[id];
        rows[id] == Row(Pending, row.attempts + 1, row.maxAttempts, now + p.backoff * Pow2(seen + 1), None)
    {
      var nextAttempt := seen + 1;
      if nextAttempt >= maxAttempts {
        MarkDeliveryDeadLetter(id);
        return;
      }
      var delay := Backoff(p.backoff, nextAttempt);
      MarkDeliveryRetry(id, now + delay);
    }
  }

  /** base * 2^n by repeated doubling. */
  method Backoff(base: nat, n: nat) returns (delay: nat)
    ensures delay == base * Pow2(n)
  {
    delay := base;
    for k := 0 to n
      invariant delay == base * Pow2(k)
    {
      assert base * Pow2(k + 1) == 2 * (base * Pow2(k));
      delay := 2 * delay;
    }
  }
}
