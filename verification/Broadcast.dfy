/**
 The SDK's mutating call: prepare with retried reads, broadcast a signed
 transaction, then poll for its result. What the RPC answers, call by call, is
 an input.
 */
module Broadcast {
  import opened Options
  import opened Powers

  datatype Hash = Hash(hex: string)

  // ----- withRetry -----

  datatype Try<+T> = Ok(value: T) | Threw(network: bool)

  /** Tries up to and including number n decide: all earlier ones were network errors, and n ends the loop. */
  ghost predicate Decides<T>(tries: seq<Try<T>>, max: nat, n: nat) {
    && n < max && n < |tries|
    && (forall k :: 0 <= k < n ==> tries[k] == Threw(true))
    && (tries[n].Ok? || tries[n] == Threw(false) || n + 1 == max)
  }

  lemma DecidesOnce<T>(tries: seq<Try<T>>, max: nat, m: nat, n: nat)
    requires Decides(tries, max, m) && Decides(tries, max, n)
    ensures m == n
  {
  }

  /** Retries network errors only, at most `max` tries, doubling the pause; no try at all when max is 0. */
  method WithRetry<T>(tries: seq<Try<T>>, max: nat, base: nat) returns (r: Option<Try<T>>, used: nat, pauses: seq<nat>)
    requires |tries| >= max
    ensures max == 0 ==> r == None && used == 0
    ensures max > 0 ==> used > 0 && Decides(tries, max, used - 1) && r == Some(tries[used - 1])
    ensures |pauses| == if used == 0 then 0 else used - 1
    ensures forall k :: 0 <= k < |pauses| ==> pauses[k] == base * Pow2(k)
  {
    pauses := [];
    var attempt := 1;
    while attempt <= max
      invariant 1 <= attempt && (max > 0 ==> attempt <= max)
      invariant max == 0 ==> attempt == 1
      invariant |pauses| == attempt - 1
      invariant forall k :: 0 <= k < attempt - 1 ==> tries[k] == Threw(true)
      invariant forall k :: 0 <= k < |pauses| ==> pauses[k] == base * Pow2(k)
    {
      var t := tries[attempt - 1];
      if t.Ok? || !t.network || attempt == max {
        return Some(t), attempt, pauses;
      }
      pauses := pauses + [base * Pow2(attempt - 1)];
      attempt := attempt + 1;
    }
    return None, 0, pauses;
  }

  // ----- broadcast -----

  datatype SendStatus = PENDING | DUPLICATE | TRY_AGAIN_LATER | ERROR

  /** A send either fails in transport, when the RPC may or may not hold the transaction, or is answered. */
  datatype Answer = Transport | Answered(status: SendStatus, hash: Hash)

  datatype Sent = Queued(hash: Hash) | Lost | Refused | Busy(last: Hash, attempts: nat)

  function AtLeastOne(n: int): nat { if n < 1 then 1 else n }

  predicate TryAgain(a: Answer) { a.Answered? && a.status == TRY_AGAIN_LATER }

  /** The RPC may hold the transaction after this answer. */
  predicate MayHold(a: Answer) { a == Transport || (a.Answered? && (a.status == PENDING || a.status == DUPLICATE)) }

  /** What the last send's answer makes of the broadcast. */
  function Verdict(a: Answer, attempts: nat): Sent {
    if a == Transport then Lost
    else
      match a.status
      case ERROR => Refused
      case TRY_AGAIN_LATER => Busy(a.hash, attempts)
      case _ => Queued(a.hash)
  }

  /** `sends` is a lawful number of sends: each but the last was refused as busy, and busy ends it only at the limit. */
  ghost predicate LawfulSends(answers: seq<Answer>, maxAttempts: int, sends: nat) {
    && 1 <= sends <= AtLeastOne(maxAttempts) && sends <= |answers|
    && (forall k :: 0 <= k < sends - 1 ==> TryAgain(answers[k]))
    && (TryAgain(answers[sends - 1]) ==> sends == AtLeastOne(maxAttempts))
  }

  method BroadcastTx(answers: seq<Answer>, maxAttempts: int, base: nat)
    returns (r: Sent, sends: nat, pauses: seq<nat>)
    requires |answers| >= AtLeastOne(maxAttempts)
    ensures LawfulSends(answers, maxAttempts, sends)
    ensures r == Verdict(answers[sends - 1], AtLeastOne(maxAttempts))
    ensures sends == 1 || sends <= maxAttempts
    ensures r.Busy? ==> sends == if maxAttempts < 1 then 1 else maxAttempts
    ensures var last := answers[sends - 1];
      && (last.Answered? && last.status in {PENDING, DUPLICATE} ==> r == Queued(last.hash))
      && (last.Answered? && last.status == ERROR ==> r == Refused)
      && (last.Answered? && last.status == TRY_AGAIN_LATER ==> r.Busy? && r.last == last.hash && r.attempts == sends)
      && (last == Transport ==> r == Lost)
    ensures |pauses| == sends - 1 && forall k :: 0 <= k < |pauses| ==> pauses[k] == base * Pow2(k)
  {
    var max := if maxAttempts < 1 then 1 else maxAttempts;
    var lastRefused := Hash("");
    pauses := [];
    sends := 0;
    var attempt := 1;
    while attempt <= max
      invariant 1 <= attempt <= max + 1 && sends == attempt - 1
      invariant |pauses| == if sends < max then sends else max - 1
      invariant forall k :: 0 <= k < sends ==> TryAgain(answers[k])
      invariant sends > 0 ==> lastRefused == answers[sends - 1].hash
      invariant forall k :: 0 <= k < |pauses| ==> pauses[k] == base * Pow2(k)
    {
      var result := answers[attempt - 1];
      sends := attempt;
      if result == Transport {
        return Lost, sends, pauses;
      }
      if result.status != TRY_AGAIN_LATER {
        if result.status == ERROR {
          return Refused, sends, pauses;
        }
        return Queued(result.hash), sends, pauses;
      }
      lastRefused := result.hash;
      if attempt < max {
        pauses := pauses + [base * Pow2(attempt - 1)];
      }
      attempt := attempt + 1;
    }
    r := Busy(lastRefused, max);
  }

  function Holding(answers: seq<Answer>): nat {
    if answers == [] then 0
    else Holding(answers[..|answers| - 1]) + if MayHold(answers[|answers| - 1]) then 1 else 0
  }

  lemma {:induction false} BusyHoldsNothing(answers: seq<Answer>)
    requires forall k :: 0 <= k < |answers| ==> TryAgain(answers[k])
    ensures Holding(answers) == 0
  {
    if answers != [] {
      BusyHoldsNothing(answers[..|answers| - 1]);
    }
  }

  /**
   At most one send of a broadcast can have left the transaction with the RPC, and
   it is the last; when none can, the caller is told Refused or Busy, so trying
   the whole call again cannot submit twice.
   */
  lemma AtMostOneQueued(answers: seq<Answer>, maxAttempts: int, sends: nat)
    requires LawfulSends(answers, maxAttempts, sends)
    ensures Holding(answers[..sends]) <= 1
    ensures Holding(answers[..sends]) == 1 <==> MayHold(answers[sends - 1])
    ensures var r := Verdict(answers[sends - 1], AtLeastOne(maxAttempts));
      Holding(answers[..sends]) == 0 <==> r.Refused? || r.Busy?
  {
    var sent := answers[..sends];
    assert sent[..sends - 1] == answers[..sends - 1];
    BusyHoldsNothing(answers[..sends - 1]);
  }

  /** The answers alone fix how many sends there are. */
  lemma SendsFixed(answers: seq<Answer>, maxAttempts: int, m: nat, n: nat)
    requires LawfulSends(answers, maxAttempts, m) && LawfulSends(answers, maxAttempts, n)
    ensures m == n
  {
  }

  // ----- writeContract -----

  /** An answer of which only its arrival matters. */
  datatype Ack = Ack

  datatype TxStatus = SUCCESS | NOT_FOUND | FAILED

  const MAX_POLLS: nat := 30
  const READ_TRIES: nat := 3

  /** Everything the outside answers during one call: the reads before signing, the signature, the sends, the polls. */
  datatype World = World(
    account: seq<Try<Ack>>,
    simulation: seq<Try<bool>>,
    prepared: seq<Try<Ack>>,
    signed: bool,
    answers: seq<Answer>,
    polls: seq<seq<Try<TxStatus>>>)

  ghost predicate Enough(w: World, maxAttempts: int) {
    && |w.account| >= READ_TRIES && |w.simulation| >= READ_TRIES && |w.prepared| >= READ_TRIES
    && |w.answers| >= AtLeastOne(maxAttempts)
    && |w.polls| >= MAX_POLLS && forall k :: 0 <= k < |w.polls| ==> |w.polls[k]| >= READ_TRIES
  }

  datatype Outcome =
    | Done(hash: Hash)
    | RpcError
    | SimulationFailed
    | SigningFailed
    | NotSent(why: Sent)
    | TimedOut(hash: Hash)
    | TransactionFailed

  /** A read's answer is x: the deciding try of its retry loop was x. */
  ghost predicate Reads<T>(tries: seq<Try<T>>, x: Try<T>) {
    exists n: nat :: Decides(tries, READ_TRIES, n) && tries[n] == x
  }

  lemma ReadsOne<T>(tries: seq<Try<T>>, x: Try<T>, y: Try<T>)
    requires Reads(tries, x) && Reads(tries, y)
    ensures x == y
  {
    var m: nat :| Decides(tries, READ_TRIES, m) && tries[m] == x;
    var n: nat :| Decides(tries, READ_TRIES, n) && tries[n] == y;
    DecidesOnce(tries, READ_TRIES, m, n);
  }

  lemma OnlyRead<T>(tries: seq<Try<T>>, x: Try<T>)
    requires Reads(tries, x)
    ensures forall y :: Reads(tries, y) ==> y == x
  {
    forall y | Reads(tries, y) ensures y == x {
      ReadsOne(tries, x, y);
    }
  }

  method Read<T>(tries: seq<Try<T>>) returns (x: Try<T>)
    requires |tries| >= READ_TRIES
    ensures Reads(tries, x)
  {
    var r, used, pauses := WithRetry(tries, READ_TRIES, 1000);
    x := r.value;
  }

  /** Everything before the broadcast succeeded. */
  ghost predicate Ready(w: World) {
    Reads(w.account, Ok(Ack)) && Reads(w.simulation, Ok(true)) && Reads(w.prepared, Ok(Ack)) && w.signed
  }

  /** The first n status reads all answered NOT_FOUND. */
  ghost predicate Unseen(w: World, n: nat) {
    n <= |w.polls| && forall k :: 0 <= k < n ==> Reads(w.polls[k], Ok(NOT_FOUND))
  }

  /** The loop that waits for a transaction the RPC took. */
  method Poll(w: World, hash: Hash, maxAttempts: int) returns (r: Outcome, looks: nat)
    requires Enough(w, maxAttempts)
    ensures 1 <= looks <= 30 && Unseen(w, looks - 1)
    ensures r == Done(hash) <==> Reads(w.polls[looks - 1], Ok(SUCCESS))
    ensures r == TransactionFailed <==> Reads(w.polls[looks - 1], Ok(FAILED))
    ensures r == TimedOut(hash) <==> looks == 30 && Reads(w.polls[looks - 1], Ok(NOT_FOUND))
    ensures r == RpcError <==> exists e :: Reads(w.polls[looks - 1], Threw(e))
    ensures r == Done(hash) || r == TransactionFailed || r == TimedOut(hash) || r == RpcError
  {
    var response := Read(w.polls[0]);
    looks := 1;
    while response == Ok(NOT_FOUND) && looks < MAX_POLLS
      invariant 1 <= looks <= MAX_POLLS
      invariant Unseen(w, looks - 1)
      invariant Reads(w.polls[looks - 1], response)
    {
      response := Read(w.polls[looks]);
      looks := looks + 1;
    }
    OnlyRead(w.polls[looks - 1], response);
    hide Reads;
    if response.Threw? {
      assert Reads(w.polls[looks - 1], Threw(response.network));
      r := RpcError;
    } else if response.value == NOT_FOUND {
      r := TimedOut(hash);
    } else if response.value == FAILED {
      r := TransactionFailed;
    } else {
      r := Done(hash);
    }
  }

  /**
   Nothing is sent unless every earlier step succeeded; a hash is returned only for
   a transaction the RPC took and a status read saw succeed, and it is the hash the
   RPC gave for it.
   */
  method WriteContract(w: World, maxAttempts: int, base: nat) returns (r: Outcome, sends: nat, looks: nat)
    requires Enough(w, maxAttempts)
    ensures sends > 0 <==> Ready(w)
    ensures sends > 0 ==> LawfulSends(w.answers, maxAttempts, sends)
    ensures sends == 0 ==> r == RpcError || r == SimulationFailed || r == SigningFailed
    ensures looks > 0 <==> sends > 0 && Verdict(w.answers[sends - 1], AtLeastOne(maxAttempts)).Queued?
    ensures sends > 0 && looks == 0 ==> r == NotSent(Verdict(w.answers[sends - 1], AtLeastOne(maxAttempts)))
    ensures looks > 0 ==>
      && looks <= MAX_POLLS && Unseen(w, looks - 1)
      && (r.Done? <==> Reads(w.polls[looks - 1], Ok(SUCCESS)))
      && (r.Done? || r.TimedOut? ==> r.hash == w.answers[sends - 1].hash)
      && (r.TimedOut? <==> looks == MAX_POLLS && Reads(w.polls[looks - 1], Ok(NOT_FOUND)))
      && (r.TransactionFailed? <==> Reads(w.polls[looks - 1], Ok(FAILED)))
    ensures r.Done? ==> looks > 0
  {
    sends, looks := 0, 0;
    var account := Read(w.account);
    if account.Threw? {
      NotReady(w.account, account, Ok(Ack));
      return RpcError, 0, 0;
    }
    var sim := Read(w.simulation);
    if sim != Ok(true) {
      NotReady(w.simulation, sim, Ok(true));
      return if sim.Threw? then RpcError else SimulationFailed, 0, 0;
    }
    var prepared := Read(w.prepared);
    if prepared.Threw? {
      NotReady(w.prepared, prepared, Ok(Ack));
      return RpcError, 0, 0;
    }
    if !w.signed {
      return SigningFailed, 0, 0;
    }
    assert Ready(w) by {
      assert account.value.Ack? && prepared.value.Ack?;
    }
    var result, pauses;
    result, sends, pauses := BroadcastTx(w.answers, maxAttempts, base);
    if !result.Queued? {
      return NotSent(result), sends, 0;
    }
    r, looks := Poll(w, result.hash, maxAttempts);
  }

  lemma NotReady<T>(tries: seq<Try<T>>, x: Try<T>, wanted: Try<T>)
    requires Reads(tries, x) && x != wanted
    ensures !Reads(tries, wanted)
  {
    OnlyRead(tries, x);
  }
}
