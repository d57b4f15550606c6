/**
 Single-use challenge nonces (SEP-10 Stellar Web Authentication): the in-memory
 store and the order of checks when a signed challenge comes back. Parsing and
 signature verification are inputs. Times are nanoseconds.
 */
module Nonces {
  import opened Options

  datatype Nonce = Nonce(text: string)
  type Store = map<Nonce, int>

  /** Records a nonce and drops every expired one. */
  function Put(st: Store, nonce: Nonce, expiresAt: int, now: int): Store {
    (map n | n in st && now < st[n] :: st[n])[nonce := expiresAt]
  }

  function Consume(st: Store, nonce: Nonce, now: int): (Store, bool) {
    if nonce !in st then (st, false) else (st - {nonce}, now < st[nonce])
  }

  // ----- a submission and its checks -----

  datatype Operation = ManageData(source: string, name: string, value: Nonce) | OtherOperation

  /** Which keys a signature verifies under; `client` is false when the client address does not parse. */
  datatype Signature = Signature(server: bool, client: bool)

  datatype Submission = Submission(
    parses: bool,
    plain: bool,
    source: string,
    operations: seq<Operation>,
    minTime: int,
    maxTime: int,
    hashes: bool,
    signatures: seq<Signature>)

  datatype Reason =
    | BadXdr | BadType | BadSource | BadCount | BadOperation | NoClient | BadName | NoNonce
    | NoTimebounds | OutOfTime | NoHash | NoServerSignature | NoClientSignature | BadNonce

  datatype Verdict = Accepted(client: string) | Denied(reason: Reason)

  const OPERATION_NAME := "trusttrove auth"

  predicate ServerSigned(s: Submission) { exists i :: 0 <= i < |s.signatures| && s.signatures[i].server }

  /** A signature that verifies under the server's key is never counted for the client. */
  predicate ClientSigned(s: Submission) {
    exists i :: 0 <= i < |s.signatures| && s.signatures[i].client && !s.signatures[i].server
  }

  /** Every check before the nonce, in order. */
  function Check(server: string, s: Submission, seconds: int): Option<Reason> {
    if !s.parses then Some(BadXdr)
    else if !s.plain then Some(BadType)
    else if s.source != server then Some(BadSource)
    else if |s.operations| != 1 then Some(BadCount)
    else if !s.operations[0].ManageData? then Some(BadOperation)
    else if s.operations[0].source == "" then Some(NoClient)
    else if s.operations[0].name != OPERATION_NAME then Some(BadName)
    else if s.operations[0].value.text == "" then Some(NoNonce)
    else if s.maxTime == 0 then Some(NoTimebounds)
    else if seconds < s.minTime || seconds > s.maxTime then Some(OutOfTime)
    else if !s.hashes then Some(NoHash)
    else if !ServerSigned(s) then Some(NoServerSignature)
    else if !ClientSigned(s) then Some(NoClientSignature)
    else None
  }

  const SECOND: int := 1_000_000_000

  predicate Passes(server: string, s: Submission, checkedAt: int)
    ensures Passes(server, s, checkedAt) ==> |s.operations| == 1 && s.operations[0].ManageData?
  {
    Check(server, s, checkedAt / SECOND) == None
  }

  function Verify(server: string, st: Store, s: Submission, checkedAt: int, now: int): (Store, Verdict) {
    var failed := Check(server, s, checkedAt / SECOND);
    if failed.Some? then (st, Denied(failed.value))
    else
      var op := s.operations[0];
      var (rest, known) := Consume(st, op.value, now);
      (rest, if known then Accepted(op.source) else Denied(BadNonce))
  }

  /** Signatures verify under keys, and an address is a key: for a submission that names the server itself as
      the client, a signature verifies for the client exactly when it verifies for the server. */
  ghost predicate Consistent(server: string, s: Submission) {
    |s.operations| == 1 && s.operations[0].ManageData? && s.operations[0].source == server ==>
      forall i :: 0 <= i < |s.signatures| ==> s.signatures[i].client == s.signatures[i].server
  }

  /** A well-formed submission signed by the server and by the client. */
  function SignedByBoth(server: string, client: string): Submission {
    Submission(true, true, server, [ManageData(client, OPERATION_NAME, Nonce("nonce"))], 0, 1, true,
               [Signature(true, false), Signature(false, true)])
  }

  /** A submission passes every check before the nonce, in the name of `client`. */
  ghost predicate LogsIn(server: string, s: Submission, checkedAt: int, client: string) {
    Consistent(server, s) && Passes(server, s, checkedAt) && s.operations[0].source == client
  }

  /** Some submission can log a client in exactly when it has an address and that is not the server's own. */
  lemma LogInPossibleIff(server: string, client: string)
    ensures (exists s, checkedAt :: LogsIn(server, s, checkedAt, client)) <==> client != "" && client != server
  {
    if client != "" && client != server {
      var s := SignedByBoth(server, client);
      assert s.signatures[0].server && s.signatures[1].client && !s.signatures[1].server;
      assert LogsIn(server, s, 0, client);
    }
  }

  /** In the server's own name every log-in fails and leaves the store alone. */
  lemma ServerIsNoClient(server: string, st: Store, s: Submission, checkedAt: int, now: int)
    requires Consistent(server, s)
    requires |s.operations| == 1 && s.operations[0].ManageData? && s.operations[0].source == server
    ensures Verify(server, st, s, checkedAt, now).0 == st && Verify(server, st, s, checkedAt, now).1.Denied?
  {
  }

  // ----- runs -----

  datatype Op =
    | Issue(nonce: Nonce, expiresAt: int, at: int)
    | Submit(submission: Submission, checkedAt: int, at: int)

  function StepOp(server: string, st: Store, op: Op): (Store, bool) {
    match op
    case Issue(n, expiresAt, at) => (Put(st, n, expiresAt, at), false)
    case Submit(s, checkedAt, at) =>
      var (rest, verdict) := Verify(server, st, s, checkedAt, at);
      (rest, verdict.Accepted?)
  }

  function Exec(server: string, ops: seq<Op>): Store {
    if ops == [] then map[] else StepOp(server, Exec(server, ops[..|ops| - 1]), ops[|ops| - 1]).0
  }

  /** The clock does not go back. */
  ghost predicate Timed(ops: seq<Op>) { forall i, j :: 0 <= i < j < |ops| ==> ops[i].at <= ops[j].at }

  /** The op presents nonce n with everything else in order. */
  predicate Presents(server: string, op: Op, n: Nonce) {
    op.Submit? && Passes(server, op.submission, op.checkedAt) && op.submission.operations[0].value == n
  }

  predicate Redeems(server: string, ops: seq<Op>, op: Op, n: Nonce) {
    Presents(server, op, n) && StepOp(server, Exec(server, ops), op).1
  }

  function Issues(ops: seq<Op>, n: Nonce): nat {
    if ops == [] then 0
    else
      var op := ops[|ops| - 1];
      Issues(ops[..|ops| - 1], n) + if op.Issue? && op.nonce == n then 1 else 0
  }

  function Redemptions(server: string, ops: seq<Op>, n: Nonce): nat {
    if ops == [] then 0
    else
      var init := ops[..|ops| - 1];
      Redemptions(server, init, n) + if Redeems(server, init, ops[|ops| - 1], n) then 1 else 0
  }

  /** What one step does to one nonce. */
  lemma StepNonce(server: string, st: Store, op: Op, n: Nonce)
    ensures var (next, ok) := StepOp(server, st, op);
      && (Presents(server, op, n) ==> n !in next && (ok <==> n in st && op.at < st[n]))
      && (op.Issue? && op.nonce == n ==> n in next && next[n] == op.expiresAt)
      && (op.Issue? && op.nonce != n ==>
            (n in next <==> n in st && op.at < st[n]) && (n in next ==> next[n] == st[n]))
      && (op.Submit? && !Presents(server, op, n) ==> (n in next <==> n in st) && (n in st ==> next[n] == st[n]))
  {
    hide Check;
  }

  /** A nonce is redeemed no more often than it was issued, in every run and so at every point of one. */
  lemma {:induction false} RedeemedAtMostIssued(server: string, ops: seq<Op>, n: Nonce)
    ensures Redemptions(server, ops, n) + (if n in Exec(server, ops) then 1 else 0) <= Issues(ops, n)
  {
    if ops != [] {
      var init, op := ops[..|ops| - 1], ops[|ops| - 1];
      RedeemedAtMostIssued(server, init, n);
      StepNonce(server, Exec(server, init), op, n);
      hide StepOp, Presents;
    }
  }

  // ----- when a nonce is good, told from the history alone -----

  predicate Touches(server: string, op: Op, n: Nonce) {
    if op.Issue? then op.nonce == n else Presents(server, op, n)
  }

  /** The last thing that happened to n is that it was issued, to a time after t. */
  ghost predicate FreshAt(server: string, ops: seq<Op>, n: Nonce, t: int, i: nat) {
    && i < |ops| && ops[i].Issue? && ops[i].nonce == n && t < ops[i].expiresAt
    && forall k :: i < k < |ops| ==> !Touches(server, ops[k], n)
  }

  ghost predicate Fresh(server: string, ops: seq<Op>, n: Nonce, t: int) {
    exists i: nat :: FreshAt(server, ops, n, t, i)
  }

  lemma FreshSnoc(server: string, ops: seq<Op>, op: Op, n: Nonce, t: int)
    ensures Fresh(server, ops + [op], n, t) <==>
      if Touches(server, op, n) then op.Issue? && t < op.expiresAt else Fresh(server, ops, n, t)
  {
    hide Presents;
    var all := ops + [op];
    assert all[|ops|] == op && forall k :: 0 <= k < |ops| ==> all[k] == ops[k];
    if i: nat :| FreshAt(server, all, n, t, i) {
      if i < |ops| {
        assert !Touches(server, all[|ops|], n);
        assert FreshAt(server, ops, n, t, i);
      }
    }
    if Touches(server, op, n) {
      if op.Issue? && t < op.expiresAt {
        assert FreshAt(server, all, n, t, |ops|);
      }
    } else if i: nat :| FreshAt(server, ops, n, t, i) {
      assert FreshAt(server, all, n, t, i);
    }
  }

  ghost predicate Held(st: Store, n: Nonce, t: int) { n in st && t < st[n] }

  lemma HeldAfter(server: string, st: Store, op: Op, n: Nonce, t: int)
    requires op.at <= t
    ensures Held(StepOp(server, st, op).0, n, t) <==>
      if Touches(server, op, n) then op.Issue? && t < op.expiresAt else Held(st, n, t)
  {
    StepNonce(server, st, op, n);
    assert Presents(server, op, n) ==> op.Submit?;
    hide StepOp, Presents;
  }

  /** The store holds a nonce unexpired exactly when the history says so: pruning drops no live nonce. */
  lemma {:induction false} StoreMeans(server: string, ops: seq<Op>, n: Nonce, t: int)
    requires Timed(ops) && (ops != [] ==> ops[|ops| - 1].at <= t)
    ensures Held(Exec(server, ops), n, t) <==> Fresh(server, ops, n, t)
  {
    if ops != [] {
      var init, op := ops[..|ops| - 1], ops[|ops| - 1];
      assert ops == init + [op];
      assert Exec(server, ops) == StepOp(server, Exec(server, init), op).0;
      hide Fresh, Presents, StepOp, Exec, Touches, Held;
      StoreMeans(server, init, n, t);
      FreshSnoc(server, init, op, n, t);
      HeldAfter(server, Exec(server, init), op, n, t);
    } else {
      assert forall i: nat :: !FreshAt(server, ops, n, t, i);
    }
  }

  /**
   A submission is accepted exactly when every other check passes and the last
   thing that happened to its nonce is an issue that has not expired.
   */
  lemma AcceptsFresh(server: string, ops: seq<Op>, s: Submission, checkedAt: int, at: int)
    requires Timed(ops) && (ops != [] ==> ops[|ops| - 1].at <= at)
    ensures Verify(server, Exec(server, ops), s, checkedAt, at).1.Accepted? <==>
      Passes(server, s, checkedAt) && Fresh(server, ops, s.operations[0].value, at)
  {
    if Passes(server, s, checkedAt) {
      StoreMeans(server, ops, s.operations[0].value, at);
      hide Exec, Fresh;
    }
  }

  /** Everything but the nonce that makes a submission a log-in of `client`, spelled out. */
  ghost predicate Deserves(server: string, s: Submission, checkedAt: int, client: string) {
    && s.parses && s.plain && s.source == server
    && |s.operations| == 1 && s.operations[0].ManageData?
    && s.operations[0].source == client && client != ""
    && s.operations[0].name == "trusttrove auth" && s.operations[0].value.text != ""
    && s.maxTime != 0 && s.minTime <= checkedAt / 1_000_000_000 <= s.maxTime
    && s.hashes
    && (exists i :: 0 <= i < |s.signatures| && s.signatures[i].server)
    && (exists i :: 0 <= i < |s.signatures| && s.signatures[i].client && !s.signatures[i].server)
  }

  /**
   Over every run a submission logs in exactly the client that its one operation names, exactly when everything else is
   in order and the last thing that happened to its nonce is an unexpired issue. That client is never the server.
   */
  lemma AcceptedIff(server: string, ops: seq<Op>, s: Submission, checkedAt: int, at: int, client: string)
    requires Timed(ops) && (ops != [] ==> ops[|ops| - 1].at <= at)
    ensures var verdict := Verify(server, Exec(server, ops), s, checkedAt, at).1;
      && (verdict == Accepted(client) <==>
            Deserves(server, s, checkedAt, client) && Fresh(server, ops, s.operations[0].value, at))
      && (verdict == Accepted(client) && Consistent(server, s) ==> client != server)
  {
    AcceptsFresh(server, ops, s, checkedAt, at);
    DeservesPasses(server, s, checkedAt);
    hide Exec, Fresh, Passes, Timed, ServerSigned, ClientSigned;
    VerifyNames(server, Exec(server, ops), s, checkedAt, at);
  }

  lemma DeservesPasses(server: string, s: Submission, checkedAt: int)
    ensures Passes(server, s, checkedAt) <==>
      |s.operations| == 1 && s.operations[0].ManageData? && Deserves(server, s, checkedAt, s.operations[0].source)
  {
  }

  /** An accepted submission is its operation's source. */
  lemma VerifyNames(server: string, st: Store, s: Submission, checkedAt: int, now: int)
    ensures var verdict := Verify(server, st, s, checkedAt, now).1;
      verdict.Accepted? ==>
        Passes(server, s, checkedAt) && verdict == Accepted(s.operations[0].source)
  {
    hide Check;
  }

  /** What must hold for a submission not to be denied for this reason. */
  ghost predicate Meets(server: string, s: Submission, seconds: int, r: Reason) {
    var one := |s.operations| == 1 && s.operations[0].ManageData?;
    match r
    case BadXdr => s.parses
    case BadType => s.plain
    case BadSource => s.source == server
    case BadCount => |s.operations| == 1
    case BadOperation => one
    case NoClient => one && s.operations[0].source != ""
    case BadName => one && s.operations[0].name == "trusttrove auth"
    case NoNonce => one && s.operations[0].value.text != ""
    case NoTimebounds => s.maxTime != 0
    case OutOfTime => s.minTime <= seconds <= s.maxTime
    case NoHash => s.hashes
    case NoServerSignature => exists i :: 0 <= i < |s.signatures| && s.signatures[i].server
    case NoClientSignature => exists i :: 0 <= i < |s.signatures| && s.signatures[i].client && !s.signatures[i].server
    case BadNonce => true
  }

  /** The place of a reason in the order of checks. */
  function Rank(r: Reason): nat {
    match r
    case BadXdr => 0 case BadType => 1 case BadSource => 2 case BadCount => 3 case BadOperation => 4
    case NoClient => 5 case BadName => 6 case NoNonce => 7 case NoTimebounds => 8 case OutOfTime => 9
    case NoHash => 10 case NoServerSignature => 11 case NoClientSignature => 12 case BadNonce => 13
  }

  lemma CheckFinds(server: string, s: Submission, seconds: int, q: Reason)
    ensures var r := Check(server, s, seconds);
      && (r.Some? ==> r.value != BadNonce && !Meets(server, s, seconds, r.value))
      && (r.Some? && Rank(q) < Rank(r.value) ==> Meets(server, s, seconds, q))
      && (r.None? ==> Meets(server, s, seconds, q))
  {
  }

  /** A submission is denied for the first check that it fails, and for its nonce only when it fails none. */
  lemma DeniedFor(server: string, st: Store, s: Submission, checkedAt: int, now: int, r: Reason, q: Reason)
    requires Verify(server, st, s, checkedAt, now).1 == Denied(r)
    ensures r != BadNonce ==> !Meets(server, s, checkedAt / 1_000_000_000, r)
    ensures Rank(q) < Rank(r) ==> Meets(server, s, checkedAt / 1_000_000_000, q)
  {
    CheckFinds(server, s, checkedAt / SECOND, q);
    hide Check, Meets;
  }

  /** Until a new issue, a nonce presented once is never accepted again, however the first presentation ended. */
  lemma NoSecondUse(server: string, ops: seq<Op>, j: nat, s: Submission, checkedAt: int, at: int)
    requires Timed(ops) && j < |ops| && ops[|ops| - 1].at <= at
    requires Passes(server, s, checkedAt) && Presents(server, ops[j], s.operations[0].value)
    requires forall k :: j < k < |ops| && ops[k].Issue? ==> ops[k].nonce != s.operations[0].value
    ensures Verify(server, Exec(server, ops), s, checkedAt, at).1 == Denied(BadNonce)
  {
    var n := s.operations[0].value;
    AcceptsFresh(server, ops, s, checkedAt, at);
    assert ops[j].Submit? && Touches(server, ops[j], n);
    hide Exec, Presents;
  }

  // ----- the store as the server keeps it -----

  class NonceStore {
    var expires: Store

    constructor ()
      ensures expires == map[]
    {
      expires := map[];
    }

    /** Afterwards every other nonce in the store is live. */
    method PutNonce(nonce: Nonce, expiresAt: int, now: int)
      modifies this
      ensures expires == Put(old(expires), nonce, expiresAt, now)
      ensures forall n :: n in expires && n != nonce ==> now < expires[n]
    {
      var todo := expires.Keys;
      while todo != {}
        invariant todo <= expires.Keys <= old(expires).Keys
        invariant forall n :: n in old(expires) ==> (n in expires <==> n in todo || now < old(expires)[n])
        invariant forall n :: n in expires ==> expires[n] == old(expires)[n]
        decreases todo
      {
        var n :| n in todo;
        if !(now < expires[n]) {
          expires := expires - {n};
        }
        todo := todo - {n};
      }
      expires := expires[nonce := expiresAt];
      assert expires == Put(old(expires), nonce, expiresAt, now);
    }

    method ConsumeNonce(nonce: Nonce, now: int) returns (ok: bool)
      modifies this
      ensures (expires, ok) == Consume(old(expires), nonce, now)
    {
      if nonce !in expires {
        return false;
      }
      var expiresAt := expires[nonce];
      expires := expires - {nonce};
      ok := now < expiresAt;
    }

    /** A submission that fails an earlier check leaves the store as it was. */
    method VerifyChallenge(server: string, s: Submission, checkedAt: int, now: int) returns (r: Verdict)
      modifies this
      ensures (expires, r) == Verify(server, old(expires), s, checkedAt, now)
      ensures r.Denied? && r.reason != BadNonce ==> expires == old(expires)
    {
      if !s.parses { return Denied(BadXdr); }
      if !s.plain { return Denied(BadType); }
      if s.source != server { return Denied(BadSource); }
      if |s.operations| != 1 { return Denied(BadCount); }
      if !s.operations[0].ManageData? { return Denied(BadOperation); }
      var op := s.operations[0];
      if op.source == "" { return Denied(NoClient); }
      if op.name != OPERATION_NAME { return Denied(BadName); }
      if op.value.text == "" { return Denied(NoNonce); }
      if s.maxTime == 0 { return Denied(NoTimebounds); }
      var seconds := checkedAt / SECOND;
      if seconds < s.minTime || seconds > s.maxTime { return Denied(OutOfTime); }
      if !s.hashes { return Denied(NoHash); }
      var serverSigned, clientSigned := Signers(s);
      if !serverSigned { return Denied(NoServerSignature); }
      if !clientSigned { return Denied(NoClientSignature); }
      var known := ConsumeNonce(op.value, now);
      r := if known then Accepted(op.source) else Denied(BadNonce);
    }
  }

  method Signers(s: Submission) returns (serverSigned: bool, clientSigned: bool)
    ensures serverSigned <==> ServerSigned(s)
    ensures clientSigned <==> ClientSigned(s)
  {
    serverSigned, clientSigned := false, false;
    for i := 0 to |s.signatures|
      invariant serverSigned <==> exists k :: 0 <= k < i && s.signatures[k].server
      invariant clientSigned <==> exists k :: 0 <= k < i && s.signatures[k].client && !s.signatures[k].server
    {
      if s.signatures[i].server {
        serverSigned := true;
        continue;
      }
      if s.signatures[i].client {
        clientSigned := true;
      }
    }
  }
}
