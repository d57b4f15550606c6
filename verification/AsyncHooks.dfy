/**
 The React hooks' asynchronous state: queries, where each run carries a
 generation number and only the newest run may write, and mutations, which are
 counted while in flight. Code between two awaits runs as one step.
 */
module AsyncHooks {
  import opened Options

  datatype Failure = Failure(message: string)
  datatype Outcome<+T> = Resolved(value: T) | Rejected(error: Failure)

  // ----- queries -----

  /** Runs are numbered in the order they start: by the effect or by refetch, which call the same function. */
  datatype Op<+T> = Start | Settle(run: nat, outcome: Outcome<T>) | Cleanup

  /** `gens[r]` is the generation that run r captured, `aborted` the runs whose signal fired. */
  datatype State<+T> = State(
    generation: nat,
    gens: seq<nat>,
    controller: Option<nat>,
    aborted: set<nat>,
    data: Option<T>,
    isLoading: bool,
    error: Option<Failure>)

  function Initial<T>(): State<T> { State(0, [], None, {}, None, true, None) }

  function Abort(aborted: set<nat>, controller: Option<nat>): set<nat> {
    if controller.Some? then aborted + {controller.value} else aborted
  }

  function Begin<T>(s: State<T>): State<T> {
    s.(generation := s.generation + 1,
       gens := s.gens + [s.generation + 1],
       controller := Some(|s.gens|),
       aborted := Abort(s.aborted, s.controller),
       isLoading := true,
       error := None)
  }

  function Finish<T>(s: State<T>, generation: nat, outcome: Outcome<T>): State<T> {
    if generation != s.generation then s
    else if outcome.Resolved? then s.(data := Some(outcome.value), isLoading := false)
    else s.(error := Some(outcome.error), isLoading := false)
  }

  function Invalidate<T>(s: State<T>): State<T> {
    s.(generation := s.generation + 1, controller := None, aborted := Abort(s.aborted, s.controller))
  }

  /** A run settles once, after it started. */
  ghost predicate Possible<T>(ops: seq<Op<T>>) {
    forall k :: 0 <= k < |ops| && ops[k].Settle? ==>
      && ops[k].run < Starts(ops[..k])
      && forall j :: 0 <= j < k && ops[j].Settle? ==> ops[j].run != ops[k].run
  }

  function Starts<T>(ops: seq<Op<T>>): nat {
    if ops == [] then 0 else Starts(ops[..|ops| - 1]) + if ops[|ops| - 1].Start? then 1 else 0
  }

  function Step<T>(s: State<T>, op: Op<T>): State<T> {
    match op
    case Start => Begin(s)
    case Settle(r, outcome) => if r < |s.gens| then Finish(s, s.gens[r], outcome) else s
    case Cleanup => Invalidate(s)
  }

  function Exec<T>(ops: seq<Op<T>>): State<T> {
    if ops == [] then Initial() else Step(Exec(ops[..|ops| - 1]), ops[|ops| - 1])
  }

  // ----- who may write, told from the history alone -----

  /** The last start or cleanup in the history is the start of run r, at i. */
  ghost predicate NewestAt<T>(ops: seq<Op<T>>, r: nat, i: nat) {
    && i < |ops| && ops[i].Start? && Starts(ops[..i]) == r
    && forall k :: i < k < |ops| ==> ops[k].Settle?
  }

  ghost predicate Newest<T>(ops: seq<Op<T>>, r: nat) { exists i :: NewestAt(ops, r, i) }

  /** The settlement at k belongs to the run that is newest then. */
  ghost predicate Writes<T>(ops: seq<Op<T>>, k: nat) {
    k < |ops| && ops[k].Settle? && Newest(ops[..k], ops[k].run)
  }

  lemma NewestSnoc<T>(ops: seq<Op<T>>, op: Op<T>, r: nat)
    ensures Newest(ops + [op], r) <==>
      if op.Start? then r == Starts(ops) else op.Settle? && Newest(ops, r)
  {
    var all := ops + [op];
    assert forall i :: 0 <= i <= |ops| ==> all[..i] == ops[..i];
    assert ops[..|ops|] == ops;
    if op.Start? {
      assert r == Starts(ops) ==> NewestAt(all, r, |ops|);
      assert all[|ops|] == op;
      assert forall i: nat :: NewestAt(all, r, i) ==> i == |ops|;
    } else {
      if i :| NewestAt(all, r, i) {
        assert all[|ops|] == op;
        assert NewestAt(ops, r, i);
      }
      if i :| NewestAt(ops, r, i) {
        assert op.Settle? ==> NewestAt(all, r, i);
      }
    }
  }

  lemma StepSnoc<T>(ops: seq<Op<T>>, op: Op<T>)
    ensures Exec(ops + [op]) == Step(Exec(ops), op)
    ensures Starts(ops + [op]) == Starts(ops) + if op.Start? then 1 else 0
  {
    assert (ops + [op])[..|ops|] == ops;
  }

  ghost predicate Superseded<T>(s: State<T>, r: nat) { r < |s.gens| && s.gens[r] != s.generation }

  /** Generations: each run has its own, rising, and the counter is ahead of or level with them all. */
  ghost predicate Numbered<T>(s: State<T>) {
    && (forall r :: 0 <= r < |s.gens| ==> s.gens[r] <= s.generation)
    && (forall q, r :: 0 <= q < r < |s.gens| ==> s.gens[q] < s.gens[r])
    && (s.controller.Some? ==> |s.gens| > 0 && s.controller.value == |s.gens| - 1)
    && (s.controller.Some? <==> |s.gens| > 0 && s.gens[|s.gens| - 1] == s.generation)
    && (forall r: nat :: r in s.aborted <==> Superseded(s, r))
  }

  lemma StepOrdered<T>(s: State<T>, op: Op<T>)
    requires Numbered(s)
    ensures var t := Step(s, op);
      && (forall r :: 0 <= r < |t.gens| ==> t.gens[r] <= t.generation)
      && (forall q, r :: 0 <= q < r < |t.gens| ==> t.gens[q] < t.gens[r])
  {
    hide Superseded, Abort;
  }

  lemma StepAborted<T>(s: State<T>, op: Op<T>, r: nat)
    requires Numbered(s)
    ensures r in Step(s, op).aborted <==> Superseded(Step(s, op), r)
  {
    assert r in s.aborted <==> Superseded(s, r);
    assert r < |s.gens| ==> s.gens[r] <= s.generation;
    assert r < |s.gens| - 1 ==> s.gens[r] < s.gens[|s.gens| - 1];
  }

  lemma StepNumbered<T>(s: State<T>, op: Op<T>)
    requires Numbered(s)
    ensures Numbered(Step(s, op))
  {
    StepOrdered(s, op);
    forall r: nat ensures r in Step(s, op).aborted <==> Superseded(Step(s, op), r) {
      StepAborted(s, op, r);
    }
    hide Superseded, Abort;
  }

  /** The generation check singles out the newest run, and exactly the other runs have been aborted. */
  lemma {:induction false} GenerationsMean<T>(ops: seq<Op<T>>)
    ensures var s := Exec(ops);
      && Numbered(s) && |s.gens| == Starts(ops)
      && forall r :: 0 <= r < |s.gens| ==> (s.gens[r] == s.generation <==> Newest(ops, r))
  {
    if ops != [] {
      hide Exec, Newest, Numbered, Starts;
      var init, op := ops[..|ops| - 1], ops[|ops| - 1];
      assert ops == init + [op];
      GenerationsMean(init);
      StepSnoc(init, op);
      StepNumbered(Exec(init), op);
      forall r | 0 <= r < |Exec(ops).gens| ensures Exec(ops).gens[r] == Exec(ops).generation <==> Newest(ops, r) {
        NewestSnoc(init, op, r);
        CurrentSnoc(Exec(init), op, r);
      }
    } else {
      assert forall r: nat :: !Superseded(Exec(ops), r);
    }
  }

  /** After a step, which runs hold the current generation. */
  lemma CurrentSnoc<T>(s: State<T>, op: Op<T>, r: nat)
    requires Numbered(s) && r < |Step(s, op).gens|
    ensures Step(s, op).gens[r] == Step(s, op).generation <==>
      if op.Start? then r == |s.gens| else op.Settle? && r < |s.gens| && s.gens[r] == s.generation
  {
    hide Superseded, Abort;
  }

  lemma PossiblePrefix<T>(ops: seq<Op<T>>, k: nat)
    requires Possible(ops) && k <= |ops|
    ensures Possible(ops[..k])
  {
    assert forall j :: 0 <= j < k ==> ops[..k][..j] == ops[..j];
  }

  /** What a settlement does: everything it may when its run is the newest, and nothing at all otherwise. */
  lemma SettleWritesIff<T>(ops: seq<Op<T>>, run: nat, outcome: Outcome<T>)
    requires run < Starts(ops)
    ensures var s, t := Exec(ops), Exec(ops + [Settle(run, outcome)]);
      if Newest(ops, run) then
        && !t.isLoading && (outcome.Resolved? ==> t.data == Some(outcome.value) && t.error == s.error)
        && (outcome.Rejected? ==> t.error == Some(outcome.error) && t.data == s.data)
      else t == s
  {
    GenerationsMean(ops);
    StepSnoc(ops, Settle(run, outcome));
    hide Exec, Newest;
  }

  /** Writers are newer and newer runs: a superseded run never writes, and no run writes twice. */
  lemma WritersRise<T>(ops: seq<Op<T>>, j: nat, k: nat)
    requires Possible(ops) && j < k && Writes(ops, j) && Writes(ops, k)
    ensures ops[j].run < ops[k].run
  {
    var a: nat :| NewestAt(ops[..j], ops[j].run, a);
    var b: nat :| NewestAt(ops[..k], ops[k].run, b);
    assert ops[..j][a] == ops[a] && ops[..k][b] == ops[b];
    assert ops[..j][..a] == ops[..a] && ops[..k][..b] == ops[..b];
    assert a < k && ops[..k][a] == ops[a];
    assert a <= b;
    StartsGrow(ops, a, b);
  }

  lemma {:induction false} StartsGrow<T>(ops: seq<Op<T>>, a: nat, b: nat)
    requires a <= b < |ops| && ops[a].Start?
    ensures Starts(ops[..a]) <= Starts(ops[..b]) && (a < b ==> Starts(ops[..a]) < Starts(ops[..b]))
  {
    if a < b {
      StartsGrow(ops, a, b - 1);
      assert ops[..b][..b - 1] == ops[..b - 1];
    }
  }

  // ----- what the screen shows -----

  /** The last start in the history is at i. */
  ghost predicate LastStart<T>(ops: seq<Op<T>>, i: nat) {
    i < |ops| && ops[i].Start? && forall k :: i < k < |ops| ==> !ops[k].Start?
  }

  /** The run that started last settled at k, and nothing had invalidated it. */
  ghost predicate SettledAt<T>(ops: seq<Op<T>>, i: nat, k: nat) { LastStart(ops, i) && i < k && Writes(ops, k) }

  ghost predicate NewestSettled<T>(ops: seq<Op<T>>) { exists i: nat, k: nat :: SettledAt(ops, i, k) }

  ghost predicate NewestFailed<T>(ops: seq<Op<T>>, e: Failure) {
    exists i: nat, k: nat :: SettledAt(ops, i, k) && ops[k].outcome == Rejected(e)
  }

  lemma WritesPrefix<T>(ops: seq<Op<T>>, op: Op<T>, k: nat)
    requires k < |ops|
    ensures Writes(ops + [op], k) <==> Writes(ops, k)
  {
    assert (ops + [op])[..k] == ops[..k];
  }

  /** A settlement already made stands until the next start. */
  lemma SettledStays<T>(ops: seq<Op<T>>, op: Op<T>, i: nat, k: nat)
    requires k < |ops|
    ensures SettledAt(ops + [op], i, k) <==> !op.Start? && SettledAt(ops, i, k)
  {
    var all := ops + [op];
    WritesPrefix(ops, op, k);
    assert all[|ops|] == op;
    assert forall m :: 0 <= m < |ops| ==> all[m] == ops[m];
    hide Writes;
  }

  lemma SettlesNow<T>(ops: seq<Op<T>>, op: Op<T>) returns (i: nat)
    requires Writes(ops + [op], |ops|)
    ensures SettledAt(ops + [op], i, |ops|)
  {
    var all := ops + [op];
    assert all[..|ops|] == ops;
    i :| NewestAt(ops, op.run, i);
    assert forall m :: 0 <= m < |ops| ==> all[m] == ops[m];
  }

  lemma NewestSettledSnoc<T>(ops: seq<Op<T>>, op: Op<T>)
    ensures NewestSettled(ops + [op]) <==>
      !op.Start? && (NewestSettled(ops) || Writes(ops + [op], |ops|))
  {
    var all := ops + [op];
    if i: nat, k: nat :| SettledAt(all, i, k) {
      if k < |ops| {
        SettledStays(ops, op, i, k);
      }
    }
    if i: nat, k: nat :| SettledAt(ops, i, k) {
      SettledStays(ops, op, i, k);
    }
    if Writes(all, |ops|) {
      var i := SettlesNow(ops, op);
    }
  }

  /** The last start settles once. */
  lemma SettledOnce<T>(ops: seq<Op<T>>, i: nat, j: nat, k: nat)
    requires Possible(ops) && SettledAt(ops, i, j) && SettledAt(ops, i, k)
    ensures j == k
  {
    WriterRun(ops, i, j);
    WriterRun(ops, i, k);
  }

  lemma WriterRun<T>(ops: seq<Op<T>>, i: nat, k: nat)
    requires SettledAt(ops, i, k)
    ensures ops[k].run == Starts(ops[..i])
  {
    var a: nat :| NewestAt(ops[..k], ops[k].run, a);
    assert ops[..k][a] == ops[a] && ops[..k][i] == ops[i];
    assert a == i;
    assert ops[..k][..i] == ops[..i];
  }

  lemma LastStartUnique<T>(ops: seq<Op<T>>, i: nat, j: nat)
    requires LastStart(ops, i) && LastStart(ops, j)
    ensures i == j
  {
  }

  lemma NewestFailedSnoc<T>(ops: seq<Op<T>>, op: Op<T>, e: Failure)
    requires Possible(ops + [op])
    ensures NewestFailed(ops + [op], e) <==>
      !op.Start? && (if Writes(ops + [op], |ops|) then op.outcome == Rejected(e) else NewestFailed(ops, e))
  {
    var all := ops + [op];
    if Writes(all, |ops|) {
      var i := SettlesNow(ops, op);
      if a: nat, k: nat :| SettledAt(all, a, k) && all[k].outcome == Rejected(e) {
        LastStartUnique(all, i, a);
        SettledOnce(all, i, |ops|, k);
      }
      assert SettledAt(all, i, |ops|) && all[|ops|] == op;
    } else {
      if i: nat, k: nat :| SettledAt(all, i, k) && all[k].outcome == Rejected(e) {
        SettledStays(ops, op, i, k);
        assert SettledAt(ops, i, k) && ops[k] == all[k];
      }
      if i: nat, k: nat :| SettledAt(ops, i, k) && ops[k].outcome == Rejected(e) {
        SettledStays(ops, op, i, k);
        assert all[k] == ops[k];
      }
    }
  }

  /** isLoading stays true exactly until the newest run settles; one invalidated by a cleanup never clears it. */
  lemma {:induction false} LoadingExact<T>(ops: seq<Op<T>>)
    requires Possible(ops)
    ensures Exec(ops).isLoading <==> !NewestSettled(ops)
  {
    if ops != [] {
      var init, op := ops[..|ops| - 1], ops[|ops| - 1];
      assert ops == init + [op];
      PossiblePrefix(ops, |ops| - 1);
      LoadingExact(init);
      NewestSettledSnoc(init, op);
      StepSnoc(init, op);
      assert Writes(ops, |init|) <==> op.Settle? && Newest(init, op.run);
      if op.Settle? {
        SettleWritesIff(init, op.run, op.outcome);
      }
      hide Exec, NewestSettled, Writes, Newest, Possible;
    } else {
      assert forall i: nat :: !LastStart(ops, i);
    }
  }

  /** The last value written is the one at k. */
  ghost predicate LastValue<T>(ops: seq<Op<T>>, k: nat) {
    && Writes(ops, k) && ops[k].outcome.Resolved?
    && forall j :: k < j < |ops| && Writes(ops, j) ==> ops[j].outcome.Rejected?
  }

  /** No run has written a value. */
  ghost predicate NoValue<T>(ops: seq<Op<T>>) {
    forall j: nat :: Writes(ops, j) ==> ops[j].outcome.Rejected?
  }

  /** The settlement that ends the history writes a value. */
  ghost predicate ValueNow<T>(ops: seq<Op<T>>, op: Op<T>) {
    Writes(ops + [op], |ops|) && op.Settle? && op.outcome.Resolved?
  }

  lemma ValueSnoc<T>(ops: seq<Op<T>>, op: Op<T>, k: nat)
    ensures ValueNow(ops, op) ==> LastValue(ops + [op], |ops|)
    ensures !ValueNow(ops, op) && LastValue(ops, k) ==> LastValue(ops + [op], k)
    ensures !ValueNow(ops, op) && NoValue(ops) ==> NoValue(ops + [op])
  {
    forall j: nat | j < |ops| ensures Writes(ops + [op], j) <==> Writes(ops, j) {
      WritesPrefix(ops, op, j);
    }
    WritesSettle(ops + [op], |ops|);
    assert forall j: nat :: Writes(ops + [op], j) ==> j <= |ops|;
    hide Writes;
  }

  /** Data is the value of the last successful write, and there is none as long as none was made. */
  lemma {:induction false} DataExact<T>(ops: seq<Op<T>>) returns (k: nat)
    requires Possible(ops)
    ensures Exec(ops).data.Some? ==> LastValue(ops, k) && Exec(ops).data == Some(ops[k].outcome.value)
    ensures Exec(ops).data.None? ==> NoValue(ops)
  {
    k := 0;
    if ops != [] {
      hide Exec, Writes, Newest, Possible, LastValue, NoValue, ValueNow;
      var init, op := ops[..|ops| - 1], ops[|ops| - 1];
      assert ops == init + [op];
      PossiblePrefix(ops, |ops| - 1);
      PossibleLast(init, op);
      k := DataExact(init);
      DataStep(init, op);
      ValueSnoc(init, op, k);
      if ValueNow(init, op) {
        k := |init|;
      } else {
        LastValueIn(init, k);
      }
    }
  }

  lemma LastValueIn<T>(ops: seq<Op<T>>, k: nat)
    ensures LastValue(ops, k) ==> k < |ops|
  {
  }

  lemma WritesSettle<T>(ops: seq<Op<T>>, k: nat)
    ensures Writes(ops, k) ==> k < |ops| && ops[k].Settle?
  {
  }

  lemma PossibleLast<T>(ops: seq<Op<T>>, op: Op<T>)
    requires Possible(ops + [op])
    ensures op.Settle? ==> op.run < Starts(ops)
  {
    assert (ops + [op])[..|ops|] == ops && (ops + [op])[|ops|] == op;
  }

  /** What one step does to the data. */
  lemma DataStep<T>(ops: seq<Op<T>>, op: Op<T>)
    requires op.Settle? ==> op.run < Starts(ops)
    ensures ValueNow(ops, op) ==> op.Settle? && op.outcome.Resolved? && Exec(ops + [op]).data == Some(op.outcome.value)
    ensures !ValueNow(ops, op) ==> Exec(ops + [op]).data == Exec(ops).data
  {
    StepSnoc(ops, op);
    assert (ops + [op])[..|ops|] == ops;
    if op.Settle? {
      SettleWritesIff(ops, op.run, op.outcome);
    }
  }

  /** What one step does to the error. */
  lemma ErrorStep<T>(ops: seq<Op<T>>, op: Op<T>)
    requires op.Settle? ==> op.run < Starts(ops)
    ensures Exec(ops + [op]).error ==
      if op.Start? then None
      else if Writes(ops + [op], |ops|) && op.outcome.Rejected? then Some(op.outcome.error)
      else Exec(ops).error
  {
    StepSnoc(ops, op);
    assert (ops + [op])[..|ops|] == ops;
    if op.Settle? {
      SettleWritesIff(ops, op.run, op.outcome);
    }
  }

  /** Before a run writes, the error its start cleared stays clear. */
  lemma {:induction false} ClearUntilSettled<T>(ops: seq<Op<T>>)
    requires Possible(ops) && !NewestSettled(ops)
    ensures Exec(ops).error == None
  {
    if ops != [] {
      var init, op := ops[..|ops| - 1], ops[|ops| - 1];
      assert ops == init + [op];
      PossiblePrefix(ops, |ops| - 1);
      ErrorStep(init, op);
      NewestSettledSnoc(init, op);
      hide Exec, Writes, NewestSettled, Possible;
      if !op.Start? {
        ClearUntilSettled(init);
      }
    }
  }

  lemma NewestWritesOnce<T>(ops: seq<Op<T>>, op: Op<T>)
    requires Possible(ops + [op]) && Writes(ops + [op], |ops|)
    ensures !NewestSettled(ops)
  {
    var i := SettlesNow(ops, op);
    if a: nat, k: nat :| SettledAt(ops, a, k) {
      SettledStays(ops, op, a, k);
      LastStartUnique(ops + [op], i, a);
      SettledOnce(ops + [op], i, |ops|, k);
    }
  }

  /** An error is shown exactly when the newest run settled by failing, and it is that run's error. */
  lemma {:induction false} ErrorExact<T>(ops: seq<Op<T>>, e: Failure)
    requires Possible(ops)
    ensures Exec(ops).error == Some(e) <==> NewestFailed(ops, e)
  {
    if ops != [] {
      var init, op := ops[..|ops| - 1], ops[|ops| - 1];
      assert ops == init + [op];
      PossiblePrefix(ops, |ops| - 1);
      ErrorExact(init, e);
      ErrorStep(init, op);
      NewestFailedSnoc(init, op, e);
      if Writes(ops, |init|) {
        NewestWritesOnce(init, op);
        ClearUntilSettled(init);
      }
      hide Exec, Writes, Possible, NewestFailed, NewestSettled;
    }
  }

  /** The hook's refs and state, changed by every step. */
  class AsyncQuery<T> {
    var generation: nat
    var controller: Option<nat>
    var data: Option<T>
    var isLoading: bool
    var error: Option<Failure>
    ghost var gens: seq<nat>
    var aborted: set<nat>

    ghost function Shown(): State<T> reads this {
      State(generation, gens, controller, aborted, data, isLoading, error)
    }

    constructor ()
      ensures Shown() == Initial()
    {
      generation, controller, data, isLoading, error := 0, None, None, true, None;
      gens, aborted := [], {};
    }

    /** The part of a run before its await; `run` names its abort signal, and `mine` is what its continuation
        captures. */
    method BeginRun(run: nat) returns (mine: nat)
      requires run == |gens|
      modifies this
      ensures Shown() == Begin(old(Shown())) && mine == gens[run]
    {
      if controller.Some? {
        aborted := aborted + {controller.value};
      }
      controller := Some(run);
      generation := generation + 1;
      mine := generation;
      gens := gens + [mine];
      isLoading := true;
      error := None;
    }

    /** The part after the await. */
    method SettleRun(mine: nat, outcome: Outcome<T>)
      modifies this
      ensures Shown() == Finish(old(Shown()), mine, outcome)
    {
      if mine == generation {
        match outcome {
          case Resolved(value) => data := Some(value);
          case Rejected(e) => error := Some(e);
        }
      }
      if mine == generation {
        isLoading := false;
      }
    }

    method CleanUp()
      modifies this
      ensures Shown() == Invalidate(old(Shown()))
    {
      generation := generation + 1;
      if controller.Some? {
        aborted := aborted + {controller.value};
      }
      controller := None;
    }
  }

  // ----- mutations -----

  /** Calls are numbered in the order they are made. */
  datatype Act = Call | Done(call: nat, failure: Option<Failure>)

  datatype Pending = Pending(inFlight: int, isPending: bool, error: Option<Failure>)

  function Enter(m: Pending): Pending { Pending(m.inFlight + 1, true, None) }

  function Leave(m: Pending, failure: Option<Failure>): Pending {
    var left := m.inFlight - 1;
    Pending(left, if left == 0 then false else m.isPending, if failure.Some? then failure else m.error)
  }

  function Act1(m: Pending, act: Act): Pending { if act.Call? then Enter(m) else Leave(m, act.failure) }

  function Perform(acts: seq<Act>): Pending {
    if acts == [] then Pending(0, false, None) else Act1(Perform(acts[..|acts| - 1]), acts[|acts| - 1])
  }

  function Calls(acts: seq<Act>): nat {
    if acts == [] then 0 else Calls(acts[..|acts| - 1]) + if acts[|acts| - 1].Call? then 1 else 0
  }

  /** Call c was made and has not come back. */
  ghost predicate Out(acts: seq<Act>, c: nat) {
    c < Calls(acts) && forall k :: 0 <= k < |acts| && acts[k].Done? ==> acts[k].call != c
  }

  /** Every return is of a call that is out at that moment. */
  ghost predicate Matched(acts: seq<Act>) {
    forall k :: 0 <= k < |acts| && acts[k].Done? ==> Out(acts[..k], acts[k].call)
  }

  lemma OutSnoc(acts: seq<Act>, act: Act, c: nat)
    requires Matched(acts + [act])
    ensures Out(acts + [act], c) <==>
      if act.Call? then Out(acts, c) || c == Calls(acts) else Out(acts, c) && c != act.call
  {
    var all := acts + [act];
    assert all[..|acts|] == acts && all[|acts|] == act;
    assert forall k :: 0 <= k < |acts| ==> all[k] == acts[k];
    if c == Calls(acts) {
      forall k | 0 <= k < |acts| && acts[k].Done? ensures acts[k].call != c {
        assert all[..k] == acts[..k];
        CallsGrow(acts, k);
      }
    }
  }

  lemma {:induction false} CallsGrow(acts: seq<Act>, k: nat)
    requires k <= |acts|
    ensures Calls(acts[..k]) <= Calls(acts)
  {
    if k < |acts| {
      var init := acts[..|acts| - 1];
      CallsGrow(init, k);
      assert init[..k] == acts[..k];
    } else {
      assert acts[..k] == acts;
    }
  }

  /** The counter counts the calls that are out, so isPending holds exactly while there is one. */
  lemma {:induction false} PendingExact(acts: seq<Act>) returns (out: set<nat>)
    requires Matched(acts)
    ensures forall c :: c in out <==> Out(acts, c)
    ensures Perform(acts).inFlight == |out|
    ensures Perform(acts).isPending <==> exists c :: Out(acts, c)
  {
    if acts == [] {
      out := {};
    } else {
      var init, act := acts[..|acts| - 1], acts[|acts| - 1];
      assert acts == init + [act];
      assert forall k :: 0 <= k < |init| ==> acts[..k] == init[..k];
      var before := PendingExact(init);
      forall c: nat ensures Out(acts, c) <==>
        if act.Call? then Out(init, c) || c == Calls(init) else Out(init, c) && c != act.call
      {
        OutSnoc(init, act, c);
      }
      assert act.Done? ==> Out(init, act.call);
      assert !Out(init, Calls(init));
      var m := Perform(init);
      assert Perform(acts) == Act1(m, act);
      hide Out, Matched, Perform;
      if act.Call? {
        out := before + {Calls(init)};
        assert Calls(init) in out;
      } else {
        assert act.call in before;
        out := before - {act.call};
        assert |out| == |before| - 1;
        if out != {} {
          var c :| c in out;
        }
      }
    }
  }

  /** The last call or failed return in the history is at k. */
  ghost predicate LastWord(acts: seq<Act>, k: nat) {
    && k < |acts| && (acts[k].Call? || acts[k].failure.Some?)
    && forall j :: k < j < |acts| ==> acts[j].Done? && acts[j].failure.None?
  }

  /** A mutation shows an error exactly when the last call or failed return was that failure: a new call clears it,
      and a success does not. */
  lemma {:induction false} MutationErrorExact(acts: seq<Act>, e: Failure)
    ensures Perform(acts).error == Some(e) <==>
      exists k: nat :: LastWord(acts, k) && acts[k].Done? && acts[k].failure == Some(e)
  {
    if acts != [] {
      var init, act := acts[..|acts| - 1], acts[|acts| - 1];
      assert acts == init + [act];
      MutationErrorExact(init, e);
      if act.Call? || act.failure.Some? {
        assert LastWord(acts, |init|);
        assert forall k: nat :: LastWord(acts, k) ==> k == |init|;
      } else {
        forall k: nat ensures LastWord(acts, k) <==> LastWord(init, k) {
          assert k < |init| ==> acts[k] == init[k];
        }
      }
    }
  }

  class AsyncMutation {
    var inFlight: int
    var isPending: bool
    var error: Option<Failure>

    ghost function Shown(): Pending reads this { Pending(inFlight, isPending, error) }

    constructor ()
      ensures Shown() == Perform([])
    {
      inFlight, isPending, error := 0, false, None;
    }

    method BeginCall()
      modifies this
      ensures Shown() == Enter(old(Shown()))
    {
      inFlight := inFlight + 1;
      isPending := true;
      error := None;
    }

    method EndCall(failure: Option<Failure>)
      modifies this
      ensures Shown() == Leave(old(Shown()), failure)
    {
      if failure.Some? {
        error := failure;
      }
      inFlight := inFlight - 1;
      if inFlight == 0 {
        isPending := false;
      }
    }
  }
}
