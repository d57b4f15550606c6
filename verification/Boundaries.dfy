/**
 The reorganisation guard over whole process lives: which hash the listener holds
 for its boundary ledger, when the boundary moves, and exactly when a tick halts.
 */
module Boundaries {
  import opened Options
  import opened Handling
  import opened Listener

  /** The tip a successful poll of the whole tail ended under. */
  ghost function TipOf(cfg: Config, r: Run, a: Action): int
    requires a.Tick?
  {
    PollPages(cfg, r.st.tables, 0, a.server(r.st.current), 0, r.trace).latest
  }

  ghost predicate PollOk(cfg: Config, r: Run, a: Action) {
    a.Tick? && PollPages(cfg, r.st.tables, 0, a.server(r.st.current), 0, r.trace).ok
  }

  /** Where a successful poll ends: past the newest ledger that cleared the window, and never before where it began. */
  function EndOf(cfg: Config, current: int, tip: int): int {
    Max(current, if cfg.depth > 0 then tip - cfg.depth + 1 else tip + 1)
  }

  /** What the process observes of its boundary tells it that the chain was rewritten. */
  ghost predicate Rewritten(r: Run, a: Action) {
    a.Tick? && r.st.finalized > 0 && r.st.hash != "" && a.observed.Some? && a.observed.value != r.st.hash
  }

  /**
   A tick in full: a process that has halted, or that sees its boundary's hash changed, stays where it is. Otherwise it
   moves exactly when its poll succeeds, to the end of that poll, saves that as the checkpoint unless the write is lost,
   and moves the boundary to the ledger before it when that is further than the old one and its hash could be read.
   */
  lemma TickMeans(cfg: Config, r: Run, a: Action)
    requires cfg.contracts && a.Tick?
    ensures var s := Step(cfg, r, a);
      var end := EndOf(cfg, r.st.current, TipOf(cfg, r, a));
      if r.st.halted || Rewritten(r, a) then s == r.(st := r.st.(halted := true))
      else if !PollOk(cfg, r, a) then
        && !s.st.halted && s.st.current == r.st.current && s.st.checkpoint == r.st.checkpoint
        && s.st.finalized == r.st.finalized && s.st.hash == r.st.hash
      else
        && !s.st.halted && s.st.current == end && s.st.checkpoint == (if a.saved then end else r.st.checkpoint)
        && (if Max(r.st.finalized, 0) < end - 1 && a.recorded.Some?
            then s.st.finalized == end - 1 && s.st.hash == a.recorded.value
            else s.st.finalized == r.st.finalized && s.st.hash == r.st.hash)
  {
    hide PollPages;
  }

  /** A restart resumes at the checkpoint, else just past the newest logged ledger, else at the tip, and has no
      boundary. */
  lemma RestartMeans(cfg: Config, r: Run, tip: int)
    ensures var s := Step(cfg, r, Restart(tip));
      && s.st.tables == r.st.tables && s.st.checkpoint == r.st.checkpoint && s.trace == r.trace
      && s.st.finalized == 0 && s.st.hash == "" && !s.st.halted
      && (r.st.checkpoint > 0 ==> s.st.current == r.st.checkpoint)
      && (r.st.checkpoint <= 0 && MaxLogged(r.st.tables.log) > 0 ==> s.st.current == MaxLogged(r.st.tables.log) + 1)
      && (r.st.checkpoint <= 0 && MaxLogged(r.st.tables.log) <= 0 ==> s.st.current == tip)
  {
    hide MaxLogged;
  }

  // ----- one process life -----

  /** The life of one process: ticks only, from a start without a boundary. */
  ghost predicate Life(r: Run, ticks: seq<Action>) {
    r.st.finalized == 0 && r.st.hash == "" && !r.st.halted && forall i :: 0 <= i < |ticks| ==> ticks[i].Tick?
  }

  /** Tick k moves the boundary. */
  ghost predicate Moves(cfg: Config, r: Run, ticks: seq<Action>, k: nat) {
    k < |ticks| && Execute(cfg, r, ticks[..k + 1]).st.finalized != Execute(cfg, r, ticks[..k]).st.finalized
  }

  /** Tick k is the last that moved it. */
  ghost predicate LastMove(cfg: Config, r: Run, ticks: seq<Action>, k: nat) {
    Moves(cfg, r, ticks, k) && forall j: nat :: k < j ==> !Moves(cfg, r, ticks, j)
  }

  lemma ExecuteSnoc(cfg: Config, r: Run, ticks: seq<Action>, a: Action)
    ensures Execute(cfg, r, ticks + [a]) == Step(cfg, Execute(cfg, r, ticks), a)
  {
    assert (ticks + [a])[..|ticks|] == ticks;
  }

  lemma MovesEarlier(cfg: Config, r: Run, ticks: seq<Action>, a: Action, k: nat)
    requires k < |ticks|
    ensures Moves(cfg, r, ticks + [a], k) <==> Moves(cfg, r, ticks, k)
  {
    hide Execute;
    assert (ticks + [a])[..k] == ticks[..k] && (ticks + [a])[..k + 1] == ticks[..k + 1];
  }

  lemma MovesNow(cfg: Config, r: Run, ticks: seq<Action>, a: Action)
    ensures Moves(cfg, r, ticks + [a], |ticks|) <==>
      Step(cfg, Execute(cfg, r, ticks), a).st.finalized != Execute(cfg, r, ticks).st.finalized
  {
    hide Execute, Step;
    ExecuteSnoc(cfg, r, ticks, a);
    assert (ticks + [a])[..|ticks|] == ticks && (ticks + [a])[..|ticks| + 1] == ticks + [a];
  }

  lemma LastMoveSnoc(cfg: Config, r: Run, ticks: seq<Action>, a: Action, k: nat)
    ensures Moves(cfg, r, ticks + [a], |ticks|) ==> LastMove(cfg, r, ticks + [a], |ticks|)
    ensures !Moves(cfg, r, ticks + [a], |ticks|) && LastMove(cfg, r, ticks, k) ==> LastMove(cfg, r, ticks + [a], k)
    ensures !Moves(cfg, r, ticks + [a], |ticks|) && (forall j: nat :: !Moves(cfg, r, ticks, j)) ==>
      forall j: nat :: !Moves(cfg, r, ticks + [a], j)
  {
    forall j: nat | j < |ticks| ensures Moves(cfg, r, ticks + [a], j) <==> Moves(cfg, r, ticks, j) {
      MovesEarlier(cfg, r, ticks, a, j);
    }
    assert forall j: nat :: Moves(cfg, r, ticks + [a], j) ==> j <= |ticks|;
    assert forall j: nat :: Moves(cfg, r, ticks, j) ==> j < |ticks|;
    hide Moves;
  }

  /** What one tick does to the boundary: moves it up with the hash it read, or leaves both. */
  lemma TickBoundary(cfg: Config, r: Run, a: Action)
    requires cfg.contracts && a.Tick?
    ensures var s := Step(cfg, r, a).st;
      if s.finalized == r.st.finalized then s.hash == r.st.hash
      else 0 < s.finalized == s.current - 1 && a.recorded == Some(s.hash)
  {
    TickMeans(cfg, r, a);
    hide Step, PollOk, TipOf, Rewritten;
  }

  /** After these ticks the process holds the hash read at tick k, or nothing if no tick moved its boundary. */
  ghost predicate HoldsHash(cfg: Config, r: Run, ticks: seq<Action>, k: nat) {
    var s := Execute(cfg, r, ticks).st;
    if s.finalized == 0 then s.hash == "" && forall j: nat :: !Moves(cfg, r, ticks, j)
    else
      && LastMove(cfg, r, ticks, k) && 0 < s.finalized && k < |ticks| && ticks[k].Tick?
      && ticks[k].recorded == Some(s.hash)
      && s.finalized == Execute(cfg, r, ticks[..k + 1]).st.current - 1
  }

  lemma HashMoved(cfg: Config, r: Run, ticks: seq<Action>, a: Action)
    requires cfg.contracts && a.Tick?
    requires Step(cfg, Execute(cfg, r, ticks), a).st.finalized != Execute(cfg, r, ticks).st.finalized
    ensures HoldsHash(cfg, r, ticks + [a], |ticks|)
  {
    hide Step, Execute, Moves, LastMove;
    ExecuteSnoc(cfg, r, ticks, a);
    TickBoundary(cfg, Execute(cfg, r, ticks), a);
    MovesNow(cfg, r, ticks, a);
    LastMoveSnoc(cfg, r, ticks, a, 0);
    assert (ticks + [a])[..|ticks| + 1] == ticks + [a];
  }

  lemma HashKept(cfg: Config, r: Run, ticks: seq<Action>, a: Action, k: nat)
    requires cfg.contracts && a.Tick? && HoldsHash(cfg, r, ticks, k)
    requires Step(cfg, Execute(cfg, r, ticks), a).st.finalized == Execute(cfg, r, ticks).st.finalized
    ensures HoldsHash(cfg, r, ticks + [a], k)
  {
    hide Step, Execute, Moves, LastMove;
    ExecuteSnoc(cfg, r, ticks, a);
    TickBoundary(cfg, Execute(cfg, r, ticks), a);
    MovesNow(cfg, r, ticks, a);
    LastMoveSnoc(cfg, r, ticks, a, k);
    assert k < |ticks| ==> (ticks + [a])[..k + 1] == ticks[..k + 1];
  }

  /**
   In every life the process holds, for its boundary ledger, the hash that the RPC gave for it at the last tick that
   moved the boundary; that ledger is the one before where the tick ended. Before any such tick it holds nothing.
   */
  lemma {:induction false} BoundaryHash(cfg: Config, r: Run, ticks: seq<Action>) returns (k: nat)
    requires cfg.contracts && Life(r, ticks)
    ensures HoldsHash(cfg, r, ticks, k)
  {
    k := 0;
    if ticks != [] {
      hide Step, Execute, HoldsHash;
      var init, a := ticks[..|ticks| - 1], ticks[|ticks| - 1];
      assert ticks == init + [a];
      k := BoundaryHash(cfg, r, init);
      if Step(cfg, Execute(cfg, r, init), a).st.finalized != Execute(cfg, r, init).st.finalized {
        HashMoved(cfg, r, init, a);
        k := |init|;
      } else {
        HashKept(cfg, r, init, a, k);
      }
    }
  }

  /**
   In every life that is still running, the next tick halts exactly when the RPC gave a non-empty hash at the last
   tick that moved the boundary and now gives another one for that ledger.
   */
  lemma HaltsIff(cfg: Config, r: Run, ticks: seq<Action>, b: Action)
    requires cfg.contracts && Life(r, ticks) && b.Tick? && !Execute(cfg, r, ticks).st.halted
    ensures Execute(cfg, r, ticks + [b]).st.halted <==>
      exists k: nat, h :: LastMove(cfg, r, ticks, k) && ticks[k].recorded == Some(h) && h != ""
                          && b.observed.Some? && b.observed.value != h
  {
    var s := Execute(cfg, r, ticks);
    var k := BoundaryHash(cfg, r, ticks);
    ExecuteSnoc(cfg, r, ticks, b);
    TickMeans(cfg, s, b);
    hide Step, Execute, PollOk, TipOf, EndOf, Moves;
    if j: nat, h :| LastMove(cfg, r, ticks, j) && ticks[j].recorded == Some(h) && h != ""
                    && b.observed.Some? && b.observed.value != h {
      assert s.st.finalized != 0;
      OneLastMove(cfg, r, ticks, j, k);
    }
  }

  lemma OneLastMove(cfg: Config, r: Run, ticks: seq<Action>, j: nat, k: nat)
    requires LastMove(cfg, r, ticks, j) && LastMove(cfg, r, ticks, k)
    ensures j == k
  {
    hide Moves;
  }

  /** The next tick after one that read the boundary's hash h: it halts exactly on another hash than h. */
  lemma NextTickHalts(cfg: Config, r: Run, a: Action, b: Action, h: string, h': string)
    requires cfg.contracts && a.Tick? && b.Tick? && !Step(cfg, r, a).st.halted && PollOk(cfg, r, a)
    requires Max(r.st.finalized, 0) < EndOf(cfg, r.st.current, TipOf(cfg, r, a)) - 1
    requires a.recorded == Some(h) && h != "" && b.observed == Some(h')
    ensures Step(cfg, Step(cfg, r, a), b).st.halted <==> h' != h
  {
    TickMeans(cfg, r, a);
    TickMeans(cfg, Step(cfg, r, a), b);
    hide Step, PollOk, TipOf, EndOf;
  }
}
