/**
 The event listener as a crash-tolerant state machine. The chain is a fixed
 sequence of events in ledger order; the RPC answers each poll with pages of it.
 Any event's transaction can fail, any request can fail, a checkpoint write can
 be lost, and the process can stop and restart between or inside polls.
 */
module Listener {
  import opened Options
  import opened Invoices
  import opened Handling

  // ----- one poll -----

  /** One getEvents answer, with what goes wrong while its page is processed. */
  datatype Page =
    | RpcError
    | Page(latest: nat, events: seq<Event>, cursor: bool, lookupFails: bool, faults: map<string, nat>)

  /** An event whose transaction committed, with the chain tip reported at the time. */
  datatype Applied = Applied(event: Event, tip: int)

  function Keep(events: seq<Event>, bound: int): seq<Event> {
    if events == [] then []
    else
      var init, e := events[..|events| - 1], events[|events| - 1];
      if e.ledger <= bound then Keep(init, bound) + [e] else Keep(init, bound)
  }

  predicate PastEnd(events: seq<Event>, endLedger: int) {
    endLedger > 0 && exists e :: e in events && e.ledger > endLedger
  }

  /** The part of a page that is in range and has cleared the confirmation window. */
  function Pending(cfg: Config, events: seq<Event>, endLedger: int, latest: int): seq<Event> {
    var inRange := if endLedger > 0 then Keep(events, endLedger) else events;
    if cfg.depth > 0 && latest > 0 then Keep(inRange, latest - cfg.depth) else inRange
  }

  datatype PageOut = PageOut(tables: Tables, ok: bool, trace: seq<Applied>)

  /** Handle the pending events in order, skipping ids that were already logged; stop at the first failure. */
  function ApplyAll(cfg: Config, t: Tables, pending: seq<Event>, processed: set<string>,
                    faults: map<string, nat>, tip: int, trace: seq<Applied>): PageOut
    decreases |pending|
  {
    if pending == [] then PageOut(t, true, trace)
    else
      var e, rest := pending[0], pending[1..];
      if e.id in processed then ApplyAll(cfg, t, rest, processed, faults, tip, trace)
      else if e.id in faults then PageOut(t, false, trace)
      else match Handle(cfg, t, e)
        case Rollback => PageOut(t, false, trace)
        case Commit(t') => ApplyAll(cfg, t', rest, processed, faults, tip, trace + [Applied(e, tip)])
  }

  function Logged(events: seq<Event>, log: map<string, LogRow>): set<string> {
    set e | e in events && e.id in log :: e.id
  }

  datatype PollOut = PollOut(tables: Tables, ok: bool, latest: int, trace: seq<Applied>)

  /** The paging loop. An exhausted script is a process that stopped, or an RPC that never answered. */
  function PollPages(cfg: Config, t: Tables, endLedger: int, script: seq<Page>, latest: int,
                     trace: seq<Applied>): PollOut
    decreases |script|
  {
    if script == [] || script[0].RpcError? then PollOut(t, false, latest, trace)
    else
      var page := script[0];
      var tip := if page.latest != 0 then page.latest else latest;
      var pending := Pending(cfg, page.events, endLedger, tip);
      if page.events == [] || pending == [] then PollOut(t, true, tip, trace)
      else if page.lookupFails then PollOut(t, false, tip, trace)
      else
        var out := ApplyAll(cfg, t, pending, Logged(pending, t.log), page.faults, tip, trace);
        if !out.ok || PastEnd(page.events, endLedger) || !page.cursor then PollOut(out.tables, out.ok, tip, out.trace)
        else PollPages(cfg, out.tables, endLedger, script[1..], tip, out.trace)
  }

  /** Where the next poll starts: past the newest ledger that cleared the window, or where this one did. */
  function NextLedger(cfg: Config, start: int, latest: int): int {
    if latest < start then start
    else if cfg.depth <= 0 then latest + 1
    else if latest - cfg.depth < start then start
    else latest - cfg.depth + 1
  }

  datatype RangeOut = RangeOut(tables: Tables, ok: bool, next: int, trace: seq<Applied>)

  function PollRange(cfg: Config, t: Tables, start: int, endLedger: int, script: seq<Page>,
      trace: seq<Applied>): RangeOut {
    if !cfg.contracts then
      if script == [] || script[0].RpcError? then RangeOut(t, false, start, trace)
      else RangeOut(t, true, script[0].latest + 1, trace)
    else
      var out := PollPages(cfg, t, endLedger, script, 0, trace);
      RangeOut(out.tables, out.ok, if out.ok then NextLedger(cfg, start, out.latest) else start, out.trace)
  }

  // ----- the process -----

  datatype State = State(
    tables: Tables, checkpoint: int,                              // durable
    current: int, finalized: int, hash: string, halted: bool)     // in memory

  datatype Action =
    | Tick(server: int -> seq<Page>, observed: Option<string>, recorded: Option<string>, saved: bool)
    | Restart(tip: int)

  /** The ledger a recorded boundary must still hash to; a different answer is a reorganisation. */
  predicate ReorgSeen(st: State, observed: Option<string>) {
    st.finalized > 0 && st.hash != "" && observed.Some? && observed.value != st.hash
  }

  function Record(finalized: int, hash: string, sequence: int, recorded: Option<string>): (int, string) {
    if sequence <= finalized || sequence <= 0 || recorded.None? then (finalized, hash) else (sequence, recorded.value)
  }

  function Max(a: int, b: int): int { if a < b then b else a }

  /** COALESCE(MAX(ledger), 0) over events_log. */
  ghost function MaxLogged(log: map<string, LogRow>): int {
    if log == map[] then 0
    else
      var id :| id in log;
      var rest := log - {id};
      if rest == map[] then log[id].ledger else Max(log[id].ledger, MaxLogged(rest))
  }

  /** Where a process starts: the checkpoint, else just past the newest logged ledger, else the tip. */
  ghost function ResumeLedger(checkpoint: int, log: map<string, LogRow>, tip: int): int {
    if checkpoint > 0 then checkpoint
    else if MaxLogged(log) > 0 then MaxLogged(log) + 1
    else tip
  }

  datatype Run = Run(st: State, trace: seq<Applied>)

  ghost function Step(cfg: Config, r: Run, a: Action): Run {
    var st := r.st;
    match a
    case Restart(tip) =>
      Run(State(st.tables, st.checkpoint, ResumeLedger(st.checkpoint, st.tables.log, tip), 0, "", false), r.trace)
    case Tick(server, observed, recorded, saved) =>
      if st.halted then r
      else if ReorgSeen(st, observed) then r.(st := st.(halted := true))
      else
        var out := PollRange(cfg, st.tables, st.current, 0, server(st.current), r.trace);
        if !out.ok then Run(st.(tables := out.tables), out.trace)
        else
          var mark := Record(st.finalized, st.hash, out.next - 1, recorded);
          Run(State(out.tables, if saved then out.next else st.checkpoint, out.next, mark.0, mark.1, false), out.trace)
  }

  ghost function Execute(cfg: Config, r: Run, actions: seq<Action>): Run {
    if actions == [] then r else Step(cfg, Execute(cfg, r, actions[..|actions| - 1]), actions[|actions| - 1])
  }

  // ----- the chain and an honest RPC -----

  predicate Ordered(events: seq<Event>) {
    forall i, j :: 0 <= i < j < |events| ==> events[i].ledger <= events[j].ledger
  }

  ghost predicate Chain(chain: seq<Event>) {
    && Ordered(chain)
    && forall i, j :: 0 <= i < j < |chain| ==> chain[i].id != chain[j].id
  }

  /** The first event at or after a ledger. */
  function FirstAt(chain: seq<Event>, ledger: int): nat
    ensures FirstAt(chain, ledger) <= |chain|
  {
    if chain == [] then 0
    else
      var k := FirstAt(chain[..|chain| - 1], ledger);
      if k == |chain| - 1 && chain[k].ledger < ledger then |chain| else k
  }

  ghost predicate IsSlice(chain: seq<Event>, pos: nat, events: seq<Event>) {
    pos + |events| <= |chain| && events == chain[pos..pos + |events|]
  }

  /** Pages are consecutive slices of the chain, the tip is positive and does not rise after
      a page that defers an event, and only a poll that reached the tip runs out of pages. */
  ghost predicate Honest(cfg: Config, endLedger: int, chain: seq<Event>, pos: nat, script: seq<Page>)
    decreases |script|
  {
    script == [] || script[0].RpcError? ||
    (var page := script[0];
     && page.latest > 0
     && IsSlice(chain, pos, page.events)
     && (page.events == [] || !page.cursor ==>
           pos + |page.events| == |chain| || chain[pos + |page.events|].ledger > page.latest)
     && (Pending(cfg, page.events, endLedger, page.latest) != page.events && |script| > 1 && script[1].Page? ==>
           script[1].latest <= page.latest)
     && Honest(cfg, endLedger, chain, pos + |page.events|, script[1..]))
  }

  ghost predicate HonestServer(cfg: Config, chain: seq<Event>, server: int -> seq<Page>) {
    forall start :: Honest(cfg, 0, chain, FirstAt(chain, start), server(start))
  }

  ghost predicate HonestAction(cfg: Config, chain: seq<Event>, a: Action) {
    a.Tick? ==> HonestServer(cfg, chain, a.server)
  }

  // ----- the invariant -----

  /** The events a database has still to see: those whose id its log lacks. */
  function Skip(log: map<string, LogRow>, es: seq<Event>): seq<Event> {
    if es == [] then []
    else
      var init, e := Skip(log, es[..|es| - 1]), es[|es| - 1];
      if e.id in log then init else init + [e]
  }

  /** The fold of the handler over the events of chain[base..done] that were not logged at the beginning. */
  function Folded(cfg: Config, t0: Tables, chain: seq<Event>, base: nat, done: nat): Option<Tables>
    requires base <= done <= |chain|
  {
    Fold(cfg, t0, Skip(t0.log, chain[base..done]))
  }

  /** The tables are the fold of the handler over what was new in chain[base..done]; of the
      events after it exactly those logged at the beginning are logged. */
  ghost predicate Indexed(cfg: Config, chain: seq<Event>, base: nat, t0: Tables, t: Tables, done: nat) {
    && base <= done <= |chain|
    && Folded(cfg, t0, chain, base, done) == Some(t)
    && (forall i :: base <= i < done ==> chain[i].id in t.log || Unhandled(chain[i]))
    && (forall i :: done <= i < |chain| ==> (chain[i].id in t.log <==> chain[i].id in t0.log))
    && (forall id :: id in t0.log ==> id in t.log)
  }

  /** Nothing still to be processed lies below this ledger. */
  ghost predicate ClearBelow(chain: seq<Event>, done: nat, ledger: int) {
    forall i :: done <= i < |chain| ==> chain[i].ledger >= ledger
  }

  lemma FirstAtSplits(chain: seq<Event>, ledger: int)
    requires Ordered(chain)
    ensures var k := FirstAt(chain, ledger);
      && (forall i :: 0 <= i < k ==> chain[i].ledger < ledger)
      && (forall i :: k <= i < |chain| ==> chain[i].ledger >= ledger)
  {
    if chain != [] {
      FirstAtSplits(chain[..|chain| - 1], ledger);
    }
  }

  lemma {:induction false} KeepOrdered(events: seq<Event>, bound: int)
    requires Ordered(events)
    ensures var m := |Keep(events, bound)|;
      && m <= |events| && Keep(events, bound) == events[..m]
      && (forall i :: 0 <= i < m ==> events[i].ledger <= bound)
      && (forall i :: m <= i < |events| ==> events[i].ledger > bound)
  {
    if events != [] {
      var init, e := events[..|events| - 1], events[|events| - 1];
      assert events == init + [e];
      assert forall i :: 0 <= i < |init| ==> init[i] == events[i] && init[i].ledger <= e.ledger;
      KeepOrdered(init, bound);
      assert Keep(events, bound) == if e.ledger <= bound then Keep(init, bound) + [e] else Keep(init, bound);
      hide Keep, Ordered;
      var m := |Keep(init, bound)|;
      assert e.ledger <= bound ==> m == |init|;
    }
  }

  /** An event the poll must leave for later: past the requested end, or inside the window. */
  predicate Deferred(cfg: Config, endLedger: int, tip: int, ledger: int) {
    (endLedger > 0 && ledger > endLedger) || (cfg.depth > 0 && ledger > tip - cfg.depth)
  }

  lemma PendingIsPrefix(cfg: Config, events: seq<Event>, endLedger: int, tip: int)
    requires Ordered(events) && tip > 0
    ensures var m := |Pending(cfg, events, endLedger, tip)|;
      && m <= |events| && Pending(cfg, events, endLedger, tip) == events[..m]
      && (forall i :: 0 <= i < m ==> !Deferred(cfg, endLedger, tip, events[i].ledger))
      && (forall i :: m <= i < |events| ==> Deferred(cfg, endLedger, tip, events[i].ledger))
  {
    hide Keep;
    KeepOrdered(events, endLedger);
    var inRange := if endLedger > 0 then Keep(events, endLedger) else events;
    KeepOrdered(inRange, tip - cfg.depth);
  }

  lemma FoldSnoc(cfg: Config, t0: Tables, chain: seq<Event>, base: nat, done: nat)
    requires base <= done < |chain|
    ensures Folded(cfg, t0, chain, base, done + 1) ==
      if chain[done].id in t0.log then Folded(cfg, t0, chain, base, done)
      else FoldStep(cfg, Folded(cfg, t0, chain, base, done), chain[done])
  {
    hide FoldStep;
    var es := chain[base..done + 1];
    assert es[..|es| - 1] == chain[base..done] && es[|es| - 1] == chain[done];
    var before := Skip(t0.log, chain[base..done]);
    assert (before + [chain[done]])[..|before|] == before;
  }

  lemma FoldNone(cfg: Config, t0: Tables, chain: seq<Event>, base: nat)
    requires base <= |chain|
    ensures Folded(cfg, t0, chain, base, base) == Some(t0)
  {
    assert chain[base..base] == [];
  }

  /** Committing the next new event of the chain extends the fold by one. */
  lemma IndexNext(cfg: Config, chain: seq<Event>, base: nat, t0: Tables, t: Tables, done: nat)
    requires Chain(chain) && Indexed(cfg, chain, base, t0, t, done) && done < |chain| && chain[done].id !in t0.log
    requires Handle(cfg, t, chain[done]).Commit?
    ensures Indexed(cfg, chain, base, t0, Handle(cfg, t, chain[done]).tables, done + 1)
  {
    hide Folded, Handle, Ordered;
    FoldSnoc(cfg, t0, chain, base, done);
    CommitWrites(cfg, t, chain[done]);
    var t' := Handle(cfg, t, chain[done]).tables;
    forall i | done + 1 <= i < |chain| ensures chain[i].id in t'.log <==> chain[i].id in t0.log {
      assert chain[i].id != chain[done].id;
    }
    hide Chain;
  }

  /** An event that was logged at the beginning is indexed by passing it. */
  lemma IndexLogged(cfg: Config, chain: seq<Event>, base: nat, t0: Tables, t: Tables, done: nat)
    requires Indexed(cfg, chain, base, t0, t, done) && done < |chain| && chain[done].id in t0.log
    ensures Indexed(cfg, chain, base, t0, t, done + 1)
  {
    hide Folded, FoldStep, Unhandled;
    FoldSnoc(cfg, t0, chain, base, done);
  }

  /** A page from `pos` on leaves a longer prefix indexed; ids seen before are skipped or write nothing. */
  lemma {:induction false} ApplyKeeps(cfg: Config, chain: seq<Event>, base: nat, t0: Tables, t: Tables,
                   done: nat, pos: nat, pending: seq<Event>, processed: set<string>, faults: map<string, nat>,
                   tip: int, trace: seq<Applied>)
    returns (done': nat)
    requires Chain(chain) && Indexed(cfg, chain, base, t0, t, done)
    requires base <= pos <= done && pos + |pending| <= |chain| && pending == chain[pos..pos + |pending|]
    requires forall i :: pos <= i < pos + |pending| ==>
      && (chain[i].id in processed ==> chain[i].id in t.log)
      && (chain[i].id in t0.log ==> chain[i].id in processed)
      && (i < done ==> chain[i].id in processed || Unhandled(chain[i]))
    ensures var out := ApplyAll(cfg, t, pending, processed, faults, tip, trace);
      && Indexed(cfg, chain, base, t0, out.tables, done') && done <= done'
      && done' <= Max(done, pos + |pending|)
      && (out.ok ==> pos + |pending| <= done')
    decreases |pending|
  {
    hide Handle, Folded, Unhandled, Ordered;
    done' := done;
    if pending != [] {
      var e, rest := pending[0], pending[1..];
      assert e == chain[pos] && rest == chain[pos + 1..pos + 1 + |rest|];
      if e.id in processed {
        if pos == done {
          IndexLogged(cfg, chain, base, t0, t, done);
        }
        done' := ApplyKeeps(cfg, chain, base, t0, t, Max(done, pos + 1), pos + 1, rest, processed, faults, tip, trace);
      } else if e.id !in faults && Handle(cfg, t, e).Commit? {
        var t' := Handle(cfg, t, e).tables;
        CommitWrites(cfg, t, e);
        if pos == done {
          IndexNext(cfg, chain, base, t0, t, done);
        }
        done' := ApplyKeeps(cfg, chain, base, t0, t', Max(done, pos + 1), pos + 1, rest, processed, faults, tip,
                            trace + [Applied(e, tip)]);
      }
    }
  }

  /** Nothing left over is at or below what the poll had to cover. */
  ghost predicate Covered(cfg: Config, chain: seq<Event>, done: nat, endLedger: int, tip: int) {
    forall i :: done <= i < |chain| ==> Deferred(cfg, endLedger, tip, chain[i].ledger) || chain[i].ledger > tip
  }

  /** A bounded poll indexes nothing past its end. */
  ghost predicate WithinEnd(chain: seq<Event>, done: nat, done': nat, endLedger: int) {
    endLedger > 0 ==> forall i :: done <= i < done' <= |chain| ==> chain[i].ledger <= endLedger
  }

  /** Either everything fetched so far is indexed, or the first thing left is deferred. */
  ghost predicate CaughtUp(cfg: Config, chain: seq<Event>, done: nat, pos: nat, endLedger: int, tip: int) {
    pos <= done || (done < |chain| && Deferred(cfg, endLedger, tip, chain[done].ledger))
  }

  /** Everything from `done` on is left over when something at or before it already is. */
  lemma CoveredFrom(cfg: Config, chain: seq<Event>, j: nat, done: nat, endLedger: int, tip: int)
    requires Ordered(chain) && j <= done && j <= |chain|
    requires j < |chain| ==> Deferred(cfg, endLedger, tip, chain[j].ledger) || chain[j].ledger > tip
    ensures Covered(cfg, chain, done, endLedger, tip)
  {
  }

  lemma SliceOrdered(chain: seq<Event>, pos: nat, end: nat)
    requires Ordered(chain) && pos <= end <= |chain|
    ensures Ordered(chain[pos..end])
  {
  }

  /** The pending part of a page is the next stretch of the chain, and is not deferred. */
  lemma PendingSlice(cfg: Config, chain: seq<Event>, done: nat, pos: nat, endLedger: int, page: Page)
    requires Ordered(chain) && done <= |chain| && page.Page? && page.latest > 0
    requires IsSlice(chain, pos, page.events)
    requires CaughtUp(cfg, chain, done, pos, endLedger, page.latest)
    ensures var m := |Pending(cfg, page.events, endLedger, page.latest)|;
      && m <= |page.events| && Pending(cfg, page.events, endLedger, page.latest) == chain[pos..pos + m]
      && (m > 0 ==> pos <= done)
      && (forall i :: pos <= i < pos + m ==> !Deferred(cfg, endLedger, page.latest, chain[i].ledger))
      && (m < |page.events| ==> Deferred(cfg, endLedger, page.latest, chain[pos + m].ledger))
      && (PastEnd(page.events, endLedger) ==> m < |page.events|)
  {
    hide Pending, PastEnd, Ordered, CaughtUp;
    var events, tip := page.events, page.latest;
    var m := |Pending(cfg, events, endLedger, tip)|;
    SliceOrdered(chain, pos, pos + |events|);
    PendingIsPrefix(cfg, events, endLedger, tip);
    if PastEnd(events, endLedger) {
      PastEndDefers(cfg, events, endLedger, tip);
    }
    hide Deferred;
    SlicePlaces(chain, pos, events, m);
    if m > 0 {
      NotCaughtUp(cfg, chain, done, pos, endLedger, tip);
    }
  }

  lemma SlicePlaces(chain: seq<Event>, pos: nat, events: seq<Event>, m: nat)
    requires IsSlice(chain, pos, events) && m <= |events|
    ensures events[..m] == chain[pos..pos + m]
    ensures forall i :: pos <= i < pos + |events| ==> chain[i] == events[i - pos]
    ensures m < |events| ==> chain[pos + m] == events[m]
    ensures m > 0 ==> chain[pos] == events[0]
  {
  }

  /** An event past the end is deferred. */
  lemma PastEndDefers(cfg: Config, events: seq<Event>, endLedger: int, tip: int)
    requires PastEnd(events, endLedger)
    ensures exists i :: 0 <= i < |events| && Deferred(cfg, endLedger, tip, events[i].ledger)
  {
    var e :| e in events && e.ledger > endLedger;
    var i :| 0 <= i < |events| && events[i] == e;
    assert Deferred(cfg, endLedger, tip, events[i].ledger);
  }

  /** When something at `pos` is not deferred, nothing before it is left over. */
  lemma NotCaughtUp(cfg: Config, chain: seq<Event>, done: nat, pos: nat, endLedger: int, tip: int)
    requires Ordered(chain) && pos < |chain| && CaughtUp(cfg, chain, done, pos, endLedger, tip)
    requires !Deferred(cfg, endLedger, tip, chain[pos].ledger)
    ensures pos <= done
  {
    assert forall i :: 0 <= i < pos ==> chain[i].ledger <= chain[pos].ledger;
  }

  /** One page: what it indexes, and where that leaves the poll. */
  lemma PageKeeps(cfg: Config, chain: seq<Event>, base: nat, t0: Tables, t: Tables, done: nat, pos: nat,
                  endLedger: int, page: Page, trace: seq<Applied>)
    returns (done': nat)
    requires Chain(chain) && Indexed(cfg, chain, base, t0, t, done) && base <= pos
    requires page.Page? && page.latest > 0
    requires IsSlice(chain, pos, page.events)
    requires CaughtUp(cfg, chain, done, pos, endLedger, page.latest)
    requires Pending(cfg, page.events, endLedger, page.latest) != []
    ensures var pending := Pending(cfg, page.events, endLedger, page.latest);
      var out := ApplyAll(cfg, t, pending, Logged(pending, t.log), page.faults, page.latest, trace);
      && Indexed(cfg, chain, base, t0, out.tables, done') && done <= done'
      && WithinEnd(chain, done, done', endLedger)
      && (out.ok ==> CaughtUp(cfg, chain, done', pos + |page.events|, endLedger, page.latest))
      && (out.ok && pending == page.events ==> pos + |page.events| <= done')
      && (out.ok && PastEnd(page.events, endLedger) ==> Covered(cfg, chain, done', endLedger, page.latest))
  {
    hide Handle, ApplyAll, Folded;
    var pending := Pending(cfg, page.events, endLedger, page.latest);
    var m := |pending|;
    PendingSlice(cfg, chain, done, pos, endLedger, page);
    done' := ApplyKeeps(cfg, chain, base, t0, t, done, pos, pending, Logged(pending, t.log), page.faults, page.latest,
        trace) by {
      forall i | pos <= i < pos + m
        ensures chain[i].id in Logged(pending, t.log) <==> chain[i].id in t.log
      {
        assert pending[i - pos] == chain[i];
      }
    }
    var out := ApplyAll(cfg, t, pending, Logged(pending, t.log), page.faults, page.latest, trace);
    if out.ok && m < |page.events| {
      CoveredFrom(cfg, chain, pos + m, done', endLedger, page.latest);
    }
  }

  lemma Still(chain: seq<Event>, done: nat, endLedger: int)
    ensures WithinEnd(chain, done, done, endLedger)
  {
  }

  lemma StillLonger(chain: seq<Event>, done: nat, mid: nat, done': nat, endLedger: int)
    requires done <= mid <= done' && WithinEnd(chain, done, mid, endLedger) && WithinEnd(chain, mid, done', endLedger)
    requires mid <= |chain|
    ensures WithinEnd(chain, done, done', endLedger)
  {
  }

  lemma IndexedWithin(cfg: Config, chain: seq<Event>, base: nat, t0: Tables, t: Tables, done: nat)
    requires Indexed(cfg, chain, base, t0, t, done)
    ensures base <= done <= |chain|
  {
  }

  /** A page with nothing to apply ends the poll, and nothing it had to cover is left over. */
  lemma StopKeeps(cfg: Config, chain: seq<Event>, done: nat, pos: nat, endLedger: int, page: Page)
    requires Ordered(chain) && done <= |chain| && page.Page? && page.latest > 0
    requires IsSlice(chain, pos, page.events)
    requires CaughtUp(cfg, chain, done, pos, endLedger, page.latest)
    requires page.events == [] ==> pos == |chain| || chain[pos].ledger > page.latest
    requires Pending(cfg, page.events, endLedger, page.latest) == []
    ensures Covered(cfg, chain, done, endLedger, page.latest)
  {
    hide Ordered, Covered;
    PendingSlice(cfg, chain, done, pos, endLedger, page);
    CoveredFrom(cfg, chain, if pos <= done then pos else done, done, endLedger, page.latest);
  }

  lemma PollUnfolds(cfg: Config, t: Tables, endLedger: int, script: seq<Page>, latest: int, trace: seq<Applied>)
    requires script != [] && script[0].Page? && script[0].latest != 0
    ensures var page := script[0];
      var pending := Pending(cfg, page.events, endLedger, page.latest);
      var out := ApplyAll(cfg, t, pending, Logged(pending, t.log), page.faults, page.latest, trace);
      PollPages(cfg, t, endLedger, script, latest, trace) ==
        if pending == [] then PollOut(t, true, page.latest, trace)
        else if page.lookupFails then PollOut(t, false, page.latest, trace)
        else if !out.ok || PastEnd(page.events, endLedger) || !page.cursor
            then PollOut(out.tables, out.ok, page.latest, out.trace)
        else PollPages(cfg, out.tables, endLedger, script[1..], page.latest, out.trace)
  {
    hide ApplyAll, Logged, PastEnd;
  }

  /** What a poll from `done` may come to: a longer indexed prefix, nothing left behind if it succeeded. */
  ghost predicate PolledWell(cfg: Config, chain: seq<Event>, base: nat, t0: Tables, out: PollOut,
                             done: nat, done': nat, endLedger: int) {
    && Indexed(cfg, chain, base, t0, out.tables, done') && done <= done'
    && WithinEnd(chain, done, done', endLedger)
    && (out.ok ==> out.latest > 0 && Covered(cfg, chain, done', endLedger, out.latest))
  }

  lemma PolledFrom(cfg: Config, chain: seq<Event>, base: nat, t0: Tables, out: PollOut,
                   done: nat, mid: nat, done': nat, endLedger: int)
    requires done <= mid <= |chain| && WithinEnd(chain, done, mid, endLedger)
    requires PolledWell(cfg, chain, base, t0, out, mid, done', endLedger)
    ensures PolledWell(cfg, chain, base, t0, out, done, done', endLedger)
  {
    hide Indexed, Covered;
    StillLonger(chain, done, mid, done', endLedger);
  }

  lemma LastPage(cfg: Config, chain: seq<Event>, done: nat, end: nat, endLedger: int, tip: int)
    requires Ordered(chain) && done <= |chain| && end <= |chain| && CaughtUp(cfg, chain, done, end, endLedger, tip)
    requires end == |chain| || chain[end].ledger > tip
    ensures Covered(cfg, chain, done, endLedger, tip)
  {
    CoveredFrom(cfg, chain, if end <= done then end else done, done, endLedger, tip);
  }

  /** Where a poll that has read up to `pos` stands before its next answer. */
  ghost predicate Polling(cfg: Config, chain: seq<Event>, base: nat, t0: Tables, t: Tables, done: nat, pos: nat,
                          endLedger: int, script: seq<Page>, latest: int) {
    && Chain(chain) && Indexed(cfg, chain, base, t0, t, done) && base <= pos
    && Honest(cfg, endLedger, chain, pos, script)
    && CaughtUp(cfg, chain, done, pos, endLedger, latest)
    && (pos > done && script != [] && script[0].Page? ==> script[0].latest <= latest)
  }

  /** What the next answer brings, told without the rest of the script. */
  lemma PollingPage(cfg: Config, chain: seq<Event>, base: nat, t0: Tables, t: Tables, done: nat, pos: nat,
                    endLedger: int, script: seq<Page>, latest: int)
    requires Polling(cfg, chain, base, t0, t, done, pos, endLedger, script, latest) && script != [] && script[0].Page?
    ensures var page := script[0];
      && Chain(chain) && Ordered(chain) && Indexed(cfg, chain, base, t0, t, done) && base <= pos && done <= |chain|
      && page.latest > 0 && IsSlice(chain, pos, page.events) && pos + |page.events| <= |chain|
      && (page.events == [] || !page.cursor ==>
            pos + |page.events| == |chain| || chain[pos + |page.events|].ledger > page.latest)
      && (Pending(cfg, page.events, endLedger, page.latest) != page.events && |script| > 1 && script[1].Page? ==>
            script[1].latest <= page.latest)
      && Honest(cfg, endLedger, chain, pos + |page.events|, script[1..])
      && CaughtUp(cfg, chain, done, pos, endLedger, page.latest)
  {
    hide Ordered, Pending, Folded;
  }

  /** One answer with something to apply: the poll goes on from the next position, or has covered what it had to. */
  lemma PollingNext(cfg: Config, chain: seq<Event>, base: nat, t0: Tables, t: Tables, done: nat, pos: nat,
                    endLedger: int, script: seq<Page>, latest: int, trace: seq<Applied>)
    returns (mid: nat)
    requires Polling(cfg, chain, base, t0, t, done, pos, endLedger, script, latest) && script != [] && script[0].Page?
    requires Pending(cfg, script[0].events, endLedger, script[0].latest) != []
    ensures var page := script[0];
      var pending := Pending(cfg, page.events, endLedger, page.latest);
      var out := ApplyAll(cfg, t, pending, Logged(pending, t.log), page.faults, page.latest, trace);
      && Indexed(cfg, chain, base, t0, out.tables, mid) && done <= mid <= |chain|
          && WithinEnd(chain, done, mid, endLedger)
      && (out.ok ==> Polling(cfg, chain, base, t0, out.tables, mid, pos + |page.events|, endLedger, script[1..],
          page.latest))
      && (out.ok && (PastEnd(page.events, endLedger) || !page.cursor) ==>
          Covered(cfg, chain, mid, endLedger, page.latest))
  {
    hide Handle, ApplyAll, Indexed, Chain, Ordered, Covered, Pending, PastEnd, Logged, WithinEnd, CaughtUp, Honest,
      IsSlice, Polling;
    var page := script[0];
    PollingPage(cfg, chain, base, t0, t, done, pos, endLedger, script, latest);
    mid := PageKeeps(cfg, chain, base, t0, t, done, pos, endLedger, page, trace);
    var pending := Pending(cfg, page.events, endLedger, page.latest);
    var out := ApplyAll(cfg, t, pending, Logged(pending, t.log), page.faults, page.latest, trace);
    IndexedWithin(cfg, chain, base, t0, out.tables, mid);
    if out.ok {
      assert pending != page.events || pos + |page.events| <= mid;
      GoOn(cfg, chain, base, t0, out.tables, mid, pos + |page.events|, endLedger, script, page.latest);
      if !page.cursor {
        LastPage(cfg, chain, mid, pos + |page.events|, endLedger, page.latest);
      }
    }
  }

  lemma GoOn(cfg: Config, chain: seq<Event>, base: nat, t0: Tables, t: Tables, done: nat, pos: nat,
             endLedger: int, script: seq<Page>, latest: int)
    requires script != [] && Chain(chain) && Indexed(cfg, chain, base, t0, t, done) && base <= pos
    requires Honest(cfg, endLedger, chain, pos, script[1..]) && CaughtUp(cfg, chain, done, pos, endLedger, latest)
    requires pos <= done || (|script| > 1 && script[1].Page? ==> script[1].latest <= latest)
    ensures Polling(cfg, chain, base, t0, t, done, pos, endLedger, script[1..], latest)
  {
    hide Chain, Indexed, Honest, CaughtUp;
  }

  /** A whole poll over honest pages: the indexed prefix only grows, and a poll that
      ends without error leaves nothing behind that it should have covered. */
  lemma {:induction false} PollKeeps(cfg: Config, chain: seq<Event>, base: nat, t0: Tables, t: Tables,
                  done: nat, pos: nat, endLedger: int, script: seq<Page>, latest: int, trace: seq<Applied>)
    returns (done': nat)
    requires Polling(cfg, chain, base, t0, t, done, pos, endLedger, script, latest)
    ensures PolledWell(cfg, chain, base, t0, PollPages(cfg, t, endLedger, script, latest, trace), done, done',
        endLedger)
    decreases |script|
  {
    hide Handle, ApplyAll, Indexed, Chain, Ordered, Covered, Pending, PastEnd, Logged, WithinEnd, CaughtUp, PollPages,
      Honest, Polling, IsSlice, PolledWell;
    done' := done;
    if script == [] || script[0].RpcError? {
      PollingFails(cfg, chain, base, t0, t, done, pos, endLedger, script, latest, trace);
    } else {
      var page := script[0];
      PollingPage(cfg, chain, base, t0, t, done, pos, endLedger, script, latest);
      PollUnfolds(cfg, t, endLedger, script, latest, trace);
      var pending := Pending(cfg, page.events, endLedger, page.latest);
      if pending == [] {
        StopKeeps(cfg, chain, done, pos, endLedger, page);
        WellNow(cfg, chain, base, t0, PollOut(t, true, page.latest, trace), done, done, endLedger);
      } else if page.lookupFails {
        WellNow(cfg, chain, base, t0, PollOut(t, false, page.latest, trace), done, done, endLedger);
      } else {
        var mid := PollingNext(cfg, chain, base, t0, t, done, pos, endLedger, script, latest, trace);
        var out := ApplyAll(cfg, t, pending, Logged(pending, t.log), page.faults, page.latest, trace);
        done' := mid;
        if !out.ok || PastEnd(page.events, endLedger) || !page.cursor {
          WellNow(cfg, chain, base, t0, PollOut(out.tables, out.ok, page.latest, out.trace), done, mid, endLedger);
        } else {
          done' := PollKeeps(cfg, chain, base, t0, out.tables, mid, pos + |page.events|, endLedger, script[1..],
                             page.latest, out.trace);
          PolledFrom(cfg, chain, base, t0, PollPages(cfg, out.tables, endLedger, script[1..], page.latest, out.trace),
                     done, mid, done', endLedger);
        }
      }
    }
  }

  lemma PollingFails(cfg: Config, chain: seq<Event>, base: nat, t0: Tables, t: Tables, done: nat, pos: nat,
                     endLedger: int, script: seq<Page>, latest: int, trace: seq<Applied>)
    requires Polling(cfg, chain, base, t0, t, done, pos, endLedger, script, latest)
    requires script == [] || script[0].RpcError?
    ensures PolledWell(cfg, chain, base, t0, PollPages(cfg, t, endLedger, script, latest, trace), done, done, endLedger)
  {
    hide Handle, ApplyAll, Indexed, Chain, Honest, CaughtUp, Covered;
  }

  lemma WellNow(cfg: Config, chain: seq<Event>, base: nat, t0: Tables, out: PollOut, done: nat, done': nat,
      endLedger: int)
    requires Indexed(cfg, chain, base, t0, out.tables, done') && done <= done'
    requires done == done' || WithinEnd(chain, done, done', endLedger)
    requires out.ok ==> out.latest > 0 && Covered(cfg, chain, done', endLedger, out.latest)
    ensures PolledWell(cfg, chain, base, t0, out, done, done', endLedger)
  {
    hide Indexed, Covered;
  }

  // ----- confirmation -----

  /** An applied event is at least `depth` ledgers behind the tip it was applied under. */
  predicate Confirmed(cfg: Config, a: Applied) { cfg.depth > 0 ==> a.event.ledger <= a.tip - cfg.depth }

  /** The trace accounts for every log row, and holds only confirmed events. */
  ghost predicate Traced(cfg: Config, t0: Tables, t: Tables, trace: seq<Applied>) {
    && (forall a :: a in trace ==> Confirmed(cfg, a))
    && (forall id :: id in t.log ==> id in t0.log || exists a :: a in trace && a.event.id == id)
  }

  lemma KeepBound(events: seq<Event>, bound: int, e: Event)
    requires e in Keep(events, bound)
    ensures e in events && e.ledger <= bound
  {
  }

  lemma {:induction false} ApplyTraces(cfg: Config, t0: Tables, t: Tables, pending: seq<Event>, processed: set<string>,
                                       faults: map<string, nat>, tip: int, trace: seq<Applied>)
    requires Traced(cfg, t0, t, trace)
    requires forall e :: e in pending ==> Confirmed(cfg, Applied(e, tip))
    ensures var out := ApplyAll(cfg, t, pending, processed, faults, tip, trace); Traced(cfg, t0, out.tables, out.trace)
    decreases |pending|
  {
    if pending != [] {
      var e, rest := pending[0], pending[1..];
      if e.id in processed {
        ApplyTraces(cfg, t0, t, rest, processed, faults, tip, trace);
      } else if e.id !in faults && Handle(cfg, t, e).Commit? {
        CommitWrites(cfg, t, e);
        var trace' := trace + [Applied(e, tip)];
        assert forall a :: a in trace ==> a in trace';
        assert Applied(e, tip) in trace';
        ApplyTraces(cfg, t0, Handle(cfg, t, e).tables, rest, processed, faults, tip, trace');
      }
    }
  }

  /** The first answer of a poll reports a tip; a later one without a tip leaves the last tip standing. */
  predicate Tipped(script: seq<Page>) { script != [] && script[0].Page? ==> script[0].latest > 0 }

  lemma PendingConfirmed(cfg: Config, events: seq<Event>, endLedger: int, tip: int, e: Event)
    requires e in Pending(cfg, events, endLedger, tip) && tip > 0
    ensures Confirmed(cfg, Applied(e, tip))
  {
    hide Keep;
    if cfg.depth > 0 {
      KeepBound(if endLedger > 0 then Keep(events, endLedger) else events, tip - cfg.depth, e);
    }
  }

  lemma {:induction false} PollTraces(cfg: Config, t0: Tables, t: Tables, endLedger: int,
                                      script: seq<Page>, latest: int, trace: seq<Applied>)
    requires (latest > 0 || Tipped(script)) && Traced(cfg, t0, t, trace)
    ensures var out := PollPages(cfg, t, endLedger, script, latest, trace); Traced(cfg, t0, out.tables, out.trace)
    decreases |script|
  {
    hide Handle, ApplyAll, Pending, Logged, PastEnd, Confirmed, Traced;
    if script != [] && script[0].Page? && !script[0].lookupFails {
      var page := script[0];
      var tip := if page.latest != 0 then page.latest else latest;
      var pending := Pending(cfg, page.events, endLedger, tip);
      forall e | e in pending ensures Confirmed(cfg, Applied(e, tip)) {
        PendingConfirmed(cfg, page.events, endLedger, tip, e);
      }
      ApplyTraces(cfg, t0, t, pending, Logged(pending, t.log), page.faults, tip, trace);
      var out := ApplyAll(cfg, t, pending, Logged(pending, t.log), page.faults, tip, trace);
      PollTraces(cfg, t0, out.tables, endLedger, script[1..], tip, out.trace);
    }
  }

  // ----- every run -----

  /** What holds between any two steps of the process over an honest chain. */
  ghost predicate Sound(cfg: Config, chain: seq<Event>, start: int, t0: Tables, r: Run, done: nat) {
    && Indexed(cfg, chain, FirstAt(chain, start), t0, r.st.tables, done)
    && 0 < start <= r.st.current && (r.st.checkpoint == 0 || start <= r.st.checkpoint <= r.st.current)
    && ClearBelow(chain, done, r.st.current)
  }

  /** A poll that returns without error never moves back and leaves nothing below where it ends. */
  lemma RangeKeeps(cfg: Config, chain: seq<Event>, base: nat, t0: Tables, t: Tables, done: nat, start: int,
                   script: seq<Page>, trace: seq<Applied>)
    returns (done': nat)
    requires cfg.contracts && Chain(chain) && Indexed(cfg, chain, base, t0, t, done)
    requires ClearBelow(chain, done, start) && base <= FirstAt(chain, start)
    requires Honest(cfg, 0, chain, FirstAt(chain, start), script)
    ensures var out := PollRange(cfg, t, start, 0, script, trace);
      && Indexed(cfg, chain, base, t0, out.tables, done') && done <= done'
      && start <= out.next && ClearBelow(chain, done', out.next)
  {
    hide Handle, PollPages, Indexed, Honest;
    var pos := FirstAt(chain, start);
    FirstAtSplits(chain, start);
    done' := PollKeeps(cfg, chain, base, t0, t, done, pos, 0, script, 0, trace) by {
      assert pos <= done by { FirstWithin(cfg, chain, base, t0, t, done, start); }
    }
  }

  lemma FirstWithin(cfg: Config, chain: seq<Event>, base: nat, t0: Tables, t: Tables, done: nat, start: int)
    requires Chain(chain) && Indexed(cfg, chain, base, t0, t, done) && ClearBelow(chain, done, start)
    ensures FirstAt(chain, start) <= done
  {
    FirstAtSplits(chain, start);
    assert done < |chain| ==> chain[done].ledger >= start;
  }

  lemma FirstAtGrows(chain: seq<Event>, a: int, b: int)
    requires Ordered(chain) && a <= b
    ensures FirstAt(chain, a) <= FirstAt(chain, b)
  {
    FirstAtSplits(chain, a);
    FirstAtSplits(chain, b);
  }

  lemma StepKeeps(cfg: Config, chain: seq<Event>, start: int, t0: Tables, r: Run, done: nat, a: Action)
    returns (done': nat)
    requires cfg.contracts && Chain(chain) && Sound(cfg, chain, start, t0, r, done)
    requires HonestAction(cfg, chain, a) && Anchored(r, a)
    ensures Sound(cfg, chain, start, t0, Step(cfg, r, a), done') && done <= done'
  {
    hide Handle, Indexed, Honest, PollRange;
    done' := done;
    if a.Tick? && !r.st.halted && !ReorgSeen(r.st, a.observed) {
      FirstAtGrows(chain, start, r.st.current);
      done' := RangeKeeps(cfg, chain, FirstAt(chain, start), t0, r.st.tables, done, r.st.current,
                          a.server(r.st.current), r.trace);
    }
  }

  /** A process at its first start, over any database; its start is not saved as a checkpoint yet,
      or it is where a checkpoint told it to resume. */
  function Boot(t0: Tables, start: int, saved: bool): Run {
    Run(State(t0, if saved then start else 0, start, 0, "", false), [])
  }

  /** A restart finds a saved checkpoint. */
  predicate Anchored(r: Run, a: Action) { a.Restart? ==> r.st.checkpoint > 0 }

  ghost predicate AnchoredRun(cfg: Config, r: Run, actions: seq<Action>) {
    forall k :: 0 <= k < |actions| ==> Anchored(Execute(cfg, r, actions[..k]), actions[k])
  }

  lemma AnchoredSnoc(cfg: Config, r: Run, actions: seq<Action>)
    requires actions != [] && AnchoredRun(cfg, r, actions)
    ensures AnchoredRun(cfg, r, actions[..|actions| - 1])
    ensures Anchored(Execute(cfg, r, actions[..|actions| - 1]), actions[|actions| - 1])
  {
    hide Execute, Anchored;
    var init := actions[..|actions| - 1];
    forall k | 0 <= k < |init| ensures Anchored(Execute(cfg, r, init[..k]), init[k]) {
      assert init[..k] == actions[..k] && init[k] == actions[k];
    }
  }

  /** Crash equivalence and no loss, in one statement over every run. */
  lemma {:induction false} RunKeeps(cfg: Config, chain: seq<Event>, start: int, t0: Tables, saved: bool,
                                    actions: seq<Action>)
    returns (done: nat)
    requires cfg.contracts && Chain(chain) && 0 < start && AnchoredRun(cfg, Boot(t0, start, saved), actions)
    requires forall a :: a in actions ==> HonestAction(cfg, chain, a)
    ensures Sound(cfg, chain, start, t0, Execute(cfg, Boot(t0, start, saved), actions), done)
  {
    if actions == [] {
      done := FirstAt(chain, start);
      FirstAtSplits(chain, start);
      FoldNone(cfg, t0, chain, done);
      hide Folded;
    } else {
      hide Step, Sound, HonestAction, Anchored, AnchoredRun;
      var init := actions[..|actions| - 1];
      AnchoredSnoc(cfg, Boot(t0, start, saved), actions);
      done := RunKeeps(cfg, chain, start, t0, saved, init);
      done := StepKeeps(cfg, chain, start, t0, Execute(cfg, Boot(t0, start, saved), init), done,
          actions[|actions| - 1]);
    }
  }

  /** Whatever the database held at the first start, the tables of every run are one left-to-right fold of
      the handler over the new events of a prefix of the chain: no crash, retry or lost checkpoint write shows. */
  lemma CrashEquivalence(cfg: Config, chain: seq<Event>, start: int, t0: Tables, saved: bool, actions: seq<Action>)
    requires cfg.contracts && Chain(chain) && 0 < start && AnchoredRun(cfg, Boot(t0, start, saved), actions)
    requires forall a :: a in actions ==> HonestAction(cfg, chain, a)
    ensures exists done :: FirstAt(chain, start) <= done <= |chain| &&
              Fold(cfg, t0, Skip(t0.log, chain[FirstAt(chain, start)..done]))
              == Some(Execute(cfg, Boot(t0, start, saved), actions).st.tables)
  {
    hide Execute, Handle, AnchoredRun;
    var done := RunKeeps(cfg, chain, start, t0, saved, actions);
  }

  /** Over a database that has seen none of them, the new events are all of them. */
  lemma {:induction false} SkipNone(log: map<string, LogRow>, es: seq<Event>)
    requires forall i :: 0 <= i < |es| ==> es[i].id !in log
    ensures Skip(log, es) == es
  {
    if es != [] {
      SkipNone(log, es[..|es| - 1]);
    }
  }

  /** In every reachable state each event from the first start up to the current ledger, and so up to the
      checkpoint, is committed or is of a kind the listener skips. */
  lemma NoLoss(cfg: Config, chain: seq<Event>, start: int, t0: Tables, saved: bool, actions: seq<Action>, i: nat)
    requires cfg.contracts && Chain(chain) && 0 < start && AnchoredRun(cfg, Boot(t0, start, saved), actions)
    requires forall a :: a in actions ==> HonestAction(cfg, chain, a)
    requires i < |chain| && start <= chain[i].ledger
    ensures var st := Execute(cfg, Boot(t0, start, saved), actions).st;
      chain[i].ledger < Max(st.current, st.checkpoint) ==> chain[i].id in st.tables.log || Unhandled(chain[i])
  {
    hide Execute, Handle, Folded, AnchoredRun;
    var done := RunKeeps(cfg, chain, start, t0, saved, actions);
    FirstAtSplits(chain, start);
  }

  // ----- positions: every run, whatever the pages hold -----

  ghost predicate TippedAction(a: Action) { a.Tick? ==> forall start :: Tipped(a.server(start)) }

  /** Every tip the server ever reports is at most `top`. */
  ghost predicate TipsAtMost(a: Action, top: int) {
    a.Tick? ==> forall start, k :: 0 <= k < |a.server(start)| && a.server(start)[k].Page? ==>
        a.server(start)[k].latest <= top
  }

  lemma {:induction false} PollTip(cfg: Config, t: Tables, endLedger: int, script: seq<Page>, latest: int,
      trace: seq<Applied>, top: int)
    requires latest <= top && forall k :: 0 <= k < |script| && script[k].Page? ==> script[k].latest <= top
    ensures PollPages(cfg, t, endLedger, script, latest, trace).latest <= top
    decreases |script|
  {
    hide Handle, ApplyAll;
    if script != [] && script[0].Page? {
      var page := script[0];
      var tip := if page.latest != 0 then page.latest else latest;
      var pending := Pending(cfg, page.events, endLedger, tip);
      var out := ApplyAll(cfg, t, pending, Logged(pending, t.log), page.faults, tip, trace);
      PollTip(cfg, out.tables, endLedger, script[1..], tip, out.trace, top);
    }
  }

  /** The checkpoint trails the current ledger, and the recorded boundary is behind it. */
  ghost predicate Placed(r: Run) {
    0 <= r.st.checkpoint <= r.st.current && 0 < r.st.current && r.st.finalized < r.st.current
  }

  /** A restart that has to ask for the tip is told a positive one. */
  predicate RestartsAtTip(a: Action) { a.Restart? ==> a.tip > 0 }

  lemma StepPlaces(cfg: Config, r: Run, a: Action)
    requires cfg.contracts && Placed(r) && RestartsAtTip(a)
    ensures Placed(Step(cfg, r, a)) && r.st.checkpoint <= Step(cfg, r, a).st.checkpoint
  {
    hide PollPages, MaxLogged;
  }

  lemma {:induction false} RunPlaces(cfg: Config, r: Run, actions: seq<Action>)
    requires cfg.contracts && Placed(r) && forall a :: a in actions ==> RestartsAtTip(a)
    ensures Placed(Execute(cfg, r, actions))
  {
    if actions != [] {
      hide Step, Placed, RestartsAtTip;
      RunPlaces(cfg, r, actions[..|actions| - 1]);
      StepPlaces(cfg, Execute(cfg, r, actions[..|actions| - 1]), actions[|actions| - 1]);
    }
  }

  /** The saved checkpoint never decreases along a run, whatever the RPC answers and wherever restarts resume. */
  lemma {:induction false} CheckpointMonotone(cfg: Config, r: Run, actions: seq<Action>, more: seq<Action>)
    requires cfg.contracts && Placed(r) && forall a :: a in actions + more ==> RestartsAtTip(a)
    ensures Execute(cfg, r, actions).st.checkpoint <= Execute(cfg, r, actions + more).st.checkpoint
  {
    hide Step, Placed, RestartsAtTip;
    if more == [] {
      assert actions + more == actions;
    } else {
      var init, last := more[..|more| - 1], more[|more| - 1];
      assert (actions + more)[..|actions + more| - 1] == actions + init;
      assert last == (actions + more)[|actions + more| - 1];
      CheckpointMonotone(cfg, r, actions, init);
      RunPlaces(cfg, r, actions + init);
      StepPlaces(cfg, Execute(cfg, r, actions + init), last);
    }
  }

  /** Only a tick logs, and what it logs was confirmed. */
  lemma StepTraces(cfg: Config, t0: Tables, r: Run, a: Action)
    requires Traced(cfg, t0, r.st.tables, r.trace) && TippedAction(a)
    ensures Traced(cfg, t0, Step(cfg, r, a).st.tables, Step(cfg, r, a).trace)
  {
    hide PollPages, Traced, MaxLogged;
    if a.Tick? {
      PollTraces(cfg, t0, r.st.tables, 0, a.server(r.st.current), 0, r.trace);
    }
  }

  lemma {:induction false} RunTraces(cfg: Config, start: int, t0: Tables, saved: bool, actions: seq<Action>)
    requires forall a :: a in actions ==> TippedAction(a)
    ensures var r := Execute(cfg, Boot(t0, start, saved), actions); Traced(cfg, t0, r.st.tables, r.trace)
  {
    if actions != [] {
      hide Step, Traced, TippedAction;
      var init := actions[..|actions| - 1];
      RunTraces(cfg, start, t0, saved, init);
      StepTraces(cfg, t0, Execute(cfg, Boot(t0, start, saved), init), actions[|actions| - 1]);
    }
  }

  /** The process has not moved from its first start into the confirmation window of the highest tip. */
  ghost predicate Outside(cfg: Config, start: int, r: Run, top: int) {
    && 0 < start <= r.st.current <= Max(start, top - cfg.depth + 1)
    && 0 <= r.st.checkpoint <= r.st.current && r.st.finalized < r.st.current
    && (r.st.checkpoint == 0 || start <= r.st.checkpoint)
  }

  lemma StepOutside(cfg: Config, start: int, r: Run, a: Action, top: int)
    requires cfg.contracts && cfg.depth > 0 && 0 <= top && Outside(cfg, start, r, top)
    requires TipsAtMost(a, top) && Anchored(r, a)
    ensures Outside(cfg, start, Step(cfg, r, a), top)
  {
    hide PollPages, MaxLogged;
    if a.Tick? {
      PollTip(cfg, r.st.tables, 0, a.server(r.st.current), 0, r.trace, top);
    }
  }

  lemma {:induction false} RunOutside(cfg: Config, start: int, t0: Tables, saved: bool, actions: seq<Action>, top: int)
    requires cfg.contracts && cfg.depth > 0 && 0 < start && 0 <= top
    requires AnchoredRun(cfg, Boot(t0, start, saved), actions) && forall a :: a in actions ==> TipsAtMost(a, top)
    ensures Outside(cfg, start, Execute(cfg, Boot(t0, start, saved), actions), top)
  {
    if actions != [] {
      hide Step, Outside, TipsAtMost, Anchored, AnchoredRun;
      var init := actions[..|actions| - 1];
      AnchoredSnoc(cfg, Boot(t0, start, saved), actions);
      RunOutside(cfg, start, t0, saved, init, top);
      StepOutside(cfg, start, Execute(cfg, Boot(t0, start, saved), init), actions[|actions| - 1], top);
    }
  }

  /** In every run, rising tips, disordered pages and restarts without a checkpoint included, only confirmed
      events are ever logged. When restarts find a checkpoint, the saved and the current ledger stay at or below
      the boundary of the highest tip seen, and the recorded boundary stays below the current ledger. */
  lemma ConfirmationSafety(cfg: Config, start: int, t0: Tables, saved: bool, actions: seq<Action>, top: int)
    requires cfg.contracts && cfg.depth > 0 && 0 < start && 0 <= top
    requires forall a :: a in actions ==> TippedAction(a) && TipsAtMost(a, top)
    ensures var r := Execute(cfg, Boot(t0, start, saved), actions);
      && (forall a :: a in r.trace ==> a.event.ledger <= a.tip - cfg.depth)
      && (forall id :: id in r.st.tables.log && id !in t0.log ==> exists a :: a in r.trace && a.event.id == id)
      && (AnchoredRun(cfg, Boot(t0, start, saved), actions) ==>
            && r.st.checkpoint <= r.st.current <= Max(start, top - cfg.depth + 1)
            && r.st.finalized < r.st.current)
  {
    hide Execute, AnchoredRun;
    RunTraces(cfg, start, t0, saved, actions);
    if AnchoredRun(cfg, Boot(t0, start, saved), actions) {
      RunOutside(cfg, start, t0, saved, actions, top);
    }
  }

  // ----- reorganisation -----

  /** One tick never lowers the recorded boundary. */
  lemma FinalizedNeverFalls(cfg: Config, r: Run, a: Action)
    requires a.Tick?
    ensures r.st.finalized <= Step(cfg, r, a).st.finalized
  {
  }

  /** After a tick that sees the boundary's hash changed, nothing is applied and no checkpoint is
      written until an operator restarts the process. */
  lemma {:induction false} ReorgHalts(cfg: Config, r: Run, a: Action, later: seq<Action>)
    requires a.Tick? && (r.st.halted || ReorgSeen(r.st, a.observed))
    requires forall b :: b in later ==> b.Tick?
    ensures Execute(cfg, Step(cfg, r, a), later) == r.(st := r.st.(halted := true))
  {
    if later != [] {
      ReorgHalts(cfg, r, a, later[..|later| - 1]);
    }
  }

  // ----- backfill -----

  datatype BackfillOut = Invalid | Backfilled(tables: Tables, ok: bool)

  function Backfill(cfg: Config, t: Tables, from: int, to: int, script: seq<Page>): BackfillOut {
    if from <= 0 || to < from || !cfg.contracts then Invalid
    else var out := PollRange(cfg, t, from, to, script, []); Backfilled(out.tables, out.ok)
  }

  /** A backfill of any database is again a fold of the handler over the new ones of consecutive chain events,
      none past `to`; when it succeeds it has every event of the range that cleared the window. */
  lemma BackfillExact(cfg: Config, chain: seq<Event>, t0: Tables, from: int, to: int, script: seq<Page>)
    returns (done: nat)
    requires Chain(chain) && 0 < from <= to && cfg.contracts
    requires Honest(cfg, to, chain, FirstAt(chain, from), script)
    ensures var out := Backfill(cfg, t0, from, to, script);
      && out.Backfilled?
      && FirstAt(chain, from) <= done <= |chain|
      && Fold(cfg, t0, Skip(t0.log, chain[FirstAt(chain, from)..done])) == Some(out.tables)
      && (forall i :: FirstAt(chain, from) <= i < done ==> from <= chain[i].ledger <= to)
      && (out.ok ==>
            var tip := PollPages(cfg, t0, to, script, 0, []).latest;
            forall i :: 0 <= i < |chain| && from <= chain[i].ledger <= to && chain[i].ledger <= tip
                        && !Deferred(cfg, to, tip, chain[i].ledger) ==>
              chain[i].id in out.tables.log || Unhandled(chain[i]))
  {
    hide Handle, PollPages, Honest;
    var pos := FirstAt(chain, from);
    FirstAtSplits(chain, from);
    FoldNone(cfg, t0, chain, pos);
    done := PollKeeps(cfg, chain, pos, t0, t0, pos, pos, to, script, 0, []);
  }
}
