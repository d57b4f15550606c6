/**
 Where the listener's guarantees end: events that a poll passes over or a restart
 skips, exactly when that happens, and that they then stay lost.
 */
module Losses {
  import opened Options
  import opened Handling
  import opened Listener

  /** A registry event: the simplest handled kind, always committed. */
  function Registration(id: string, ledger: int): Event {
    Event(id, "C", ledger, 0, Some(IssuerRegistered), Topic("", "G"), "", Garbled, "")
  }

  lemma ApplyOne(cfg: Config, t: Tables, e: Event, tip: int, trace: seq<Applied>)
    requires Handle(cfg, t, e).Commit?
    ensures ApplyAll(cfg, t, [e], {}, map[], tip, trace)
            == PageOut(Handle(cfg, t, e).tables, true, trace + [Applied(e, tip)])
  {
    assert [e][1..] == [];
  }

  lemma KeepFirst(e: Event, later: Event, bound: int)
    requires e.ledger <= bound
    ensures Keep([e], bound) == [e]
    ensures later.ledger > bound ==> Keep([e, later], bound) == [e]
  {
    assert [e][..0] == [];
    assert Keep([], bound) == [];
    assert Keep([e], bound) == Keep([], bound) + [e];
    assert [e, later][..1] == [e];
  }

  lemma RegistrationCommits(cfg: Config, t: Tables, id: string, ledger: int)
    ensures var e := Registration(id, ledger);
      Handle(cfg, t, e) == Commit(t.(log := LogEvent(t.log, e, IssuerRegistered, Fields(map["address" := "G"]))))
  {
  }

  /** Whenever the tip rises between two pages of one poll far enough to release a ledger that the first page
      deferred, the poll passes over the deferred event `b`: it commits `a` and `c` and ends past both. */
  lemma RisingTipSkips(cfg: Config, t: Tables, start: int, a: Event, b: Event, c: Event, tip: nat, tip': nat)
    requires cfg.contracts && cfg.depth > 0 && 0 < tip < tip' && start <= a.ledger
    requires a.ledger <= tip - cfg.depth < b.ledger <= c.ledger <= tip' - cfg.depth
    requires Handle(cfg, t, a).Commit? && Handle(cfg, Handle(cfg, t, a).tables, c).Commit?
    requires a.id !in t.log && c.id !in Handle(cfg, t, a).tables.log
    ensures var out := PollRange(cfg, t, start, 0,
        [Page(tip, [a, b], true, false, map[]), Page(tip', [c], false, false, map[])], []);
      && out.ok && b.ledger < out.next == tip' - cfg.depth + 1
      && out.tables == Handle(cfg, Handle(cfg, t, a).tables, c).tables
  {
    hide Handle, ApplyAll, Keep;
    var p, q := Page(tip, [a, b], true, false, map[]), Page(tip', [c], false, false, map[]);
    var t1 := Handle(cfg, t, a).tables;
    KeepFirst(a, b, tip - cfg.depth);
    KeepFirst(c, c, tip' - cfg.depth);
    assert Logged([a], t.log) == {} && Logged([c], t1.log) == {};
    var trace := [] + [Applied(a, tip)];
    ApplyOne(cfg, t, a, tip, []);
    ApplyOne(cfg, t1, c, tip', trace);
    assert [p, q][1..] == [q];
    assert PollPages(cfg, t1, 0, [q], tip, trace).ok;
    assert PollPages(cfg, t, 0, [p, q], 0, []) == PollPages(cfg, t1, 0, [q], tip, trace);
  }

  /** How many pages a poll of the whole tail reads: it stops at a page with nothing to apply or without a cursor. */
  function PagesRead(cfg: Config, script: seq<Page>): (n: nat)
    ensures n <= |script|
  {
    if script == [] || script[0].RpcError? then 0
    else if Pending(cfg, script[0].events, 0, script[0].latest) == [] || !script[0].cursor then 1
    else 1 + PagesRead(cfg, script[1..])
  }

  /** Event e of page k has cleared the window of that page's own tip. */
  ghost predicate Cleared(cfg: Config, script: seq<Page>, k: nat, e: Event) {
    k < PagesRead(cfg, script) && k < |script| && script[k].Page?
        && e in Pending(cfg, script[k].events, 0, script[k].latest)
  }

  ghost predicate ClearedId(cfg: Config, script: seq<Page>, id: string) {
    exists k: nat, e :: Cleared(cfg, script, k, e) && e.id == id && !Unhandled(e)
  }

  lemma ClearedRest(cfg: Config, script: seq<Page>, id: string)
    requires script != [] && script[0].Page?
    requires Pending(cfg, script[0].events, 0, script[0].latest) != [] && script[0].cursor
    ensures ClearedId(cfg, script, id) <==>
      (exists e :: e in Pending(cfg, script[0].events, 0, script[0].latest) && e.id == id && !Unhandled(e))
      || ClearedId(cfg, script[1..], id)
  {
    hide Pending, Unhandled;
    if k: nat, e :| Cleared(cfg, script, k, e) && e.id == id && !Unhandled(e) {
      if k > 0 {
        assert script[1..][k - 1] == script[k];
        assert Cleared(cfg, script[1..], k - 1, e);
      }
    }
    if e :| e in Pending(cfg, script[0].events, 0, script[0].latest) && e.id == id && !Unhandled(e) {
      assert Cleared(cfg, script, 0, e);
    }
    if k: nat, e :| Cleared(cfg, script[1..], k, e) && e.id == id && !Unhandled(e) {
      assert script[1..][k] == script[k + 1];
      assert Cleared(cfg, script, k + 1, e);
    }
  }

  lemma ClearedLast(cfg: Config, script: seq<Page>, id: string)
    requires script != [] && script[0].Page?
    requires Pending(cfg, script[0].events, 0, script[0].latest) == [] || !script[0].cursor
    ensures ClearedId(cfg, script, id) <==>
      exists e :: e in Pending(cfg, script[0].events, 0, script[0].latest) && e.id == id && !Unhandled(e)
  {
    hide Pending, Unhandled;
    if k: nat, e :| Cleared(cfg, script, k, e) && e.id == id && !Unhandled(e) {
      assert k == 0;
    }
    if e :| e in Pending(cfg, script[0].events, 0, script[0].latest) && e.id == id && !Unhandled(e) {
      assert Cleared(cfg, script, 0, e);
    }
  }

  /** A page processed without error logs exactly its handled events. */
  lemma {:induction false} ApplyLogs(cfg: Config, t: Tables, pending: seq<Event>, processed: set<string>,
                                     faults: map<string, nat>, tip: int, trace: seq<Applied>, id: string)
    requires forall e :: e in pending && e.id in processed ==> e.id in t.log
    ensures var out := ApplyAll(cfg, t, pending, processed, faults, tip, trace);
      out.ok ==> (id in out.tables.log <==> id in t.log || exists e :: e in pending && e.id == id && !Unhandled(e))
    decreases |pending|
  {
    if pending != [] {
      var e, rest := pending[0], pending[1..];
      assert forall x :: x in pending <==> x == e || x in rest;
      if e.id in processed {
        hide Handle, Unhandled;
        ApplyLogs(cfg, t, rest, processed, faults, tip, trace, id);
      } else if e.id !in faults && Handle(cfg, t, e).Commit? {
        CommitWrites(cfg, t, e);
        hide Handle, Unhandled;
        ApplyLogs(cfg, Handle(cfg, t, e).tables, rest, processed, faults, tip, trace + [Applied(e, tip)], id);
      }
    }
  }

  /** A poll without error reports the tip of the last page it read. */
  lemma {:induction false} PollLast(cfg: Config, t: Tables, script: seq<Page>, latest: int, trace: seq<Applied>)
    requires AllTipped(script) && PollPages(cfg, t, 0, script, latest, trace).ok
    ensures var n := PagesRead(cfg, script);
      n > 0 && script[n - 1].Page? && PollPages(cfg, t, 0, script, latest, trace).latest == script[n - 1].latest
    decreases |script|
  {
    assert script != [] && script[0].Page?;
    hide PollPages, ApplyAll, Pending, Logged;
    var page := script[0];
    var pending := Pending(cfg, page.events, 0, page.latest);
    PollUnfolds(cfg, t, 0, script, latest, trace);
    var out := ApplyAll(cfg, t, pending, Logged(pending, t.log), page.faults, page.latest, trace);
    if pending != [] && page.cursor {
      PollLast(cfg, out.tables, script[1..], page.latest, out.trace);
    }
  }

  /** A poll without error logs exactly the handled events that cleared the window of the page they came on. */
  lemma {:induction false} PollLogs(cfg: Config, t: Tables, script: seq<Page>, latest: int, trace: seq<Applied>,
      id: string)
    requires AllTipped(script) && PollPages(cfg, t, 0, script, latest, trace).ok
    ensures id in PollPages(cfg, t, 0, script, latest, trace).tables.log <==> id in t.log || ClearedId(cfg, script, id)
    decreases |script|
  {
    assert script != [] && script[0].Page?;
    hide Handle, Unhandled, PollPages, ApplyAll, Pending, Logged, ClearedId, PagesRead;
    var page := script[0];
    var pending := Pending(cfg, page.events, 0, page.latest);
    PollUnfolds(cfg, t, 0, script, latest, trace);
    LoggedIn(pending, t.log);
    ApplyLogs(cfg, t, pending, Logged(pending, t.log), page.faults, page.latest, trace, id);
    var out := ApplyAll(cfg, t, pending, Logged(pending, t.log), page.faults, page.latest, trace);
    if pending == [] || !page.cursor {
      ClearedLast(cfg, script, id);
    } else {
      ClearedRest(cfg, script, id);
      PollLogs(cfg, out.tables, script[1..], page.latest, out.trace, id);
    }
  }

  lemma LoggedIn(pending: seq<Event>, log: map<string, LogRow>)
    ensures forall e :: e in pending && e.id in Logged(pending, log) ==> e.id in log
  {
  }

  /** The poll read event e on page k and ended past it without logging it. */
  ghost predicate PassedOver(cfg: Config, script: seq<Page>, out: RangeOut, k: nat, e: Event) {
    && k < PagesRead(cfg, script) && script[k].Page? && e in script[k].events
    && !Unhandled(e) && e.ledger < out.next && e.id !in out.tables.log
  }

  /** Event e, inside the window of its own page's tip, is outside the window of the last page's tip. */
  ghost predicate ReleasedLate(cfg: Config, script: seq<Page>, k: nat, e: Event) {
    var last := PagesRead(cfg, script);
    && k < last && script[k].Page? && script[last - 1].Page? && e in script[k].events && !Unhandled(e)
    && script[k].latest - cfg.depth < e.ledger <= script[last - 1].latest - cfg.depth
  }

  ghost predicate OnPage(script: seq<Page>, k: nat, e: Event) {
    k < |script| && script[k].Page? && e in script[k].events
  }

  /** Event e is on page k only, and no other event has its id. */
  ghost predicate Alone(script: seq<Page>, k: nat, e: Event) {
    forall j: nat, d :: OnPage(script, j, d) && d.id == e.id ==> d == e && j == k
  }

  /** Every answer up to the first error reports a tip. */
  ghost predicate AllTipped(script: seq<Page>)
    decreases |script|
  {
    script == [] || script[0].RpcError? || (script[0].latest > 0 && AllTipped(script[1..]))
  }

  lemma {:induction false} TippedAt(cfg: Config, script: seq<Page>, k: nat)
    requires AllTipped(script) && k < PagesRead(cfg, script)
    ensures script[k].Page? && script[k].latest > 0
    decreases |script|
  {
    hide Pending;
    if k > 0 {
      TippedAt(cfg, script[1..], k - 1);
    }
  }

  /**
   With no assumption on how the tip moves, a poll that ends without error passes over an unlogged event
   it has read exactly when a later page's tip released a ledger that the event's own page deferred.
   */
  lemma PassedOverIff(cfg: Config, t: Tables, start: int, script: seq<Page>, trace: seq<Applied>, k: nat, e: Event)
    requires cfg.contracts && cfg.depth > 0 && AllTipped(script)
    requires OnPage(script, k, e) && Alone(script, k, e) && e.id !in t.log && start <= e.ledger
    requires PollRange(cfg, t, start, 0, script, trace).ok
    ensures PassedOver(cfg, script, PollRange(cfg, t, start, 0, script, trace), k, e) <==>
        ReleasedLate(cfg, script, k, e)
  {
    hide PollPages, ClearedId, PagesRead, Pending, Unhandled, Alone, AllTipped;
    PollLogs(cfg, t, script, 0, trace, e.id);
    PollLast(cfg, t, script, 0, trace);
    if k < PagesRead(cfg, script) {
      TippedAt(cfg, script, k);
      OwnPage(cfg, script, k, e);
    }
  }

  lemma {:induction false} KeepMeans(events: seq<Event>, bound: int, e: Event)
    ensures e in Keep(events, bound) <==> e in events && e.ledger <= bound
  {
    if events != [] {
      KeepMeans(events[..|events| - 1], bound, e);
      assert events == events[..|events| - 1] + [events[|events| - 1]];
    }
  }

  /** A handled event of page k is logged by its own page or not at all. */
  lemma OwnPage(cfg: Config, script: seq<Page>, k: nat, e: Event)
    requires cfg.depth > 0 && OnPage(script, k, e) && Alone(script, k, e) && script[k].latest > 0
    ensures !Unhandled(e) && k < PagesRead(cfg, script) ==>
      (ClearedId(cfg, script, e.id) <==> e.ledger <= script[k].latest - cfg.depth)
  {
    KeepMeans(script[k].events, script[k].latest - cfg.depth, e);
    assert e in Pending(cfg, script[k].events, 0, script[k].latest) <==> e.ledger <= script[k].latest - cfg.depth;
    hide Unhandled, PagesRead, Pending;
    if !Unhandled(e) && k < PagesRead(cfg, script) {
      if j: nat, d :| Cleared(cfg, script, j, d) && d.id == e.id && !Unhandled(d) {
        PendingFrom(cfg, script[j].events, script[j].latest, d);
        assert OnPage(script, j, d);
        assert d == e && j == k;
      }
      if e.ledger <= script[k].latest - cfg.depth {
        assert Cleared(cfg, script, k, e);
      }
    }
  }

  lemma PendingFrom(cfg: Config, events: seq<Event>, tip: int, e: Event)
    requires e in Pending(cfg, events, 0, tip)
    ensures e in events
  {
    KeepMeans(events, tip - cfg.depth, e);
  }

  // ----- a log row only comes from a page -----

  /** No event that the poll can read has this id. */
  ghost predicate Without(script: seq<Page>, id: string)
    decreases |script|
  {
    script == [] || script[0].RpcError? ||
    ((forall e :: e in script[0].events ==> e.id != id) && Without(script[1..], id))
  }

  lemma {:induction false} ApplyGrows(cfg: Config, t: Tables, pending: seq<Event>, processed: set<string>,
                                      faults: map<string, nat>, tip: int, trace: seq<Applied>, id: string)
    ensures var out := ApplyAll(cfg, t, pending, processed, faults, tip, trace);
      && (id in t.log ==> id in out.tables.log && out.tables.log[id] == t.log[id])
      && (id !in t.log && (forall e :: e in pending ==> e.id != id) ==> id !in out.tables.log)
    decreases |pending|
  {
    if pending != [] {
      var e, rest := pending[0], pending[1..];
      assert forall x :: x in rest ==> x in pending;
      if e.id in processed {
        ApplyGrows(cfg, t, rest, processed, faults, tip, trace, id);
      } else if e.id !in faults && Handle(cfg, t, e).Commit? {
        CommitWrites(cfg, t, e);
        hide Handle;
        ApplyGrows(cfg, Handle(cfg, t, e).tables, rest, processed, faults, tip, trace + [Applied(e, tip)], id);
      }
    }
  }

  lemma PendingIn(cfg: Config, events: seq<Event>, endLedger: int, latest: int, e: Event)
    requires e in Pending(cfg, events, endLedger, latest)
    ensures e in events
  {
    KeepMeans(events, endLedger, e);
    KeepMeans(if endLedger > 0 then Keep(events, endLedger) else events, latest - cfg.depth, e);
  }

  lemma {:induction false} PollGrows(cfg: Config, t: Tables, endLedger: int, script: seq<Page>, latest: int,
                                     trace: seq<Applied>, id: string)
    ensures var out := PollPages(cfg, t, endLedger, script, latest, trace);
      && (id in t.log ==> id in out.tables.log && out.tables.log[id] == t.log[id])
      && (id !in t.log && Without(script, id) ==> id !in out.tables.log)
    decreases |script|
  {
    hide Handle, ApplyAll, Pending, Logged, PastEnd;
    if script != [] && script[0].Page? {
      var page := script[0];
      var tip := if page.latest != 0 then page.latest else latest;
      var pending := Pending(cfg, page.events, endLedger, tip);
      var out := ApplyAll(cfg, t, pending, Logged(pending, t.log), page.faults, tip, trace);
      ApplyGrows(cfg, t, pending, Logged(pending, t.log), page.faults, tip, trace, id);
      PollGrows(cfg, out.tables, endLedger, script[1..], tip, out.trace, id);
      forall e | e in pending ensures e in page.events {
        PendingIn(cfg, page.events, endLedger, tip, e);
      }
    }
  }

  // ----- exactly what a poll logs of the chain -----

  /** Pages are consecutive slices of the chain under a positive tip. The poll may stop anywhere: at an
      empty page, or for want of a cursor. */
  ghost predicate Sliced(chain: seq<Event>, pos: nat, script: seq<Page>)
    decreases |script|
  {
    script == [] || script[0].RpcError? ||
    (script[0].latest > 0 && IsSlice(chain, pos, script[0].events)
     && Sliced(chain, pos + |script[0].events|, script[1..]))
  }

  /** The tip reported with the page on which the poll, from `pos` on, reads place i of the chain; none if it never
      does. */
  function ReadUnder(cfg: Config, pos: nat, script: seq<Page>, i: nat): Option<int>
    decreases |script|
  {
    if script == [] || script[0].RpcError? then None
    else
      var page := script[0];
      if pos <= i < pos + |page.events| then Some(page.latest)
      else if Pending(cfg, page.events, 0, page.latest) == [] || !page.cursor then None
      else ReadUnder(cfg, pos + |page.events|, script[1..], i)
  }

  /** The event was read under a tip whose window it had cleared. */
  ghost predicate ReadClear(cfg: Config, chain: seq<Event>, pos: nat, script: seq<Page>, i: nat)
    requires i < |chain|
  {
    var tip := ReadUnder(cfg, pos, script, i);
    tip.Some? && (cfg.depth > 0 ==> chain[i].ledger <= tip.value - cfg.depth)
  }

  lemma {:induction false} ReadBehind(cfg: Config, pos: nat, script: seq<Page>, i: nat)
    requires i < pos
    ensures ReadUnder(cfg, pos, script, i) == None
    decreases |script|
  {
    hide Pending;
    if script != [] && script[0].Page? {
      ReadBehind(cfg, pos + |script[0].events|, script[1..], i);
    }
  }

  /** What a page leaves pending of place i. */
  lemma PendingPlace(cfg: Config, chain: seq<Event>, pos: nat, events: seq<Event>, tip: int, i: nat)
    requires Chain(chain) && IsSlice(chain, pos, events) && tip > 0 && i < |chain| && !Unhandled(chain[i])
    ensures (exists e :: e in Pending(cfg, events, 0, tip) && e.id == chain[i].id && !Unhandled(e)) <==>
      pos <= i < pos + |events| && (cfg.depth > 0 ==> chain[i].ledger <= tip - cfg.depth)
  {
    hide Unhandled, Ordered, Pending;
    PendingHas(cfg, events, tip, chain[i]);
    if e :| e in Pending(cfg, events, 0, tip) && e.id == chain[i].id && !Unhandled(e) {
      PendingHas(cfg, events, tip, e);
      var j :| 0 <= j < |events| && events[j] == e;
      assert chain[pos + j] == e;
      assert pos + j == i;
    }
    if pos <= i < pos + |events| {
      assert events[i - pos] == chain[i];
    }
  }

  /** A page leaves pending exactly its events outside the window of its tip. */
  lemma PendingHas(cfg: Config, events: seq<Event>, tip: int, e: Event)
    requires tip > 0
    ensures e in Pending(cfg, events, 0, tip) <==> e in events && (cfg.depth > 0 ==> e.ledger <= tip - cfg.depth)
  {
    KeepMeans(events, tip - cfg.depth, e);
    hide Keep;
  }

  /** Reading place i from the first page on: there, or on the pages after it if there are any. */
  lemma ReadStep(cfg: Config, chain: seq<Event>, pos: nat, script: seq<Page>, i: nat)
    requires script != [] && script[0].Page? && i < |chain|
    ensures var page := script[0];
      var end := pos + |page.events|;
      var more := Pending(cfg, page.events, 0, page.latest) != [] && page.cursor;
      && (pos <= i < end ==>
            (ReadClear(cfg, chain, pos, script, i) <==>
               (cfg.depth > 0 ==> chain[i].ledger <= page.latest - cfg.depth)))
      && (!(pos <= i < end) && more ==>
            (ReadClear(cfg, chain, pos, script, i) <==> ReadClear(cfg, chain, end, script[1..], i)))
      && (!(pos <= i < end) && !more ==> !ReadClear(cfg, chain, pos, script, i))
      && (i < end ==> !ReadClear(cfg, chain, end, script[1..], i))
  {
    hide Pending;
    var end := pos + |script[0].events|;
    if i < end {
      ReadBehind(cfg, end, script[1..], i);
    }
  }

  lemma SlicedStep(chain: seq<Event>, pos: nat, script: seq<Page>)
    requires Sliced(chain, pos, script) && script != [] && script[0].Page?
    ensures script[0].latest > 0 && IsSlice(chain, pos, script[0].events)
    ensures Sliced(chain, pos + |script[0].events|, script[1..])
  {
    hide IsSlice;
  }

  lemma OkHasPage(cfg: Config, t: Tables, script: seq<Page>, latest: int, trace: seq<Applied>)
    requires PollPages(cfg, t, 0, script, latest, trace).ok
    ensures script != [] && script[0].Page?
  {
    hide ApplyAll, Pending, Logged, PastEnd;
  }

  lemma {:induction false} PollReads(cfg: Config, t: Tables, chain: seq<Event>, pos: nat, script: seq<Page>,
                                     latest: int, trace: seq<Applied>, i: nat)
    requires Chain(chain) && Sliced(chain, pos, script) && i < |chain| && !Unhandled(chain[i])
    requires PollPages(cfg, t, 0, script, latest, trace).ok
    ensures chain[i].id in PollPages(cfg, t, 0, script, latest, trace).tables.log <==>
      chain[i].id in t.log || ReadClear(cfg, chain, pos, script, i)
    decreases |script|
  {
    hide Handle, Unhandled, PollPages, ApplyAll, Pending, Logged, Chain, IsSlice, PastEnd, Sliced, ReadClear;
    OkHasPage(cfg, t, script, latest, trace);
    var page, id := script[0], chain[i].id;
    var pending := Pending(cfg, page.events, 0, page.latest);
    SlicedStep(chain, pos, script);
    ReadStep(cfg, chain, pos, script, i);
    PollUnfolds(cfg, t, 0, script, latest, trace);
    NotPastEnd(page.events);
    LoggedIn(pending, t.log);
    ApplyLogs(cfg, t, pending, Logged(pending, t.log), page.faults, page.latest, trace, id);
    PendingPlace(cfg, chain, pos, page.events, page.latest, i);
    var out := ApplyAll(cfg, t, pending, Logged(pending, t.log), page.faults, page.latest, trace);
    if pending != [] && page.cursor {
      PollReads(cfg, out.tables, chain, pos + |page.events|, script[1..], page.latest, out.trace, i);
    }
  }

  /** A poll of the whole tail has no end to pass. */
  lemma NotPastEnd(events: seq<Event>)
    ensures !PastEnd(events, 0)
  {
  }

  /**
   With no assumption on how the tip moves or where the pages stop: a poll that ends without error logs a handled
   event that was not logged yet exactly when it read the event under a tip whose window it had cleared. So the
   event is left behind, below where the next poll starts, exactly when it was not read or was released late.
   */
  lemma LeftBehindIff(cfg: Config, t: Tables, chain: seq<Event>, start: int, script: seq<Page>, trace: seq<Applied>,
      i: nat)
    requires cfg.contracts && Chain(chain) && Sliced(chain, FirstAt(chain, start), script)
    requires i < |chain| && !Unhandled(chain[i]) && chain[i].id !in t.log
    requires PollRange(cfg, t, start, 0, script, trace).ok
    ensures var out := PollRange(cfg, t, start, 0, script, trace);
      var tip := ReadUnder(cfg, FirstAt(chain, start), script, i);
      (chain[i].id !in out.tables.log && chain[i].ledger < out.next) <==>
        chain[i].ledger < out.next && (tip.None? || (cfg.depth > 0 && tip.value - cfg.depth < chain[i].ledger))
  {
    hide PollPages, FirstAt, Chain, Sliced, ReadUnder, Unhandled;
    PollReads(cfg, t, chain, FirstAt(chain, start), script, 0, trace, i);
  }

  // ----- the newest logged ledger -----

  /** MAX(ledger): at least every logged ledger, and one of them. */
  lemma {:induction false} MaxIsGreatest(log: map<string, LogRow>)
    requires log != map[]
    ensures forall id :: id in log ==> log[id].ledger <= MaxLogged(log)
    ensures exists id :: id in log && log[id].ledger == MaxLogged(log)
  {
    var id :| id in log && MaxLogged(log) ==
      if log - {id} == map[] then log[id].ledger else Max(log[id].ledger, MaxLogged(log - {id}));
    var rest := log - {id};
    if rest == map[] {
      assert forall x :: x in log ==> x == id || x in rest;
    } else {
      MaxIsGreatest(rest);
      assert MaxLogged(log) == Max(log[id].ledger, MaxLogged(rest));
      assert forall x :: x in log ==> x == id || (x in rest && rest[x] == log[x]);
      var y :| y in rest && rest[y].ledger == MaxLogged(rest);
      assert y in log && log[y].ledger == MaxLogged(rest);
    }
  }

  /** The newest logged ledger does not fall while rows are kept. */
  lemma MaxGrows(log: map<string, LogRow>, more: map<string, LogRow>)
    requires log != map[] && forall id :: id in log ==> id in more && more[id] == log[id]
    ensures MaxLogged(log) <= MaxLogged(more)
  {
    MaxIsGreatest(log);
    var id :| id in log && log[id].ledger == MaxLogged(log);
    MaxIsGreatest(more);
  }

  // ----- behind the listener for good -----

  /** Every page the poll can read holds chain events from the requested ledger on. */
  ghost predicate ServedFrom(chain: seq<Event>, start: int, script: seq<Page>)
    decreases |script|
  {
    script == [] || script[0].RpcError? ||
    ((forall e :: e in script[0].events ==> e in chain && e.ledger >= start) && ServedFrom(chain, start, script[1..]))
  }

  ghost predicate Serves(chain: seq<Event>, a: Action) {
    a.Tick? ==> forall start :: ServedFrom(chain, start, a.server(start))
  }

  lemma {:induction false} HonestServed(cfg: Config, chain: seq<Event>, start: int, pos: nat, script: seq<Page>)
    requires Ordered(chain) && FirstAt(chain, start) <= pos && Honest(cfg, 0, chain, pos, script)
    ensures ServedFrom(chain, start, script)
    decreases |script|
  {
    hide Ordered, FirstAt, Pending, IsSlice;
    if script != [] && script[0].Page? {
      var page := script[0];
      SliceServed(chain, start, pos, page.events);
      HonestServed(cfg, chain, start, pos + |page.events|, script[1..]);
    }
  }

  lemma SliceServed(chain: seq<Event>, start: int, pos: nat, events: seq<Event>)
    requires Ordered(chain) && FirstAt(chain, start) <= pos && IsSlice(chain, pos, events)
    ensures forall e :: e in events ==> e in chain && e.ledger >= start
  {
    FirstAtSplits(chain, start);
    hide FirstAt;
    forall e | e in events ensures e in chain && e.ledger >= start {
      var i :| 0 <= i < |events| && events[i] == e;
      assert e == chain[pos + i];
    }
  }

  /** Serving chain events from the requested ledger on is the least an honest RPC does. */
  lemma HonestServes(cfg: Config, chain: seq<Event>, a: Action)
    requires Ordered(chain) && HonestAction(cfg, chain, a)
    ensures Serves(chain, a)
  {
    hide Honest, ServedFrom, Ordered;
    if a.Tick? {
      forall start ensures ServedFrom(chain, start, a.server(start)) {
        HonestServed(cfg, chain, start, FirstAt(chain, start), a.server(start));
      }
    }
  }

  lemma {:induction false} ServedWithout(chain: seq<Event>, start: int, script: seq<Page>, e: Event)
    requires Chain(chain) && e in chain && e.ledger < start && ServedFrom(chain, start, script)
    ensures Without(script, e.id)
    decreases |script|
  {
    if script != [] && script[0].Page? {
      forall d | d in script[0].events ensures d.id != e.id {
        var i :| 0 <= i < |chain| && chain[i] == d;
        var j :| 0 <= j < |chain| && chain[j] == e;
        assert i != j;
      }
      ServedWithout(chain, start, script[1..], e);
    }
  }

  /** The event is not logged, the process is past it, and so is every place a restart would resume at. */
  ghost predicate Gone(r: Run, e: Event) {
    && e.id !in r.st.tables.log && 0 <= e.ledger < r.st.current
    && (if r.st.checkpoint > 0 then e.ledger < r.st.checkpoint
        else r.st.tables.log != map[] && 0 < MaxLogged(r.st.tables.log) && e.ledger <= MaxLogged(r.st.tables.log))
  }

  lemma TickGone(cfg: Config, chain: seq<Event>, r: Run, a: Action, e: Event)
    requires cfg.contracts && Chain(chain) && e in chain && Serves(chain, a) && Gone(r, e) && a.Tick?
    ensures Gone(Step(cfg, r, a), e)
  {
    var script := a.server(r.st.current);
    ServedWithout(chain, r.st.current, script, e);
    var out := PollPages(cfg, r.st.tables, 0, script, 0, r.trace);
    var log, more := r.st.tables.log, out.tables.log;
    forall id ensures id in log ==> id in more && more[id] == log[id] {
      PollGrows(cfg, r.st.tables, 0, script, 0, r.trace, id);
    }
    PollGrows(cfg, r.st.tables, 0, script, 0, r.trace, e.id);
    if log != map[] {
      MaxGrows(log, more);
      var id :| id in log;
      assert id in more;
    }
    hide PollPages, MaxLogged, Chain, ServedFrom, Without;
  }

  /** Once behind, always behind: no later tick or restart, in any number, logs the event. */
  lemma {:induction false} GoneForever(cfg: Config, chain: seq<Event>, r: Run, later: seq<Action>, e: Event)
    requires cfg.contracts && Chain(chain) && e in chain && Gone(r, e)
    requires forall a :: a in later ==> Serves(chain, a)
    ensures Gone(Execute(cfg, r, later), e)
  {
    if later != [] {
      var init, a := later[..|later| - 1], later[|later| - 1];
      GoneForever(cfg, chain, r, init, e);
      var mid := Execute(cfg, r, init);
      if a.Tick? {
        hide Gone, Step, Chain;
        TickGone(cfg, chain, mid, a, e);
      }
    }
  }

  /** An unlogged event below where a tick ends is lost for good once that tick's checkpoint is saved. */
  lemma LeftBehindForever(cfg: Config, chain: seq<Event>, r: Run, a: Action, e: Event, later: seq<Action>)
    requires cfg.contracts && Chain(chain) && e in chain && 0 <= e.ledger
    requires a.Tick? && a.saved && !r.st.halted && !ReorgSeen(r.st, a.observed)
    requires var out := PollRange(cfg, r.st.tables, r.st.current, 0, a.server(r.st.current), r.trace);
      out.ok && e.ledger < out.next && e.id !in out.tables.log
    requires forall b :: b in later ==> Serves(chain, b)
    ensures e.ledger < Step(cfg, r, a).st.checkpoint
    ensures e.id !in Execute(cfg, Step(cfg, r, a), later).st.tables.log
  {
    hide PollRange, Execute;
    GoneForever(cfg, chain, Step(cfg, r, a), later, e);
  }

  /** The same against any later runs of an honest RPC. */
  lemma HonestNeverRecovers(cfg: Config, chain: seq<Event>, r: Run, later: seq<Action>, e: Event)
    requires cfg.contracts && Chain(chain) && e in chain && Gone(r, e)
    requires forall a :: a in later ==> HonestAction(cfg, chain, a)
    ensures e.id !in Execute(cfg, r, later).st.tables.log
  {
    hide Execute, HonestAction, Serves;
    forall a | a in later ensures Serves(chain, a) {
      HonestServes(cfg, chain, a);
    }
    GoneForever(cfg, chain, r, later, e);
  }

  /** One empty page with a cursor, under tip 100 and depth 3, is the end of the tick: the checkpoint becomes 98
      although ledger 95 was never read, and no later run ever indexes it. */
  lemma EmptyPageLosesEvent(later: seq<Action>)
    requires forall x :: x in later ==> Serves([Registration("a", 95)], x)
    ensures var cfg, a := Config(false, [], 3, true), Registration("a", 95);
      var script := [Page(100, [], true, false, map[])];
      var r := Step(cfg, Boot(Tables(map[], map[], map[]), 90, true), Tick(start => script, None, None, true));
      && Sliced([a], 0, script) && r.st.checkpoint == 98 && !Unhandled(a)
      && a.id !in Execute(cfg, r, later).st.tables.log
  {
    var cfg, a := Config(false, [], 3, true), Registration("a", 95);
    var script := [Page(100, [], true, false, map[])];
    var r := Step(cfg, Boot(Tables(map[], map[], map[]), 90, true), Tick(start => script, None, None, true));
    assert script[1..] == [] && [a][0..0] == [];
    assert r.st.checkpoint == 98 && Gone(r, a) && Chain([a]);
    hide Step, Execute, Gone;
    GoneForever(cfg, [a], r, later, a);
  }

  /** Two pages of one tick: the tip goes from 100 to 105 between them, and ledger 98 is deferred on the first. */
  function RisingTick(): Action {
    Tick(start => [Page(100, [Registration("a", 97), Registration("b", 98)], true, false, map[]),
                   Page(105, [Registration("c", 99)], false, false, map[])], None, None, true)
  }

  lemma RisingTickSkips(cfg: Config, t: Tables)
    requires cfg == Config(false, [], 3, true) && t == Tables(map[], map[], map[])
    ensures var r := Step(cfg, Boot(t, 90, true), RisingTick());
      r.st.checkpoint == r.st.current == 103 && "b" !in r.st.tables.log
  {
    var a, b, c := Registration("a", 97), Registration("b", 98), Registration("c", 99);
    RegistrationCommits(cfg, t, "a", 97);
    var t1 := Handle(cfg, t, a).tables;
    RegistrationCommits(cfg, t1, "c", 99);
    hide PollRange, Handle;
    RisingTipSkips(cfg, t, 90, a, b, c, 100, 105);
  }

  /** A concrete loss: depth 3, the checkpoint becomes 103, and no later run ever indexes ledger 98. */
  lemma RisingTipLosesEvent(later: seq<Action>)
    requires var a, b, c := Registration("a", 97), Registration("b", 98), Registration("c", 99);
      forall x :: x in later ==> Serves([a, b, c], x)
    ensures var cfg := Config(false, [], 3, true);
      var r := Step(cfg, Boot(Tables(map[], map[], map[]), 90, true), RisingTick());
      && r.st.checkpoint == 103 && !Unhandled(Registration("b", 98))
      && "b" !in Execute(cfg, r, later).st.tables.log
  {
    var cfg, t := Config(false, [], 3, true), Tables(map[], map[], map[]);
    var a, b, c := Registration("a", 97), Registration("b", 98), Registration("c", 99);
    hide Step, Execute, Chain, MaxLogged, RisingTick, Serves;
    RisingTickSkips(cfg, t);
    ThreeChain(a, b, c);
    assert [a, b, c][1] == b;
    GoneForever(cfg, [a, b, c], Step(cfg, Boot(t, 90, true), RisingTick()), later, b);
  }

  lemma ThreeChain(a: Event, b: Event, c: Event)
    requires a.ledger <= b.ledger <= c.ledger && a.id != b.id && a.id != c.id && b.id != c.id
    ensures Chain([a, b, c])
  {
  }

  // ----- restarting without a checkpoint -----

  lemma FoldLast(cfg: Config, t0: Tables, chain: seq<Event>, base: nat, done: nat, t: Tables) returns (u: Tables)
    requires base < done <= |chain| && Folded(cfg, t0, chain, base, done) == Some(t) && t0.log == map[]
    ensures Folded(cfg, t0, chain, base, done - 1) == Some(u) && Handle(cfg, u, chain[done - 1]) == Commit(t)
  {
    hide Folded, Handle;
    FoldSnoc(cfg, t0, chain, base, done - 1);
    u := Folded(cfg, t0, chain, base, done - 1).value;
  }

  /** The log row came from a handled event of chain[base..done], with its ledger. */
  ghost predicate Sourced(chain: seq<Event>, base: nat, done: nat, id: string, row: LogRow) {
    exists i :: base <= i < done <= |chain| && chain[i].id == id && !Unhandled(chain[i])
        && row.ledger == chain[i].ledger
  }

  lemma {:induction false} FoldLogs(cfg: Config, t0: Tables, chain: seq<Event>, base: nat, done: nat, t: Tables,
      id: string)
    requires base <= done <= |chain| && Folded(cfg, t0, chain, base, done) == Some(t)
    requires t0.log == map[] && id in t.log
    ensures Sourced(chain, base, done, id, t.log[id])
  {
    hide Folded, Unhandled, Handle, FoldStep;
    if base == done {
      FoldNone(cfg, t0, chain, base);
    } else {
      var u := FoldLast(cfg, t0, chain, base, done, t);
      CommitWrites(cfg, u, chain[done - 1]);
      if id in u.log {
        FoldLogs(cfg, t0, chain, base, done - 1, u, id);
      }
    }
  }

  /** A handled, unlogged event at or before the newest logged ledger. */
  ghost predicate LeftBehind(chain: seq<Event>, done: nat, log: map<string, LogRow>, j: nat) {
    done <= j < |chain| && !Unhandled(chain[j]) && chain[j].id !in log && chain[j].ledger <= MaxLogged(log)
  }

  /** When the log began empty, what is still to be processed is never before the newest logged ledger, and what
      came before the first start is never past it. */
  lemma NewestOnly(cfg: Config, chain: seq<Event>, base: nat, t0: Tables, t: Tables, done: nat)
    requires Chain(chain) && Indexed(cfg, chain, base, t0, t, done) && t0.log == map[] && t.log != map[]
    ensures forall j :: done <= j < |chain| ==> chain[j].ledger >= MaxLogged(t.log)
    ensures forall i :: 0 <= i < base ==> chain[i].ledger <= MaxLogged(t.log)
    ensures forall j: nat :: LeftBehind(chain, done, t.log, j) ==> chain[j].ledger == MaxLogged(t.log)
  {
    MaxIsGreatest(t.log);
    var id :| id in t.log && t.log[id].ledger == MaxLogged(t.log);
    FoldLogs(cfg, t0, chain, base, done, t, id);
    hide MaxLogged, Folded, Unhandled;
  }

  /** Passing events that are logged already or of unhandled kinds is indexing them. */
  lemma IndexSkip(cfg: Config, chain: seq<Event>, base: nat, t0: Tables, t: Tables, done: nat)
    requires Indexed(cfg, chain, base, t0, t, done) && done < |chain|
    requires Unhandled(chain[done]) || chain[done].id in t.log
    ensures Indexed(cfg, chain, base, t0, t, done + 1)
  {
    SkipsCommit(cfg, t, chain[done]);
    hide Folded, Handle, Unhandled;
    FoldSnoc(cfg, t0, chain, base, done);
  }

  lemma SkipsCommit(cfg: Config, t: Tables, e: Event)
    ensures Unhandled(e) ==> Handle(cfg, t, e) == Commit(t)
  {
    hide WriteInvoice, Enqueue, EnvelopeOf, LogFields;
  }

  lemma {:induction false} IndexSkips(cfg: Config, chain: seq<Event>, base: nat, t0: Tables, t: Tables,
                                      done: nat, done': nat)
    requires Indexed(cfg, chain, base, t0, t, done) && done <= done' <= |chain|
    requires forall j :: done <= j < done' ==> Unhandled(chain[j]) || chain[j].id in t.log
    ensures Indexed(cfg, chain, base, t0, t, done')
    decreases done' - done
  {
    hide Indexed, Unhandled;
    if done < done' {
      IndexSkip(cfg, chain, base, t0, t, done);
      IndexSkips(cfg, chain, base, t0, t, done + 1, done');
    }
  }

  /** The process after a restart that finds no checkpoint. */
  ghost function Resumed(t: Tables, tip: int): Run {
    Run(State(t, 0, ResumeLedger(0, t.log, tip), 0, "", false), [])
  }

  /** Every event from `base` on that the process is past is logged, or of a skipped kind. */
  ghost predicate NothingLost(chain: seq<Event>, base: nat, r: Run) {
    forall i :: base <= i < |chain| && chain[i].ledger < r.st.current ==>
      chain[i].id in r.st.tables.log || Unhandled(chain[i])
  }

  ghost predicate HonestTicks(cfg: Config, chain: seq<Event>, later: seq<Action>) {
    forall a :: a in later ==> a.Tick? && HonestAction(cfg, chain, a)
  }

  lemma {:induction false} TicksKeep(cfg: Config, chain: seq<Event>, base: nat, t0: Tables, r: Run, done: nat,
      later: seq<Action>)
    returns (done': nat)
    requires cfg.contracts && Chain(chain) && HonestTicks(cfg, chain, later)
    requires Indexed(cfg, chain, base, t0, r.st.tables, done) && ClearBelow(chain, done, r.st.current)
    requires base <= FirstAt(chain, r.st.current)
    ensures var s := Execute(cfg, r, later);
      && Indexed(cfg, chain, base, t0, s.st.tables, done') && ClearBelow(chain, done', s.st.current)
      && r.st.current <= s.st.current
  {
    hide Indexed, Chain, Honest, PollRange, FirstAt;
    done' := done;
    if later != [] {
      var init, a := later[..|later| - 1], later[|later| - 1];
      done' := TicksKeep(cfg, chain, base, t0, r, done, init);
      var mid := Execute(cfg, r, init);
      if !mid.st.halted && !ReorgSeen(mid.st, a.observed) {
        ChainOrdered(chain);
        FirstAtGrows(chain, r.st.current, mid.st.current);
        done' := RangeKeeps(cfg, chain, base, t0, mid.st.tables, done', mid.st.current, a.server(mid.st.current),
            mid.trace);
      }
    }
  }

  lemma ChainOrdered(chain: seq<Event>)
    requires Chain(chain)
    ensures Ordered(chain)
  {
  }

  /**
   Restarting without a checkpoint loses nothing, for as long as that process lives and whatever
   fails on the way, exactly when no handled, unlogged event is at or before the newest logged ledger.
   */
  lemma FallbackResumeIff(cfg: Config, chain: seq<Event>, base: nat, t0: Tables, t: Tables, done: nat, tip: int)
    requires cfg.contracts && Chain(chain) && Indexed(cfg, chain, base, t0, t, done)
    requires MaxLogged(t.log) > 0 && forall i :: 0 <= i < base ==> chain[i].ledger <= MaxLogged(t.log)
    ensures (forall later ::
               HonestTicks(cfg, chain, later) ==> NothingLost(chain, base, Execute(cfg, Resumed(t, tip), later)))
            <==> !exists j: nat :: LeftBehind(chain, done, t.log, j)
  {
    var r := Resumed(t, tip);
    if j: nat :| LeftBehind(chain, done, t.log, j) {
      assert HonestTicks(cfg, chain, []) && Execute(cfg, r, []) == r;
      assert !NothingLost(chain, base, r);
    } else {
      forall later | HonestTicks(cfg, chain, later) ensures NothingLost(chain, base, Execute(cfg, r, later)) {
        FallbackSafe(cfg, chain, base, t0, t, done, tip, later);
      }
    }
  }

  lemma FallbackSafe(cfg: Config, chain: seq<Event>, base: nat, t0: Tables, t: Tables, done: nat, tip: int,
                     later: seq<Action>)
    requires cfg.contracts && Chain(chain) && Indexed(cfg, chain, base, t0, t, done) && HonestTicks(cfg, chain, later)
    requires MaxLogged(t.log) > 0 && forall i :: 0 <= i < base ==> chain[i].ledger <= MaxLogged(t.log)
    requires !exists j: nat :: LeftBehind(chain, done, t.log, j)
    ensures NothingLost(chain, base, Execute(cfg, Resumed(t, tip), later))
  {
    var r := Resumed(t, tip);
    FirstAtSplits(chain, r.st.current);
    var first := FirstAt(chain, r.st.current);
    var done2 := if done < first then first else done;
    forall j | done <= j < done2 ensures Unhandled(chain[j]) || chain[j].id in t.log {
      assert !LeftBehind(chain, done, t.log, j);
    }
    hide MaxLogged, Unhandled, Folded;
    IndexSkips(cfg, chain, base, t0, t, done, done2);
    FirstAtPast(chain, base, r.st.current);
    var done' := TicksKeep(cfg, chain, base, t0, r, done2, later);
  }

  lemma FirstAtPast(chain: seq<Event>, base: nat, ledger: int)
    requires Ordered(chain) && base <= |chain| && forall i :: 0 <= i < base ==> chain[i].ledger < ledger
    ensures base <= FirstAt(chain, ledger)
  {
    FirstAtSplits(chain, ledger);
    var k := FirstAt(chain, ledger);
    assert k < |chain| ==> chain[k].ledger >= ledger;
  }

  /** What such a restart leaves behind is never logged by any later run. */
  lemma FallbackForever(cfg: Config, chain: seq<Event>, t: Tables, done: nat, tip: int, j: nat, later: seq<Action>)
    requires cfg.contracts && Chain(chain) && t.log != map[]
    requires LeftBehind(chain, done, t.log, j) && chain[j].ledger > 0
    requires forall a :: a in later ==> Serves(chain, a)
    ensures chain[j].id !in Execute(cfg, Resumed(t, tip), later).st.tables.log
  {
    hide Execute, MaxLogged;
    GoneForever(cfg, chain, Resumed(t, tip), later, chain[j]);
  }

  /** Two events in one ledger, the process stops between them before any checkpoint: the second is never indexed. */
  lemma FallbackResumeLosesEvent(cfg: Config, later: seq<Action>)
    requires cfg.contracts
    requires forall x :: x in later ==> Serves([Registration("a", 7), Registration("b", 7)], x)
    ensures var a, b := Registration("a", 7), Registration("b", 7);
      var t := Deliver(cfg, Tables(map[], map[], map[]), a);
      && a.id in t.log && !Unhandled(b)
      && b.id !in Execute(cfg, Resumed(t, 9), later).st.tables.log
  {
    var a, b := Registration("a", 7), Registration("b", 7);
    var t0 := Tables(map[], map[], map[]);
    RegistrationCommits(cfg, t0, "a", 7);
    var t := Deliver(cfg, t0, a);
    assert t.log.Keys == {"a"} && t.log["a"].ledger == 7;
    hide Handle, MaxLogged, Execute;
    MaxIsGreatest(t.log);
    assert [a, b][1] == b && LeftBehind([a, b], 1, t.log, 1);
    assert Chain([a, b]);
    hide LeftBehind, Chain;
    FallbackForever(cfg, [a, b], t, 1, 9, 1, later);
  }

  // ----- an event that never commits -----

  lemma {:induction false} FoldStops(cfg: Config, t0: Tables, chain: seq<Event>, base: nat, done: nat, i: nat)
    requires base <= i < done <= |chain| && chain[i].id !in t0.log && forall t :: Handle(cfg, t, chain[i]) == Rollback
    ensures Folded(cfg, t0, chain, base, done) == None
    decreases done
  {
    hide Folded, Handle;
    FoldSnoc(cfg, t0, chain, base, done - 1);
    if i < done - 1 {
      FoldStops(cfg, t0, chain, base, done - 1, i);
    }
  }

  /** With a dispatcher attached an attestation that is not logged yet stops the listener for ever: in every honest
      run nothing new is logged from it on and the checkpoint never passes its ledger. */
  lemma AttestationBlocks(cfg: Config, chain: seq<Event>, start: int, t0: Tables, saved: bool, actions: seq<Action>,
      i: nat)
    requires cfg.contracts && cfg.dispatcher && Chain(chain) && 0 < start
    requires AnchoredRun(cfg, Boot(t0, start, saved), actions)
    requires forall a :: a in actions ==> HonestAction(cfg, chain, a)
    requires i < |chain| && start <= chain[i].ledger && chain[i].id !in t0.log
    requires chain[i].name.Some? && KindOf(chain[i].name.value) == KAttest
    ensures var st := Execute(cfg, Boot(t0, start, saved), actions).st;
      && (forall k :: i <= k < |chain| ==> (chain[k].id in st.tables.log <==> chain[k].id in t0.log))
      && st.checkpoint <= chain[i].ledger
  {
    var done := RunKeeps(cfg, chain, start, t0, saved, actions);
    FirstAtSplits(chain, start);
    forall t ensures Handle(cfg, t, chain[i]) == Rollback {
      CommitsIff(cfg, t, chain[i]);
    }
    hide Execute, Handle, Folded, AnchoredRun;
    if i < done {
      FoldStops(cfg, t0, chain, FirstAt(chain, start), done, i);
    }
  }

  // ----- no contracts -----

  /** With no contract configured the poll jumps to the reported tip, even backwards and past the window. */
  lemma UnconfiguredJumps(cfg: Config, t: Tables, start: int, page: Page)
    requires !cfg.contracts && page.Page?
    ensures var out := PollRange(cfg, t, start, 0, [page], []);
      && out.ok && out.tables == t && out.next == page.latest + 1
      && (out.next < start <==> page.latest < start - 1)
  {
  }
}
