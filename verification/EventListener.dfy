/**
 The listener process: an object whose loop updates its position, its recorded
 boundary and the database behind it. Every method is proved equal, for all
 inputs, to the step functions of module Listener.
 */
module EventIndexer {
  import opened Options
  import opened Handling
  import opened Postgres
  import opened Listener

  class EventListener {
    const db: Database
    var current: int
    var finalized: int
    var hash: string
    var halted: bool
    ghost var trace: seq<Applied>

    ghost function View(): Run
      reads this, db
    {
      Run(State(db.Contents(), db.checkpoint, current, finalized, hash, halted), trace)
    }

    constructor (db: Database, start: int)
      ensures this.db == db && View() == Run(State(db.Contents(), db.checkpoint, start, 0, "", false), [])
    {
      this.db := db;
      current, finalized, hash, halted, trace := start, 0, "", false, [];
    }

    /** The filter loops over a page: events in ledgers up to `bound`, in order. */
    method KeepUpTo(events: seq<Event>, bound: int) returns (kept: seq<Event>)
      ensures kept == Keep(events, bound)
    {
      kept := [];
      for i := 0 to |events|
        invariant kept == Keep(events[..i], bound)
      {
        assert events[..i + 1][..i] == events[..i];
        if events[i].ledger <= bound {
          kept := kept + [events[i]];
        }
      }
      assert events[..|events|] == events;
    }

    /** Hand the pending events of a page to the handler, one transaction each. */
    method ApplyPending(pending: seq<Event>, processed: set<string>, faults: map<string, nat>, tip: int)
      returns (ok: bool)
      modifies this`trace, db`invoices, db`log, db`deliveries
      ensures var out := ApplyAll(db.cfg, old(db.Contents()), pending, processed, faults, tip, old(trace));
        ok == out.ok && db.Contents() == out.tables && trace == out.trace
    {
      ghost var out := ApplyAll(db.cfg, db.Contents(), pending, processed, faults, tip, trace);
      var i := 0;
      while i < |pending|
        invariant 0 <= i <= |pending|
        invariant ApplyAll(db.cfg, db.Contents(), pending[i..], processed, faults, tip, trace) == out
      {
        var e := pending[i];
        assert pending[i..][1..] == pending[i + 1..];
        if e.id !in processed {
          var committed := db.HandleEvent(e, if e.id in faults then Some(faults[e.id]) else None);
          if !committed {
            return false;
          }
          trace := trace + [Applied(e, tip)];
        }
        i := i + 1;
      }
      return true;
    }

    /** Drop what is past the end of the range, then what is still inside the confirmation window. */
    method SelectPending(events: seq<Event>, endLedger: int, latest: int) returns (pending: seq<Event>, pastEnd: bool)
      ensures pending == Pending(db.cfg, events, endLedger, latest)
      ensures pastEnd == PastEnd(events, endLedger)
    {
      pending, pastEnd := events, false;
      if endLedger > 0 {
        pending := KeepUpTo(events, endLedger);
        pastEnd := exists e :: e in events && e.ledger > endLedger;
      }
      if db.cfg.depth > 0 && latest > 0 {
        pending := KeepUpTo(pending, latest - db.cfg.depth);
      }
    }

    /** One look-up of the page's ids, then the events that are new; a failed look-up applies nothing. */
    method ProcessPage(pending: seq<Event>, page: Page, latest: int) returns (ok: bool)
      requires page.Page?
      modifies this`trace, db`invoices, db`log, db`deliveries
      ensures var out := ApplyAll(db.cfg, old(db.Contents()), pending, Logged(pending, old(db.log)), page.faults,
          latest, old(trace));
        if page.lookupFails then !ok && db.Contents() == old(db.Contents()) && trace == old(trace)
        else ok == out.ok && db.Contents() == out.tables && trace == out.trace
    {
      if page.lookupFails {
        return false;
      }
      var ids := seq(|pending|, i requires 0 <= i < |pending| => pending[i].id);
      var processed := db.AreEventsProcessed(ids);
      IdsOf(pending, ids, db.log);
      ok := ApplyPending(pending, processed, page.faults, latest);
    }

    /** The paging loop: until a page is empty, entirely deferred, past the end or the last. */
    method PollLoop(endLedger: int, script: seq<Page>) returns (latest: int, ok: bool)
      modifies this`trace, db`invoices, db`log, db`deliveries
      ensures PollPages(db.cfg, old(db.Contents()), endLedger, script, 0, old(trace))
              == PollOut(db.Contents(), ok, latest, trace)
    {
      hide Handle, ApplyAll, Pending, PastEnd, Logged;
      ghost var out := PollPages(db.cfg, db.Contents(), endLedger, script, 0, trace);
      latest := 0;
      for k := 0 to |script|
        invariant PollPages(db.cfg, db.Contents(), endLedger, script[k..], latest, trace) == out
      {
        assert script[k..][0] == script[k] && script[k..][1..] == script[k + 1..];
        if script[k].RpcError? {
          return latest, false;
        }
        var page := script[k];
        if page.latest != 0 {
          latest := page.latest;
        }
        if page.events == [] {
          return latest, true;
        }
        var pending, pastEnd := SelectPending(page.events, endLedger, latest);
        if pending == [] {
          return latest, true;
        }
        ok := ProcessPage(pending, page, latest);
        if !ok || pastEnd || !page.cursor {
          return latest, ok;
        }
      }
      return latest, false;
    }

    /** One poll of a ledger range and the ledger the next poll starts from. */
    method PollEventsRange(startLedger: int, endLedger: int, script: seq<Page>) returns (next: int, ok: bool)
      modifies this`trace, db`invoices, db`log, db`deliveries
      ensures PollRange(db.cfg, old(db.Contents()), startLedger, endLedger, script, old(trace))
              == RangeOut(db.Contents(), ok, next, trace)
    {
      if !db.cfg.contracts {
        if script == [] || script[0].RpcError? {
          return startLedger, false;
        }
        return script[0].latest + 1, true;
      }
      var latest;
      latest, ok := PollLoop(endLedger, script);
      if !ok || latest < startLedger {
        return startLedger, ok;
      }
      next := latest + 1;
      if db.cfg.depth > 0 {
        var safe := latest - db.cfg.depth;
        if safe < startLedger {
          return startLedger, true;
        }
        next := safe + 1;
      }
    }

    /** Re-read the recorded boundary's hash; only a different hash halts, a failed read does not. */
    method VerifyFinalizedLedger(observed: Option<string>) returns (reorg: bool)
      ensures reorg == ReorgSeen(View().st, observed)
    {
      if finalized <= 0 || hash == "" || observed.None? {
        return false;
      }
      return observed.value != hash;
    }

    method RecordFinalizedLedger(sequence: int, recorded: Option<string>)
      modifies this`finalized, this`hash
      ensures (finalized, hash) == Record(old(finalized), old(hash), sequence, recorded)
    {
      if sequence <= finalized || sequence <= 0 || recorded.None? {
        return;
      }
      finalized, hash := sequence, recorded.value;
    }

    /** One tick of Start: verify, poll, record the new boundary, save the checkpoint. */
    method OnTick(server: int -> seq<Page>, observed: Option<string>, recorded: Option<string>, saved: bool)
      modifies this, db
      ensures View() == Step(db.cfg, old(View()), Tick(server, observed, recorded, saved))
    {
      if halted {
        return;
      }
      var reorg := VerifyFinalizedLedger(observed);
      if reorg {
        halted := true;
        return;
      }
      var next, ok := PollEventsRange(current, 0, server(current));
      if !ok {
        return;
      }
      current := next;
      RecordFinalizedLedger(current - 1, recorded);
      db.UpsertCheckpoint(current, !saved);
    }

    /** A new process over the same database; the in-memory boundary is forgotten. */
    method OnRestart(newestLogged: int, tip: int)
      requires newestLogged == MaxLogged(db.log)
      modifies this
      ensures View() == Step(db.cfg, old(View()), Restart(tip))
    {
      current := db.checkpoint;
      if current <= 0 {
        if newestLogged > 0 {
          current := newestLogged + 1;
        } else {
          current := tip;
        }
      }
      finalized, hash, halted := 0, "", false;
    }

    /** Process a ledger range without touching the checkpoint. */
    method BackfillRange(from: int, to: int, script: seq<Page>) returns (valid: bool, ok: bool)
      modifies this`trace, db`invoices, db`log, db`deliveries
      ensures var out := Backfill(db.cfg, old(db.Contents()), from, to, script);
        && valid == out.Backfilled?
        && (valid <==> 0 < from <= to && db.cfg.contracts)
        && (valid ==> ok == out.ok && db.Contents() == out.tables)
        && (!valid ==> !ok && db.Contents() == old(db.Contents()))
    {
      if from <= 0 || to < from || !db.cfg.contracts {
        return false, false;
      }
      ghost var kept := trace;
      trace := [];
      var next;
      next, ok := PollEventsRange(from, to, script);
      trace := kept + trace;
      valid := true;
    }
  }

  lemma IdsOf(events: seq<Event>, ids: seq<string>, log: map<string, LogRow>)
    requires |ids| == |events| && forall i :: 0 <= i < |ids| ==> ids[i] == events[i].id
    ensures (set id | id in ids && id in log) == Logged(events, log)
  {
    forall id | id in Logged(events, log) ensures id in ids {
      var i :| 0 <= i < |events| && events[i].id == id && events[i] in events;
      assert ids[i] == id;
    }
  }
}
