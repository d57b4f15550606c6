/**
 The Postgres tables as an object whose statements update it in place, and the
 transaction the listener runs around one event. A transaction may carry a
 fault: the number of the statement that fails, or the commit when the
 transaction has fewer statements. Whatever was written before the fault is
 rolled back.
 */
module Postgres {
  import opened Options
  import opened Invoices
  import opened Handling

  class Database {
    const cfg: Config
    var invoices: Table
    var log: map<string, LogRow>
    var deliveries: map<DeliveryKey, Envelope>
    var checkpoint: int

    ghost function Contents(): Tables
      reads this
    {
      Tables(invoices, log, deliveries)
    }

    constructor (cfg: Config, t: Tables, checkpoint: int)
      ensures this.cfg == cfg && Contents() == t && this.checkpoint == checkpoint
    {
      this.cfg := cfg;
      invoices, log, deliveries := t.invoices, t.log, t.deliveries;
      this.checkpoint := checkpoint;
    }

    /** INSERT ... ON CONFLICT (id) DO NOTHING: an invoice that is already there keeps its row. */
    method InsertInvoice(inv: Invoice) returns (inserted: bool)
      modifies this`invoices
      ensures inserted <==> inv.id !in old(invoices)
      ensures inv.id in invoices
      ensures invoices == if inserted then old(invoices)[inv.id := inv] else old(invoices)
    {
      inserted := inv.id !in invoices;
      if inserted {
        invoices := invoices[inv.id := inv];
      }
    }

    /** A guarded UPDATE; when it touches no row, a second look at the row names the error. */
    method UpdateInvoice(id: string, tr: Transition) returns (r: UpdateResult)
      modifies this`invoices
      ensures r == Update(old(invoices), id, tr)
      ensures invoices == if r.Updated? then r.invoices else old(invoices)
    {
      var affected := 0;
      if id in invoices && Guard(tr, invoices[id].status) {
        var row := Write(tr, invoices[id]);
        if !RowAllowed(row) {
          return Refused;
        }
        invoices := invoices[id := row];
        affected := 1;
      }
      if affected > 0 {
        return Updated(invoices);
      }
      return if id in invoices then InvalidTransition else NotFound;
    }

    /** The attestation UPDATE has no status guard. */
    method UpdateAttestation(id: string, a: Attestation) returns (ok: bool)
      modifies this`invoices
      ensures ok <==> id in old(invoices) && RowAllowed(old(invoices)[id].(attestation := Some(a)))
      ensures invoices == if ok then old(invoices)[id := old(invoices)[id].(attestation := Some(a))] else old(invoices)
    {
      ok := id in invoices && RowAllowed(invoices[id].(attestation := Some(a)));
      if ok {
        invoices := invoices[id := invoices[id].(attestation := Some(a))];
      }
    }

    /** The event's own handler, run through the open transaction. */
    method ApplyInvoice(e: Event, k: Kind) returns (r: Written)
      modifies this`invoices
      ensures r == WriteInvoice(old(invoices), e, k)
      ensures invoices == if r.Wrote? then r.invoices else old(invoices)
    {
      match k
      case KCreate =>
        if e.value.Garbled? || e.value.id == "" || e.value.issuer == "" || e.value.buyer == "" {
          return Failed;
        }
        var _ := InsertInvoice(NewInvoice(e.value, e.closedAt));
        return Wrote(invoices);
      case KList | KFund | KShip | KConfirm | KRepay | KDefault =>
        var change := Decode(e, k);
        if change.None? {
          return Failed;
        }
        var updated := UpdateInvoice(change.value.0, change.value.1);
        return match updated
          case Updated(_) => Wrote(invoices)
          case InvalidTransition => Stale
          case NotFound => Failed
          case Refused => Failed;
      case KAttest =>
        if !e.topic.Topic? {
          return Failed;
        }
        var ok := UpdateAttestation(e.topic.bytes, AttestationOf(e));
        return if ok then Wrote(invoices) else Failed;
      case KPoolDeposit | KPoolWithdraw =>
        return if !e.topic.Topic? || e.topic.address == "" || e.value.Garbled? then Failed else Wrote(invoices);
      case KPoolYield | KPoolDefault =>
        return if e.value.Garbled? then Failed else Wrote(invoices);
      case KRegister | KUnhandled =>
        return Wrote(invoices);
    }

    /** One insert per active subscription to the event's type; `fault` counts down to the insert that fails. */
    method EnqueueDeliveries(e: Event, n: EventName, fault: Option<nat>) returns (ok: bool)
      modifies this`deliveries
      ensures ok ==> Supported(PublicTypeOf(n))
      ensures ok ==> deliveries == Enqueue(old(deliveries), cfg.subscriptions, EnvelopeOf(invoices, e, n))
      ensures fault.None? ==> ok == Supported(PublicTypeOf(n))
    {
      if !Supported(PublicTypeOf(n)) {
        return false;
      }
      var env := EnvelopeOf(invoices, e, n);
      var inserts := 0;
      for i := 0 to |cfg.subscriptions|
        invariant deliveries == Enqueue(old(deliveries), cfg.subscriptions[..i], env)
      {
        assert cfg.subscriptions[..i + 1][..i] == cfg.subscriptions[..i];
        var s := cfg.subscriptions[i];
        if Wants(s, env.kind) {
          if fault == Some(inserts) {
            return false;
          }
          inserts := inserts + 1;
          deliveries := Insert(deliveries, s, env);
        }
      }
      assert cfg.subscriptions[..|cfg.subscriptions|] == cfg.subscriptions;
      return true;
    }

    /** The body of the transaction: statement 0 is the invoice write, 1 the log row, the rest the fan-out. */
    method Statements(e: Event, fault: Option<nat>) returns (ok: bool)
      modifies this`invoices, this`log, this`deliveries
      ensures ok ==> Handle(cfg, old(Contents()), e) == Commit(Contents())
      ensures fault.None? ==> ok == Handle(cfg, old(Contents()), e).Commit?
    {
      if e.name.None? {
        return false;
      }
      var n := e.name.value;
      var k := KindOf(n);
      if k == KUnhandled {
        return true;
      }
      if k == KRegister {
        if !e.topic.Topic? || e.topic.address == "" || fault.Some? {
          return false;
        }
        log := LogEvent(log, e, n, Fields(map["address" := e.topic.address]));
        return true;
      }
      if fault == Some(0) {
        return false;
      }
      var written := ApplyInvoice(e, k);
      if written.Failed? || fault == Some(1) {
        return false;
      }
      if written.Stale? {
        log := LogEvent(log, e, n, Raw(e.raw));
        return true;
      }
      log := LogEvent(log, e, n, Fields(LogFields(e, k)));
      if cfg.dispatcher {
        ok := EnqueueDeliveries(e, n, if fault.Some? then Some(fault.value - 2) else None);
        return ok;
      }
      return true;
    }

    /** Begin, run the statements, commit; any failure restores what was there at the beginning. */
    method HandleEvent(e: Event, fault: Option<nat>) returns (ok: bool)
      modifies this`invoices, this`log, this`deliveries
      ensures ok <==> fault.None? && Handle(cfg, old(Contents()), e).Commit?
      ensures Contents() == if ok then Handle(cfg, old(Contents()), e).tables else old(Contents())
    {
      var savedInvoices, savedLog, savedDeliveries := invoices, log, deliveries;
      ok := Statements(e, fault);
      if ok && fault.Some? {
        ok := false;
      }
      if !ok {
        invoices, log, deliveries := savedInvoices, savedLog, savedDeliveries;
      }
    }

    /** One look-up for a whole page: which of these ids are already in events_log. */
    method AreEventsProcessed(ids: seq<string>) returns (processed: set<string>)
      ensures processed == set id | id in ids && id in log
    {
      processed := {};
      for i := 0 to |ids|
        invariant processed == set id | id in ids[..i] && id in log
      {
        assert ids[..i + 1] == ids[..i] + [ids[i]];
        if ids[i] in log {
          processed := processed + {ids[i]};
        }
      }
      assert ids[..|ids|] == ids;
    }

    method UpsertCheckpoint(ledger: int, fails: bool)
      modifies this`checkpoint
      ensures checkpoint == if fails then old(checkpoint) else ledger
    {
      if !fails {
        checkpoint := ledger;
      }
    }
  }
}
