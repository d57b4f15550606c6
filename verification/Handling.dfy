/**
 What one contract event does to the database. `Handle` is the committed
 effect of the transaction around an event: the invoice row, the events_log row
 and the webhook_deliveries rows move together, or the transaction rolls back.
 Decoding of XDR topics and values is foreign; an `Event` carries its results.
 */
module Handling {
  import opened Options
  import opened Invoices

  /** The first topic's symbol: every alias the listener's switch recognises, and the rest. */
  datatype EventName =
    | Create | InvoiceCreated
    | ListForFinancing | InvoiceListed
    | FundInvoice | InvoiceFunded
    | MarkShipped | InvoiceShipped
    | ConfirmDeliveryCall | DeliveryConfirmed
    | RepayCall | InvoiceRepaid
    | TriggerDefault | InvoiceDefaultedCall
    | SubmitAttestation | AttestationSubmitted
    | IssuerRegistered | BuyerRegistered
    | Deposit | LpDeposited
    | Withdraw | LpWithdrawn
    | ReceiveRepayment | RepaymentReceived | YieldDistribution
    | HandleDefault | InvoiceDefaultedByPool
    | Other(symbol: string)

  datatype Kind =
    | KCreate | KList | KFund | KShip | KConfirm | KRepay | KDefault
    | KAttest | KRegister
    | KPoolDeposit | KPoolWithdraw | KPoolYield | KPoolDefault
    | KUnhandled

  function KindOf(n: EventName): Kind {
    match n
    case Create | InvoiceCreated => KCreate
    case ListForFinancing | InvoiceListed => KList
    case FundInvoice | InvoiceFunded => KFund
    case MarkShipped | InvoiceShipped => KShip
    case ConfirmDeliveryCall | DeliveryConfirmed => KConfirm
    case RepayCall | InvoiceRepaid => KRepay
    case TriggerDefault | InvoiceDefaultedCall => KDefault
    case SubmitAttestation | AttestationSubmitted => KAttest
    case IssuerRegistered | BuyerRegistered => KRegister
    case Deposit | LpDeposited => KPoolDeposit
    case Withdraw | LpWithdrawn => KPoolWithdraw
    case ReceiveRepayment | RepaymentReceived | YieldDistribution => KPoolYield
    case HandleDefault | InvoiceDefaultedByPool => KPoolDefault
    case Other(_) => KUnhandled
  }

  /** Topic 1: too few topics, undecodable, or decoded as bytes and as an address ("" when it is not one). */
  datatype Topic = Missing | Malformed | Topic(bytes: string, address: string)

  /** The event value: undecodable, or what each accessor reads from it. */
  datatype Value =
    | Garbled
    | Value(id: string, issuer: string, buyer: string, faceValue: nat, dueDate: int,
            u32: nat, u128: nat, first: string, second: string)

  datatype Event = Event(
    id: string, contractId: string, ledger: int, closedAt: int,
    name: Option<EventName>, topic: Topic, agentId: string, value: Value, raw: string)

  datatype LogData = Raw(value: string) | Fields(fields: map<string, string>)
  datatype LogRow = LogRow(contractId: string, ledger: int, closedAt: int, name: EventName, data: LogData)

  datatype PublicType =
    | PInvoiceCreated | PInvoiceListed | PInvoiceFunded | PInvoiceShipped | PInvoiceConfirmed
    | PInvoiceRepaid | PInvoiceDefaulted
    | PPoolDeposit | PPoolWithdrawal | PPoolYieldDistributed
    | PInternal(name: EventName)

  /** The public webhook type of an internal event name; unknown names pass through. */
  function PublicTypeOf(n: EventName): PublicType {
    match n
    case Create | InvoiceCreated => PInvoiceCreated
    case ListForFinancing | InvoiceListed => PInvoiceListed
    case FundInvoice | InvoiceFunded => PInvoiceFunded
    case MarkShipped | InvoiceShipped => PInvoiceShipped
    case ConfirmDeliveryCall | DeliveryConfirmed => PInvoiceConfirmed
    case RepayCall | InvoiceRepaid => PInvoiceRepaid
    case TriggerDefault | InvoiceDefaultedCall | HandleDefault | InvoiceDefaultedByPool => PInvoiceDefaulted
    case Deposit | LpDeposited => PPoolDeposit
    case Withdraw | LpWithdrawn => PPoolWithdrawal
    case ReceiveRepayment | RepaymentReceived | YieldDistribution => PPoolYieldDistributed
    case _ => PInternal(n)
  }

  predicate Supported(p: PublicType) { !p.PInternal? }

  datatype Subscription = Subscription(id: string, types: set<PublicType>, active: bool)

  predicate Wants(s: Subscription, p: PublicType) { s.active && p in s.types }

  datatype DeliveryKey = DeliveryKey(subscription: string, eventId: string)
  datatype Envelope = Envelope(
    kind: PublicType, eventId: string, contractId: string, ledger: int, occurredAt: int,
    fields: map<string, string>, invoice: Option<Invoice>)

  datatype Tables = Tables(
    invoices: Table,
    log: map<string, LogRow>,
    deliveries: map<DeliveryKey, Envelope>)

  /** Fixed for a run: the webhook side, the confirmation depth, and whether any contract is configured. */
  datatype Config = Config(dispatcher: bool, subscriptions: seq<Subscription>, depth: int, contracts: bool)

  /** The invoice statement of a status event, or None when its topic or value does not decode. */
  function Decode(e: Event, k: Kind): Option<(string, Transition)> {
    if !e.topic.Topic? then None
    else match k
      case KList => if e.value.Garbled? then None else Some((e.topic.bytes, List(e.value.u32)))
      case KFund => if e.value.Garbled? then None else Some((e.topic.bytes, Fund(e.value.u128, e.closedAt)))
      case KShip => Some((e.topic.bytes, Ship(e.closedAt)))
      case KConfirm => Some((e.topic.bytes, ConfirmDelivery(e.closedAt)))
      case KRepay => Some((e.topic.bytes, Repay(e.closedAt)))
      case KDefault => Some((e.topic.bytes, Default))
      case _ => None
  }

  function NewInvoice(v: Value, closedAt: int): Invoice
    requires v.Value?
  {
    Invoice(v.id, v.issuer, v.buyer, v.faceValue, 0, 0, v.dueDate, Created, closedAt,
            None, None, false, false, None, None, None)
  }

  function AttestationOf(e: Event): Attestation {
    Attestation(e.agentId, if e.value.Garbled? then 0 else e.value.u32, "", e.closedAt)
  }

  datatype Written = Wrote(invoices: Table) | Stale | Failed

  /** The invoice part of an event: the new table, a stale transition, or a handler error. */
  function WriteInvoice(invoices: Table, e: Event, k: Kind): Written {
    match k
    case KCreate =>
      if e.value.Garbled? || e.value.id == "" || e.value.issuer == "" || e.value.buyer == "" then Failed
      else if e.value.id in invoices then Wrote(invoices)
      else Wrote(invoices[e.value.id := NewInvoice(e.value, e.closedAt)])
    case KList | KFund | KShip | KConfirm | KRepay | KDefault =>
      (match Decode(e, k)
       case None => Failed
       case Some(change) =>
         match Update(invoices, change.0, change.1)
         case Updated(invoices') => Wrote(invoices')
         case InvalidTransition => Stale
         case NotFound => Failed
         case Refused => Failed)
    case KAttest =>
      if !e.topic.Topic? || e.topic.bytes !in invoices then Failed
      else
        var row := invoices[e.topic.bytes].(attestation := Some(AttestationOf(e)));
        if RowAllowed(row) then Wrote(invoices[e.topic.bytes := row]) else Failed
    case KPoolDeposit | KPoolWithdraw =>
      if !e.topic.Topic? || e.topic.address == "" || e.value.Garbled? then Failed else Wrote(invoices)
    case KPoolYield | KPoolDefault =>
      if e.value.Garbled? then Failed else Wrote(invoices)
    case KRegister | KUnhandled => Wrote(invoices)
  }

  /** The structured payload stored with the event and handed to the dispatcher. */
  function LogFields(e: Event, k: Kind): map<string, string> {
    var pool := match k
      case KPoolDeposit | KPoolWithdraw =>
        if e.topic.Topic? && e.value.Value?
        then map["account" := e.topic.address, "amount" := e.value.first, "shares" := e.value.second]
        else map[]
      case KPoolYield =>
        if e.value.Value? then map["amount" := e.value.first, "yield_amount" := e.value.second] else map[]
      case KPoolDefault => if e.value.Value? then map["amount" := e.value.first] else map[]
      case _ => map[];
    if k == KCreate then
      if e.value.Value? then map["invoice_id" := e.value.id, "issuer" := e.value.issuer, "buyer" := e.value.buyer]
      else map[]
    else if e.topic.Topic? && e.topic.bytes != "" then pool["invoice_id" := e.topic.bytes]
    else pool
  }

  /** INSERT ... ON CONFLICT (event_id) DO NOTHING. */
  function LogEvent(log: map<string, LogRow>, e: Event, n: EventName, data: LogData): map<string, LogRow> {
    if e.id in log then log else log[e.id := LogRow(e.contractId, e.ledger, e.closedAt, n, data)]
  }

  /** The payload is read back from the row the same transaction just wrote. */
  function EnvelopeOf(invoices: Table, e: Event, n: EventName): Envelope {
    var fields := LogFields(e, KindOf(n));
    Envelope(PublicTypeOf(n), e.id, e.contractId, e.ledger, e.closedAt, fields,
             if "invoice_id" in fields && fields["invoice_id"] in invoices
             then Some(invoices[fields["invoice_id"]]) else None)
  }

  /** INSERT ... ON CONFLICT (subscription_id, event_id) DO NOTHING. */
  function Insert(deliveries: map<DeliveryKey, Envelope>, s: Subscription, env: Envelope): map<DeliveryKey, Envelope> {
    var key := DeliveryKey(s.id, env.eventId);
    if key in deliveries then deliveries else deliveries[key := env]
  }

  /** One row per active subscription to the event's public type, in order. */
  function Enqueue(deliveries: map<DeliveryKey, Envelope>, subs: seq<Subscription>, env: Envelope)
    : map<DeliveryKey, Envelope>
  {
    if subs == [] then deliveries
    else
      var rest := Enqueue(deliveries, subs[..|subs| - 1], env);
      var s := subs[|subs| - 1];
      if Wants(s, env.kind) then Insert(rest, s, env) else rest
  }

  datatype Outcome = Commit(tables: Tables) | Rollback

  /** The whole transaction around one event. */
  function Handle(cfg: Config, t: Tables, e: Event): Outcome {
    if e.name.None? then Rollback
    else
      var n := e.name.value;
      var k := KindOf(n);
      if k == KUnhandled then Commit(t)
      else if k == KRegister then
        if !e.topic.Topic? || e.topic.address == "" then Rollback
        else Commit(t.(log := LogEvent(t.log, e, n, Fields(map["address" := e.topic.address]))))
      else match WriteInvoice(t.invoices, e, k)
        case Failed => Rollback
        case Stale => Commit(t.(log := LogEvent(t.log, e, n, Raw(e.raw))))
        case Wrote(invoices) =>
          var log := LogEvent(t.log, e, n, Fields(LogFields(e, k)));
          if !cfg.dispatcher then Commit(Tables(invoices, log, t.deliveries))
          else if !Supported(PublicTypeOf(n)) then Rollback
          else Commit(Tables(invoices, log, Enqueue(t.deliveries, cfg.subscriptions, EnvelopeOf(invoices, e, n))))
  }

  /** An event whose symbol the listener skips without writing anything. */
  predicate Unhandled(e: Event) { e.name.Some? && KindOf(e.name.value) == KUnhandled }

  /** The database after the event's transaction, committed or rolled back. */
  function Deliver(cfg: Config, t: Tables, e: Event): Tables {
    match Handle(cfg, t, e)
    case Commit(t') => t'
    case Rollback => t
  }

  function DeliverAll(cfg: Config, t: Tables, es: seq<Event>): Tables {
    if es == [] then t else Deliver(cfg, DeliverAll(cfg, t, es[..|es| - 1]), es[|es| - 1])
  }

  /** The left fold of the handler, defined only while every event commits. */
  function Fold(cfg: Config, t: Tables, es: seq<Event>): Option<Tables> {
    if es == [] then Some(t) else FoldStep(cfg, Fold(cfg, t, es[..|es| - 1]), es[|es| - 1])
  }

  function FoldStep(cfg: Config, before: Option<Tables>, e: Event): Option<Tables> {
    if before.None? || Handle(cfg, before.value, e).Rollback? then None
    else Some(Handle(cfg, before.value, e).tables)
  }

  // ----- what a commit writes -----

  lemma {:induction false} EnqueueAdds(d: map<DeliveryKey, Envelope>, subs: seq<Subscription>, env: Envelope)
    ensures forall k :: k in Enqueue(d, subs, env) <==>
              k in d || (k.eventId == env.eventId &&
                         exists s :: s in subs && Wants(s, env.kind) && s.id == k.subscription)
    ensures forall k :: k in d ==> Enqueue(d, subs, env)[k] == d[k]
    ensures forall k :: k in Enqueue(d, subs, env) && k !in d ==> Enqueue(d, subs, env)[k] == env
  {
    if subs != [] {
      var init, s := subs[..|subs| - 1], subs[|subs| - 1];
      EnqueueAdds(d, init, env);
      assert subs == init + [s];
      if Wants(s, env.kind) {
        assert DeliveryKey(s.id, env.eventId) in Enqueue(d, subs, env);
      }
    }
  }

  /** Enqueueing for an event whose rows are all present changes nothing, whatever the payload. */
  lemma {:induction false} EnqueueAgain(d: map<DeliveryKey, Envelope>, subs: seq<Subscription>, env: Envelope)
    requires forall s :: s in subs && Wants(s, env.kind) ==> DeliveryKey(s.id, env.eventId) in d
    ensures Enqueue(d, subs, env) == d
  {
    if subs != [] {
      var s := subs[|subs| - 1];
      assert s in subs;
      EnqueueAgain(d, subs[..|subs| - 1], env);
    }
  }

  /** All or nothing: a commit of a handled event always leaves its log row, adds rows of no
      other event, and never rewrites a log or delivery row that was there. */
  lemma CommitWrites(cfg: Config, t: Tables, e: Event)
    requires Handle(cfg, t, e).Commit?
    ensures var t' := Handle(cfg, t, e).tables;
      && (Unhandled(e) ==> t' == t)
      && (!Unhandled(e) ==> t'.log.Keys == t.log.Keys + {e.id})
      && (forall id :: id in t.log ==> t'.log[id] == t.log[id])
      && (e.id !in t.log && e.id in t'.log ==> t'.log[e.id].ledger == e.ledger)
      && (forall k :: k in t.deliveries ==> k in t'.deliveries && t'.deliveries[k] == t.deliveries[k])
      && (forall k :: k in t'.deliveries && k !in t.deliveries ==> k.eventId == e.id)
  {
    var n := e.name.value;
    var w := WriteInvoice(t.invoices, e, KindOf(n));
    if w.Wrote? {
      EnqueueAdds(t.deliveries, cfg.subscriptions, EnvelopeOf(w.invoices, e, n));
    }
  }

  /** The fan-out is exact: an applied event has one row per active subscription to its type. */
  lemma CommitFansOut(cfg: Config, t: Tables, e: Event, s: Subscription)
    requires cfg.dispatcher && e.name.Some? && KindOf(e.name.value) !in {KUnhandled, KRegister}
    requires WriteInvoice(t.invoices, e, KindOf(e.name.value)).Wrote? && Handle(cfg, t, e).Commit?
    requires s in cfg.subscriptions && Wants(s, PublicTypeOf(e.name.value))
    ensures DeliveryKey(s.id, e.id) in Handle(cfg, t, e).tables.deliveries
  {
    var n := e.name.value;
    EnqueueAdds(t.deliveries, cfg.subscriptions, EnvelopeOf(WriteInvoice(t.invoices, e, KindOf(n)).invoices, e, n));
  }

  /** An event whose invoice part was written commits exactly when it is not an attestation under a
      dispatcher; such an attestation never commits, and no other written event is ever rolled back. */
  lemma CommitsIff(cfg: Config, t: Tables, e: Event)
    requires e.name.Some? && KindOf(e.name.value) !in {KUnhandled, KRegister}
    ensures Handle(cfg, t, e).Commit? <==>
      && !WriteInvoice(t.invoices, e, KindOf(e.name.value)).Failed?
      && !(cfg.dispatcher && KindOf(e.name.value) == KAttest)
  {
  }

  /** Handling a committed event again at once commits and changes no table. */
  lemma HandleTwice(cfg: Config, t: Tables, e: Event)
    requires Handle(cfg, t, e).Commit?
    ensures Handle(cfg, Handle(cfg, t, e).tables, e) == Handle(cfg, t, e)
  {
    var t' := Handle(cfg, t, e).tables;
    var n := e.name.value;
    var k := KindOf(n);
    var w := WriteInvoice(t.invoices, e, k);
    if k != KUnhandled && k != KRegister && w.Wrote? {
      WriteTwice(t.invoices, e, k);
      EnqueueAdds(t.deliveries, cfg.subscriptions, EnvelopeOf(w.invoices, e, n));
      if cfg.dispatcher {
        EnqueueAgain(t'.deliveries, cfg.subscriptions, EnvelopeOf(w.invoices, e, n));
      }
    }
  }

  /** Writing an invoice change twice: the second write finds the same row, or a status past its guard. */
  lemma WriteTwice(invoices: Table, e: Event, k: Kind)
    requires WriteInvoice(invoices, e, k).Wrote?
    ensures var done := WriteInvoice(invoices, e, k).invoices;
      var again := WriteInvoice(done, e, k);
      again.Stale? || again == Wrote(done)
  {
    if Decode(e, k).Some? {
      UpdateTwice(invoices, Decode(e, k).value.0, Decode(e, k).value.1);
      hide Update;
    }
    var done := WriteInvoice(invoices, e, k).invoices;
    if k == KAttest {
      assert done == done[e.topic.bytes := done[e.topic.bytes]];
    }
  }

  lemma UpdateTwice(invoices: Table, id: string, tr: Transition)
    requires Update(invoices, id, tr).Updated?
    ensures Update(Update(invoices, id, tr).invoices, id, tr).InvalidTransition?
  {
  }
}
