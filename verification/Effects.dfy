/**
 What each contract event leaves in the database, event name by event name and column
 by column, and what it queues for webhook subscribers.
 */
module Effects {
  import opened Options
  import opened Invoices
  import opened Handling
  import opened Lifecycle

  predicate Named(e: Event, a: EventName, b: EventName) { e.name == Some(a) || e.name == Some(b) }

  /** The invoice the event is about, when its topic decodes and the row is there. */
  predicate About(t: Tables, e: Event) { e.topic.Topic? && e.topic.bytes in t.invoices }

  function RowOf(t: Tables, e: Event): Invoice
    requires About(t, e)
  {
    t.invoices[e.topic.bytes]
  }

  /** The event leaves `row` as its invoice and every other invoice alone. */
  predicate Leaves(cfg: Config, t: Tables, e: Event, row: Invoice)
    requires About(t, e)
  {
    Deliver(cfg, t, e).invoices == t.invoices[e.topic.bytes := row]
  }

  predicate LeavesAll(cfg: Config, t: Tables, e: Event) { Deliver(cfg, t, e).invoices == t.invoices }

  /** A create event inserts a Created invoice with the values it carries, unless one with its id exists. */
  lemma CreateInserts(cfg: Config, t: Tables, e: Event)
    requires Named(e, Create, InvoiceCreated)
    ensures
      if e.value.Value? && e.value.id != "" && e.value.issuer != "" && e.value.buyer != "" && e.value.id !in t.invoices
      then Deliver(cfg, t, e).invoices == t.invoices[e.value.id :=
             Invoice(e.value.id, e.value.issuer, e.value.buyer, e.value.faceValue, 0, 0, e.value.dueDate, Created,
                     e.closedAt, None, None, false, false, None, None, None)]
      else LeavesAll(cfg, t, e)
  {
    hide Enqueue, EnvelopeOf, LogFields, LogEvent;
  }

  /** The invoice part of an event decides the table, except that attestations never commit under a dispatcher. */
  lemma DeliverIs(cfg: Config, t: Tables, e: Event)
    requires e.name.Some? && KindOf(e.name.value) !in {KUnhandled, KRegister}
    ensures var w := WriteInvoice(t.invoices, e, KindOf(e.name.value));
      Deliver(cfg, t, e).invoices ==
        if w.Wrote? && !(cfg.dispatcher && KindOf(e.name.value) == KAttest) then w.invoices else t.invoices
  {
    CommitsIff(cfg, t, e);
    hide WriteInvoice, Enqueue, EnvelopeOf, LogFields, LogEvent;
  }

  /** A status event delivers its statement when its guard and the row's constraints allow it, else nothing. */
  lemma MovesRow(cfg: Config, t: Tables, e: Event, tr: Transition)
    requires e.name.Some? && KindOf(e.name.value) in {KList, KFund, KShip, KConfirm, KRepay, KDefault}
    requires e.topic.Topic? ==>
      Decode(e, KindOf(e.name.value)) == Some((e.topic.bytes, tr)) || Decode(e, KindOf(e.name.value)) == None
    ensures
      if About(t, e) && Decode(e, KindOf(e.name.value)).Some?
         && Guard(tr, RowOf(t, e).status) && RowAllowed(Write(tr, RowOf(t, e)))
      then Leaves(cfg, t, e, Write(tr, RowOf(t, e)))
      else LeavesAll(cfg, t, e)
  {
    DeliverIs(cfg, t, e);
    hide Deliver, Guard, Write, RowAllowed;
  }

  lemma KeptAllowed(t: Tables, e: Event)
    requires WellKept(t.invoices)
    ensures About(t, e) ==> RowAllowed(RowOf(t, e))
  {
    hide RowAllowed, History;
  }

  /** A list event moves a Created invoice to Listed with the discount it carries, at most 5000 basis points. */
  lemma ListMoves(cfg: Config, t: Tables, e: Event)
    requires Named(e, ListForFinancing, InvoiceListed) && WellKept(t.invoices)
    ensures
      if About(t, e) && RowOf(t, e).status == Created && e.value.Value? && e.value.u32 <= 5000
      then Leaves(cfg, t, e, RowOf(t, e).(status := Listed, discountBps := e.value.u32))
      else LeavesAll(cfg, t, e)
  {
    KeptAllowed(t, e);
    hide WellKept, Deliver;
    MovesRow(cfg, t, e, List(if e.value.Value? then e.value.u32 else 0));
    hide Leaves, LeavesAll;
  }

  /** A fund event moves a Listed invoice to Funded with its amount, at most the face value, and its time. */
  lemma FundMoves(cfg: Config, t: Tables, e: Event)
    requires Named(e, FundInvoice, InvoiceFunded) && WellKept(t.invoices)
    ensures
      if About(t, e) && RowOf(t, e).status == Listed && e.value.Value? && e.value.u128 <= RowOf(t, e).faceValue
      then Leaves(cfg, t, e,
                  RowOf(t, e).(status := Funded, fundedAmount := e.value.u128, fundedAt := Some(e.closedAt)))
      else LeavesAll(cfg, t, e)
  {
    KeptAllowed(t, e);
    hide WellKept, Deliver;
    MovesRow(cfg, t, e, Fund(if e.value.Value? then e.value.u128 else 0, e.closedAt));
    hide Leaves, LeavesAll;
  }

  /** A ship event moves a Funded invoice to Active, shipped and confirmed by its issuer. */
  lemma ShipMoves(cfg: Config, t: Tables, e: Event)
    requires Named(e, MarkShipped, InvoiceShipped) && WellKept(t.invoices)
    ensures
      if About(t, e) && RowOf(t, e).status == Funded
      then Leaves(cfg, t, e,
                  RowOf(t, e).(status := Active, shippedAt := Some(e.closedAt), issuerConfirmed := true))
      else LeavesAll(cfg, t, e)
  {
    KeptAllowed(t, e);
    hide WellKept, Deliver;
    MovesRow(cfg, t, e, Ship(e.closedAt));
    hide Leaves, LeavesAll;
  }

  /** A delivery confirmation moves an Active invoice to Confirmed by its buyer. */
  lemma ConfirmMoves(cfg: Config, t: Tables, e: Event)
    requires Named(e, ConfirmDeliveryCall, DeliveryConfirmed) && WellKept(t.invoices)
    ensures
      if About(t, e) && RowOf(t, e).status == Active
      then Leaves(cfg, t, e,
                  RowOf(t, e).(status := Confirmed, buyerConfirmed := true, buyerConfirmedAt := Some(e.closedAt)))
      else LeavesAll(cfg, t, e)
  {
    KeptAllowed(t, e);
    hide WellKept, Deliver;
    MovesRow(cfg, t, e, ConfirmDelivery(e.closedAt));
    hide Leaves, LeavesAll;
  }

  /** A repay event moves a Confirmed invoice to Repaid, with its time. */
  lemma RepayMoves(cfg: Config, t: Tables, e: Event)
    requires Named(e, RepayCall, InvoiceRepaid) && WellKept(t.invoices)
    ensures
      if About(t, e) && RowOf(t, e).status == Confirmed
      then Leaves(cfg, t, e, RowOf(t, e).(status := Repaid, repaidAt := Some(e.closedAt)))
      else LeavesAll(cfg, t, e)
  {
    KeptAllowed(t, e);
    hide WellKept, Deliver;
    MovesRow(cfg, t, e, Repay(e.closedAt));
    hide Leaves, LeavesAll;
  }

  /** A default event moves a Funded, Active or Confirmed invoice to Defaulted and touches nothing else in it. */
  lemma DefaultMoves(cfg: Config, t: Tables, e: Event)
    requires Named(e, TriggerDefault, InvoiceDefaultedCall) && WellKept(t.invoices)
    ensures
      if About(t, e) && RowOf(t, e).status in {Funded, Active, Confirmed}
      then Leaves(cfg, t, e, RowOf(t, e).(status := Defaulted))
      else LeavesAll(cfg, t, e)
  {
    KeptAllowed(t, e);
    hide WellKept, Deliver;
    MovesRow(cfg, t, e, Default);
    hide Leaves, LeavesAll;
  }

  lemma AttestAllowed(row: Invoice, a: Attestation)
    requires RowAllowed(row)
    ensures RowAllowed(row.(attestation := Some(a))) <==> 0 <= a.riskScoreBps <= 10000
  {
  }

  lemma AttestWritten(invoices: Table, e: Event)
    ensures var row := AttestationOf(e);
      WriteInvoice(invoices, e, KAttest) ==
        if e.topic.Topic? && e.topic.bytes in invoices && RowAllowed(invoices[e.topic.bytes].(attestation := Some(row)))
        then Wrote(invoices[e.topic.bytes := invoices[e.topic.bytes].(attestation := Some(row))])
        else Failed
  {
    hide RowAllowed, AttestationOf;
  }

  /** An attestation writes the agent, its score, at most 10000 basis points, and its time to the invoice in any
      status; under a dispatcher it writes nothing. */
  lemma AttestWrites(cfg: Config, t: Tables, e: Event)
    requires Named(e, SubmitAttestation, AttestationSubmitted) && WellKept(t.invoices)
    ensures
      var score := if e.value.Value? then e.value.u32 else 0;
      if About(t, e) && score <= 10000 && !cfg.dispatcher
      then Leaves(cfg, t, e, RowOf(t, e).(attestation := Some(Attestation(e.agentId, score, "", e.closedAt))))
      else LeavesAll(cfg, t, e)
  {
    KeptAllowed(t, e);
    hide WellKept, Deliver, WriteInvoice, RowAllowed;
    assert KindOf(e.name.value) == KAttest;
    hide KindOf;
    DeliverIs(cfg, t, e);
    AttestWritten(t.invoices, e);
    if About(t, e) {
      AttestAllowed(RowOf(t, e), AttestationOf(e));
    }
  }

  /** Every other event leaves every invoice alone. */
  lemma OthersLeave(cfg: Config, t: Tables, e: Event)
    requires !Named(e, Create, InvoiceCreated) && !Named(e, ListForFinancing, InvoiceListed)
    requires !Named(e, FundInvoice, InvoiceFunded) && !Named(e, MarkShipped, InvoiceShipped)
    requires !Named(e, ConfirmDeliveryCall, DeliveryConfirmed) && !Named(e, RepayCall, InvoiceRepaid)
    requires !Named(e, TriggerDefault, InvoiceDefaultedCall) && !Named(e, SubmitAttestation, AttestationSubmitted)
    ensures LeavesAll(cfg, t, e)
  {
    hide Enqueue, EnvelopeOf, LogFields, LogEvent;
  }

  // ----- which events commit -----

  /** A status event fails exactly when it does not decode, its row is missing, or its new row is refused. */
  lemma StatusFails(t: Tables, e: Event, k: Kind)
    requires k in {KList, KFund, KShip, KConfirm, KRepay, KDefault}
    requires About(t, e) ==> RowAllowed(RowOf(t, e))
    ensures !WriteInvoice(t.invoices, e, k).Failed? <==>
      && About(t, e) && (k in {KList, KFund} ==> e.value.Value?)
      && (k == KList && RowOf(t, e).status == Created ==> e.value.u32 <= 5000)
      && (k == KFund && RowOf(t, e).status == Listed ==> e.value.u128 <= RowOf(t, e).faceValue)
  {
  }

  /** A create event commits exactly when it carries an id, an issuer and a buyer. */
  lemma CreateCommits(cfg: Config, t: Tables, e: Event)
    requires Named(e, Create, InvoiceCreated)
    ensures Handle(cfg, t, e).Commit? <==>
      e.value.Value? && e.value.id != "" && e.value.issuer != "" && e.value.buyer != ""
  {
    CommitsIff(cfg, t, e);
    hide Handle;
  }

  /** A list event commits exactly when its row exists, its value decodes, and a Created row can take its discount. */
  lemma ListCommits(cfg: Config, t: Tables, e: Event)
    requires Named(e, ListForFinancing, InvoiceListed) && WellKept(t.invoices)
    ensures Handle(cfg, t, e).Commit? <==>
      About(t, e) && e.value.Value? && (RowOf(t, e).status == Created ==> e.value.u32 <= 5000)
  {
    hide Handle, WellKept, WriteInvoice;
    KeptAllowed(t, e);
    CommitsIff(cfg, t, e);
    StatusFails(t, e, KList);
  }

  /** A fund event commits exactly when its row exists, its value decodes, and a Listed row can take its amount. */
  lemma FundCommits(cfg: Config, t: Tables, e: Event)
    requires Named(e, FundInvoice, InvoiceFunded) && WellKept(t.invoices)
    ensures Handle(cfg, t, e).Commit? <==>
      About(t, e) && e.value.Value? && (RowOf(t, e).status == Listed ==> e.value.u128 <= RowOf(t, e).faceValue)
  {
    hide Handle, WellKept, WriteInvoice;
    KeptAllowed(t, e);
    CommitsIff(cfg, t, e);
    StatusFails(t, e, KFund);
  }

  /** The other status events commit exactly when their row exists, stale or not. */
  lemma StatusCommits(cfg: Config, t: Tables, e: Event)
    requires Named(e, MarkShipped, InvoiceShipped) || Named(e, ConfirmDeliveryCall, DeliveryConfirmed)
             || Named(e, RepayCall, InvoiceRepaid) || Named(e, TriggerDefault, InvoiceDefaultedCall)
    requires WellKept(t.invoices)
    ensures Handle(cfg, t, e).Commit? <==> About(t, e)
  {
    hide Handle, WellKept, WriteInvoice;
    KeptAllowed(t, e);
    CommitsIff(cfg, t, e);
    StatusFails(t, e, KindOf(e.name.value));
  }

  /** An attestation commits exactly when its row exists, its score is in range and no dispatcher is attached. */
  lemma AttestCommits(cfg: Config, t: Tables, e: Event)
    requires Named(e, SubmitAttestation, AttestationSubmitted) && WellKept(t.invoices)
    ensures Handle(cfg, t, e).Commit? <==>
      About(t, e) && (e.value.Garbled? || e.value.u32 <= 10000) && !cfg.dispatcher
  {
    hide Handle, WellKept, WriteInvoice, RowAllowed;
    KeptAllowed(t, e);
    CommitsIff(cfg, t, e);
    AttestWritten(t.invoices, e);
    if About(t, e) {
      AttestAllowed(RowOf(t, e), AttestationOf(e));
    }
  }

  /** Pool events commit exactly when their value decodes and, for liquidity providers, an account is named. */
  lemma PoolCommits(cfg: Config, t: Tables, e: Event)
    ensures Named(e, Deposit, LpDeposited) || Named(e, Withdraw, LpWithdrawn) ==>
      (Handle(cfg, t, e).Commit? <==> e.topic.Topic? && e.topic.address != "" && e.value.Value?)
    ensures Named(e, ReceiveRepayment, RepaymentReceived) || e.name == Some(YieldDistribution)
            || Named(e, HandleDefault, InvoiceDefaultedByPool) ==>
      (Handle(cfg, t, e).Commit? <==> e.value.Value?)
  {
    hide Handle;
    if e.name.Some? && KindOf(e.name.value) in {KPoolDeposit, KPoolWithdraw, KPoolYield, KPoolDefault} {
      CommitsIff(cfg, t, e);
    }
  }

  /** A registration with an address is logged with it, once; one without is retried. */
  lemma RegistrationLogs(cfg: Config, t: Tables, e: Event)
    requires Named(e, IssuerRegistered, BuyerRegistered)
    ensures
      if e.topic.Topic? && e.topic.address != ""
      then Handle(cfg, t, e) == Commit(t.(log := if e.id in t.log then t.log else t.log[e.id :=
             LogRow(e.contractId, e.ledger, e.closedAt, e.name.value, Fields(map["address" := e.topic.address]))]))
      else Handle(cfg, t, e) == Rollback
  {
    hide WriteInvoice, Enqueue, EnvelopeOf, LogFields;
  }

  /** An event of an unknown name changes nothing; one without a name is retried. */
  lemma UnknownIgnored(cfg: Config, t: Tables, e: Event)
    ensures e.name.Some? && e.name.value.Other? ==> Handle(cfg, t, e) == Commit(t)
    ensures e.name.None? ==> Handle(cfg, t, e) == Rollback
  {
    hide WriteInvoice, Enqueue, EnvelopeOf, LogFields;
  }

  /** A stale event is logged and nothing more: no invoice changes and nothing is queued. */
  lemma StaleOnlyLogs(cfg: Config, t: Tables, e: Event)
    requires e.name.Some? && KindOf(e.name.value) in {KList, KFund, KShip, KConfirm, KRepay, KDefault}
    requires WriteInvoice(t.invoices, e, KindOf(e.name.value)).Stale?
    ensures Handle(cfg, t, e).Commit?
    ensures Handle(cfg, t, e).tables.invoices == t.invoices && Handle(cfg, t, e).tables.deliveries == t.deliveries
    ensures e.id in Handle(cfg, t, e).tables.log
  {
    hide WriteInvoice, Enqueue, EnvelopeOf, LogFields, KindOf;
  }

  // ----- a whole life -----

  /** A topic event about an invoice. */
  function On(id: string, n: EventName, at: int, u32: nat, u128: nat): Event {
    Event("", "", 0, at, Some(n), Topic(id, ""), "agent", Value("", "", "", 0, 0, u32, u128, "", ""), "")
  }

  lemma KeptRow(cfg: Config, t: Tables, e: Event)
    requires WellKept(t.invoices)
    ensures WellKept(Deliver(cfg, t, e).invoices)
  {
    DeliverKeeps(cfg, t, e);
    hide Deliver, WellKept;
  }

  /** The row a whole life leaves behind, spelled out. */
  function RepaidRow(v: Value, bps: nat, amount: nat, score: nat, t1: int, t2: int, t4: int, t5: int, t6: int, t7: int)
    : Invoice
    requires v.Value?
  {
    Invoice(v.id, v.issuer, v.buyer, v.faceValue, bps, amount, v.dueDate, Repaid, t1, Some(t4), Some(t5), true, true,
            Some(t6), Some(t7), Some(Attestation("agent", score, "", t2)))
  }

  /** The first half of a life: created, attested, listed and funded, at times t1 to t4. */
  lemma FundedLife(cfg: Config, t: Tables, v: Value, create: Event, bps: nat, amount: nat, score: nat,
                   t2: int, t3: int, t4: int)
    returns (after: Tables)
    requires WellKept(t.invoices) && !cfg.dispatcher && v.Value? && v.id !in t.invoices
    requires v.id != "" && v.issuer != "" && v.buyer != ""
    requires bps <= 5000 && score <= 10000 && amount <= v.faceValue
    requires Named(create, Create, InvoiceCreated) && create.value == v
    ensures after == Deliver(cfg, Deliver(cfg, Deliver(cfg, Deliver(cfg, t, create),
      On(v.id, SubmitAttestation, t2, score, 0)), On(v.id, InvoiceListed, t3, bps, 0)),
      On(v.id, FundInvoice, t4, 0, amount))
    ensures WellKept(after.invoices) && after.invoices == t.invoices[v.id :=
      Invoice(v.id, v.issuer, v.buyer, v.faceValue, bps, amount, v.dueDate, Funded, create.closedAt, Some(t4), None,
              false, false, None, None, Some(Attestation("agent", score, "", t2)))]
  {
    hide Deliver, WellKept;
    var b, c, d := On(v.id, SubmitAttestation, t2, score, 0), On(v.id, InvoiceListed, t3, bps, 0),
                   On(v.id, FundInvoice, t4, 0, amount);
    CreateInserts(cfg, t, create);
    KeptRow(cfg, t, create);
    var s1 := Deliver(cfg, t, create);
    AttestWrites(cfg, s1, b);
    KeptRow(cfg, s1, b);
    var s2 := Deliver(cfg, s1, b);
    ListMoves(cfg, s2, c);
    KeptRow(cfg, s2, c);
    var s3 := Deliver(cfg, s2, c);
    FundMoves(cfg, s3, d);
    KeptRow(cfg, s3, d);
    after := Deliver(cfg, s3, d);
  }

  /** The seven events of a whole life, whatever values and times they carry, leave exactly the expected Repaid row. */
  lemma WholeLife(cfg: Config, t: Tables, v: Value, create: Event, bps: nat, amount: nat, score: nat,
                  t2: int, t3: int, t4: int, t5: int, t6: int, t7: int)
    requires WellKept(t.invoices) && !cfg.dispatcher && v.Value? && v.id !in t.invoices
    requires v.id != "" && v.issuer != "" && v.buyer != ""
    requires bps <= 5000 && score <= 10000 && amount <= v.faceValue
    requires Named(create, Create, InvoiceCreated) && create.value == v
    ensures DeliverAll(cfg, t, [create,
        On(v.id, SubmitAttestation, t2, score, 0), On(v.id, InvoiceListed, t3, bps, 0),
        On(v.id, FundInvoice, t4, 0, amount), On(v.id, InvoiceShipped, t5, 0, 0),
        On(v.id, ConfirmDeliveryCall, t6, 0, 0), On(v.id, InvoiceRepaid, t7, 0, 0)]).invoices
      == t.invoices[v.id := RepaidRow(v, bps, amount, score, create.closedAt, t2, t4, t5, t6, t7)]
  {
    hide Deliver, WellKept;
    var b, c, d := On(v.id, SubmitAttestation, t2, score, 0), On(v.id, InvoiceListed, t3, bps, 0),
                   On(v.id, FundInvoice, t4, 0, amount);
    var e, f, g := On(v.id, InvoiceShipped, t5, 0, 0), On(v.id, ConfirmDeliveryCall, t6, 0, 0),
                   On(v.id, InvoiceRepaid, t7, 0, 0);
    var s4 := FundedLife(cfg, t, v, create, bps, amount, score, t2, t3, t4);
    ShipMoves(cfg, s4, e);
    KeptRow(cfg, s4, e);
    var s5 := Deliver(cfg, s4, e);
    ConfirmMoves(cfg, s5, f);
    KeptRow(cfg, s5, f);
    var s6 := Deliver(cfg, s5, f);
    RepayMoves(cfg, s6, g);
    DeliverSeven(cfg, t, create, b, c, d, e, f, g);
  }

  lemma DeliverSeven(cfg: Config, t: Tables, a: Event, b: Event, c: Event, d: Event, e: Event, f: Event, g: Event)
    ensures var four := Deliver(cfg, Deliver(cfg, Deliver(cfg, Deliver(cfg, t, a), b), c), d);
      DeliverAll(cfg, t, [a, b, c, d, e, f, g]) == Deliver(cfg, Deliver(cfg, Deliver(cfg, four, e), f), g)
  {
    hide Deliver;
    DeliverSnoc(cfg, t, [], a);
    DeliverSnoc(cfg, t, [a], b);
    DeliverSnoc(cfg, t, [a, b], c);
    DeliverSnoc(cfg, t, [a, b, c], d);
    DeliverSnoc(cfg, t, [a, b, c, d], e);
    DeliverSnoc(cfg, t, [a, b, c, d, e], f);
    DeliverSnoc(cfg, t, [a, b, c, d, e, f], g);
    assert [] + [a] == [a] && [a] + [b] == [a, b] && [a, b] + [c] == [a, b, c] && [a, b, c] + [d] == [a, b, c, d];
    assert [a, b, c, d] + [e] == [a, b, c, d, e] && [a, b, c, d, e] + [f] == [a, b, c, d, e, f];
    assert [a, b, c, d, e, f] + [g] == [a, b, c, d, e, f, g];
  }

  lemma DeliverSnoc(cfg: Config, t: Tables, es: seq<Event>, e: Event)
    ensures DeliverAll(cfg, t, es + [e]) == Deliver(cfg, DeliverAll(cfg, t, es), e)
  {
    assert (es + [e])[..|es|] == es;
  }

  // ----- the log row and the webhook payload -----

  /** A committed event that is not of a skipped kind and not logged yet leaves a log row with its own contract,
      ledger, close time and name. */
  lemma LogsItself(cfg: Config, t: Tables, e: Event)
    requires Handle(cfg, t, e).Commit? && !Unhandled(e) && e.id !in t.log
    ensures var log := Handle(cfg, t, e).tables.log;
      && e.name.Some? && e.id in log
      && log[e.id].contractId == e.contractId && log[e.id].ledger == e.ledger && log[e.id].closedAt == e.closedAt
      && log[e.id].name == e.name.value
  {
    hide Enqueue, EnvelopeOf, LogFields;
  }

  /** The structured data of an applied event: the invoice it is about, and what pool events carry. */
  lemma FieldsMean(e: Event, n: EventName)
    requires e.topic.Topic? && e.value.Value?
    ensures var fields := LogFields(e, KindOf(n));
      && (n in {Create, InvoiceCreated} ==>
            fields == map["invoice_id" := e.value.id, "issuer" := e.value.issuer, "buyer" := e.value.buyer])
      && (n !in {Create, InvoiceCreated} && e.topic.bytes != "" ==>
            "invoice_id" in fields && fields["invoice_id"] == e.topic.bytes)
      && (n in {Deposit, LpDeposited, Withdraw, LpWithdrawn} ==>
            && fields.Keys - {"invoice_id"} == {"account", "amount", "shares"}
            && fields["account"] == e.topic.address && fields["amount"] == e.value.first
            && fields["shares"] == e.value.second)
      && (n in {ReceiveRepayment, RepaymentReceived, YieldDistribution} ==>
            && fields.Keys - {"invoice_id"} == {"amount", "yield_amount"}
            && fields["amount"] == e.value.first && fields["yield_amount"] == e.value.second)
      && (n in {HandleDefault, InvoiceDefaultedByPool} ==>
            fields.Keys - {"invoice_id"} == {"amount"} && fields["amount"] == e.value.first)
  {
  }

  /** The data column: the structured fields of an applied event, the raw value of a stale one. */
  lemma LogsData(cfg: Config, t: Tables, e: Event)
    requires e.name.Some? && KindOf(e.name.value) !in {KUnhandled, KRegister}
    requires Handle(cfg, t, e).Commit? && e.id !in t.log
    ensures var log := Handle(cfg, t, e).tables.log;
      e.id in log && log[e.id].data ==
        if WriteInvoice(t.invoices, e, KindOf(e.name.value)).Stale? then Raw(e.raw)
        else Fields(LogFields(e, KindOf(e.name.value)))
  {
    hide Enqueue, EnvelopeOf, LogFields, WriteInvoice, KindOf, PublicTypeOf;
  }

  /** The public webhook type of each event name. */
  predicate Announces(n: EventName, p: PublicType) {
    || (p == PInvoiceCreated && n in {Create, InvoiceCreated})
    || (p == PInvoiceListed && n in {ListForFinancing, InvoiceListed})
    || (p == PInvoiceFunded && n in {FundInvoice, InvoiceFunded})
    || (p == PInvoiceShipped && n in {MarkShipped, InvoiceShipped})
    || (p == PInvoiceConfirmed && n in {ConfirmDeliveryCall, DeliveryConfirmed})
    || (p == PInvoiceRepaid && n in {RepayCall, InvoiceRepaid})
    || (p == PInvoiceDefaulted && n in {TriggerDefault, InvoiceDefaultedCall, HandleDefault, InvoiceDefaultedByPool})
    || (p == PPoolDeposit && n in {Deposit, LpDeposited})
    || (p == PPoolWithdrawal && n in {Withdraw, LpWithdrawn})
    || (p == PPoolYieldDistributed && n in {ReceiveRepayment, RepaymentReceived, YieldDistribution})
  }

  /** The invoice an event's payload shows: the one it creates, or the one its topic names. */
  function Subject(e: Event): string {
    if Named(e, Create, InvoiceCreated) then (if e.value.Value? then e.value.id else "")
    else if e.topic.Topic? then e.topic.bytes else ""
  }

  /**
   An event applied under a dispatcher queues one delivery for each subscription that is active and has its public
   type, and no other; each carries the event's id, contract, ledger and close time, and the invoice as the same
   transaction left it.
   */
  lemma QueuesPayload(cfg: Config, t: Tables, e: Event, p: PublicType, key: DeliveryKey)
    requires cfg.dispatcher && e.name.Some? && Announces(e.name.value, p)
    requires WriteInvoice(t.invoices, e, KindOf(e.name.value)).Wrote? && key !in t.deliveries
    ensures Handle(cfg, t, e).Commit?
    ensures var after := Handle(cfg, t, e).tables;
      && (key in after.deliveries <==>
            key.eventId == e.id
            && exists s :: s in cfg.subscriptions && s.active && p in s.types && s.id == key.subscription)
      && (key in after.deliveries ==>
            var payload := after.deliveries[key];
            && payload.kind == p && payload.eventId == e.id && payload.contractId == e.contractId
            && payload.ledger == e.ledger && payload.occurredAt == e.closedAt
            && (Subject(e) != "" && Subject(e) in after.invoices ==>
                  payload.invoice == Some(after.invoices[Subject(e)])))
  {
    var n := e.name.value;
    var w := WriteInvoice(t.invoices, e, KindOf(n));
    AnnouncedType(n, p);
    HandleIs(cfg, t, e);
    hide Handle, Enqueue, WriteInvoice, LogFields, PublicTypeOf, LogEvent, KindOf, Announces, Supported;
    EnqueueAdds(t.deliveries, cfg.subscriptions, EnvelopeOf(w.invoices, e, n));
    PayloadShows(w.invoices, e);
  }

  lemma AnnouncedType(n: EventName, p: PublicType)
    requires Announces(n, p)
    ensures PublicTypeOf(n) == p && Supported(p) && KindOf(n) !in {KUnhandled, KRegister, KAttest}
  {
  }

  lemma HandleIs(cfg: Config, t: Tables, e: Event)
    requires cfg.dispatcher && e.name.Some? && Supported(PublicTypeOf(e.name.value))
    requires KindOf(e.name.value) !in {KUnhandled, KRegister}
    requires WriteInvoice(t.invoices, e, KindOf(e.name.value)).Wrote?
    ensures var n := e.name.value;
      var w := WriteInvoice(t.invoices, e, KindOf(n));
      && Handle(cfg, t, e).Commit? && Handle(cfg, t, e).tables.invoices == w.invoices
      && Handle(cfg, t, e).tables.deliveries == Enqueue(t.deliveries, cfg.subscriptions, EnvelopeOf(w.invoices, e, n))
  {
    hide WriteInvoice, Enqueue, EnvelopeOf, LogFields, LogEvent, PublicTypeOf, KindOf, Supported;
  }

  lemma PayloadShows(invoices: Table, e: Event)
    requires e.name.Some?
    ensures Subject(e) != "" && Subject(e) in invoices ==>
      EnvelopeOf(invoices, e, e.name.value).invoice == Some(invoices[Subject(e)])
  {
  }
}
