/**
 The invoice timeline the web client draws from a row: which of the seven
 lifecycle steps are complete, which one is current.
 */
module Timeline {
  import opened Options
  import opened Invoices
  import opened Handling
  import opened Lifecycle

  datatype Step = SCreated | SListed | SFunded | SShipped | SIssuerConfirmed | SBuyerConfirmed | SSettled

  const STEPS: seq<Step> := [SCreated, SListed, SFunded, SShipped, SIssuerConfirmed, SBuyerConfirmed, SSettled]

  /** The status table: the step a status alone stands for. */
  function StatusProgress(s: Status): nat {
    match s
    case Created => 0
    case Listed => 1
    case Funded => 2
    case Active => 4
    case Confirmed => 5
    case Repaid => 6
    case Defaulted => 6
  }

  /** A nullable timestamp is truthy when present and not zero. */
  predicate Truthy(at: Option<int>) { at.Some? && at.value != 0 }

  /** The flag-based index. */
  function CurrentIndex(inv: Invoice): nat {
    if inv.status == Repaid || inv.status == Defaulted then 6
    else if inv.buyerConfirmed || inv.status == Confirmed then 5
    else if inv.issuerConfirmed || Truthy(inv.shippedAt) || inv.status == Active then 4
    else StatusProgress(inv.status)
  }

  function Timestamp(inv: Invoice, s: Step): Option<int> {
    match s
    case SCreated => Some(inv.createdAt)
    case SListed => None
    case SFunded => inv.fundedAt
    case SShipped | SIssuerConfirmed => if Truthy(inv.shippedAt) then inv.shippedAt else None
    case SBuyerConfirmed => inv.buyerConfirmedAt
    case SSettled => if inv.status == Defaulted then None else inv.repaidAt
  }

  datatype Entry = Entry(step: Step, complete: bool, current: bool, timestamp: Option<int>)

  function Build(inv: Invoice): seq<Entry> {
    var at := CurrentIndex(inv);
    seq(|STEPS|, i requires 0 <= i < |STEPS| => Entry(STEPS[i], i <= at, i == at, Timestamp(inv, STEPS[i])))
  }

  /** On a row that keeps its history the flags say exactly what the status says. */
  lemma IndexIsStatus(inv: Invoice)
    requires History(inv)
    ensures CurrentIndex(inv) == StatusProgress(inv.status)
  {
  }

  /** On every row, kept by listener events or not, the index is the furthest step that its status, a confirmation
      or a shipping time speaks for. */
  lemma IndexIsFurthest(inv: Invoice)
    ensures CurrentIndex(inv) >= StatusProgress(inv.status)
    ensures inv.buyerConfirmed ==> CurrentIndex(inv) >= 5
    ensures inv.issuerConfirmed || (inv.shippedAt.Some? && inv.shippedAt.value != 0) ==> CurrentIndex(inv) >= 4
    ensures
      || CurrentIndex(inv) == StatusProgress(inv.status)
      || (CurrentIndex(inv) == 5 && inv.buyerConfirmed)
      || (CurrentIndex(inv) == 4 && (inv.issuerConfirmed || (inv.shippedAt.Some? && inv.shippedAt.value != 0)))
  {
  }

  /** Along any run of listener events the timeline agrees with the status table and never goes back. */
  lemma TimelineAgreement(cfg: Config, t: Tables, es: seq<Event>, later: seq<Event>, id: string)
    requires t.invoices == map[] && id in DeliverAll(cfg, t, es).invoices
    ensures var now := DeliverAll(cfg, t, es);
      var then' := DeliverAll(cfg, now, later);
      && CurrentIndex(now.invoices[id]) == StatusProgress(now.invoices[id].status)
      && id in then'.invoices
      && CurrentIndex(then'.invoices[id]) == StatusProgress(then'.invoices[id].status)
      && CurrentIndex(now.invoices[id]) <= CurrentIndex(then'.invoices[id])
  {
    hide DeliverAll, History, RowAllowed, CurrentIndex;
    LifecycleInvariant(cfg, t, es);
    LifecycleInvariant(cfg, DeliverAll(cfg, t, es), later);
    IndexIsStatus(DeliverAll(cfg, t, es).invoices[id]);
    IndexIsStatus(DeliverAll(cfg, DeliverAll(cfg, t, es), later).invoices[id]);
  }

  /** The complete steps are a prefix that ends at the one current step. */
  lemma CompleteIsPrefix(inv: Invoice)
    ensures var tl := Build(inv); var at := CurrentIndex(inv);
      && |tl| == 7 && at < 7
      && (forall i :: 0 <= i < 7 ==>
            tl[i].step == STEPS[i] && (tl[i].complete <==> i <= at) && (tl[i].current <==> i == at))
      && (exists i :: 0 <= i < 7 && tl[i].current && tl[i].complete)
      && (forall i, j :: 0 <= i < 7 && 0 <= j < 7 && tl[i].current && tl[j].current ==> i == j)
  {
    assert Build(inv)[CurrentIndex(inv)].current;
  }

  /** What actually happened to the invoice, read off its row. */
  predicate Happened(inv: Invoice, s: Step) {
    match s
    case SCreated => true
    case SListed => Rank(inv.status) >= 1
    case SFunded => inv.fundedAt.Some?
    case SShipped | SIssuerConfirmed => inv.issuerConfirmed
    case SBuyerConfirmed => inv.buyerConfirmed
    case SSettled => inv.status == Repaid || inv.status == Defaulted
  }

  /** A default jumps the index to the end, so the drawn steps are the steps that happened
      exactly when the invoice is not a default before delivery was confirmed. */
  lemma CompleteMeansHappenedIff(inv: Invoice)
    requires History(inv)
    ensures (forall i :: 0 <= i < 7 ==> (Build(inv)[i].complete <==> Happened(inv, STEPS[i])))
            <==> !(inv.status == Defaulted && !inv.buyerConfirmed)
  {
    var tl := Build(inv);
    IndexIsStatus(inv);
    assert forall i :: 0 <= i < 7 ==> (tl[i].complete <==> i <= CurrentIndex(inv));
    assert STEPS[5] == SBuyerConfirmed;
    if inv.status == Defaulted && !inv.buyerConfirmed {
      assert tl[5].complete && !Happened(inv, STEPS[5]);
    }
  }

  // ----- where the times come from -----

  /** The invoice's status after these events, if it exists. */
  function StatusAfter(cfg: Config, t: Tables, es: seq<Event>, id: string): Option<Status> {
    var invoices := DeliverAll(cfg, t, es).invoices;
    if id in invoices then Some(invoices[id].status) else None
  }

  /** Event k of the run brought invoice `id` into this status. */
  ghost predicate Brings(cfg: Config, t: Tables, es: seq<Event>, id: string, k: nat, s: Status) {
    k < |es| && StatusAfter(cfg, t, es[..k + 1], id) == Some(s) && StatusAfter(cfg, t, es[..k], id) != Some(s)
  }

  /** The event that brought the invoice into this status closed at that time. */
  ghost predicate Dated(cfg: Config, t: Tables, es: seq<Event>, id: string, s: Status, at: int) {
    exists k: nat :: Brings(cfg, t, es, id, k, s) && es[k].closedAt == at
  }

  /** Every time column of the row is the close time of the event that brought the status it belongs to. */
  ghost predicate AllDated(cfg: Config, t: Tables, es: seq<Event>, id: string, inv: Invoice) {
    && Dated(cfg, t, es, id, Created, inv.createdAt)
    && (inv.fundedAt.Some? ==> Dated(cfg, t, es, id, Funded, inv.fundedAt.value))
    && (inv.shippedAt.Some? ==> Dated(cfg, t, es, id, Active, inv.shippedAt.value))
    && (inv.buyerConfirmedAt.Some? ==> Dated(cfg, t, es, id, Confirmed, inv.buyerConfirmedAt.value))
    && (inv.repaidAt.Some? ==> Dated(cfg, t, es, id, Repaid, inv.repaidAt.value))
  }

  /** Between two versions of a row a time column is kept, or set to `at` as the row enters the column's status. */
  predicate SetOnEntry(a: Option<int>, b: Option<int>, was: Status, now: Status, s: Status, at: int) {
    a == b || (b == Some(at) && now == s && was != s)
  }

  predicate TimesStep(a: Invoice, b: Invoice, at: int) {
    && a.createdAt == b.createdAt
    && SetOnEntry(a.fundedAt, b.fundedAt, a.status, b.status, Funded, at)
    && SetOnEntry(a.shippedAt, b.shippedAt, a.status, b.status, Active, at)
    && SetOnEntry(a.buyerConfirmedAt, b.buyerConfirmedAt, a.status, b.status, Confirmed, at)
    && SetOnEntry(a.repaidAt, b.repaidAt, a.status, b.status, Repaid, at)
  }

  lemma WriteTimes(invoices: Table, e: Event, k: Kind, id: string)
    requires WriteInvoice(invoices, e, k).Wrote? && id in WriteInvoice(invoices, e, k).invoices
    ensures var b := WriteInvoice(invoices, e, k).invoices[id];
      if id in invoices then TimesStep(invoices[id], b, e.closedAt)
      else b.status == Created && b.createdAt == e.closedAt
           && b.fundedAt.None? && b.shippedAt.None? && b.buyerConfirmedAt.None? && b.repaidAt.None?
  {
    hide RowAllowed;
    if k in {KList, KFund, KShip, KConfirm, KRepay, KDefault} {
      var (x, tr) := Decode(e, k).value;
      GuardedTimes(tr, invoices[x], e.closedAt);
      hide Write, Guard, TimesStep;
      if id in invoices {
        SameTimes(invoices[id], e.closedAt);
      }
    }
  }

  lemma GuardedTimes(tr: Transition, inv: Invoice, at: int)
    requires Guard(tr, inv.status)
    requires (tr.Fund? ==> tr.at == at) && (tr.Ship? ==> tr.at == at)
    requires (tr.ConfirmDelivery? ==> tr.at == at) && (tr.Repay? ==> tr.at == at)
    ensures TimesStep(inv, Write(tr, inv), at)
  {
  }

  lemma SameTimes(inv: Invoice, at: int)
    ensures TimesStep(inv, inv, at)
  {
  }

  lemma DeliverTimes(cfg: Config, t: Tables, e: Event, id: string)
    requires id in Deliver(cfg, t, e).invoices
    ensures var b := Deliver(cfg, t, e).invoices[id];
      if id in t.invoices then TimesStep(t.invoices[id], b, e.closedAt)
      else b.status == Created && b.createdAt == e.closedAt
           && b.fundedAt.None? && b.shippedAt.None? && b.buyerConfirmedAt.None? && b.repaidAt.None?
  {
    if id in t.invoices {
      SameTimes(t.invoices[id], e.closedAt);
    }
    hide TimesStep, WriteInvoice, Enqueue, EnvelopeOf, LogFields, LogEvent;
    if e.name.Some? {
      var w := WriteInvoice(t.invoices, e, KindOf(e.name.value));
      if w.Wrote? && id in w.invoices {
        WriteTimes(t.invoices, e, KindOf(e.name.value), id);
      }
    }
  }

  lemma BringsEarlier(cfg: Config, t: Tables, es: seq<Event>, e: Event, id: string, s: Status, at: int)
    requires Dated(cfg, t, es, id, s, at)
    ensures Dated(cfg, t, es + [e], id, s, at)
  {
    hide StatusAfter;
    var all := es + [e];
    var k: nat :| Brings(cfg, t, es, id, k, s) && es[k].closedAt == at;
    assert all[..k] == es[..k] && all[..k + 1] == es[..k + 1] && all[k] == es[k];
    assert Brings(cfg, t, all, id, k, s);
  }

  lemma BringsNow(cfg: Config, t: Tables, es: seq<Event>, e: Event, id: string, s: Status)
    requires var before, after := DeliverAll(cfg, t, es).invoices, Deliver(cfg, DeliverAll(cfg, t, es), e).invoices;
      id in after && after[id].status == s && (id in before ==> before[id].status != s)
    ensures Dated(cfg, t, es + [e], id, s, e.closedAt)
  {
    hide DeliverAll, Deliver;
    var all := es + [e];
    DeliverLast(cfg, t, es, e);
    assert StatusAfter(cfg, t, all, id) == Some(s) && StatusAfter(cfg, t, es, id) != Some(s);
    hide StatusAfter;
    assert all[..|es|] == es && all[..|es| + 1] == all && all[|es|] == e;
    assert Brings(cfg, t, all, id, |es|, s);
  }

  lemma DeliverLast(cfg: Config, t: Tables, es: seq<Event>, e: Event)
    ensures DeliverAll(cfg, t, es + [e]) == Deliver(cfg, DeliverAll(cfg, t, es), e)
  {
    assert (es + [e])[..|es|] == es;
  }

  /** One column: a time kept is still dated, a time set is dated by this event. */
  lemma ColumnDated(cfg: Config, t: Tables, es: seq<Event>, e: Event, id: string, s: Status, a: Option<int>,
                    b: Option<int>)
    requires var before, after := DeliverAll(cfg, t, es).invoices, Deliver(cfg, DeliverAll(cfg, t, es), e).invoices;
      id in before && id in after && SetOnEntry(a, b, before[id].status, after[id].status, s, e.closedAt)
    requires a.Some? ==> Dated(cfg, t, es, id, s, a.value)
    ensures b.Some? ==> Dated(cfg, t, es + [e], id, s, b.value)
  {
    hide DeliverAll, Deliver, Dated;
    if b.Some? {
      if a == b {
        BringsEarlier(cfg, t, es, e, id, s, b.value);
      } else {
        BringsNow(cfg, t, es, e, id, s);
      }
    }
  }

  /** On every row that listener events reach, every time is the close time of the event that caused it. */
  lemma {:induction false} TimesCaused(cfg: Config, t: Tables, es: seq<Event>, id: string)
    requires t.invoices == map[] && id in DeliverAll(cfg, t, es).invoices
    ensures AllDated(cfg, t, es, id, DeliverAll(cfg, t, es).invoices[id])
  {
    var init, e := es[..|es| - 1], es[|es| - 1];
    assert es == init + [e];
    DeliverLast(cfg, t, init, e);
    var m := DeliverAll(cfg, t, init);
    DeliverTimes(cfg, m, e, id);
    if id in m.invoices {
      TimesCaused(cfg, t, init, id);
      hide DeliverAll, Deliver, Dated, SetOnEntry;
      var a, b := m.invoices[id], Deliver(cfg, m, e).invoices[id];
      BringsEarlier(cfg, t, init, e, id, Created, a.createdAt);
      ColumnDated(cfg, t, init, e, id, Funded, a.fundedAt, b.fundedAt);
      ColumnDated(cfg, t, init, e, id, Active, a.shippedAt, b.shippedAt);
      ColumnDated(cfg, t, init, e, id, Confirmed, a.buyerConfirmedAt, b.buyerConfirmedAt);
      ColumnDated(cfg, t, init, e, id, Repaid, a.repaidAt, b.repaidAt);
    } else {
      hide DeliverAll, Deliver, Dated;
      BringsNow(cfg, t, init, e, id, Created);
    }
  }

  /** The status whose event a step's time comes from; a listing's time is not kept. */
  function StatusOf(s: Step): Status {
    match s
    case SCreated => Created
    case SListed => Listed
    case SFunded => Funded
    case SShipped | SIssuerConfirmed => Active
    case SBuyerConfirmed => Confirmed
    case SSettled => Repaid
  }

  /**
   On every reachable row a time drawn with a step is the close time of the event that brought the step's status,
   and every step that happened has its time, but for the listing, a default and a close time of zero.
   */
  lemma DrawnTimes(cfg: Config, t: Tables, es: seq<Event>, id: string, i: nat)
    requires t.invoices == map[] && id in DeliverAll(cfg, t, es).invoices && i < 7
    ensures var inv := DeliverAll(cfg, t, es).invoices[id];
      var entry := Build(inv)[i];
      && (entry.timestamp.Some? ==> Dated(cfg, t, es, id, StatusOf(entry.step), entry.timestamp.value))
      && (Happened(inv, entry.step) && entry.step != SListed && inv.status != Defaulted && inv.shippedAt != Some(0) ==>
            entry.timestamp.Some?)
  {
    hide DeliverAll, AllDated, Dated, Timestamp, Happened, CurrentIndex, RowAllowed, History, StatusOf;
    TimesCaused(cfg, t, es, id);
    LifecycleInvariant(cfg, t, es);
    var inv := DeliverAll(cfg, t, es).invoices[id];
    EntryTime(inv, i);
    StepDated(cfg, t, es, id, inv, STEPS[i]);
    if Happened(inv, STEPS[i]) && STEPS[i] != SListed && inv.status != Defaulted && inv.shippedAt != Some(0) {
      HappenedTimed(inv, STEPS[i]);
    }
  }

  lemma EntryTime(inv: Invoice, i: nat)
    requires i < 7
    ensures |STEPS| == 7 && Build(inv)[i].step == STEPS[i] && Build(inv)[i].timestamp == Timestamp(inv, STEPS[i])
  {
    hide Timestamp, CurrentIndex;
  }

  lemma StepDated(cfg: Config, t: Tables, es: seq<Event>, id: string, inv: Invoice, s: Step)
    requires AllDated(cfg, t, es, id, inv)
    ensures Timestamp(inv, s).Some? ==> Dated(cfg, t, es, id, StatusOf(s), Timestamp(inv, s).value)
  {
    hide Dated;
  }

  lemma HappenedTimed(inv: Invoice, s: Step)
    requires History(inv) && Happened(inv, s) && s != SListed && inv.status != Defaulted && inv.shippedAt != Some(0)
    ensures Timestamp(inv, s).Some?
  {
  }

  // ----- a run that shows it -----

  /** Events about invoice "i", one per ledger. */
  function EventOf(n: EventName, at: int): Event {
    Event("e", "C", at, at, Some(n), Topic("i", ""), "", Value("i", "issuer", "buyer", 10, 99, 100, 5, "", ""), "")
  }

  /** Created, listed, funded, defaulted: four events of one invoice that was never shipped. */
  const EARLY_DEFAULT: seq<Event> :=
    [EventOf(Create, 1), EventOf(ListForFinancing, 2), EventOf(FundInvoice, 3), EventOf(TriggerDefault, 4)]

  /** A guarded update whose guard and constraints hold is delivered as its write. */
  lemma DeliversWrite(cfg: Config, t: Tables, e: Event, tr: Transition)
    requires !cfg.dispatcher && e.name.Some?
        && KindOf(e.name.value) in {KList, KFund, KShip, KConfirm, KRepay, KDefault}
    requires Decode(e, KindOf(e.name.value)) == Some(("i", tr)) && "i" in t.invoices
    requires Guard(tr, t.invoices["i"].status) && RowAllowed(Write(tr, t.invoices["i"]))
    ensures Deliver(cfg, t, e).invoices == t.invoices["i" := Write(tr, t.invoices["i"])]
  {
  }

  lemma DeliverFour(cfg: Config, t: Tables, a: Event, b: Event, c: Event, d: Event)
    ensures DeliverAll(cfg, t, [a, b, c, d]) == Deliver(cfg, Deliver(cfg, Deliver(cfg, Deliver(cfg, t, a), b), c), d)
  {
    hide Deliver;
    assert [a, b, c, d][..3] == [a, b, c] && [a, b, c][..2] == [a, b] && [a, b][..1] == [a] && [a][..0] == [];
    assert DeliverAll(cfg, t, [a]) == Deliver(cfg, DeliverAll(cfg, t, []), a);
    assert DeliverAll(cfg, t, [a, b]) == Deliver(cfg, DeliverAll(cfg, t, [a]), b);
    assert DeliverAll(cfg, t, [a, b, c]) == Deliver(cfg, DeliverAll(cfg, t, [a, b]), c);
  }

  lemma DeliversCreate(cfg: Config)
    requires !cfg.dispatcher
    ensures Deliver(cfg, Tables(map[], map[], map[]), EventOf(Create, 1)).invoices
         == map["i" := NewInvoice(EventOf(Create, 1).value, 1)]
  {
  }

  /** What each of the other three events carries. */
  lemma EventDecodes()
    ensures Decode(EventOf(ListForFinancing, 2), KList) == Some(("i", List(100)))
    ensures Decode(EventOf(FundInvoice, 3), KFund) == Some(("i", Fund(5, 3)))
    ensures Decode(EventOf(TriggerDefault, 4), KDefault) == Some(("i", Default))
  {
  }

  lemma EarlyDefaultRow(cfg: Config)
    requires !cfg.dispatcher
    ensures var after := DeliverAll(cfg, Tables(map[], map[], map[]), EARLY_DEFAULT).invoices;
      && "i" in after
      && after["i"] == Write(Default, Write(Fund(5, 3), Write(List(100), NewInvoice(EventOf(Create, 1).value, 1))))
  {
    var t0 := Tables(map[], map[], map[]);
    var a, b, c, d := EventOf(Create, 1), EventOf(ListForFinancing, 2), EventOf(FundInvoice, 3),
        EventOf(TriggerDefault, 4);
    EventDecodes();
    hide Deliver, DeliverAll, Decode;
    DeliverFour(cfg, t0, a, b, c, d);
    DeliversCreate(cfg);
    var t1 := Deliver(cfg, t0, a);
    DeliversWrite(cfg, t1, b, List(100));
    var t2 := Deliver(cfg, t1, b);
    DeliversWrite(cfg, t2, c, Fund(5, 3));
    DeliversWrite(cfg, Deliver(cfg, t2, c), d, Default);
  }

  /** That run ends in a timeline with all seven steps complete, though the goods were neither shipped nor received. */
  lemma EarlyDefaultDrawn(cfg: Config)
    requires !cfg.dispatcher
    ensures var after := DeliverAll(cfg, Tables(map[], map[], map[]), EARLY_DEFAULT).invoices;
      && "i" in after
      && forall i :: 0 <= i < 7 ==> Build(after["i"])[i].complete && (3 <= i <= 5 ==> !Happened(after["i"], STEPS[i]))
  {
    EarlyDefaultRow(cfg);
    hide DeliverAll;
    assert STEPS[3] == SShipped && STEPS[4] == SIssuerConfirmed && STEPS[5] == SBuyerConfirmed;
  }
}
