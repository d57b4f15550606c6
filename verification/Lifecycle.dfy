/**
 Invariants of an invoice over every sequence of listener events: in any
 order, with duplicates, with events that roll back.
 */
module Lifecycle {
  import opened Options
  import opened Invoices
  import opened Handling

  /** The columns no listener event writes after the insert. */
  predicate SameIdentity(a: Invoice, b: Invoice) {
    && a.id == b.id && a.issuer == b.issuer && a.buyer == b.buyer
    && a.faceValue == b.faceValue && a.dueDate == b.dueDate && a.createdAt == b.createdAt
  }

  /** One event may move a row forward once, refresh its attestation, or leave it. */
  predicate Forward(a: Invoice, b: Invoice) {
    && SameIdentity(a, b)
    && (a.status == b.status ==> b == a.(attestation := b.attestation))
    && (a.status != b.status ==> Rank(a.status) < Rank(b.status) && a.attestation == b.attestation)
  }

  /** Rows agree with their key, their CHECK constraints and their own history. */
  predicate WellKept(invoices: Table) {
    forall id :: id in invoices ==> invoices[id].id == id && RowAllowed(invoices[id]) && History(invoices[id])
  }

  /** One guarded statement on one row. */
  lemma GuardedWriteKeeps(tr: Transition, inv: Invoice)
    requires Guard(tr, inv.status)
    ensures Forward(inv, Write(tr, inv))
    ensures History(inv) ==> History(Write(tr, inv))
  {
  }

  /** A table in which at most row `id` changed, by a forward step, stays well kept. */
  lemma OneRowKeeps(invoices: Table, id: string, row: Invoice)
    requires id in invoices && Forward(invoices[id], row)
    requires RowAllowed(row) && (History(invoices[id]) ==> History(row))
    ensures WellKept(invoices) ==> WellKept(invoices[id := row])
    ensures forall other :: other in invoices ==> Forward(invoices[other], invoices[id := row][other])
  {
  }

  lemma WriteKeeps(invoices: Table, e: Event, k: Kind)
    requires WriteInvoice(invoices, e, k).Wrote?
    ensures var after := WriteInvoice(invoices, e, k).invoices;
      && (WellKept(invoices) ==> WellKept(after))
      && (forall id :: id in invoices ==> id in after && Forward(invoices[id], after[id]))
      && (forall id :: id in after && id !in invoices ==> after[id].status == Created)
  {
    if k in {KList, KFund, KShip, KConfirm, KRepay, KDefault} {
      var (id, tr) := Decode(e, k).value;
      GuardedWriteKeeps(tr, invoices[id]);
      OneRowKeeps(invoices, id, Write(tr, invoices[id]));
    } else if k == KAttest {
      var id := e.topic.bytes;
      OneRowKeeps(invoices, id, invoices[id].(attestation := Some(AttestationOf(e))));
    }
  }

  lemma DeliverKeeps(cfg: Config, t: Tables, e: Event)
    ensures var t' := Deliver(cfg, t, e);
      && (WellKept(t.invoices) ==> WellKept(t'.invoices))
      && (forall id :: id in t.invoices ==> id in t'.invoices && Forward(t.invoices[id], t'.invoices[id]))
      && (forall id :: id in t'.invoices && id !in t.invoices ==> t'.invoices[id].status == Created)
  {
    assert forall id :: id in t.invoices ==> Forward(t.invoices[id], t.invoices[id]);
    hide Forward, WellKept, WriteInvoice;
    if e.name.Some? && WriteInvoice(t.invoices, e, KindOf(e.name.value)).Wrote? {
      WriteKeeps(t.invoices, e, KindOf(e.name.value));
    }
  }

  /** Over any event sequence every row keeps its history, its identity and its place in life. */
  lemma {:induction false} LifecycleInvariant(cfg: Config, t: Tables, es: seq<Event>)
    requires WellKept(t.invoices)
    ensures var t' := DeliverAll(cfg, t, es);
      && WellKept(t'.invoices)
      && (forall id :: id in t.invoices ==>
            && id in t'.invoices
            && SameIdentity(t.invoices[id], t'.invoices[id])
            && Rank(t.invoices[id].status) <= Rank(t'.invoices[id].status))
  {
    if es != [] {
      LifecycleInvariant(cfg, t, es[..|es| - 1]);
      DeliverKeeps(cfg, DeliverAll(cfg, t, es[..|es| - 1]), es[|es| - 1]);
    }
  }

  /** How many events of `es` changed the status of invoice `id`. */
  function Transitions(cfg: Config, t: Tables, es: seq<Event>, id: string): nat {
    if es == [] then 0
    else
      var init := es[..|es| - 1];
      var before := DeliverAll(cfg, t, init).invoices;
      var after := DeliverAll(cfg, t, es).invoices;
      Transitions(cfg, t, init, id)
      + (if id in before && id in after && before[id].status != after[id].status then 1 else 0)
  }

  /** Every status change climbs at least one rank, so a life has at most five. */
  lemma {:induction false} AtMostFiveTransitions(cfg: Config, t: Tables, es: seq<Event>, id: string)
    ensures var after := DeliverAll(cfg, t, es).invoices;
      && Transitions(cfg, t, es, id) <= 5
      && (id in t.invoices ==>
            id in after && Rank(t.invoices[id].status) + Transitions(cfg, t, es, id) <= Rank(after[id].status))
      && (id !in t.invoices && id in after ==> Transitions(cfg, t, es, id) <= Rank(after[id].status))
      && (id !in after ==> Transitions(cfg, t, es, id) == 0)
  {
    if es != [] {
      hide Deliver, SameIdentity, WellKept, KindOf;
      var init := es[..|es| - 1];
      AtMostFiveTransitions(cfg, t, init, id);
      DeliverKeeps(cfg, DeliverAll(cfg, t, init), es[|es| - 1]);
      var before, after := DeliverAll(cfg, t, init).invoices, DeliverAll(cfg, t, es).invoices;
      assert Transitions(cfg, t, es, id) == Transitions(cfg, t, init, id)
             + if id in before && id in after && before[id].status != after[id].status then 1 else 0;
      assert id in before ==> Rank(before[id].status) <= Rank(after[id].status)
                              && (before[id].status != after[id].status ==>
                                  Rank(before[id].status) < Rank(after[id].status));
      hide Transitions, DeliverAll, Forward;
    }
  }

  /** What the status column alone implies on every row reachable from an empty table. */
  lemma StatusImpliesHistory(cfg: Config, t: Tables, es: seq<Event>, id: string)
    requires t.invoices == map[] && id in DeliverAll(cfg, t, es).invoices
    ensures var inv := DeliverAll(cfg, t, es).invoices[id];
      && (inv.status == Repaid ==>
            inv.fundedAt.Some? && inv.shippedAt.Some? && inv.buyerConfirmedAt.Some? && inv.repaidAt.Some?)
      && (inv.status == Defaulted ==> inv.fundedAt.Some? && inv.repaidAt.None?)
      && (inv.buyerConfirmed ==> inv.issuerConfirmed)
      && inv.fundedAmount <= inv.faceValue
  {
    LifecycleInvariant(cfg, t, es);
  }

  // ----- replay -----

  /** The rank a transition moves a row to. */
  function Target(tr: Transition): nat { match tr case List(_) => 1 case Fund(_, _) => 2 case Ship(_) => 3
                                         case ConfirmDelivery(_) => 4 case Repay(_) => 5 case Default => 5 }

  /** The event's own effect is already in the table: its row exists, or is past its target. */
  predicate Absorbed(invoices: Table, e: Event, k: Kind) {
    match k
    case KCreate => e.value.Value? && e.value.id in invoices
    case KList | KFund | KShip | KConfirm | KRepay | KDefault =>
      var d := Decode(e, k);
      d.Some? && d.value.0 in invoices && Target(d.value.1) <= Rank(invoices[d.value.0].status)
    case _ => false
  }

  predicate Replayable(k: Kind) { k in {KCreate, KList, KFund, KShip, KConfirm, KRepay, KDefault} }

  lemma AppliedIsAbsorbed(invoices: Table, e: Event, k: Kind)
    requires Replayable(k) && WriteInvoice(invoices, e, k).Wrote?
    ensures Absorbed(WriteInvoice(invoices, e, k).invoices, e, k)
  {
  }

  lemma {:induction false} AbsorbedStays(cfg: Config, t: Tables, es: seq<Event>, e: Event, k: Kind)
    requires Absorbed(t.invoices, e, k)
    ensures Absorbed(DeliverAll(cfg, t, es).invoices, e, k)
  {
    if es != [] {
      AbsorbedStays(cfg, t, es[..|es| - 1], e, k);
      DeliverKeeps(cfg, DeliverAll(cfg, t, es[..|es| - 1]), es[|es| - 1]);
    }
  }

  /** Replaying an event that was applied, after any other events and without the
      events_log look-up, changes no invoice. */
  lemma ReplayChangesNoInvoice(cfg: Config, t: Tables, e: Event, es: seq<Event>)
    requires e.name.Some? && Replayable(KindOf(e.name.value))
    requires Handle(cfg, t, e).Commit? && WriteInvoice(t.invoices, e, KindOf(e.name.value)).Wrote?
    ensures var later := DeliverAll(cfg, Handle(cfg, t, e).tables, es);
      Deliver(cfg, later, e).invoices == later.invoices
  {
    var k := KindOf(e.name.value);
    var later := DeliverAll(cfg, Handle(cfg, t, e).tables, es);
    AppliedIsAbsorbed(t.invoices, e, k);
    AbsorbedStays(cfg, Handle(cfg, t, e).tables, es, e, k);
    AbsorbedWritesNothing(later.invoices, e, k);
    hide DeliverAll, Absorbed, WriteInvoice, Enqueue, EnvelopeOf, LogFields;
  }

  lemma AbsorbedWritesNothing(invoices: Table, e: Event, k: Kind)
    requires Absorbed(invoices, e, k)
    ensures WriteInvoice(invoices, e, k) in {Wrote(invoices), Stale, Failed}
  {
  }
}
