/**
 The `invoices` table and the guarded UPDATE statements that drive an invoice
 through its life. Each statement names the status the row must have; a row
 in any other status is left alone and reported as an invalid transition.
 */
module Invoices {
  import opened Options

  datatype Status = Created | Listed | Funded | Active | Confirmed | Repaid | Defaulted

  datatype Attestation = Attestation(agentId: string, riskScoreBps: int, evidenceHash: string, attestedAt: int)

  datatype Invoice = Invoice(
    id: string, issuer: string, buyer: string,
    faceValue: nat, discountBps: int, fundedAmount: nat,
    dueDate: int, status: Status, createdAt: int,
    fundedAt: Option<int>, shippedAt: Option<int>,
    issuerConfirmed: bool, buyerConfirmed: bool,
    buyerConfirmedAt: Option<int>, repaidAt: Option<int>,
    attestation: Option<Attestation>)

  type Table = map<string, Invoice>

  /** The six status-changing statements, with the values they write. */
  datatype Transition =
    | List(discountBps: int)
    | Fund(amount: nat, at: int)
    | Ship(at: int)
    | ConfirmDelivery(at: int)
    | Repay(at: int)
    | Default

  /** The statement's WHERE clause on the status column. */
  predicate Guard(tr: Transition, s: Status) {
    match tr
    case List(_) => s == Created
    case Fund(_, _) => s == Listed
    case Ship(_) => s == Funded
    case ConfirmDelivery(_) => s == Active
    case Repay(_) => s == Confirmed
    case Default => s == Funded || s == Active || s == Confirmed
  }

  /** The statement's SET clause. */
  function Write(tr: Transition, inv: Invoice): Invoice {
    match tr
    case List(bps) => inv.(status := Listed, discountBps := bps)
    case Fund(amount, at) => inv.(status := Funded, fundedAmount := amount, fundedAt := Some(at))
    case Ship(at) => inv.(status := Active, shippedAt := Some(at), issuerConfirmed := true)
    case ConfirmDelivery(at) => inv.(status := Confirmed, buyerConfirmed := true, buyerConfirmedAt := Some(at))
    case Repay(at) => inv.(status := Repaid, repaidAt := Some(at))
    case Default => inv.(status := Defaulted)
  }

  /** The table's CHECK constraints; Postgres refuses a row that breaks one. */
  predicate RowAllowed(inv: Invoice) {
    && 0 <= inv.discountBps <= 5000
    && inv.fundedAmount <= inv.faceValue
    && (inv.attestation.Some? ==> 0 <= inv.attestation.value.riskScoreBps <= 10000)
  }

  datatype UpdateResult =
    | Updated(invoices: Table)
    | NotFound
    | InvalidTransition
    | Refused

  /** One guarded UPDATE followed, when no row matched, by the status look-up that names the error. */
  function Update(invoices: Table, id: string, tr: Transition): UpdateResult {
    if id !in invoices then NotFound
    else if !Guard(tr, invoices[id].status) then InvalidTransition
    else if !RowAllowed(Write(tr, invoices[id])) then Refused
    else Updated(invoices[id := Write(tr, invoices[id])])
  }

  /** How far along its life a status is; both ends of the life share the last rank. */
  function Rank(s: Status): nat {
    match s
    case Created => 0
    case Listed => 1
    case Funded => 2
    case Active => 3
    case Confirmed => 4
    case Repaid => 5
    case Defaulted => 5
  }

  /** What a row's status says about the timestamps and flags beside it. */
  predicate History(inv: Invoice) {
    && (inv.fundedAt.Some? <==> Rank(inv.status) >= 2)
    && (inv.shippedAt.Some? <==> inv.issuerConfirmed)
    && (inv.buyerConfirmedAt.Some? <==> inv.buyerConfirmed)
    && (inv.repaidAt.Some? <==> inv.status == Repaid)
    && (inv.buyerConfirmed ==> inv.issuerConfirmed)
    && (inv.status != Defaulted ==>
          && (inv.issuerConfirmed <==> Rank(inv.status) >= 3)
          && (inv.buyerConfirmed <==> Rank(inv.status) >= 4))
  }
}
