/**
 * The payments of one order: creation under the order's row lock, the provider's answer, webhooks and the
 * administrator's resolution. A resolution may act on any earlier version of the payment (`past`).
 */
module Payments {
  import opened Prelude
  import opened Pricing
  import opened Orders

  datatype PayStatus = Pending | Processing | Succeeded | Failed | Cancelled | Refunded

  type Ref = string

  datatype PayRow = PayRow(status: PayStatus, split: Split, taxRate: real, providerRef: Option<Ref>, resolved: bool)

  /**
   * One payment: its row, every value the row has had, whether the call that created it still awaits the
   * provider, and how many times it was settled. The last two are recorded for the proofs only.
   */
  datatype Payment = Payment(row: PayRow, past: set<PayRow>, charging: bool, settled: nat)

  predicate ActivePayment(s: PayStatus) {
    s == Pending || s == Processing || s == Succeeded
  }

  predicate HasActive(ps: seq<Payment>) {
    exists i :: 0 <= i < |ps| && ActivePayment(ps[i].row.status)
  }

  function Write(p: Payment, row: PayRow): Payment {
    p.(row := row, past := p.past + {row})
  }

  /** The customer pays. The order read may be stale; the check for an active payment is made under the lock. */
  function Initiate(ps: seq<Payment>, caller: UserId, seen: OrderRow, rate: real): seq<Payment> {
    if seen.customer != caller || !Finished(seen.status) || seen.finalAmount.None? || HasActive(ps) then ps
    else
      var row := PayRow(Processing, SplitPayment(seen.finalAmount.value, seen.platformFee, rate), RateColumn(rate), None, false);
      ps + [Payment(row, {row}, true, 0)]
  }

  predicate RefTaken(ps: seq<Payment>, ref: Ref) {
    exists i :: 0 <= i < |ps| && ps[i].row.providerRef == Some(ref)
  }

  /** The unguarded settlement write. */
  function Settled(p: Payment, success: bool, ref: Ref): Payment {
    Write(p, p.row.(status := if success then Succeeded else Failed, providerRef := Some(ref)))
      .(settled := p.settled + 1)
  }

  /** The provider answers the call that created payment i; a reused reference violates its uniqueness and is refused. */
  function ChargeReturns(ps: seq<Payment>, i: nat, success: bool, ref: Ref): seq<Payment> {
    if i >= |ps| || !ps[i].charging then ps
    else if RefTaken(ps, ref) then ps[i := ps[i].(charging := false)]
    else ps[i := Settled(ps[i], success, ref).(charging := false)]
  }

  /** The process dies while awaiting the provider: nobody will settle payment i any more. */
  function ChargeLost(ps: seq<Payment>, i: nat): seq<Payment> {
    if i >= |ps| then ps else ps[i := ps[i].(charging := false)]
  }

  function FindRef(ps: seq<Payment>, ref: Ref, i: nat): Option<nat>
    requires i <= |ps|
    decreases |ps| - i
  {
    if i == |ps| then None
    else if ps[i].row.providerRef == Some(ref) then Some(i)
    else FindRef(ps, ref, i + 1)
  }

  function Webhook(ps: seq<Payment>, ref: Ref, success: bool): seq<Payment> {
    match FindRef(ps, ref, 0)
    case None => ps
    case Some(i) =>
      if i >= |ps| || ps[i].row.status != Processing then ps
      else ps[i := Settled(ps[i], success, ref)]
  }

  /** The administrator closes the matter: checks on the row read, then a write guarded on it being unresolved. */
  function Resolve(ps: seq<Payment>, i: nat, seen: PayRow, refund: bool): seq<Payment> {
    if i >= |ps| || seen !in ps[i].past || seen.resolved || (refund && seen.status != Succeeded) then ps
    else if ps[i].row.resolved then ps
    else ps[i := Write(ps[i], ps[i].row.(status := if refund then Refunded else ps[i].row.status, resolved := true))]
  }

  // ---- Invariants -----------------------------------------------------------------

  /** s is a possible later value of payment row r. */
  predicate Later(r: PayRow, s: PayRow) {
    && s.split == r.split && s.taxRate == r.taxRate
    && (r.resolved ==> s.resolved)
    && (r.providerRef.Some? ==> s.providerRef == r.providerRef)
    && (match r.status
        case Processing => true
        case Succeeded => s.status == Succeeded || s.status == Refunded
        case _ => s.status == r.status)
  }

  predicate PaymentOk(p: Payment) {
    && p.row in p.past
    && (forall v :: v in p.past ==> Later(v, p.row))
    && p.row.status != Pending && p.row.status != Cancelled
    && (p.charging ==> p.row.status == Processing)
    && (p.row.providerRef.Some? <==> p.row.status != Processing)
    && (p.row.status == Refunded ==> p.row.resolved)
    && p.settled == (if p.row.status == Processing then 0 else 1)
    && SoundSplit(p.row.split) && TaxNear(p.row.split, p.row.taxRate)
  }

  predicate AtMostOneActive(ps: seq<Payment>) {
    forall i, j :: 0 <= i < j < |ps| ==> !ActivePayment(ps[i].row.status) || !ActivePayment(ps[j].row.status)
  }

  /** Every payment is for the order's final amount and platform fee, and at most one of them is active. */
  predicate PaymentsInv(ps: seq<Payment>, order: OrderRow) {
    && (ps != [] ==> Finished(order.status) && order.finalAmount.Some?)
    && (forall i :: 0 <= i < |ps| ==>
          && PaymentOk(ps[i])
          && order.finalAmount == Some(ps[i].row.split.amount)
          && order.platformFee == ps[i].row.split.platformFee)
    && AtMostOneActive(ps)
  }

  /** A payment is only ever created for an amount that splits soundly, even from a stale order row. */
  lemma InitiateKeepsPayments(ps: seq<Payment>, b: Book, caller: UserId, seen: OrderRow, rate: real)
    requires PaymentsInv(ps, b.row) && BookInv(b) && seen in b.versions && 0.0 <= rate <= 1.0
    ensures PaymentsInv(Initiate(ps, caller, seen, rate), b.row)
  {
    var qs := Initiate(ps, caller, seen, rate);
    if qs != ps {
      assert RowOk(seen) && Follows(seen, b.row) && RowOk(b.row);
      var basis := seen.basis.value;
      QuotedAmountSplits(basis.base, basis.complexity, basis.tier, seen.finalAmount.value, rate);
      RecordedRateIsNear(SplitPayment(seen.finalAmount.value, seen.platformFee, rate), rate);
      assert forall i :: 0 <= i < |ps| ==> !ActivePayment(ps[i].row.status);
    }
  }

  lemma SettlementKeepsPayments(ps: seq<Payment>, order: OrderRow, i: nat, success: bool, ref: Ref)
    requires PaymentsInv(ps, order)
    ensures PaymentsInv(ChargeReturns(ps, i, success, ref), order)
    ensures PaymentsInv(ChargeLost(ps, i), order)
  {
  }

  lemma ResolveKeepsPayments(ps: seq<Payment>, order: OrderRow, i: nat, seen: PayRow, refund: bool)
    requires PaymentsInv(ps, order)
    ensures PaymentsInv(Resolve(ps, i, seen, refund), order)
  {
  }

  lemma {:induction false} FindRefFinds(ps: seq<Payment>, ref: Ref, i: nat)
    requires i <= |ps|
    ensures match FindRef(ps, ref, i)
            case None => forall k :: i <= k < |ps| ==> ps[k].row.providerRef != Some(ref)
            case Some(k) => i <= k < |ps| && ps[k].row.providerRef == Some(ref)
    decreases |ps| - i
  {
    if i < |ps| { FindRefFinds(ps, ref, i + 1); }
  }

  /** A reference is written only by settlement, so no webhook ever finds a payment left to settle. */
  lemma WebhookIsNoOp(ps: seq<Payment>, order: OrderRow, ref: Ref, success: bool)
    requires PaymentsInv(ps, order)
    ensures Webhook(ps, ref, success) == ps
  {
    FindRefFinds(ps, ref, 0);
  }
}
