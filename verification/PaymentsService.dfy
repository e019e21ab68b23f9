/** The payment calls, statement by statement, with other callers running in between. */
module PaymentsService {
  import opened Prelude
  import opened OrderState
  import opened Pricing
  import opened Orders
  import opened Payments
  import opened Deals
  import opened DealInvariants
  import opened DealProofs
  import opened Database

  datatype Outcome = Done | NotFound | Forbidden | Conflict | ProviderError

  /** The row created for a finished order: processing, and split for the fee and rate of the moment. */
  function NewPayment(order: OrderRow, rate: real): Payment
    requires order.finalAmount.Some?
  {
    var row := PayRow(Processing, SplitPayment(order.finalAmount.value, order.platformFee, rate), RateColumn(rate), None, false);
    Payment(row, {row}, true, 0)
  }

  /** A payment under way: the amount split to the so'm at the configured rate, the rate recorded to four decimals. */
  predicate IsNew(p: Payment, amount: int, fee: int, rate: real) {
    && p.row.status == Processing && p.row.providerRef == None && !p.row.resolved && p.charging && p.settled == 0
    && IsSplit(amount, fee, rate, p.row.split)
    && FourDecimals(p.row.taxRate) && -0.00005 <= p.row.taxRate - rate <= 0.00005
  }

  lemma NewPaymentIsNew(order: OrderRow, rate: real)
    requires order.finalAmount.Some?
    ensures IsNew(NewPayment(order, rate), order.finalAmount.value, order.platformFee, rate)
  {
    SplitIsExact(order.finalAmount.value, order.platformFee, rate, SplitPayment(order.finalAmount.value, order.platformFee, rate));
    RateIsKept(rate);
  }

  /** A payment that is not active has failed or was refunded. */
  lemma InactiveIsOver(x: Deal)
    requires Inv(x)
    ensures HasActive(x.payments)
            <==> !forall k :: 0 <= k < |x.payments| ==> x.payments[k].row.status == Failed || x.payments[k].row.status == Refunded
  {
    forall k | 0 <= k < |x.payments|
      ensures ActivePayment(x.payments[k].row.status) <==> x.payments[k].row.status != Failed && x.payments[k].row.status != Refunded
    {
      assert PaymentOk(x.payments[k]);
    }
  }

  lemma WebhookEffect(x: Deal, ref: Ref, success: bool)
    requires Inv(x)
    ensures Step(x, WebhookEv(ref, success)) == x
  {
    WebhookIsNoOp(x.payments, x.book.row, ref, success);
  }

  lemma ReferenceIsSettled(ps: seq<Payment>, order: OrderRow, ref: Ref)
    requires PaymentsInv(ps, order)
    ensures var i := FindRef(ps, ref, 0); i.Some? ==> i.value < |ps| && ps[i.value].row.status != Processing
  {
    FindRefFinds(ps, ref, 0);
  }

  /** Only payment i has changed. */
  predicate OthersAsBefore(ps: seq<Payment>, i: nat, qs: seq<Payment>) {
    |qs| == |ps| && forall k :: 0 <= k < |ps| && k != i ==> qs[k] == ps[k]
  }

  lemma InitiateEffect(x: Deal, caller: UserId, seen: OrderRow, rate: real)
    requires seen in x.book.versions && 0.0 <= rate <= 1.0
    requires seen.customer == caller && Finished(seen.status) && seen.finalAmount.Some? && !HasActive(x.payments)
    ensures Step(x, PayEv(caller, seen, rate)) == x.(payments := x.payments + [NewPayment(seen, rate)])
  {
  }

  lemma ChargeEffect(x: Deal, i: nat, success: bool, ref: Ref)
    requires i < |x.payments| && x.payments[i].charging
    ensures Step(x, ChargeEv(i, success, ref))
            == x.(payments := x.payments[i := if RefTaken(x.payments, ref) then x.payments[i].(charging := false)
                                              else Settled(x.payments[i], success, ref).(charging := false)])
  {
  }

  lemma ResolveEffect(x: Deal, i: nat, seen: PayRow, refund: bool)
    requires i < |x.payments| && seen in x.payments[i].past && !seen.resolved && (refund ==> seen.status == Succeeded)
    requires !x.payments[i].row.resolved
    ensures var row := x.payments[i].row;
            Step(x, ResolveEv(i, seen, refund))
            == x.(payments := x.payments[i := Write(x.payments[i], row.(status := if refund then Refunded else row.status,
                                                                        resolved := true))])
  {
  }

  /** Nobody but the call that created a payment settles it; until then it is processing. */
  lemma ChargingIsProcessing(x: Deal, i: nat)
    requires Inv(x) && i < |x.payments|
    ensures x.payments[i].charging ==> x.payments[i].row.status == Processing
    ensures SoundSplit(x.payments[i].row.split) && Finished(x.book.row.status) && x.book.row.master.Some?
    ensures x.book.row.finalAmount == Some(x.payments[i].row.split.amount)
  {
    assert PaymentOk(x.payments[i]) && RowOk(x.book.row);
  }

  lemma SucceededUnlessResolved(x: Deal, i: nat, seen: PayRow)
    requires Inv(x) && i < |x.payments| && seen in x.payments[i].past && !x.payments[i].row.resolved
    ensures seen.status == Succeeded ==> x.payments[i].row.status == Succeeded
  {
    assert PaymentOk(x.payments[i]) && Later(seen, x.payments[i].row);
  }

  class PaymentsService {
    const db: OrderTables

    constructor (db: OrderTables)
      ensures this.db == db
    {
      this.db := db;
    }

    /**
     * The order is read first; the check for an active payment and the insert are made under its lock. `found` is the
     * deal under that lock: it is paid for exactly when the order was finished and no payment is under way or made.
     */
    method CreatePayment(caller: UserId, rate: real) returns (outcome: Outcome, i: nat, ghost found: Deal)
      requires db.Valid() && 0.0 <= rate <= 1.0
      modifies db
      ensures db.Valid() && db.Continues()
      ensures outcome == Forbidden <==> old(db.row.customer) != caller
      ensures outcome == Done || outcome == Forbidden || outcome == Conflict
      ensures outcome == Done <==>
                && old(db.row.customer) == caller && (old(db.row.status) == Completed || old(db.row.status) == Closed)
                && forall k :: 0 <= k < |found.payments| ==> found.payments[k].row.status == Failed || found.payments[k].row.status == Refunded
      ensures if outcome == Done then db.Took(found, PayEv(caller, old(db.row), rate)) else db.Snapshot() == found
      ensures outcome == Done ==>
                && i + 1 == |db.payments| && db.payments[..i] == found.payments
                && old(db.row.finalAmount).Some? && IsNew(db.payments[i], old(db.row).finalAmount.value, old(db.row).platformFee, rate)
    {
      i, found := 0, db.Snapshot();
      var order := db.row;
      if order.customer != caller { outcome := Forbidden; return; }
      if order.status != Completed && order.status != Closed { outcome := Conflict; return; }
      db.Sound();
      assert RowOk(order);
      if order.finalAmount.None? { outcome := Conflict; return; }
      db.Await(false);
      found := db.Snapshot();
      db.Sound();
      InactiveIsOver(found);
      if HasActive(db.payments) { outcome := Conflict; return; }
      i := InsertPayment(caller, order, rate);
      outcome := Done;
    }

    method InsertPayment(caller: UserId, order: OrderRow, rate: real) returns (i: nat)
      requires db.Valid() && order in db.versions && 0.0 <= rate <= 1.0 && !HasActive(db.payments)
      requires order.customer == caller && Finished(order.status) && order.finalAmount.Some?
      modifies db
      ensures db.Valid() && db.Continues() && i == |old(db.payments)| && |db.payments| == i + 1
      ensures db.Took(old(db.Snapshot()), PayEv(caller, order, rate))
      ensures db.payments[..i] == old(db.payments) && IsNew(db.payments[i], order.finalAmount.value, order.platformFee, rate)
    {
      var x := db.Snapshot();
      NewPaymentIsNew(order, rate);
      InitiateEffect(x, caller, order, rate);
      i := |db.payments|;
      db.Write(x.(payments := x.payments + [NewPayment(order, rate)]), PayEv(caller, order, rate));
    }

    /** The provider has answered: the unguarded settlement write. A reference used before is refused by its uniqueness. */
    method Settle(i: nat, success: bool, ref: Ref) returns (outcome: Outcome)
      requires db.Valid() && i < |db.payments| && db.payments[i].charging
      modifies db
      ensures db.Valid() && db.Continues() && |db.payments| == |old(db.payments)| && !db.payments[i].charging
      ensures outcome == ProviderError <==>
                exists k :: 0 <= k < |old(db.payments)| && old(db.payments)[k].row.providerRef == Some(ref)
      ensures outcome == ProviderError || outcome == Done
      ensures OthersAsBefore(old(db.payments), i, db.payments)
      ensures outcome == ProviderError ==> db.payments[i].row == old(db.payments)[i].row
      ensures outcome == Done ==>
                && db.payments[i].settled == 1
                && db.payments[i].row == old(db.payments)[i].row.(status := if success then Succeeded else Failed, providerRef := Some(ref))
      ensures outcome == Done && success ==> db.row.master.Some?
    {
      var x := db.Snapshot();
      db.Sound();
      ChargingIsProcessing(x, i);
      assert PaymentOk(x.payments[i]);
      ChargeEffect(x, i, success, ref);
      if RefTaken(db.payments, ref) {
        WritePayment(i, x.payments[i].(charging := false), ChargeEv(i, success, ref));
        return ProviderError;
      }
      WritePayment(i, Settled(x.payments[i], success, ref).(charging := false), ChargeEv(i, success, ref));
      return Done;
    }

    method WritePayment(i: nat, p: Payment, ghost e: Event)
      requires db.Valid() && i < |db.payments|
      requires Step(db.Snapshot(), e) == db.Snapshot().(payments := db.payments[i := p])
      modifies db
      ensures db.Valid() && db.Continues() && db.row == old(db.row) && db.Took(old(db.Snapshot()), e)
      ensures OthersAsBefore(old(db.payments), i, db.payments) && db.payments[i] == p
    {
      db.Write(db.Snapshot().(payments := db.payments[i := p]), e);
    }

    /** A webhook never finds anything left to settle: references are written only by settlements. */
    method HandleWebhook(ref: Ref, success: bool)
      requires db.Valid()
      ensures Step(db.Snapshot(), WebhookEv(ref, success)) == db.Snapshot()
    {
      db.Sound();
      WebhookEffect(db.Snapshot(), ref, success);
      var i := FindRef(db.payments, ref, 0);
      ReferenceIsSettled(db.payments, db.row, ref);
      if i.None? || db.payments[i.value].row.status != Processing { return; }
      assert false;
    }

    /** The administrator's resolution: checked on the row read, guarded on it being unresolved in `found`. */
    method Resolve(i: nat, refund: bool) returns (outcome: Outcome, ghost found: Deal)
      requires db.Valid()
      modifies db
      ensures db.Valid() && db.Continues()
      ensures outcome == NotFound <==> i >= |old(db.payments)|
      ensures i < |old(db.payments)| ==> i < |found.payments|
      ensures outcome == Done <==>
                && i < |old(db.payments)| && !old(db.payments)[i].row.resolved
                && (refund ==> old(db.payments)[i].row.status == Succeeded) && !found.payments[i].row.resolved
      ensures if outcome == Done then db.Took(found, ResolveEv(i, old(db.payments)[i].row, refund)) else db.Snapshot() == found
      ensures outcome == Done ==>
                && OthersAsBefore(found.payments, i, db.payments)
                && db.payments[i].row == found.payments[i].row.(
                     resolved := true, status := if refund then Refunded else found.payments[i].row.status)
      ensures outcome == Done && refund ==> found.payments[i].row.status == Succeeded
    {
      found := db.Snapshot();
      if i >= |db.payments| { outcome := NotFound; return; }
      var seen := db.payments[i].row;
      db.Sound();
      assert PaymentOk(db.payments[i]);
      if seen.resolved { outcome := Conflict; return; }
      if refund && seen.status != Succeeded { outcome := Conflict; return; }
      db.Await(false);
      db.PaymentsRemain();
      found := db.Snapshot();
      if db.payments[i].row.resolved { outcome := Conflict; return; }
      db.Sound();
      SucceededUnlessResolved(found, i, seen);
      WriteResolution(i, seen, refund);
      outcome := Done;
    }

    method WriteResolution(i: nat, seen: PayRow, refund: bool)
      requires db.Valid() && i < |db.payments| && seen in db.payments[i].past && !seen.resolved && !db.payments[i].row.resolved
      requires refund ==> seen.status == Succeeded
      modifies db
      ensures db.Valid() && db.Continues() && db.Took(old(db.Snapshot()), ResolveEv(i, seen, refund))
      ensures OthersAsBefore(old(db.payments), i, db.payments)
      ensures db.payments[i].row == old(db.payments)[i].row.(
                                      resolved := true, status := if refund then Refunded else old(db.payments)[i].row.status)
    {
      var x, row := db.Snapshot(), db.payments[i].row;
      ResolveEffect(x, i, seen, refund);
      WritePayment(i, Payments.Write(x.payments[i], row.(status := if refund then Refunded else row.status, resolved := true)),
                   ResolveEv(i, seen, refund));
    }
  }
}
