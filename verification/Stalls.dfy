/** What can stall a search for good, and what cannot. */
module Stalls {
  import opened Prelude
  import opened OrderState
  import opened Pricing
  import opened Scoring
  import opened Eligibility
  import opened Orders
  import opened Deals
  import opened DealInvariants
  import opened DealProofs
  import opened DealTheorems
  import opened SearchTermination

  predicate HasOpenOffer(h: Hunt) {
    h.offers != [] && h.offers[|h.offers| - 1].status == Offered
  }

  /** The latest offer is open, and its expiry job was never queued. */
  predicate OpenOfferForgotten(x: Deal) {
    HasOpenOffer(x.hunt) && |x.jobs| == |x.hunt.offers| && x.jobs[|x.jobs| - 1] == Forgotten
  }

  /** What drives a searching order on: its in-flight search, or the queueing and the delivery of its offer's expiry job. */
  function Driver(x: Deal, out: Outside): Event {
    var last: nat := |x.hunt.offers| - (if x.hunt.offers == [] then 0 else 1);
    if x.hunt.searches != [] then AdvanceEv(0, out)
    else if HasOpenOffer(x.hunt) && last < |x.jobs| && x.jobs[last] == Unqueued then QueueEv(last)
    else ExpireEv(last)
  }

  /**
   * A searching order stalls exactly when a crash took its search, or came between the insert of its open offer
   * and the queueing of that offer's job; otherwise the next statement or job moves it, whatever the world is like.
   */
  lemma OnlyCrashesStall(x: Deal, out: Outside)
    requires Reachable(x) && x.book.row.status == Searching && 0 < out.limit && 0.0 <= out.draw < 1.0
    ensures Step(x, Driver(x, out)) == x <==> x.hunt.lost == 1 || OpenOfferForgotten(x)
  {
    ReachableIsSound(x);
    if x.hunt.searches != [] {
      SearchMovesOn(x, out);
    } else if x.hunt.lost == 1 {
      LostOffersAreSpent(x);
      LostSearchIsIdle(x);
    } else {
      OpenOfferIsThere(x);
      OpenOfferMovesOn(x, out);
    }
  }

  lemma SearchAdvances(x: Deal, out: Outside)
    requires Inv(x) && x.hunt.searches != [] && 0 < out.limit && 0.0 <= out.draw < 1.0
    ensures Step(x, AdvanceEv(0, out)).hunt != x.hunt
  {
    OnlySearch(x.book, x.hunt, 0);
    AdvanceIsStep(x, out);
    AdvanceDescends(x, 0, out, PoolFor(x.hunt, out));
  }

  lemma SearchMovesOn(x: Deal, out: Outside)
    requires Inv(x) && x.hunt.searches != [] && 0 < out.limit && 0.0 <= out.draw < 1.0
    ensures x.hunt.lost == 0 && !HasOpenOffer(x.hunt) && Step(x, Driver(x, out)) != x
  {
    SearchAdvances(x, out);
    NoOfferWhileSearching(x);
  }

  lemma NoOfferWhileSearching(x: Deal)
    requires Inv(x) && x.hunt.searches != []
    ensures x.hunt.lost == 0 && !HasOpenOffer(x.hunt)
  {
    OnlySearch(x.book, x.hunt, 0);
  }

  /** A pool large enough for the next statement. */
  function PoolFor(h: Hunt, out: Outside): (pool: set<MasterId>)
    requires |h.searches| == 1
    ensures PickedWithinPool(h, pool) && forall m :: m in out.world ==> m.id in pool
  {
    (set m | m in out.world :: m.id) + OfferedMasters(h.offers)
    + (if h.searches[0].CreateOffer? then {h.searches[0].picked.master} else {})
  }

  lemma LostOffersAreSpent(x: Deal)
    requires Inv(x) && x.hunt.lost == 1
    ensures x.hunt.searches == [] && forall i :: 0 <= i < |x.hunt.offers| ==> Spent(x.hunt.offers[i].status)
  {
    assert x.hunt.searches == [] && Live(x.hunt.offers) == 0;
    NothingToSpend(x.hunt.offers);
  }

  lemma LostSearchIsIdle(x: Deal)
    requires x.hunt.searches == [] && forall i :: 0 <= i < |x.hunt.offers| ==> Spent(x.hunt.offers[i].status)
    ensures forall d: nat :: Step(x, ExpireEv(d)) == x
    ensures !HasOpenOffer(x.hunt)
  {
    forall d: nat ensures Step(x, ExpireEv(d)) == x {
      SpentOffersStay(x, ExpireEv(d));
    }
  }

  lemma OpenOfferIsThere(x: Deal)
    requires Inv(x) && x.book.row.status == Searching && x.hunt.searches == [] && x.hunt.lost != 1
    ensures HasOpenOffer(x.hunt) && |x.jobs| == |x.hunt.offers|
  {
    assert RowOk(x.book.row);
    assert Live(x.hunt.offers) == 1 && !IsAccepted(x.hunt.offers);
  }

  lemma OpenOfferMovesOn(x: Deal, out: Outside)
    requires x.hunt.searches == [] && HasOpenOffer(x.hunt) && |x.jobs| == |x.hunt.offers|
    ensures Step(x, Driver(x, out)) == x <==> OpenOfferForgotten(x)
  {
    var d := |x.jobs| - 1;
    if x.jobs[d] == Unqueued {
      QueueingShows(x, d);
    } else if x.jobs[d] == Queued {
      ExpirySpends(x, d);
    }
  }

  lemma QueueingShows(x: Deal, d: nat)
    requires d < |x.jobs| && x.jobs[d] == Unqueued
    ensures Step(x, QueueEv(d)) != x && Step(x, ForgetEv(d)) == x.(jobs := x.jobs[d := Forgotten])
  {
    assert Step(x, QueueEv(d)).jobs[d] == Queued;
  }

  lemma ExpirySpends(x: Deal, d: nat)
    requires d < |x.hunt.offers| && x.hunt.offers[d].status == Offered && d < |x.jobs| && x.jobs[d] == Queued
    ensures Step(x, ExpireEv(d)).hunt != x.hunt
  {
    assert OfferStep(x, ExpireEv(d)).hunt.offers[d].status == TimedOut;
  }

  /** After the crash nothing ever revives the search: only the customer's cancellation ends it. */
  lemma {:induction false} LostSearchStaysLost(x: Deal, events: seq<Event>)
    requires Inv(x) && x.book.row.status == Searching && x.hunt.lost == 1
    ensures Run(x, events).book.row.status in {Searching, CancelledByCustomer}
    ensures Run(x, events).hunt == x.hunt
    decreases |events|
  {
    if events != [] {
      var y := Step(x, events[0]);
      LostSearchStep(x, events[0]);
      StepKeepsInv(x, events[0]);
      if y.book.row.status == Searching {
        LostSearchStaysLost(y, events[1..]);
      } else {
        CancelledLostSearch(y, events[1..]);
      }
    }
  }

  lemma LostSearchStep(x: Deal, e: Event)
    requires Inv(x) && x.book.row.status in {Searching, CancelledByCustomer} && x.hunt.lost == 1
    ensures Step(x, e).hunt == x.hunt
    ensures Step(x, e).book.row.status in {Searching, CancelledByCustomer}
  {
    assert x.hunt.searches == [] && Live(x.hunt.offers) == 0;
    NothingToSpend(x.hunt.offers);
    if e.AcceptEv? || e.DeclineEv? || e.ExpireEv? {
      SpentOffersStay(x, e);
    } else {
      NoSearchNoMove(x, e);
    }
  }

  lemma NoSearchNoMove(x: Deal, e: Event)
    requires x.book.row.status in {Searching, CancelledByCustomer}
    requires x.hunt.searches == [] && !(e.AcceptEv? || e.DeclineEv? || e.ExpireEv?)
    ensures Step(x, e).hunt == x.hunt
    ensures Step(x, e).book.row.status in {Searching, CancelledByCustomer}
  {
    if !Possible(x, e) {
    } else if IsBookEvent(e) {
      RowStaysOrIsCancelled(x.book, e);
    } else if e.SubmitEv? {
      assert Submit(x.book, e.caller, e.now) == x.book;
    }
  }

  lemma RowStaysOrIsCancelled(b: Book, e: Event)
    requires b.row.status in {Searching, CancelledByCustomer} && IsBookEvent(e)
    ensures BookStep(b, e).row.status in {Searching, CancelledByCustomer}
  {
  }

  lemma NothingToSpend(offers: seq<Offer>)
    requires OffersInOrder(offers) && Live(offers) == 0
    ensures forall i :: 0 <= i < |offers| ==> Spent(offers[i].status)
  {
  }

  lemma SpentOffersStay(x: Deal, e: Event)
    requires forall i :: 0 <= i < |x.hunt.offers| ==> Spent(x.hunt.offers[i].status)
    requires e.AcceptEv? || e.DeclineEv? || e.ExpireEv?
    ensures Step(x, e) == x
  {
  }

  lemma {:induction false} CancelledLostSearch(x: Deal, events: seq<Event>)
    requires Inv(x) && x.book.row.status == CancelledByCustomer && x.hunt.lost == 1
    ensures Run(x, events).book.row.status == CancelledByCustomer && Run(x, events).hunt == x.hunt
    decreases |events|
  {
    if events != [] {
      LostSearchStep(x, events[0]);
      StepFollowsGraph(x, events[0]);
      StepKeepsInv(x, events[0]);
      CancelledLostSearch(Step(x, events[0]), events[1..]);
    }
  }

  // ---- The forgotten job ----------------------------------------------------------

  /** The parties' own acts: an answer by the master, a cancellation by the customer. */
  predicate PartyActs(e: Event) {
    e.AcceptEv? || e.DeclineEv? || e.CancelEv?
  }

  lemma ForgottenStep(x: Deal, e: Event)
    requires Inv(x) && x.book.row.status == Searching && OpenOfferForgotten(x) && !PartyActs(e)
    ensures Step(x, e).hunt == x.hunt && Step(x, e).book.row.status == Searching && OpenOfferForgotten(Step(x, e))
  {
    OpenOfferIsLast(x.book, x.hunt, |x.hunt.offers| - 1);
    if !Possible(x, e) {
    } else if e.ExpireEv? {
      ForgottenExpiry(x, e.offer);
    } else if IsBookEvent(e) {
      SearchingRowWaits(x.book, e);
      ForgottenBookEvent(x, e);
    } else if e.SubmitEv? || e.CancelByMasterEv? {
      assert RowOk(x.book.row);
      NoMasterToCancel(x, e);
    } else {
      ForgottenQuietEvent(x, e);
    }
  }

  lemma ForgottenBookEvent(x: Deal, e: Event)
    requires IsBookEvent(e) && Possible(x, e) && OpenOfferForgotten(x)
    ensures Step(x, e) == x.(book := BookStep(x.book, e)) && OpenOfferForgotten(Step(x, e))
  {
  }

  lemma ForgottenQuietEvent(x: Deal, e: Event)
    requires x.hunt.searches == [] && OpenOfferForgotten(x) && Possible(x, e)
    requires IsPaymentEvent(e) || IsConductEvent(e) || IsJobEvent(e) || e.AdvanceEv? || e.CrashEv?
    ensures Step(x, e).hunt == x.hunt && Step(x, e).book == x.book && OpenOfferForgotten(Step(x, e))
  {
  }

  lemma ForgottenExpiry(x: Deal, d: nat)
    requires OffersInOrder(x.hunt.offers) && OpenOfferForgotten(x)
    ensures Step(x, ExpireEv(d)) == x
  {
  }

  lemma SearchingRowWaits(b: Book, e: Event)
    requires BookInv(b) && b.row.status == Searching && IsBookEvent(e) && !e.CancelEv?
    requires match e
             case EnRouteEv(_, seen) => seen in b.versions
             case StartServiceEv(_, seen) => seen in b.versions
             case CompleteEv(_, seen, _) => seen in b.versions
             case ConfirmEv(_, seen) => seen in b.versions
             case _ => true
    ensures BookStep(b, e).row.status == Searching
  {
    BookStepIsQuiet(b, e);
  }

  lemma NoMasterToCancel(x: Deal, e: Event)
    requires x.book.row.status == Searching && (e.SubmitEv? || e.CancelByMasterEv?)
    ensures Step(x, e) == x
  {
    if e.SubmitEv? { assert Submit(x.book, e.caller, e.now) == x.book; }
  }

  /** A forgotten open offer waits for the parties: whatever else happens, the order goes on searching and nothing moves. */
  lemma {:induction false} ForgottenOfferWaits(x: Deal, events: seq<Event>)
    requires Inv(x) && x.book.row.status == Searching && OpenOfferForgotten(x)
    requires forall i :: 0 <= i < |events| ==> !PartyActs(events[i])
    ensures Run(x, events).hunt == x.hunt && Run(x, events).book.row.status == Searching
    decreases |events|
  {
    if events != [] {
      ForgottenStep(x, events[0]);
      StepKeepsInv(x, events[0]);
      ForgottenOfferWaits(Step(x, events[0]), events[1..]);
    }
  }

  // ---- Both do happen -------------------------------------------------------------

  /** The customer's way to a submitted order, with or without coordinates. */
  function Wizard(customer: UserId, category: CategoryId, band: Band, latitude: Option<real>, longitude: Option<real>): seq<Event> {
    [UpdateDraftEv(customer, Patch(None, None, Some(Priority), None, Some("Navoiy 1"), latitude, longitude), {}, 0)]
    + ([DiagnoseEv(customer, Simple, None, map[category := band])] + ([SubmitEv(customer, 0)] + []))
  }

  lemma Then(x: Deal, e: Event, rest: seq<Event>)
    ensures Run(x, [e] + rest) == Run(Step(x, e), rest)
  {
    assert ([e] + rest)[1..] == rest;
  }

  /** It leads to a searching order, located as asked, with its search in flight. */
  lemma WizardSubmits(customer: UserId, category: CategoryId, band: Band, latitude: Option<real>, longitude: Option<real>)
    ensures var x := Run(NewDeal(customer, Some(category), "leak"), Wizard(customer, category, band, latitude, longitude));
            && Reachable(x) && x.book.row.status == Searching && x.hunt == Hunt([], [ReadOrder(1)], 0, None)
            && x.book.row.latitude == latitude && x.book.row.longitude == longitude && x.book.row.addressText == Some("Navoiy 1")
            && x.book.row.category == Some(category)
  {
    var x0 := NewDeal(customer, Some(category), "leak");
    var es := Wizard(customer, category, band, latitude, longitude);
    var edit := UpdateDraftEv(customer, Patch(None, None, Some(Priority), None, Some("Navoiy 1"), latitude, longitude), {}, 0);
    var price := DiagnoseEv(customer, Simple, None, map[category := band]);
    var x1 := Step(x0, edit);
    var x2 := Step(x1, price);
    Then(x0, edit, [price] + ([SubmitEv(customer, 0)] + []));
    Then(x1, price, [SubmitEv(customer, 0)] + []);
    Then(x2, SubmitEv(customer, 0), []);
    WizardEdits(x0, customer, category, latitude, longitude);
    WizardPrices(x1, customer, category, band);
    WizardEnters(x2, customer);
    assert x0 == Run(x0, []);
    assert Reachable(Run(x0, es));
  }

  lemma WizardEdits(x: Deal, customer: UserId, category: CategoryId, latitude: Option<real>, longitude: Option<real>)
    requires x == NewDeal(customer, Some(category), "leak")
    ensures var p := Patch(None, None, Some(Priority), None, Some("Navoiy 1"), latitude, longitude);
            var row := x.book.row.(tier := Priority, addressText := Some("Navoiy 1"),
                                   latitude := if latitude.Some? then latitude else None,
                                   longitude := if longitude.Some? then longitude else None);
            Step(x, UpdateDraftEv(customer, p, {}, 0)) == x.(book := Rewrite(x.book, row))
  {
  }

  lemma WizardPrices(x: Deal, customer: UserId, category: CategoryId, band: Band)
    requires x.book.row.customer == customer && x.book.row.status == Draft && x.book.row.category == Some(category)
    ensures var y := Step(x, DiagnoseEv(customer, Simple, None, map[category := band]));
            && y.hunt == x.hunt && y.book.row.status == Priced && y.book.row.customer == customer
            && y.book.row.category == Some(category) && y.book.row.tier == x.book.row.tier
            && y.book.row.addressText == x.book.row.addressText
            && y.book.row.latitude == x.book.row.latitude && y.book.row.longitude == x.book.row.longitude
  {
  }

  lemma WizardEnters(x: Deal, customer: UserId)
    requires x.book.row.customer == customer && x.book.row.status == Priced && x.book.row.tier == Priority
    requires x.book.row.addressText == Some("Navoiy 1") && x.hunt.searches == []
    ensures var y := Step(x, SubmitEv(customer, 0));
            && y.hunt == x.hunt.(searches := [ReadOrder(1)]) && y.book.row == x.book.row.(status := Searching, scheduledAt := None)
  {
    assert Submit(x.book, customer, 0).history != x.book.history;
  }

  /** One reachable run: submit, and the process dies before the search's first statement. */
  lemma SubmittedSearchCanBeLost(customer: UserId, category: CategoryId, band: Band)
    ensures var x := Run(NewDeal(customer, Some(category), "leak"), Wizard(customer, category, band, None, None) + [CrashEv(0)]);
            Reachable(x) && x.book.row.status == Searching && x.hunt.lost == 1
  {
    var x0 := NewDeal(customer, Some(category), "leak");
    var es := Wizard(customer, category, band, None, None);
    WizardSubmits(customer, category, band, None, None);
    RunAppends(x0, es, [CrashEv(0)]);
    var x := Run(x0, es);
    Then(x, CrashEv(0), []);
    assert [CrashEv(0)] + [] == [CrashEv(0)];
    assert Step(x, CrashEv(0)) == Crash(x, 0);
  }

  lemma InsertIsUnqueued(x: Deal, out: Outside)
    requires Inv(x) && x.hunt.searches != [] && x.hunt.searches[0].CreateOffer? && 0 < out.limit && 0.0 <= out.draw < 1.0
    requires x.hunt.searches[0].picked.master !in OfferedMasters(x.hunt.offers)
    ensures var y, d := Step(x, AdvanceEv(0, out)), |x.hunt.offers|;
            && |y.hunt.offers| == d + 1 && y.hunt.offers[d].status == Offered && y.hunt.lost == x.hunt.lost
            && |y.jobs| == d + 1 && y.jobs[d] == Unqueued
  {
    OnlySearch(x.book, x.hunt, 0);
    AdvanceIsStep(x, out);
    CreateGoesOn(x, out);
  }

  /** From every reachable deal about to insert an offer: the process can die before the job is queued. */
  lemma JobCanBeForgotten(x: Deal, out: Outside)
    requires Reachable(x) && x.hunt.searches != [] && x.hunt.searches[0].CreateOffer? && 0 < out.limit && 0.0 <= out.draw < 1.0
    ensures var y := Run(x, [AdvanceEv(0, out)] + ([ForgetEv(|x.hunt.offers|)] + []));
            Reachable(y) && OpenOfferForgotten(y) && y.hunt.lost == 0
  {
    ReachableIsSound(x);
    NoOfferWhileSearching(x);
    RetryNeverFires(x, 0, out);
    InsertIsUnqueued(x, out);
    var y := Step(x, AdvanceEv(0, out));
    Then(x, AdvanceEv(0, out), [ForgetEv(|x.hunt.offers|)] + []);
    Then(y, ForgetEv(|x.hunt.offers|), []);
    QueueingShows(y, |x.hunt.offers|);
    RunsStayReachable(x, [AdvanceEv(0, out)] + ([ForgetEv(|x.hunt.offers|)] + []));
  }

  // ---- Orders that nobody can reach -----------------------------------------------

  /** An order submitted with an address but no coordinates can run its search to the end, and expires for want of a place. */
  lemma AddressAloneExpires(customer: UserId, category: CategoryId, band: Band, out: Outside)
    requires 0 < out.limit && 0.0 <= out.draw < 1.0
    ensures var go := AdvanceEv(0, out);
            var x := Run(Run(NewDeal(customer, Some(category), "leak"), Wizard(customer, category, band, None, None)),
                         [go] + ([go] + ([go] + ([go] + []))));
            && Reachable(x) && x.book.row.status == Expired && x.hunt.expiredFor == Some(MissingPlace)
            && x.hunt.offers == [] && x.book.row.addressText == Some("Navoiy 1")
  {
    var go := AdvanceEv(0, out);
    var x := Run(NewDeal(customer, Some(category), "leak"), Wizard(customer, category, band, None, None));
    WizardSubmits(customer, category, band, None, None);
    RunsStayReachable(x, [go] + ([go] + ([go] + ([go] + []))));
    var x1, x2 := Step(x, go), Step(Step(x, go), go);
    var x3 := Step(x2, go);
    Then(x, go, [go] + ([go] + ([go] + [])));
    Then(x1, go, [go] + ([go] + []));
    Then(x2, go, [go] + []);
    Then(x3, go, []);
    NoPlace(x, out);
    NoPlaceRead(x1, out);
    NoPlaceWritten(x2, out);
    NoPlaceRecorded(x3, out);
  }

  lemma NoPlace(x: Deal, out: Outside)
    requires x.hunt.searches == [ReadOrder(1)] && x.book.row.status == Searching && !Locatable(x.book.row)
    requires 0 < out.limit && 0.0 <= out.draw < 1.0
    ensures Step(x, AdvanceEv(0, out)) == x.(hunt := x.hunt.(searches := [FailRead(MissingPlace)]))
  {
    AdvanceIsStep(x, out);
    assert x.hunt.searches[0 := FailRead(MissingPlace)] == [FailRead(MissingPlace)];
  }

  lemma NoPlaceRead(x: Deal, out: Outside)
    requires x.hunt.searches == [FailRead(MissingPlace)] && x.book.row.status == Searching
    requires 0 < out.limit && 0.0 <= out.draw < 1.0
    ensures Step(x, AdvanceEv(0, out)) == x.(hunt := x.hunt.(searches := [FailWrite(MissingPlace, Searching)]))
  {
    AdvanceIsStep(x, out);
    assert x.hunt.searches[0 := FailWrite(MissingPlace, Searching)] == [FailWrite(MissingPlace, Searching)];
  }

  lemma NoPlaceWritten(x: Deal, out: Outside)
    requires x.hunt.searches == [FailWrite(MissingPlace, Searching)] && x.book.row.status == Searching
    requires 0 < out.limit && 0.0 <= out.draw < 1.0
    ensures var y := Step(x, AdvanceEv(0, out));
            && y.book.row == x.book.row.(status := Expired)
            && y.hunt == x.hunt.(searches := [FailHistory(MissingPlace, Searching)], expiredFor := Some(MissingPlace))
  {
    AdvanceIsStep(x, out);
    assert x.hunt.searches[0 := FailHistory(MissingPlace, Searching)] == [FailHistory(MissingPlace, Searching)];
  }

  lemma NoPlaceRecorded(x: Deal, out: Outside)
    requires x.hunt.searches == [FailHistory(MissingPlace, Searching)]
    requires 0 < out.limit && 0.0 <= out.draw < 1.0
    ensures var y := Step(x, AdvanceEv(0, out)); y.book.row == x.book.row && y.hunt == x.hunt.(searches := [])
  {
    AdvanceIsStep(x, out);
    assert Without(x.hunt.searches, 0) == [];
  }
}
