/** What holds of every deal that any run of the marketplace can reach. */
module DealTheorems {
  import opened Prelude
  import opened OrderState
  import opened Pricing
  import opened Scoring
  import opened Eligibility
  import opened Orders
  import opened Payments
  import opened Deals
  import opened DealInvariants
  import opened DealProofs

  ghost predicate Reachable(x: Deal) {
    exists customer, category, description, events :: x == Run(NewDeal(customer, category, description), events)
  }

  lemma ReachableIsSound(x: Deal)
    requires Reachable(x)
    ensures Inv(x)
  {
    var customer, category, description, events :| x == Run(NewDeal(customer, category, description), events);
    NewDealIsSound(customer, category, description);
    RunKeepsInv(NewDeal(customer, category, description), events);
  }

  lemma {:induction false} RunAppends(x: Deal, events: seq<Event>, more: seq<Event>)
    ensures Run(x, events + more) == Run(Run(x, events), more)
    decreases |events|
  {
    if events == [] {
      assert events + more == more;
    } else {
      assert (events + more)[1..] == events[1..] + more;
      RunAppends(Step(x, events[0]), events[1..], more);
    }
  }

  lemma RunsStayReachable(x: Deal, events: seq<Event>)
    requires Reachable(x)
    ensures Reachable(Run(x, events))
  {
    var customer, category, description, before :| x == Run(NewDeal(customer, category, description), before);
    RunAppends(NewDeal(customer, category, description), before, events);
  }

  // ---- The search token -----------------------------------------------------------

  function CountStatus(offers: seq<Offer>, s: OfferStatus): nat {
    if offers == [] then 0
    else CountStatus(offers[..|offers| - 1], s) + (if offers[|offers| - 1].status == s then 1 else 0)
  }

  lemma {:induction false} CountZero(offers: seq<Offer>, s: OfferStatus)
    requires forall i :: 0 <= i < |offers| ==> offers[i].status != s
    ensures CountStatus(offers, s) == 0
  {
    if offers != [] { CountZero(offers[..|offers| - 1], s); }
  }

  lemma LiveIsCounted(offers: seq<Offer>)
    requires OffersInOrder(offers)
    ensures Live(offers) == CountStatus(offers, Offered) + CountStatus(offers, Accepted)
    ensures IsAccepted(offers) <==> CountStatus(offers, Accepted) == 1
    ensures CountStatus(offers, Withdrawn) == 0
  {
    CountZero(offers, Withdrawn);
    if offers != [] {
      CountZero(offers[..|offers| - 1], Offered);
      CountZero(offers[..|offers| - 1], Accepted);
    }
  }

  /**
   * Conservation of the search token. Open offers, accepted offers, in-flight searches and searches lost to a
   * crash never exceed one between them; before submission there are none; and while the order is searching or
   * matched there is exactly one.
   */
  lemma SearchTokenIsConserved(x: Deal)
    requires Reachable(x)
    ensures var total := CountStatus(x.hunt.offers, Offered) + CountStatus(x.hunt.offers, Accepted)
                         + |x.hunt.searches| + x.hunt.lost;
            && total <= 1
            && (Editable(x.book.row.status) ==> total == 0 && x.hunt.offers == [])
            && (x.book.row.status == Searching || HasMaster(x.book.row.status) ==> total == 1)
  {
    ReachableIsSound(x);
    LiveIsCounted(x.hunt.offers);
  }

  /** Cascade ranks are exactly 1..n in creation order, no master is offered the order twice, none is withdrawn. */
  lemma OffersAreRanked(x: Deal)
    requires Reachable(x)
    ensures forall i :: 0 <= i < |x.hunt.offers| ==> x.hunt.offers[i].rank == i + 1 && x.hunt.offers[i].status != Withdrawn
    ensures forall i, j :: 0 <= i < j < |x.hunt.offers| ==> x.hunt.offers[i].master != x.hunt.offers[j].master
  {
    ReachableIsSound(x);
  }

  /** Creating an offer never meets the uniqueness violation that its retry branch is there for. */
  lemma RetryNeverFires(x: Deal, i: nat, out: Outside)
    requires Reachable(x) && i < |x.hunt.searches| && x.hunt.searches[i].CreateOffer?
    ensures x.hunt.searches[i].picked.master !in OfferedMasters(x.hunt.offers)
    ensures |Advance(x, i, out).hunt.offers| == |x.hunt.offers| + 1
  {
    ReachableIsSound(x);
    OnlySearch(x.book, x.hunt, i);
  }

  // ---- The match ------------------------------------------------------------------

  /**
   * At most one accepted offer ever; the order has a master exactly when there is one, and it is its master;
   * no open offer coexists with a matched, expired or master-cancelled order.
   */
  lemma MatchIsSafe(x: Deal)
    requires Reachable(x)
    ensures CountStatus(x.hunt.offers, Accepted) <= 1
    ensures x.book.row.master.Some? <==> CountStatus(x.hunt.offers, Accepted) == 1
    ensures forall i :: 0 <= i < |x.hunt.offers| && x.hunt.offers[i].status == Accepted
                        ==> x.book.row.master == Some(x.hunt.offers[i].master)
    ensures HasMaster(x.book.row.status) || x.book.row.status == Expired
            ==> CountStatus(x.hunt.offers, Offered) == 0
  {
    ReachableIsSound(x);
    LiveIsCounted(x.hunt.offers);
    assert RowOk(x.book.row);
  }

  // ---- Steps follow the graph -----------------------------------------------------

  lemma AdvanceFollowsGraph(x: Deal, i: nat, out: Outside)
    requires Inv(x) && i < |x.hunt.searches|
    ensures var y := Advance(x, i, out);
            y.book.row == x.book.row || (CanTransition(x.book.row.status, y.book.row.status) && !Editable(x.book.row.status))
  {
    OnlySearch(x.book, x.hunt, i);
  }

  lemma BookStepsFollowGraph(x: Deal, e: Event)
    requires Possible(x, e) && !e.AdvanceEv?
    ensures var y := Step(x, e);
            || y.book.row.status == x.book.row.status
            || CanTransition(x.book.row.status, y.book.row.status)
    ensures Targets(x.book.row.status) == {} ==> Step(x, e).book.row == x.book.row
  {
  }

  /** Every step keeps the status or moves it along an edge of the transition graph. */
  lemma StepFollowsGraph(x: Deal, e: Event)
    requires Inv(x)
    ensures var y := Step(x, e);
            || y.book.row.status == x.book.row.status
            || CanTransition(x.book.row.status, y.book.row.status)
    ensures Targets(x.book.row.status) == {} ==> Step(x, e).book.row == x.book.row
  {
    if Possible(x, e) {
      if e.AdvanceEv? { AdvanceFollowsGraph(x, e.search, e.out); } else { BookStepsFollowGraph(x, e); }
    }
  }

  /** Final statuses are final. */
  lemma {:induction false} FinalStaysFinal(x: Deal, events: seq<Event>)
    requires Inv(x) && Targets(x.book.row.status) == {}
    ensures Run(x, events).book.row == x.book.row
    decreases |events|
  {
    if events != [] {
      StepFollowsGraph(x, events[0]);
      StepKeepsInv(x, events[0]);
      FinalStaysFinal(Step(x, events[0]), events[1..]);
    }
  }

  /** An offer left open when the customer cancels can never be accepted, whatever happens afterwards. */
  lemma LeftoverOfferNeverMatches(x: Deal, events: seq<Event>)
    requires Reachable(x) && x.book.row.status == CancelledByCustomer && x.book.row.master.None?
    ensures CountStatus(Run(x, events).hunt.offers, Accepted) == 0
    ensures Run(x, events).book.row == x.book.row
  {
    ReachableIsSound(x);
    FinalStaysFinal(x, events);
    RunsStayReachable(x, events);
    MatchIsSafe(Run(x, events));
  }

  // ---- Status history -------------------------------------------------------------

  /**
   * The status history is a walk from Draft that ends at the current status. The one exception is an expired
   * order whose second write is still to come, or never will because of a crash.
   */
  lemma HistoryIsAWalk(x: Deal)
    requires Reachable(x)
    ensures Walk(x.book.history)
    ensures Last(x.book.history) == x.book.row.status
            || (&& x.book.row.status == Expired && Last(x.book.history) == Searching
                && (x.hunt.lost == 1 || (|x.hunt.searches| == 1 && x.hunt.searches[0].FailHistory?)))
    ensures forall i :: 0 <= i < |x.book.history| && x.book.history[i].to == Searching ==> |x.book.history| <= i + 6
  {
    ReachableIsSound(x);
    forall i | 0 <= i < |x.book.history| && x.book.history[i].to == Searching
      ensures |x.book.history| <= i + 6
    {
      SubmittedWalkIsShort(x.book.history, i);
    }
  }

  // ---- Money ----------------------------------------------------------------------

  /**
   * Every order past its draft has a price, but for one cancelled unpriced; and wherever there is a price, be the
   * order cancelled since, it is the fresh quote of the row's own data, with the final amount inside it.
   */
  lemma QuotesAreFresh(x: Deal)
    requires Reachable(x)
    ensures x.book.row.status != Draft && x.book.row.status != CancelledByCustomer ==> x.book.row.priceMin.Some?
    ensures x.book.row.priceMin.Some? <==> x.book.row.priceMax.Some?
    ensures x.book.row.priceMin.Some? ==>
              && Quoted(x.book.row)
              && IsQuote(x.book.row.basis.value.base, x.book.row.complexity.value, x.book.row.tier,
                         Quote(x.book.row.priceMin.value, x.book.row.priceMax.value, x.book.row.platformFee))
              && FLOOR <= x.book.row.priceMin.value < x.book.row.priceMax.value
              && x.book.row.priceMin.value % ROUND_TO == 0 && x.book.row.priceMax.value % ROUND_TO == 0
    ensures Finished(x.book.row.status) ==>
              && x.book.row.finalAmount.Some? && x.book.row.priceMin.Some?
              && x.book.row.priceMin.value <= x.book.row.finalAmount.value <= x.book.row.priceMax.value
  {
    ReachableIsSound(x);
    QuoteIsFresh(x.book);
  }

  /**
   * Every payment ever created is for the final amount of the order and splits into non-negative fee, tax near
   * the recorded rate's share and net that add up to it; at most one is active at a time; none is settled more than once, or refunded unsettled.
   */
  lemma PaymentsAreSound(x: Deal)
    requires Reachable(x)
    ensures forall i :: 0 <= i < |x.payments| ==>
              && SoundSplit(x.payments[i].row.split) && TaxNear(x.payments[i].row.split, x.payments[i].row.taxRate)
              && x.book.row.finalAmount == Some(x.payments[i].row.split.amount)
              && x.payments[i].row.split.platformFee == x.book.row.platformFee
              && x.payments[i].settled <= 1
              && (x.payments[i].row.status in {Succeeded, Failed, Refunded} <==> x.payments[i].settled == 1)
    ensures AtMostOneActive(x.payments)
    ensures forall ref, success :: Webhook(x.payments, ref, success) == x.payments
  {
    ReachableIsSound(x);
    forall ref, success ensures Webhook(x.payments, ref, success) == x.payments {
      WebhookIsNoOp(x.payments, x.book.row, ref, success);
    }
  }

  // ---- Failed searches ------------------------------------------------------------

  /**
   * An order expires only for want of a location, or after a query - for its own category and required tier,
   * at the expanded radius, leaving out exactly the masters it was offered to - that no master of the world could satisfy.
   */
  lemma ExpiredMeansNobodyLeft(x: Deal)
    requires Reachable(x) && x.book.row.status == Expired
    ensures x.hunt.expiredFor.Some?
    ensures match x.hunt.expiredFor.value
            case MissingPlace => !Locatable(x.book.row) && x.hunt.offers == []
            case PoolExhausted(world, q, expansion) =>
              && (forall m :: m in world ==> !Eligible(m, q))
              && Some(q.category) == x.book.row.category && q.requiredTier == RequiredTier(x.book.row.complexity)
              && q.offered == OfferedMasters(x.hunt.offers) && q.multiplier == expansion && Locatable(x.book.row)
  {
    ReachableIsSound(x);
  }

  predicate FactorIs(r: Reason, factor: real) {
    r.PoolExhausted? ==> r.expansion == factor
  }

  predicate AtFactor(s: Search, factor: real) {
    s.FailRead? || s.FailWrite? || s.FailHistory? ==> FactorIs(s.reason, factor)
  }

  /** Every search that has given up did so at this radius factor. */
  predicate FactorLaw(h: Hunt, factor: real) {
    && (forall i :: 0 <= i < |h.searches| ==> AtFactor(h.searches[i], factor))
    && (h.expiredFor.Some? ==> FactorIs(h.expiredFor.value, factor))
  }

  predicate UsesFactor(e: Event, factor: real) {
    e.AdvanceEv? ==> e.out.expansion == factor
  }

  lemma AdvanceKeepsFactor(x: Deal, i: nat, out: Outside)
    requires FactorLaw(x.hunt, out.expansion) && i < |x.hunt.searches|
    ensures FactorLaw(Advance(x, i, out).hunt, out.expansion)
  {
    assert AtFactor(x.hunt.searches[i], out.expansion);
  }

  lemma StepKeepsFactor(x: Deal, e: Event, factor: real)
    requires FactorLaw(x.hunt, factor) && UsesFactor(e, factor)
    ensures FactorLaw(Step(x, e).hunt, factor)
  {
    if e.AdvanceEv? && Possible(x, e) { AdvanceKeepsFactor(x, e.search, e.out); }
  }

  lemma {:induction false} RunKeepsFactor(x: Deal, events: seq<Event>, factor: real)
    requires FactorLaw(x.hunt, factor) && forall k :: 0 <= k < |events| ==> UsesFactor(events[k], factor)
    ensures FactorLaw(Run(x, events).hunt, factor)
    decreases |events|
  {
    if events != [] {
      StepKeepsFactor(x, events[0], factor);
      RunKeepsFactor(Step(x, events[0]), events[1..], factor);
    }
  }

  /** Under one setting of the expansion factor, the query that emptied the pool of an expired order used that factor. */
  lemma ExpiredAtExpandedRadius(customer: UserId, category: Option<CategoryId>, description: string, events: seq<Event>, factor: real)
    requires forall k :: 0 <= k < |events| ==> UsesFactor(events[k], factor)
    ensures var x := Run(NewDeal(customer, category, description), events);
            x.book.row.status == Expired && Locatable(x.book.row) ==>
              && x.hunt.expiredFor.Some? && x.hunt.expiredFor.value.PoolExhausted?
              && x.hunt.expiredFor.value.query.multiplier == factor
  {
    var x0 := NewDeal(customer, category, description);
    RunKeepsFactor(x0, events, factor);
    NewDealIsSound(customer, category, description);
    RunKeepsInv(x0, events);
  }

  /** An order submitted with an address but no coordinates is never offered to anybody. */
  lemma AddressAloneFindsNobody(x: Deal)
    requires Reachable(x) && !Editable(x.book.row.status) && !Locatable(x.book.row)
    ensures x.hunt.offers == [] && x.book.row.master.None?
  {
    ReachableIsSound(x);
  }

  /** An expired order expired for want of a place exactly when it has no coordinates. */
  lemma ExpiredForPlaceIffUnlocated(x: Deal)
    requires Reachable(x) && x.book.row.status == Expired
    ensures x.hunt.expiredFor == Some(MissingPlace) <==> !Locatable(x.book.row)
  {
    ReachableIsSound(x);
  }

  // ---- Penalties ------------------------------------------------------------------

  function TimedOutOffers(offers: seq<Offer>, m: MasterId): nat {
    if offers == [] then 0
    else
      var last := offers[|offers| - 1];
      TimedOutOffers(offers[..|offers| - 1], m) + (if last.status == TimedOut && last.master == m then 1 else 0)
  }

  lemma {:induction false} LateFeesAreCounted(offers: seq<Offer>, m: MasterId)
    ensures LateFees(offers)[Penalty(m, LateResponse)] == TimedOutOffers(offers, m)
    ensures LateFees(offers)[Penalty(m, Cancellation)] == 0 && LateFees(offers)[Penalty(m, CustomerComplaint)] == 0
  {
    if offers != [] { LateFeesAreCounted(offers[..|offers| - 1], m); }
  }

  lemma SoundLedger(x: Deal, m: MasterId)
    requires Inv(x)
    ensures Accounted(x.hunt.searches, x.conduct, Penalty(m, LateResponse)) == TimedOutOffers(x.hunt.offers, m)
    ensures Accounted(x.hunt.searches, x.conduct, Penalty(m, Cancellation))
            == if x.book.row.status == CancelledByMaster && x.book.row.master == Some(m) then 1 else 0
    ensures Accounted(x.hunt.searches, x.conduct, Penalty(m, CustomerComplaint))
            == if x.conduct.review.Some? && x.conduct.review.value <= 2 && x.book.row.master == Some(m) then 1 else 0
  {
    LateFeesAreCounted(x.hunt.offers, m);
    LedgerEntry(x, Penalty(m, LateResponse));
    LedgerEntry(x, Penalty(m, Cancellation));
    LedgerEntry(x, Penalty(m, CustomerComplaint));
  }

  /**
   * The penalty ledger is exact: for each master, the penalties written, owed, in flight or lost to a crash are
   * as many as the events that call for them - timed-out offers, a master's cancellation, a rating of 2 or less.
   */
  lemma PenaltyLedgerIsExact(x: Deal, m: MasterId)
    requires Reachable(x)
    ensures Accounted(x.hunt.searches, x.conduct, Penalty(m, LateResponse)) == TimedOutOffers(x.hunt.offers, m)
    ensures Accounted(x.hunt.searches, x.conduct, Penalty(m, Cancellation))
            == if x.book.row.status == CancelledByMaster && x.book.row.master == Some(m) then 1 else 0
    ensures Accounted(x.hunt.searches, x.conduct, Penalty(m, CustomerComplaint))
            == if x.conduct.review.Some? && x.conduct.review.value <= 2 && x.book.row.master == Some(m) then 1 else 0
  {
    ReachableIsSound(x);
    SoundLedger(x, m);
  }

  lemma LedgerEntry(x: Deal, p: Penalty)
    requires Inv(x)
    ensures Called(x.book.row, x.hunt.offers, x.conduct.review, p) == Accounted(x.hunt.searches, x.conduct, p)
  {
  }
}
