/** How a deal may change between any two moments of a run. */
module DealEvolution {
  import opened Prelude
  import opened OrderState
  import opened Pricing
  import opened Scoring
  import opened Eligibility
  import opened Orders
  import opened Payments
  import opened Deals
  import opened DealInvariants
  import opened DealProofs
  import opened DealTheorems

  /** Only an open offer changes its status; nothing else about an offer ever changes. */
  predicate OffersEvolve(a: seq<Offer>, b: seq<Offer>) {
    && |a| <= |b|
    && forall i :: 0 <= i < |a| ==>
         b[i] == a[i].(status := b[i].status) && (a[i].status != Offered ==> b[i].status == a[i].status)
  }

  /** Processing ends in Succeeded or Failed; Succeeded at most turns into Refunded; a resolution stays. */
  predicate PaymentsEvolve(a: seq<Payment>, b: seq<Payment>) {
    && |a| <= |b|
    && forall i :: 0 <= i < |a| ==> Later(a[i].row, b[i].row) && a[i].settled <= b[i].settled && a[i].past <= b[i].past
  }

  predicate BookEvolves(b: Book, c: Book) {
    && Follows(b.row, c.row) && b.versions <= c.versions && b.history <= c.history
  }

  /** A job once queued, or forgotten, stays so. */
  predicate JobsEvolve(a: seq<Job>, b: seq<Job>) {
    |a| <= |b| && forall i :: 0 <= i < |a| && a[i] != Unqueued ==> b[i] == a[i]
  }

  predicate Evolves(x: Deal, y: Deal) {
    && BookEvolves(x.book, y.book)
    && OffersEvolve(x.hunt.offers, y.hunt.offers)
    && PaymentsEvolve(x.payments, y.payments)
    && x.conduct.penalties <= y.conduct.penalties
    && (x.conduct.review.Some? ==> y.conduct.review == x.conduct.review)
    && JobsEvolve(x.jobs, y.jobs)
  }

  lemma EvolvesIsTransitive(x: Deal, y: Deal, z: Deal)
    requires Evolves(x, y) && Evolves(y, z)
    ensures Evolves(x, z)
  {
    PaymentsEvolveTransitively(x.payments, y.payments, z.payments);
  }

  lemma PaymentsEvolveTransitively(a: seq<Payment>, b: seq<Payment>, c: seq<Payment>)
    requires PaymentsEvolve(a, b) && PaymentsEvolve(b, c)
    ensures PaymentsEvolve(a, c)
  {
    forall i | 0 <= i < |a| ensures Later(a[i].row, c[i].row) && a[i].settled <= c[i].settled && a[i].past <= c[i].past {
      assert Later(a[i].row, b[i].row) && Later(b[i].row, c[i].row);
    }
  }

  lemma ChargeEvolves(ps: seq<Payment>, order: OrderRow, i: nat, success: bool, ref: Ref)
    requires PaymentsInv(ps, order)
    ensures PaymentsEvolve(ps, ChargeReturns(ps, i, success, ref)) && PaymentsEvolve(ps, ChargeLost(ps, i))
  {
    assert forall k :: 0 <= k < |ps| ==> PaymentOk(ps[k]);
  }

  lemma ResolveEvolves(ps: seq<Payment>, order: OrderRow, i: nat, seen: PayRow, refund: bool)
    requires PaymentsInv(ps, order)
    ensures PaymentsEvolve(ps, Resolve(ps, i, seen, refund))
  {
    assert forall k :: 0 <= k < |ps| ==> PaymentOk(ps[k]);
  }

  lemma PaymentStepEvolves(ps: seq<Payment>, order: OrderRow, e: Event)
    requires PaymentsInv(ps, order) && IsPaymentEvent(e)
    ensures PaymentsEvolve(ps, PaymentStep(ps, e))
  {
    PaymentsStay(ps, order);
    match e
    case PayEv(_, _, _) =>
    case ChargeEv(p, success, ref) => ChargeEvolves(ps, order, p, success, ref);
    case ChargeLostEv(p) => ChargeEvolves(ps, order, p, true, "");
    case WebhookEv(ref, success) => WebhookIsNoOp(ps, order, ref, success);
    case ResolveEv(p, row, refund) => ResolveEvolves(ps, order, p, row, refund);
  }

  lemma PaymentsStay(ps: seq<Payment>, order: OrderRow)
    requires PaymentsInv(ps, order)
    ensures PaymentsEvolve(ps, ps)
  {
    assert forall k :: 0 <= k < |ps| ==> PaymentOk(ps[k]);
  }

  lemma CascadeEvolvesBook(x: Deal, i: nat, out: Outside)
    requires SearchInv(x.book, x.hunt) && i < |x.hunt.searches|
    ensures BookEvolves(x.book, Advance(x, i, out).book)
  {
    OnlySearch(x.book, x.hunt, i);
  }

  lemma SearchStepEvolvesBook(x: Deal, e: Event)
    requires Inv(x) && Possible(x, e) && IsSearchEvent(e)
    ensures BookEvolves(x.book, SearchStep(x, e).book)
  {
    match e
    case SubmitEv(caller, now) => SubmitIsLegal(x.book, caller, now);
    case CancelByMasterEv(m, seen) => MoveIsLegal(x.book, m, seen, CancelledByMaster);
    case AdvanceEv(i, out) => CascadeEvolvesBook(x, i, out);
    case CrashEv(i) =>
  }

  lemma BookStepEvolves(b: Book, c: Book)
    requires c == b || LegalWrite(b, c)
    ensures BookEvolves(b, c)
  {
  }

  lemma AcceptEvolves(x: Deal, d: nat, caller: MasterId, now: int)
    requires Inv(x)
    ensures OffersEvolve(x.hunt.offers, AcceptOffer(x, d, caller, now).hunt.offers)
  {
    if AcceptAllowed(x, d, caller, now) { NothingToWithdraw(x, d, caller, now); }
  }

  lemma OfferStepEvolves(x: Deal, e: Event)
    requires Inv(x) && IsOfferEvent(e)
    ensures BookEvolves(x.book, OfferStep(x, e).book)
    ensures OffersEvolve(x.hunt.offers, OfferStep(x, e).hunt.offers)
    ensures OfferStep(x, e) == x.(book := OfferStep(x, e).book, hunt := OfferStep(x, e).hunt)
  {
    BookStepEvolves(x.book, x.book);
    if e.AcceptEv? {
      AcceptEvolves(x, e.offer, e.master, e.now);
      AssignIsLegal(x.book, e.master);
      BookStepEvolves(x.book, Assign(x.book, e.master));
    }
  }

  predicate Appends(x: Deal, y: Deal) {
    && x.hunt.offers <= y.hunt.offers && x.conduct.penalties <= y.conduct.penalties
    && y.conduct.review == x.conduct.review && y.payments == x.payments && x.jobs <= y.jobs
  }

  lemma GotoAppends(x: Deal, i: nat, s: Search)
    requires i < |x.hunt.searches|
    ensures Appends(x, Goto(x, i, s))
  {
  }

  lemma QueryAppends(x: Deal, i: nat, out: Outside)
    requires i < |x.hunt.searches| && x.hunt.searches[i].QueryPool?
    ensures Appends(x, Advance(x, i, out))
  {
    var s := x.hunt.searches[i];
    if s.order.category.Some? {
      var q := PoolQuery(x, s.order, s.attempt, out);
      GotoAppends(x, i, AfterQuery(s, q, FindEligible(out.world, q), out));
    }
  }

  lemma AdvanceAppends(x: Deal, i: nat, out: Outside)
    requires i < |x.hunt.searches|
    ensures Appends(x, Advance(x, i, out))
  {
    if x.hunt.searches[i].QueryPool? { QueryAppends(x, i, out); }
  }

  lemma SearchStepEvolves(x: Deal, e: Event)
    requires Possible(x, e) && IsSearchEvent(e)
    ensures x.hunt.offers <= SearchStep(x, e).hunt.offers && OffersEvolve(x.hunt.offers, SearchStep(x, e).hunt.offers)
    ensures x.conduct.penalties <= SearchStep(x, e).conduct.penalties
    ensures SearchStep(x, e).conduct.review == x.conduct.review && SearchStep(x, e).payments == x.payments
    ensures JobsEvolve(x.jobs, SearchStep(x, e).jobs)
  {
    if e.AdvanceEv? { AdvanceAppends(x, e.search, e.out); }
  }

  lemma ConductStepEvolves(c: Conduct, e: Event)
    requires IsConductEvent(e)
    ensures c.penalties <= ConductStep(c, e).penalties && (c.review.Some? ==> ConductStep(c, e).review == c.review)
  {
  }

  lemma Unchanged(x: Deal)
    requires Inv(x)
    ensures Evolves(x, x)
  {
    PaymentsStay(x.payments, x.book.row);
    BookStepEvolves(x.book, x.book);
  }

  lemma BookEventEvolves(x: Deal, e: Event)
    requires Inv(x) && IsBookEvent(e) && Possible(x, e)
    ensures Evolves(x, Step(x, e))
  {
    Unchanged(x);
    BookStepIsQuiet(x.book, e);
    BookStepEvolves(x.book, BookStep(x.book, e));
  }

  lemma OfferEventEvolves(x: Deal, e: Event)
    requires Inv(x) && IsOfferEvent(e) && Possible(x, e)
    ensures Evolves(x, Step(x, e))
  {
    OfferIsStep(x, e);
    PaymentsStay(x.payments, x.book.row);
    OfferStepEvolves(x, e);
  }

  lemma OfferIsStep(x: Deal, e: Event)
    requires IsOfferEvent(e) && Possible(x, e)
    ensures Step(x, e) == OfferStep(x, e)
  {
  }

  lemma EvolvesByParts(x: Deal, y: Deal)
    requires Inv(x) && BookEvolves(x.book, y.book) && OffersEvolve(x.hunt.offers, y.hunt.offers) && JobsEvolve(x.jobs, y.jobs)
    requires y.payments == x.payments && y.conduct.review == x.conduct.review && x.conduct.penalties <= y.conduct.penalties
    ensures Evolves(x, y)
  {
    PaymentsStay(x.payments, x.book.row);
  }

  lemma SearchEventEvolves(x: Deal, e: Event)
    requires Inv(x) && IsSearchEvent(e) && Possible(x, e)
    ensures Evolves(x, SearchStep(x, e))
  {
    SearchStepEvolves(x, e);
    SearchStepEvolvesBook(x, e);
    EvolvesByParts(x, SearchStep(x, e));
  }

  lemma PaymentEventEvolves(x: Deal, e: Event)
    requires Inv(x) && IsPaymentEvent(e)
    ensures Evolves(x, x.(payments := PaymentStep(x.payments, e)))
  {
    BookStepEvolves(x.book, x.book);
    PaymentStepEvolves(x.payments, x.book.row, e);
  }

  lemma ConductEventEvolves(x: Deal, e: Event)
    requires Inv(x) && IsConductEvent(e)
    ensures Evolves(x, x.(conduct := ConductStep(x.conduct, e)))
  {
    Unchanged(x);
    ConductStepEvolves(x.conduct, e);
  }

  lemma JobEventEvolves(x: Deal, e: Event)
    requires Inv(x) && IsJobEvent(e)
    ensures Evolves(x, x.(jobs := JobStep(x.jobs, e)))
  {
    Unchanged(x);
  }

  lemma StepEvolves(x: Deal, e: Event)
    requires Inv(x)
    ensures Evolves(x, Step(x, e))
  {
    if !Possible(x, e) {
      Unchanged(x);
    } else if IsBookEvent(e) {
      BookEventEvolves(x, e);
    } else if IsOfferEvent(e) {
      OfferEventEvolves(x, e);
    } else if IsSearchEvent(e) {
      SearchEventEvolves(x, e);
    } else if IsPaymentEvent(e) {
      PaymentEventEvolves(x, e);
    } else if IsConductEvent(e) {
      ConductEventEvolves(x, e);
    } else {
      JobEventEvolves(x, e);
    }
  }

  /**
   * Over any run: the deal agreed at submission, the master and the final amount never change once set; answered
   * offers stay answered; inactive payments never become active again and only a succeeded payment is refunded;
   * history, penalties and the review are append-only; a queued or forgotten job stays so.
   */
  lemma {:induction false} RunEvolves(x: Deal, events: seq<Event>)
    requires Inv(x)
    ensures Evolves(x, Run(x, events))
    decreases |events|
  {
    if events != [] {
      var y := Step(x, events[0]);
      StepEvolves(x, events[0]);
      StepKeepsInv(x, events[0]);
      RunEvolves(y, events[1..]);
      EvolvesIsTransitive(x, y, Run(x, events));
    }
  }

  lemma InactiveStaysInactive(x: Deal, events: seq<Event>, i: nat)
    requires Reachable(x) && i < |x.payments| && !ActivePayment(x.payments[i].row.status)
    ensures var y := Run(x, events);
            i < |y.payments| && y.payments[i].row.status == x.payments[i].row.status && y.payments[i].settled == 1
  {
    ReachableIsSound(x);
    RunEvolves(x, events);
    RunKeepsInv(x, events);
    var y := Run(x, events);
    assert PaymentOk(x.payments[i]) && PaymentOk(y.payments[i]);
    assert Later(x.payments[i].row, y.payments[i].row);
  }

  lemma PaymentStepRefunds(ps: seq<Payment>, order: OrderRow, e: Event, i: nat)
    requires PaymentsInv(ps, order) && IsPaymentEvent(e) && i < |PaymentStep(ps, e)|
    requires PaymentStep(ps, e)[i].row.status == Refunded
    ensures i < |ps| && (ps[i].row.status == Succeeded || ps[i].row.status == Refunded)
  {
    if i < |ps| { assert PaymentOk(ps[i]); }
    if e.WebhookEv? { WebhookIsNoOp(ps, order, e.ref, e.success); }
  }

  /** A payment found refunded after any step was succeeded, or refunded already, before it. */
  lemma RefundFollowsSuccess(x: Deal, e: Event, i: nat)
    requires Inv(x) && i < |Step(x, e).payments| && Step(x, e).payments[i].row.status == Refunded
    ensures i < |x.payments| && (x.payments[i].row.status == Succeeded || x.payments[i].row.status == Refunded)
  {
    if Possible(x, e) && IsPaymentEvent(e) {
      PaymentStepRefunds(x.payments, x.book.row, e, i);
    } else {
      PaymentsUntouched(x, e);
    }
  }

  lemma PaymentsUntouched(x: Deal, e: Event)
    requires !Possible(x, e) || !IsPaymentEvent(e)
    ensures Step(x, e).payments == x.payments
  {
    if e.AdvanceEv? && Possible(x, e) { AdvanceAppends(x, e.search, e.out); }
  }

  // ---- Every edge of the graph is taken -------------------------------------------

  /** The event by which the parties take the edge from the order's status to `to`, when one of them can. */
  function EdgeEvent(x: Deal, to: Status): Event {
    var row := x.book.row;
    match to
    case CancelledByCustomer => CancelEv(row.customer, row)
    case EnRoute => EnRouteEv(if row.master.Some? then row.master.value else 0, row)
    case InProgress => StartServiceEv(if row.master.Some? then row.master.value else 0, row)
    case CancelledByMaster => CancelByMasterEv(if row.master.Some? then row.master.value else 0, row)
    case Completed => CompleteEv(if row.master.Some? then row.master.value else 0, row, if row.priceMin.Some? then row.priceMin.value else 0)
    case _ => ConfirmEv(row.customer, row)
  }

  lemma MasterCanMove(b: Book, to: Status)
    requires BookInv(b) && CanTransition(b.row.status, to) && to in {CancelledByMaster, EnRoute, InProgress}
    ensures b.row.master.Some? && b.row in b.versions && MoveByMaster(b, b.row.master.value, b.row, to).row.status == to
  {
    assert RowOk(b.row);
  }

  lemma JobCanMoveOn(x: Deal, to: Status)
    requires BookInv(x.book) && CanTransition(x.book.row.status, to) && to in {EnRoute, InProgress}
    ensures Step(x, EdgeEvent(x, to)).book.row.status == to
  {
    MasterCanMove(x.book, to);
  }

  lemma JobCanBeCancelled(x: Deal)
    requires BookInv(x.book) && CanTransition(x.book.row.status, CancelledByMaster)
    ensures Step(x, EdgeEvent(x, CancelledByMaster)).book.row.status == CancelledByMaster
  {
    MasterCanMove(x.book, CancelledByMaster);
  }

  lemma JobCanComplete(x: Deal)
    requires BookInv(x.book) && x.book.row.status == InProgress
    ensures Step(x, EdgeEvent(x, Completed)).book.row.status == Completed
  {
    var row := x.book.row;
    assert RowOk(row) && row in x.book.versions;
    QuoteIsFresh(x.book);
  }

  lemma CustomerCanDecide(x: Deal, to: Status)
    requires BookInv(x.book) && CanTransition(x.book.row.status, to) && to in {CancelledByCustomer, Closed}
    ensures Step(x, EdgeEvent(x, to)).book.row.status == to
  {
    var row := x.book.row;
    assert RowOk(row) && row in x.book.versions;
  }

  /**
   * The graph is complete for the customer's and the master's moves: from every reachable order, each edge to a
   * cancellation or to the next stage of the job can be taken at once, by a call on the current row.
   */
  lemma EveryEdgeCanBeTaken(x: Deal, to: Status)
    requires Reachable(x) && CanTransition(x.book.row.status, to)
    requires to in {CancelledByCustomer, CancelledByMaster, EnRoute, InProgress, Completed, Closed}
    ensures Step(x, EdgeEvent(x, to)).book.row.status == to
  {
    ReachableIsSound(x);
    if to == Completed {
      JobCanComplete(x);
    } else if to == CancelledByCustomer || to == Closed {
      CustomerCanDecide(x, to);
    } else if to == CancelledByMaster {
      JobCanBeCancelled(x);
    } else {
      JobCanMoveOn(x, to);
    }
  }

  lemma AcceptAssigns(x: Deal, d: nat, now: int)
    requires Inv(x) && d < |x.hunt.offers| && AcceptAllowed(x, d, x.hunt.offers[d].master, now)
    ensures var y := AcceptOffer(x, d, x.hunt.offers[d].master, now);
            y.book.row.status == Assigned && y.book.row.master == Some(x.hunt.offers[d].master) && y.hunt.offers[d].status == Accepted
  {
    NothingToWithdraw(x, d, x.hunt.offers[d].master, now);
  }

  lemma AcceptIsStep(x: Deal, d: nat, master: MasterId, now: int)
    ensures Step(x, AcceptEv(d, master, now)) == AcceptOffer(x, d, master, now)
  {
  }

  /** An open offer on a searching order can be accepted by its master until it runs out, and that assigns the order to it. */
  lemma OpenOfferCanBeAccepted(x: Deal, d: nat, now: int)
    requires Reachable(x) && d < |x.hunt.offers| && x.hunt.offers[d].status == Offered
    ensures var y := Step(x, AcceptEv(d, x.hunt.offers[d].master, now));
            (y.book.row.status == Assigned && y.book.row.master == Some(x.hunt.offers[d].master) && y.hunt.offers[d].status == Accepted)
            <==> (x.book.row.status == Searching && now <= x.hunt.offers[d].expiresAt)
  {
    ReachableIsSound(x);
    var m := x.hunt.offers[d].master;
    AcceptIsStep(x, d, m, now);
    OpenOfferIsLast(x.book, x.hunt, d);
    if AcceptAllowed(x, d, m, now) { AcceptAssigns(x, d, now); }
  }

  /** When an offer made to an order of this tier runs out: after as many seconds as the tier is given. */
  predicate Deadline(tier: Tier, out: Outside, t: int) {
    match tier
    case Scheduled => t == out.now + 1_000 * out.ttl.scheduled
    case Priority => t == out.now + 1_000 * out.ttl.priority
    case Emergency => t == out.now + 1_000 * out.ttl.emergency
  }

  lemma InsertMakesOffer(x: Deal, i: nat, out: Outside)
    requires Inv(x) && i < |x.hunt.searches| && x.hunt.searches[i].CreateOffer? && Possible(x, AdvanceEv(i, out))
    ensures var y, d := Step(x, AdvanceEv(i, out)), |x.hunt.offers|;
            && |y.hunt.offers| == d + 1 && y.book == x.book && y.hunt.offers[d].status == Offered
            && y.hunt.offers[d].master == x.hunt.searches[i].picked.master && Deadline(x.book.row.tier, out, y.hunt.offers[d].expiresAt)
  {
    CreateInserts(x, i, out);
    assert SearchOk(x.book, x.hunt.offers, x.hunt.searches[i]);
    assert Step(x, AdvanceEv(i, out)) == Advance(x, i, out);
  }

  /**
   * From the moment of its insert, whatever else happens, an offer still open can be accepted by its master exactly
   * while the order searches and the seconds of its tier have not run out.
   */
  lemma NewOfferLastsItsTime(x: Deal, i: nat, out: Outside, events: seq<Event>, t: int, deadline: int)
    requires Reachable(x) && i < |x.hunt.searches| && x.hunt.searches[i].CreateOffer? && Possible(x, AdvanceEv(i, out))
    requires Deadline(x.book.row.tier, out, deadline)
    ensures var y, d, m := Run(Step(x, AdvanceEv(i, out)), events), |x.hunt.offers|, x.hunt.searches[i].picked.master;
            && d < |y.hunt.offers|
            && (y.hunt.offers[d].status == Offered ==>
                  (Step(y, AcceptEv(d, m, t)).book.row.status == Assigned && Step(y, AcceptEv(d, m, t)).book.row.master == Some(m)
                   <==> y.book.row.status == Searching && t <= deadline))
  {
    var z, d := Step(x, AdvanceEv(i, out)), |x.hunt.offers|;
    ReachableIsSound(x);
    InsertMakesOffer(x, i, out);
    StepKeepsInv(x, AdvanceEv(i, out));
    RunEvolves(z, events);
    assert Run(x, [AdvanceEv(i, out)]) == z by { assert [AdvanceEv(i, out)][1..] == []; }
    RunsStayReachable(x, [AdvanceEv(i, out)]);
    RunsStayReachable(z, events);
    var y := Run(z, events);
    if y.hunt.offers[d].status == Offered {
      AcceptedIffInTime(y, d, t);
    }
  }

  lemma AcceptedIffInTime(y: Deal, d: nat, t: int)
    requires Reachable(y) && d < |y.hunt.offers| && y.hunt.offers[d].status == Offered
    ensures var m, z := y.hunt.offers[d].master, Step(y, AcceptEv(d, y.hunt.offers[d].master, t));
            z.book.row.status == Assigned && z.book.row.master == Some(m)
            <==> y.book.row.status == Searching && t <= y.hunt.offers[d].expiresAt
  {
    var m := y.hunt.offers[d].master;
    ReachableIsSound(y);
    OpenOfferIsLast(y.book, y.hunt, d);
    OpenOfferCanBeAccepted(y, d, t);
    AcceptIsStep(y, d, m, t);
    if !AcceptAllowed(y, d, m, t) { assert Step(y, AcceptEv(d, m, t)) == y; }
  }
}
