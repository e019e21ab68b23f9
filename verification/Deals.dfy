/**
 * A deal: one order with everything that hangs on it - offers, in-flight searches, payments, the review and
 * the penalties - and the steps that calls, jobs and the offer cascade take on it.
 *
 * Grain: a database transaction or a single write is one atomic step; between any two steps of one call
 * anything else may happen. A crash may end an in-flight search or a penalty at any point.
 */
module Deals {
  import opened Prelude
  import opened OrderState
  import opened Pricing
  import opened Scoring
  import opened Eligibility
  import opened Orders
  import opened Payments

  datatype OfferStatus = Offered | Accepted | Declined | TimedOut | Withdrawn

  datatype Offer = Offer(master: MasterId, rank: nat, distanceM: int, score: real, expiresAt: int, status: OfferStatus)

  /** Why a search gives up. The world, the query and the factor of the empty pool are kept for the proofs only. */
  datatype Reason = MissingPlace | PoolExhausted(world: seq<Master>, query: Query, expansion: real)

  /** Where an in-flight search stands: the statement it runs next, with the locals it carries. */
  datatype Search =
    | LateFee(master: MasterId)
    | ReadOrder(attempt: nat)
    | CountOffers(attempt: nat, order: OrderRow)
    | QueryPool(attempt: nat, order: OrderRow, rank: nat)
    | CreateOffer(attempt: nat, order: OrderRow, rank: nat, picked: Candidate)
    | FailRead(reason: Reason)
    | FailWrite(reason: Reason, seen: Status)
    | FailHistory(reason: Reason, seen: Status)

  datatype PenaltyKind = Cancellation | LateResponse | CustomerComplaint

  datatype Penalty = Penalty(master: MasterId, kind: PenaltyKind)

  /**
   * The search for a master: offers made, searches in flight, how many searches a crash has ended (`lost`, for
   * the proofs only) and the note of a failed search.
   */
  datatype Hunt = Hunt(offers: seq<Offer>, searches: seq<Search>, lost: nat, expiredFor: Option<Reason>)

  /**
   * The review and the penalties: written, still owed by a call that has not written them yet, and never to be
   * written because a crash came first (`dropped`, for the proofs only).
   */
  datatype Conduct = Conduct(review: Option<int>, penalties: seq<Penalty>, owed: seq<Penalty>, dropped: seq<Penalty>)

  /** The expiry job of an offer: still to be queued, queued, or never to be, as the process died first. */
  datatype Job = Unqueued | Queued | Forgotten

  datatype Deal = Deal(book: Book, hunt: Hunt, payments: seq<Payment>, conduct: Conduct, jobs: seq<Job>)

  function NewDeal(customer: UserId, category: Option<CategoryId>, description: string): Deal {
    Deal(NewOrder(customer, category, description), Hunt([], [], 0, None), [], Conduct(None, [], [], []), [])
  }

  // ---- Offers ---------------------------------------------------------------------

  function OfferedMasters(offers: seq<Offer>): set<MasterId> {
    set i | 0 <= i < |offers| :: offers[i].master
  }

  /** Marks every offer still open, other than d, as withdrawn. */
  function WithdrawOthers(offers: seq<Offer>, d: nat): (r: seq<Offer>)
    ensures |r| == |offers|
  {
    seq(|offers|, i requires 0 <= i < |offers| =>
      if i != d && offers[i].status == Offered then offers[i].(status := Withdrawn) else offers[i])
  }

  predicate AcceptAllowed(x: Deal, d: nat, caller: MasterId, now: int) {
    && d < |x.hunt.offers| && x.hunt.offers[d].master == caller
    && x.hunt.offers[d].status == Offered && now <= x.hunt.offers[d].expiresAt
    && CanTransition(x.book.row.status, Assigned)
  }

  /** One transaction under the order's row lock. */
  function AcceptOffer(x: Deal, d: nat, caller: MasterId, now: int): Deal {
    if !AcceptAllowed(x, d, caller, now) then x
    else x.(hunt := x.hunt.(offers := WithdrawOthers(x.hunt.offers[d := x.hunt.offers[d].(status := Accepted)], d)),
            book := Assign(x.book, caller))
  }

  /** Offer d is answered or runs out, and the search goes on. */
  function Spend(x: Deal, d: nat, status: OfferStatus, next: Search): Deal
    requires d < |x.hunt.offers|
  {
    x.(hunt := x.hunt.(offers := x.hunt.offers[d := x.hunt.offers[d].(status := status)],
                       searches := x.hunt.searches + [next]))
  }

  function DeclineOffer(x: Deal, d: nat, caller: MasterId): Deal {
    if d >= |x.hunt.offers| || x.hunt.offers[d].master != caller || x.hunt.offers[d].status != Offered then x
    else Spend(x, d, Declined, ReadOrder(1))
  }

  /** The expiry job, as often as the queue cares to run it. */
  function ExpireOffer(x: Deal, d: nat): Deal {
    if d >= |x.hunt.offers| || x.hunt.offers[d].status != Offered then x
    else Spend(x, d, TimedOut, LateFee(x.hunt.offers[d].master))
  }

  // ---- The cascade, statement by statement ----------------------------------------

  /** What a search statement may find outside the deal: the masters, the random draw, the clock and the settings. */
  datatype Outside = Outside(world: seq<Master>, draw: real, now: int, ttl: Ttl, expansion: real, limit: nat)

  /** How many seconds an offer stays open, by service tier. */
  datatype Ttl = Ttl(scheduled: nat, priority: nat, emergency: nat)

  function OfferTtl(tier: Tier, ttl: Ttl): nat {
    match tier case Emergency => ttl.emergency case Priority => ttl.priority case _ => ttl.scheduled
  }

  function Without<T>(s: seq<T>, i: nat): seq<T>
    requires i < |s|
  {
    s[..i] + s[i + 1..]
  }

  function Done(x: Deal, i: nat): Deal
    requires i < |x.hunt.searches|
  {
    x.(hunt := x.hunt.(searches := Without(x.hunt.searches, i)))
  }

  function Goto(x: Deal, i: nat, s: Search): Deal
    requires i < |x.hunt.searches|
  {
    x.(hunt := x.hunt.(searches := x.hunt.searches[i := s]))
  }

  function PoolQuery(x: Deal, order: OrderRow, attempt: nat, out: Outside): Query
    requires order.category.Some?
  {
    Query(order.category.value, RequiredTier(order.complexity), if attempt == 1 then 1.0 else out.expansion,
          out.limit, OfferedMasters(x.hunt.offers))
  }

  function FreshOffer(picked: Candidate, rank: nat, tier: Tier, out: Outside): Offer {
    Offer(picked.master, rank, picked.distanceM, Score(picked), out.now + OfferTtl(tier, out.ttl) * 1_000, Offered)
  }

  /** What the query statement turns into, given what it found. */
  function AfterQuery(s: Search, q: Query, found: seq<Candidate>, out: Outside): Search
    requires s.QueryPool?
  {
    if found != [] then CreateOffer(s.attempt, s.order, s.rank, found[Pick(found, out.draw)])
    else if s.attempt == 1 then ReadOrder(2) else FailRead(PoolExhausted(out.world, q, out.expansion))
  }

  /** Runs the next statement of search i. */
  function Advance(x: Deal, i: nat, out: Outside): Deal
    requires i < |x.hunt.searches|
  {
    match x.hunt.searches[i]
    case LateFee(m) =>
      Goto(x, i, ReadOrder(1)).(conduct := x.conduct.(penalties := x.conduct.penalties + [Penalty(m, LateResponse)]))
    case ReadOrder(attempt) =>
      if x.book.row.status != Searching then Done(x, i)
      else if x.book.row.category.None? || !Locatable(x.book.row) then Goto(x, i, FailRead(MissingPlace))
      else Goto(x, i, CountOffers(attempt, x.book.row))
    case CountOffers(attempt, order) =>
      Goto(x, i, QueryPool(attempt, order, |x.hunt.offers|))
    case QueryPool(attempt, order, rank) =>
      if order.category.None? then x
      else
        var query := PoolQuery(x, order, attempt, out);
        Goto(x, i, AfterQuery(x.hunt.searches[i], query, FindEligible(out.world, query), out))
    case CreateOffer(attempt, order, rank, picked) =>
      if picked.master in OfferedMasters(x.hunt.offers) then Goto(x, i, ReadOrder(attempt))
      else x.(hunt := x.hunt.(searches := Without(x.hunt.searches, i), offers := x.hunt.offers + [FreshOffer(picked, rank + 1, order.tier, out)]),
              jobs := x.jobs + [Unqueued])
    case FailRead(reason) =>
      if CanTransition(x.book.row.status, Expired) then Goto(x, i, FailWrite(reason, x.book.row.status)) else Done(x, i)
    case FailWrite(reason, seen) =>
      if x.book.row.status == seen then
        x.(book := Expire(x.book, seen),
           hunt := x.hunt.(searches := x.hunt.searches[i := FailHistory(reason, seen)], expiredFor := Some(reason)))
      else Done(x, i)
    case FailHistory(reason, seen) =>
      Done(x, i).(book := RecordExpiry(x.book, seen))
  }

  /** The process running search i dies. */
  function Crash(x: Deal, i: nat): Deal
    requires i < |x.hunt.searches|
  {
    x.(hunt := x.hunt.(searches := Without(x.hunt.searches, i), lost := x.hunt.lost + 1),
       conduct := x.conduct.(dropped := x.conduct.dropped + FeeOf(x.hunt.searches[i])))
  }

  function FeeOf(s: Search): seq<Penalty> {
    if s.LateFee? then [Penalty(s.master, LateResponse)] else []
  }

  // ---- Penalties and reviews ------------------------------------------------------

  const COMPLAINT_THRESHOLD: int := 2

  function CancelByMaster(x: Deal, caller: MasterId, seen: OrderRow): Deal {
    var book := MoveByMaster(x.book, caller, seen, CancelledByMaster);
    if book == x.book then x else x.(book := book, conduct := x.conduct.(owed := x.conduct.owed + [Penalty(caller, Cancellation)]))
  }

  /** One review per order, on a closed order; a low rating owes a complaint. */
  function CreateReview(c: Conduct, caller: UserId, seen: OrderRow, rating: int): Conduct {
    if seen.customer != caller || seen.status != Closed || seen.master.None? || c.review.Some? then c
    else c.(
      review := Some(rating),
      owed := c.owed + (if rating <= COMPLAINT_THRESHOLD then [Penalty(seen.master.value, CustomerComplaint)] else []))
  }

  function WritePenalty(c: Conduct, i: nat): Conduct {
    if i >= |c.owed| then c else c.(penalties := c.penalties + [c.owed[i]], owed := Without(c.owed, i))
  }

  function DropPenalty(c: Conduct, i: nat): Conduct {
    if i >= |c.owed| then c else c.(dropped := c.dropped + [c.owed[i]], owed := Without(c.owed, i))
  }

  // ---- Events ---------------------------------------------------------------------

  datatype Event =
    | UpdateDraftEv(caller: UserId, patch: Patch, categories: set<CategoryId>, now: int)
    | DiagnoseEv(caller: UserId, complexity: Complexity, suggested: Option<CategoryId>, catalog: map<CategoryId, Band>)
    | SubmitEv(caller: UserId, now: int)
    | CancelEv(caller: UserId, seen: OrderRow)
    | EnRouteEv(master: MasterId, seen: OrderRow)
    | StartServiceEv(master: MasterId, seen: OrderRow)
    | CompleteEv(master: MasterId, seen: OrderRow, amount: int)
    | ConfirmEv(caller: UserId, seen: OrderRow)
    | CancelByMasterEv(master: MasterId, seen: OrderRow)
    | AcceptEv(offer: nat, master: MasterId, now: int)
    | DeclineEv(offer: nat, master: MasterId)
    | ExpireEv(offer: nat)
    | QueueEv(offer: nat)
    | ForgetEv(offer: nat)
    | AdvanceEv(search: nat, out: Outside)
    | CrashEv(search: nat)
    | PayEv(caller: UserId, seen: OrderRow, rate: real)
    | ChargeEv(payment: nat, success: bool, ref: Ref)
    | ChargeLostEv(payment: nat)
    | WebhookEv(ref: Ref, success: bool)
    | ResolveEv(payment: nat, row: PayRow, refund: bool)
    | ReviewEv(caller: UserId, seen: OrderRow, rating: int)
    | WritePenaltyEv(owed: nat)
    | DropPenaltyEv(owed: nat)

  /**
   * An event that can happen: reads are of versions the order really had, only queued jobs are delivered, and
   * settings are legal ones.
   */
  predicate Possible(x: Deal, e: Event) {
    match e
    case CancelEv(_, seen) => seen in x.book.versions
    case EnRouteEv(_, seen) => seen in x.book.versions
    case StartServiceEv(_, seen) => seen in x.book.versions
    case CompleteEv(_, seen, _) => seen in x.book.versions
    case ConfirmEv(_, seen) => seen in x.book.versions
    case CancelByMasterEv(_, seen) => seen in x.book.versions
    case PayEv(_, seen, rate) => seen in x.book.versions && 0.0 <= rate <= 1.0
    case ReviewEv(_, seen, _) => seen in x.book.versions
    case AdvanceEv(i, out) => i < |x.hunt.searches| && 0 < out.limit && 0.0 <= out.draw < 1.0
    case CrashEv(i) => i < |x.hunt.searches|
    case ExpireEv(d) => d < |x.jobs| && x.jobs[d] == Queued
    case _ => true
  }

  function StartSearch(x: Deal, book: Book): Deal {
    if book == x.book then x else x.(book := book, hunt := x.hunt.(searches := x.hunt.searches + [ReadOrder(1)]))
  }

  /** Calls that write the order row alone. */
  predicate IsBookEvent(e: Event) {
    e.UpdateDraftEv? || e.DiagnoseEv? || e.CancelEv? || e.EnRouteEv? || e.StartServiceEv? || e.CompleteEv? || e.ConfirmEv?
  }

  function BookStep(b: Book, e: Event): Book
    requires IsBookEvent(e)
  {
    match e
    case UpdateDraftEv(caller, patch, categories, now) => UpdateDraft(b, caller, patch, categories, now)
    case DiagnoseEv(caller, k, suggested, catalog) => Diagnose(b, caller, k, suggested, catalog)
    case CancelEv(caller, seen) => CancelByCustomer(b, caller, seen)
    case EnRouteEv(m, seen) => MoveByMaster(b, m, seen, EnRoute)
    case StartServiceEv(m, seen) => MoveByMaster(b, m, seen, InProgress)
    case CompleteEv(m, seen, amount) => CompleteService(b, m, seen, amount)
    case ConfirmEv(caller, seen) => ConfirmCompletion(b, caller, seen)
  }

  predicate IsPaymentEvent(e: Event) {
    e.PayEv? || e.ChargeEv? || e.ChargeLostEv? || e.WebhookEv? || e.ResolveEv?
  }

  function PaymentStep(ps: seq<Payment>, e: Event): seq<Payment>
    requires IsPaymentEvent(e)
  {
    match e
    case PayEv(caller, seen, rate) => Initiate(ps, caller, seen, rate)
    case ChargeEv(p, success, ref) => ChargeReturns(ps, p, success, ref)
    case ChargeLostEv(p) => ChargeLost(ps, p)
    case WebhookEv(ref, success) => Webhook(ps, ref, success)
    case ResolveEv(p, row, refund) => Resolve(ps, p, row, refund)
  }

  predicate IsConductEvent(e: Event) {
    e.ReviewEv? || e.WritePenaltyEv? || e.DropPenaltyEv?
  }

  function ConductStep(c: Conduct, e: Event): Conduct
    requires IsConductEvent(e)
  {
    match e
    case ReviewEv(caller, seen, rating) => CreateReview(c, caller, seen, rating)
    case WritePenaltyEv(i) => WritePenalty(c, i)
    case DropPenaltyEv(i) => DropPenalty(c, i)
  }

  predicate IsOfferEvent(e: Event) {
    e.AcceptEv? || e.DeclineEv? || e.ExpireEv?
  }

  function OfferStep(x: Deal, e: Event): Deal
    requires IsOfferEvent(e)
  {
    match e
    case AcceptEv(d, m, now) => AcceptOffer(x, d, m, now)
    case DeclineEv(d, m) => DeclineOffer(x, d, m)
    case ExpireEv(d) => ExpireOffer(x, d)
  }

  predicate IsJobEvent(e: Event) {
    e.QueueEv? || e.ForgetEv?
  }

  /** The statement after an offer's insert queues its expiry job, unless the process dies before. */
  function JobStep(jobs: seq<Job>, e: Event): (r: seq<Job>)
    requires IsJobEvent(e)
    ensures |r| == |jobs|
  {
    if e.offer >= |jobs| || jobs[e.offer] != Unqueued then jobs
    else jobs[e.offer := if e.QueueEv? then Queued else Forgotten]
  }

  predicate IsSearchEvent(e: Event) {
    e.SubmitEv? || e.CancelByMasterEv? || e.AdvanceEv? || e.CrashEv?
  }

  function SearchStep(x: Deal, e: Event): Deal
    requires IsSearchEvent(e) && Possible(x, e)
  {
    match e
    case SubmitEv(caller, now) => StartSearch(x, Submit(x.book, caller, now))
    case CancelByMasterEv(m, seen) => CancelByMaster(x, m, seen)
    case AdvanceEv(i, out) => Advance(x, i, out)
    case CrashEv(i) => Crash(x, i)
  }

  /** One atomic step. Events that cannot happen, and calls that are rejected, leave the deal as it is. */
  function Step(x: Deal, e: Event): Deal {
    if !Possible(x, e) then x
    else if IsBookEvent(e) then x.(book := BookStep(x.book, e))
    else if IsPaymentEvent(e) then x.(payments := PaymentStep(x.payments, e))
    else if IsConductEvent(e) then x.(conduct := ConductStep(x.conduct, e))
    else if IsOfferEvent(e) then OfferStep(x, e)
    else if IsJobEvent(e) then x.(jobs := JobStep(x.jobs, e))
    else SearchStep(x, e)
  }

  function Run(x: Deal, events: seq<Event>): Deal
    decreases |events|
  {
    if events == [] then x else Run(Step(x, events[0]), events[1..])
  }
}
