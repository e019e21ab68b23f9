/** What every step keeps of a deal. */
module DealInvariants {
  import opened Prelude
  import opened OrderState
  import opened Pricing
  import opened Scoring
  import opened Eligibility
  import opened Orders
  import opened Payments
  import opened Deals

  predicate Spent(s: OfferStatus) {
    s == Declined || s == TimedOut
  }

  /** Offers come one after the other: ranked 1..n, to distinct masters, each spent before the next; none withdrawn. */
  predicate OffersInOrder(offers: seq<Offer>) {
    && (forall i :: 0 <= i < |offers| ==> offers[i].rank == i + 1 && offers[i].status != Withdrawn)
    && (forall i :: 0 <= i < |offers| - 1 ==> Spent(offers[i].status))
    && (forall i, j :: 0 <= i < j < |offers| ==> offers[i].master != offers[j].master)
  }

  /** One when the latest offer is still open or was accepted. */
  function Live(offers: seq<Offer>): nat {
    if offers != [] && !Spent(offers[|offers| - 1].status) then 1 else 0
  }

  predicate IsAccepted(offers: seq<Offer>) {
    offers != [] && offers[|offers| - 1].status == Accepted
  }

  /** The search token: it is an open or accepted offer, an in-flight search, or was lost in a crash. */
  function Token(h: Hunt): nat {
    Live(h.offers) + |h.searches| + h.lost
  }

  predicate TokenLaw(row: OrderRow, h: Hunt) {
    && Token(h) <= 1
    && (Editable(row.status) ==> Token(h) == 0 && h.offers == [])
    && (row.status == Searching || HasMaster(row.status) ==> Token(h) == 1)
    && (row.master.Some? <==> IsAccepted(h.offers))
    && (IsAccepted(h.offers) ==> row.master == Some(h.offers[|h.offers| - 1].master))
    && (row.status == Expired ==> Live(h.offers) == 0)
  }

  predicate OrderRead(row: OrderRow, order: OrderRow) {
    order.category.Some? && SameDeal(order, row) && Locatable(order)
  }

  /** A search gives up for want of a location, or because its last query, at the expanded radius, found nobody not yet offered. */
  predicate ReasonOk(row: OrderRow, offers: seq<Offer>, r: Reason) {
    match r
    case MissingPlace => !Locatable(row)
    case PoolExhausted(world, q, expansion) =>
      && Nobody(world, q) && q.multiplier == expansion && Locatable(row)
      && Some(q.category) == row.category && q.requiredTier == RequiredTier(row.complexity)
      && q.offered == OfferedMasters(offers)
  }

  predicate Attempt(a: nat) {
    a == 1 || a == 2
  }

  /** What an in-flight search knows. */
  predicate SearchOk(b: Book, offers: seq<Offer>, s: Search) {
    match s
    case LateFee(_) => true
    case ReadOrder(attempt) => Attempt(attempt)
    case CountOffers(attempt, order) => Attempt(attempt) && OrderRead(b.row, order)
    case QueryPool(attempt, order, rank) => Attempt(attempt) && OrderRead(b.row, order) && rank == |offers|
    case CreateOffer(attempt, order, rank, picked) =>
      Attempt(attempt) && OrderRead(b.row, order) && rank == |offers| && picked.master !in OfferedMasters(offers)
    case FailRead(reason) => ReasonOk(b.row, offers, reason)
    case FailWrite(reason, seen) => seen == Searching && ReasonOk(b.row, offers, reason)
    case FailHistory(_, seen) => seen == Searching && ExpiryUnrecorded(b)
  }

  predicate SearchLaw(b: Book, h: Hunt) {
    && (forall i :: 0 <= i < |h.searches| ==> SearchOk(b, h.offers, h.searches[i]))
    && (b.row.status == Expired ==> forall i :: 0 <= i < |h.searches| ==> h.searches[i].FailHistory?)
    && (b.row.status == Expired ==> h.expiredFor.Some? && ReasonOk(b.row, h.offers, h.expiredFor.value))
    && (ExpiryUnrecorded(b) ==> h.lost == 1 || (|h.searches| == 1 && h.searches[0].FailHistory?))
    && (!Locatable(b.row) && !Editable(b.row.status) ==> h.offers == [])
  }

  // ---- Penalties ------------------------------------------------------------------

  function LateFees(offers: seq<Offer>): multiset<Penalty> {
    if offers == [] then multiset{}
    else
      var last := offers[|offers| - 1];
      LateFees(offers[..|offers| - 1])
      + (if last.status == TimedOut then multiset{Penalty(last.master, LateResponse)} else multiset{})
  }

  function CancelFee(row: OrderRow): multiset<Penalty> {
    if row.status == CancelledByMaster && row.master.Some? then multiset{Penalty(row.master.value, Cancellation)} else multiset{}
  }

  function ComplaintFee(row: OrderRow, review: Option<int>): multiset<Penalty> {
    if review.Some? && review.value <= COMPLAINT_THRESHOLD && row.master.Some?
    then multiset{Penalty(row.master.value, CustomerComplaint)} else multiset{}
  }

  /** How often the deal's history calls for penalty p. */
  function Called(row: OrderRow, offers: seq<Offer>, review: Option<int>, p: Penalty): nat {
    LateFees(offers)[p] + CancelFee(row)[p] + ComplaintFee(row, review)[p]
  }

  function InFlight(searches: seq<Search>): multiset<Penalty> {
    if searches == [] then multiset{} else multiset(FeeOf(searches[0])) + InFlight(searches[1..])
  }

  /** What has become of penalty p: written, owed, in flight or lost. */
  function Accounted(searches: seq<Search>, c: Conduct, p: Penalty): nat {
    multiset(c.penalties)[p] + multiset(c.owed)[p] + InFlight(searches)[p] + multiset(c.dropped)[p]
  }

  ghost predicate PenaltyLaw(row: OrderRow, h: Hunt, c: Conduct) {
    && (forall p :: Called(row, h.offers, c.review, p) == Accounted(h.searches, c, p))
    && (c.review.Some? ==> row.status == Closed)
  }

  /** The part of the invariant about the order and its search. */
  predicate SearchInv(b: Book, h: Hunt) {
    BookInv(b) && OffersInOrder(h.offers) && TokenLaw(b.row, h) && SearchLaw(b, h)
  }

  ghost predicate Inv(x: Deal) {
    && SearchInv(x.book, x.hunt)
    && PaymentsInv(x.payments, x.book.row)
    && PenaltyLaw(x.book.row, x.hunt, x.conduct)
    && |x.jobs| == |x.hunt.offers|
  }
}
