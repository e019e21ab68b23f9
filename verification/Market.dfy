/** All orders together, with the counters kept on the masters' profiles. */
module Market {
  import opened Prelude
  import opened OrderState
  import opened Orders
  import opened Deals
  import opened DealInvariants
  import opened DealProofs
  import opened DealTheorems

  /** Orders by number, completed-job counters and stored rating averages (two decimals). */
  datatype Market = Market(deals: seq<Deal>, jobsDone: map<MasterId, nat>, ratingAvg: map<MasterId, real>)

  datatype MarketEvent =
    | CreateDraft(customer: UserId, category: Option<CategoryId>, description: string)
    | On(order: nat, event: Event)

  const EMPTY: Market := Market([], map[], map[])

  function JobsOf(m: Market, master: MasterId): nat {
    if master in m.jobsDone then m.jobsDone[master] else 0
  }

  // ---- Reviews of a master --------------------------------------------------------

  predicate Reviews(x: Deal, master: MasterId) {
    x.conduct.review.Some? && x.book.row.master == Some(master)
  }

  function ReviewCount(deals: seq<Deal>, master: MasterId): nat {
    if deals == [] then 0
    else ReviewCount(deals[..|deals| - 1], master) + (if Reviews(deals[|deals| - 1], master) then 1 else 0)
  }

  function RatingSum(deals: seq<Deal>, master: MasterId): int {
    if deals == [] then 0
    else RatingSum(deals[..|deals| - 1], master)
         + (if Reviews(deals[|deals| - 1], master) then deals[|deals| - 1].conduct.review.value else 0)
  }

  /** The column holds two decimals, rounded half up. */
  function Hundredths(x: real): real {
    (x * 100.0 + 0.5).Floor as real / 100.0
  }

  function Average(deals: seq<Deal>, master: MasterId): real
    requires ReviewCount(deals, master) > 0
  {
    RatingSum(deals, master) as real / ReviewCount(deals, master) as real
  }

  // ---- Steps ----------------------------------------------------------------------

  /** Confirming a job also counts it, in the same transaction, for the master that was read. */
  function CountJob(m: Market, x: Deal, y: Deal, seen: OrderRow): map<MasterId, nat> {
    if y.book == x.book || seen.master.None? then m.jobsDone
    else m.jobsDone[seen.master.value := JobsOf(m, seen.master.value) + 1]
  }

  /** A review also overwrites the master's average, in the same transaction, with the average of all its reviews. */
  function Rerate(m: Market, deals: seq<Deal>, x: Deal, y: Deal, seen: OrderRow): map<MasterId, real> {
    if y.conduct == x.conduct || seen.master.None? || ReviewCount(deals, seen.master.value) == 0 then m.ratingAvg
    else m.ratingAvg[seen.master.value := Hundredths(Average(deals, seen.master.value))]
  }

  function MarketStep(m: Market, e: MarketEvent): Market {
    match e
    case CreateDraft(customer, category, description) => m.(deals := m.deals + [NewDeal(customer, category, description)])
    case On(o, event) =>
      if o >= |m.deals| then m
      else
        var x := m.deals[o];
        var y := Step(x, event);
        var deals := m.deals[o := y];
        Market(deals,
               if event.ConfirmEv? then CountJob(m, x, y, event.seen) else m.jobsDone,
               if event.ReviewEv? then Rerate(m, deals, x, y, event.seen) else m.ratingAvg)
  }

  function MarketRun(m: Market, events: seq<MarketEvent>): Market
    decreases |events|
  {
    if events == [] then m else MarketRun(MarketStep(m, events[0]), events[1..])
  }

  // ---- Ledgers --------------------------------------------------------------------

  predicate ClosedFor(x: Deal, master: MasterId) {
    x.book.row.status == Closed && x.book.row.master == Some(master)
  }

  function ClosedOrders(deals: seq<Deal>, master: MasterId): nat {
    if deals == [] then 0
    else ClosedOrders(deals[..|deals| - 1], master) + (if ClosedFor(deals[|deals| - 1], master) then 1 else 0)
  }

  ghost predicate JobsLedger(m: Market) {
    forall master :: JobsOf(m, master) == ClosedOrders(m.deals, master)
  }

  /** The stored average is the average of the master's reviews, to two decimals. */
  ghost predicate RatingLedger(m: Market) {
    forall master :: ReviewCount(m.deals, master) > 0 ==>
      master in m.ratingAvg && m.ratingAvg[master] == Hundredths(Average(m.deals, master))
  }

  ghost predicate MarketInv(m: Market) {
    && (forall o :: 0 <= o < |m.deals| ==> Inv(m.deals[o]))
    && JobsLedger(m) && RatingLedger(m)
  }

  lemma {:induction false} ClosedOrdersUpdate(deals: seq<Deal>, o: nat, y: Deal, master: MasterId)
    requires o < |deals|
    ensures ClosedOrders(deals[o := y], master) + (if ClosedFor(deals[o], master) then 1 else 0)
            == ClosedOrders(deals, master) + (if ClosedFor(y, master) then 1 else 0)
  {
    var n := |deals| - 1;
    if o < n {
      assert deals[o := y][..n] == deals[..n][o := y];
      ClosedOrdersUpdate(deals[..n], o, y, master);
    } else {
      assert deals[o := y][..n] == deals[..n];
    }
  }

  lemma {:induction false} ReviewsUpdate(deals: seq<Deal>, o: nat, y: Deal, master: MasterId)
    requires o < |deals| && Reviews(deals[o], master) == Reviews(y, master)
    requires Reviews(y, master) ==> deals[o].conduct.review == y.conduct.review
    ensures ReviewCount(deals[o := y], master) == ReviewCount(deals, master)
    ensures RatingSum(deals[o := y], master) == RatingSum(deals, master)
  {
    var n := |deals| - 1;
    if o < n {
      assert deals[o := y][..n] == deals[..n][o := y];
      ReviewsUpdate(deals[..n], o, y, master);
    } else {
      assert deals[o := y][..n] == deals[..n];
    }
  }

  lemma {:induction false} ReviewIsCounted(deals: seq<Deal>, o: nat, master: MasterId)
    requires o < |deals| && Reviews(deals[o], master)
    ensures ReviewCount(deals, master) > 0
  {
    var n := |deals| - 1;
    if o < n { ReviewIsCounted(deals[..n], o, master); }
  }

  lemma OnlyConfirmWritesClosed(b: Book, e: Event)
    requires IsBookEvent(e) && !e.ConfirmEv?
    ensures BookStep(b, e).row.status == Closed <==> b.row.status == Closed
  {
  }

  lemma BookEventNeverCloses(x: Deal, e: Event)
    requires IsBookEvent(e) && !e.ConfirmEv? && Possible(x, e)
    ensures Step(x, e).book.row.status == Closed <==> x.book.row.status == Closed
  {
    OnlyConfirmWritesClosed(x.book, e);
  }

  lemma OfferEventNeverCloses(x: Deal, e: Event)
    requires IsOfferEvent(e)
    ensures Step(x, e).book.row.status == Closed <==> x.book.row.status == Closed
  {
    AcceptNeverCloses(x, e);
  }

  lemma OthersNeverClose(x: Deal, e: Event)
    requires Inv(x) && !e.ConfirmEv?
    ensures Step(x, e).book.row.status == Closed <==> x.book.row.status == Closed
  {
    if Possible(x, e) {
      if IsBookEvent(e) {
        BookEventNeverCloses(x, e);
      } else if IsOfferEvent(e) {
        OfferEventNeverCloses(x, e);
      } else if IsSearchEvent(e) {
        SearchNeverCloses(x, e);
      }
    }
  }

  lemma ClosedRowStays(x: Deal, e: Event)
    requires Inv(x) && x.book.row.status == Closed
    ensures Step(x, e).book.row == x.book.row
  {
    StepFollowsGraph(x, e);
  }

  /** Nobody else's step closes a job, and a closed order's row never changes. */
  lemma OnlyConfirmCloses(x: Deal, e: Event)
    requires Inv(x)
    ensures !e.ConfirmEv? ==> (Step(x, e).book.row.status == Closed <==> x.book.row.status == Closed)
    ensures x.book.row.status == Closed ==> Step(x, e).book.row == x.book.row
  {
    if x.book.row.status == Closed { ClosedRowStays(x, e); }
    if !e.ConfirmEv? { OthersNeverClose(x, e); }
  }

  lemma AcceptNeverCloses(x: Deal, e: Event)
    requires IsOfferEvent(e)
    ensures OfferStep(x, e).book.row.status == Closed <==> x.book.row.status == Closed
  {
  }

  lemma SearchNeverCloses(x: Deal, e: Event)
    requires Inv(x) && IsSearchEvent(e) && Possible(x, e)
    ensures SearchStep(x, e).book.row.status == Closed <==> x.book.row.status == Closed
  {
    if e.AdvanceEv? { AdvanceFollowsGraph(x, e.search, e.out); OnlySearch(x.book, x.hunt, e.search); }
  }

  lemma ConfirmClosesForItsMaster(x: Deal, caller: UserId, seen: OrderRow)
    requires Inv(x) && seen in x.book.versions
    ensures var y := Step(x, ConfirmEv(caller, seen));
            y.book != x.book ==>
              && x.book.row.status == Completed && y.book.row.status == Closed
              && seen.master.Some? && x.book.row.master == y.book.row.master == seen.master
    ensures Step(x, ConfirmEv(caller, seen)).conduct == x.conduct
  {
    assert RowOk(seen) && Follows(seen, x.book.row) && RowOk(x.book.row);
  }

  lemma SameJobs(m: Market, m': Market, o: nat, y: Deal)
    requires JobsLedger(m) && o < |m.deals| && m'.deals == m.deals[o := y] && m'.jobsDone == m.jobsDone
    requires forall master :: ClosedFor(y, master) == ClosedFor(m.deals[o], master)
    ensures JobsLedger(m')
  {
    forall master ensures JobsOf(m', master) == ClosedOrders(m'.deals, master) {
      assert JobsOf(m, master) == ClosedOrders(m.deals, master);
      ClosedOrdersUpdate(m.deals, o, y, master);
    }
  }

  lemma OneMoreJob(m: Market, m': Market, o: nat, y: Deal, who: MasterId)
    requires JobsLedger(m) && o < |m.deals| && m'.deals == m.deals[o := y]
    requires m'.jobsDone == m.jobsDone[who := JobsOf(m, who) + 1]
    requires m.deals[o].book.row.status != Closed && y.book.row.status == Closed && y.book.row.master == Some(who)
    ensures JobsLedger(m')
  {
    forall master ensures JobsOf(m', master) == ClosedOrders(m'.deals, master) {
      assert JobsOf(m, master) == ClosedOrders(m.deals, master);
      ClosedOrdersUpdate(m.deals, o, y, master);
    }
  }

  lemma StepKeepsJobs(m: Market, o: nat, e: Event)
    requires JobsLedger(m) && o < |m.deals| && Inv(m.deals[o])
    ensures JobsLedger(MarketStep(m, On(o, e)))
  {
    var m' := MarketStep(m, On(o, e));
    var x, y := m.deals[o], Step(m.deals[o], e);
    OnlyConfirmCloses(x, e);
    if e.ConfirmEv? && y.book != x.book {
      assert Possible(x, e);
      ConfirmClosesForItsMaster(x, e.caller, e.seen);
      OneMoreJob(m, m', o, y, e.seen.master.value);
    } else {
      SameJobs(m, m', o, y);
    }
  }

  /** Reviews belong to closed orders, so only a review event changes what is counted. */
  lemma ReviewsStay(x: Deal, e: Event, master: MasterId)
    requires Inv(x) && (!e.ReviewEv? || Step(x, e).conduct == x.conduct)
    ensures Reviews(Step(x, e), master) == Reviews(x, master)
    ensures Step(x, e).conduct.review == x.conduct.review
  {
    OnlyConfirmCloses(x, e);
    if !e.ReviewEv? { ReviewUntouched(x, e); }
  }

  lemma ReviewUntouched(x: Deal, e: Event)
    requires !e.ReviewEv?
    ensures Step(x, e).conduct.review == x.conduct.review
  {
    if Possible(x, e) && e.AdvanceEv? { ReviewUntouchedBySearch(x, e.search, e.out); }
  }

  lemma ReviewUntouchedBySearch(x: Deal, i: nat, out: Outside)
    requires i < |x.hunt.searches|
    ensures Advance(x, i, out).conduct.review == x.conduct.review
  {
  }

  lemma ReviewIsForItsMaster(x: Deal, caller: UserId, seen: OrderRow, rating: int)
    requires Inv(x) && seen in x.book.versions
    ensures var y := Step(x, ReviewEv(caller, seen, rating));
            y.conduct != x.conduct ==>
              && seen.master.Some? && y.book.row.master == seen.master && x.book.row.master == seen.master
              && x.conduct.review.None? && y.conduct.review == Some(rating)
    ensures Step(x, ReviewEv(caller, seen, rating)).book == x.book
  {
    if CreateReview(x.conduct, caller, seen, rating) != x.conduct { ClosedStaysClosed(x.book, seen); }
  }

  lemma SameRatings(m: Market, m': Market, o: nat, y: Deal)
    requires RatingLedger(m) && o < |m.deals| && m'.deals == m.deals[o := y] && m'.ratingAvg == m.ratingAvg
    requires m.deals[o].conduct.review == y.conduct.review
    requires forall master :: Reviews(y, master) == Reviews(m.deals[o], master)
    ensures RatingLedger(m')
  {
    forall master | ReviewCount(m'.deals, master) > 0
      ensures master in m'.ratingAvg && m'.ratingAvg[master] == Hundredths(Average(m'.deals, master))
    {
      ReviewsUpdate(m.deals, o, y, master);
    }
  }

  lemma OneMoreRating(m: Market, m': Market, o: nat, y: Deal, who: MasterId)
    requires RatingLedger(m) && o < |m.deals| && m'.deals == m.deals[o := y]
    requires m.deals[o].book.row.master == y.book.row.master == Some(who) && y.conduct.review.Some?
    requires ReviewCount(m'.deals, who) > 0
    requires m'.ratingAvg == m.ratingAvg[who := Hundredths(Average(m'.deals, who))]
    ensures RatingLedger(m')
  {
    forall master | master != who && ReviewCount(m'.deals, master) > 0
      ensures master in m'.ratingAvg && m'.ratingAvg[master] == Hundredths(Average(m'.deals, master))
    {
      ReviewsUpdate(m.deals, o, y, master);
    }
  }

  lemma StepKeepsRatings(m: Market, o: nat, e: Event)
    requires RatingLedger(m) && o < |m.deals| && Inv(m.deals[o])
    ensures RatingLedger(MarketStep(m, On(o, e)))
  {
    var m' := MarketStep(m, On(o, e));
    var x, y := m.deals[o], Step(m.deals[o], e);
    if e.ReviewEv? && y.conduct != x.conduct {
      assert Possible(x, e);
      ReviewIsForItsMaster(x, e.caller, e.seen, e.rating);
      ReviewIsCounted(m'.deals, o, e.seen.master.value);
      OneMoreRating(m, m', o, y, e.seen.master.value);
    } else {
      forall master ensures Reviews(y, master) == Reviews(x, master) {
        ReviewsStay(x, e, master);
      }
      ReviewsStay(x, e, 0);
      SameRatings(m, m', o, y);
    }
  }

  lemma DraftKeepsMarket(m: Market, customer: UserId, category: Option<CategoryId>, description: string)
    requires MarketInv(m)
    ensures MarketInv(MarketStep(m, CreateDraft(customer, category, description)))
  {
    var x := NewDeal(customer, category, description);
    NewDealIsSound(customer, category, description);
    var m' := MarketStep(m, CreateDraft(customer, category, description));
    assert m'.deals[..|m.deals|] == m.deals;
    forall master
      ensures ClosedOrders(m'.deals, master) == ClosedOrders(m.deals, master)
      ensures ReviewCount(m'.deals, master) == ReviewCount(m.deals, master)
      ensures RatingSum(m'.deals, master) == RatingSum(m.deals, master)
    {
    }
  }

  lemma StepKeepsMarket(m: Market, e: MarketEvent)
    requires MarketInv(m)
    ensures MarketInv(MarketStep(m, e))
  {
    match e
    case CreateDraft(customer, category, description) => DraftKeepsMarket(m, customer, category, description);
    case On(o, event) =>
      if o < |m.deals| {
        StepKeepsInv(m.deals[o], event);
        StepKeepsJobs(m, o, event);
        StepKeepsRatings(m, o, event);
        assert MarketStep(m, e).deals == m.deals[o := Step(m.deals[o], event)];
      }
  }

  lemma {:induction false} RunKeepsMarket(m: Market, events: seq<MarketEvent>)
    requires MarketInv(m)
    ensures MarketInv(MarketRun(m, events))
    decreases |events|
  {
    if events != [] {
      StepKeepsMarket(m, events[0]);
      RunKeepsMarket(MarketStep(m, events[0]), events[1..]);
    }
  }

  /**
   * In every market there can be: each master's job counter is the number of its closed orders, and, reviews
   * taken as atomic, its stored rating is the average of all its reviews.
   */
  lemma CountersAreExact(events: seq<MarketEvent>, master: MasterId)
    ensures var m := MarketRun(EMPTY, events);
            && MarketInv(m) && JobsOf(m, master) == ClosedOrders(m.deals, master)
            && (ReviewCount(m.deals, master) > 0 ==>
                  master in m.ratingAvg && m.ratingAvg[master] == Hundredths(Average(m.deals, master)))
  {
    RunKeepsMarket(EMPTY, events);
  }

  /** The stored average times the number of reviews is their sum, to within half a hundredth per review. */
  lemma RatingIsTheSum(m: Market, master: MasterId)
    requires MarketInv(m) && ReviewCount(m.deals, master) > 0
    ensures var n := ReviewCount(m.deals, master) as real;
            Close(m.ratingAvg[master], n, RatingSum(m.deals, master) as real)
  {
    AverageIsClose(RatingSum(m.deals, master) as real, ReviewCount(m.deals, master) as real);
  }

  predicate Close(average: real, n: real, sum: real) {
    -0.005 * n <= average * n - sum <= 0.005 * n
  }

  lemma AverageIsClose(s: real, n: real)
    requires 0.0 < n
    ensures Close(Hundredths(s / n), n, s)
  {
    HundredthsAreClose(s / n);
    var h, a := Hundredths(s / n), s / n;
    assert a * n == s;
    ScaleBounds(h, a, n);
  }

  lemma HundredthsAreClose(x: real)
    ensures -0.005 <= Hundredths(x) - x <= 0.005
  {
    var y := x * 100.0 + 0.5;
    assert y - 1.0 < y.Floor as real <= y;
  }

  lemma ScaleBounds(a: real, b: real, n: real)
    requires 0.0 < n && -0.005 <= a - b <= 0.005
    ensures -0.005 * n <= a * n - b * n <= 0.005 * n
  {
    var d := a - b;
    assert a * n - b * n == d * n;
    NonNegative(d + 0.005, n);
    NonNegative(0.005 - d, n);
    assert (d + 0.005) * n == d * n + 0.005 * n;
    assert (0.005 - d) * n == 0.005 * n - d * n;
  }

  lemma NonNegative(x: real, y: real)
    requires 0.0 <= x && 0.0 <= y
    ensures 0.0 <= x * y
  {
  }

  // ---- Penalties across all orders ------------------------------------------------

  function AccountedIn(deals: seq<Deal>, p: Penalty): nat {
    if deals == [] then 0
    else AccountedIn(deals[..|deals| - 1], p)
         + Accounted(deals[|deals| - 1].hunt.searches, deals[|deals| - 1].conduct, p)
  }

  function TimedOutIn(deals: seq<Deal>, master: MasterId): nat {
    if deals == [] then 0
    else TimedOutIn(deals[..|deals| - 1], master) + TimedOutOffers(deals[|deals| - 1].hunt.offers, master)
  }

  predicate CancelledBy(x: Deal, master: MasterId) {
    x.book.row.status == CancelledByMaster && x.book.row.master == Some(master)
  }

  function CancelledIn(deals: seq<Deal>, master: MasterId): nat {
    if deals == [] then 0
    else CancelledIn(deals[..|deals| - 1], master) + (if CancelledBy(deals[|deals| - 1], master) then 1 else 0)
  }

  predicate ComplainedOf(x: Deal, master: MasterId) {
    Reviews(x, master) && x.conduct.review.value <= COMPLAINT_THRESHOLD
  }

  function ComplaintsIn(deals: seq<Deal>, master: MasterId): nat {
    if deals == [] then 0
    else ComplaintsIn(deals[..|deals| - 1], master) + (if ComplainedOf(deals[|deals| - 1], master) then 1 else 0)
  }

  function Calls(x: Deal, p: Penalty): nat {
    Called(x.book.row, x.hunt.offers, x.conduct.review, p)
  }

  function CalledIn(deals: seq<Deal>, p: Penalty): nat {
    if deals == [] then 0
    else CalledIn(deals[..|deals| - 1], p) + Calls(deals[|deals| - 1], p)
  }

  lemma {:induction false} LedgersAddUp(deals: seq<Deal>, p: Penalty)
    requires forall o :: 0 <= o < |deals| ==> Inv(deals[o])
    ensures AccountedIn(deals, p) == CalledIn(deals, p)
  {
    if deals != [] {
      LedgersAddUp(deals[..|deals| - 1], p);
      LedgerEntry(deals[|deals| - 1], p);
    }
  }

  /** What one deal calls for, kind by kind. */
  lemma CallsOfOneDeal(x: Deal, master: MasterId)
    ensures Calls(x, Penalty(master, LateResponse)) == TimedOutOffers(x.hunt.offers, master)
    ensures Calls(x, Penalty(master, Cancellation)) == (if CancelledBy(x, master) then 1 else 0)
    ensures Calls(x, Penalty(master, CustomerComplaint)) == (if ComplainedOf(x, master) then 1 else 0)
  {
    LateFeesAreCounted(x.hunt.offers, master);
  }

  lemma {:induction false} LateCallsAddUp(deals: seq<Deal>, master: MasterId)
    ensures CalledIn(deals, Penalty(master, LateResponse)) == TimedOutIn(deals, master)
  {
    if deals != [] {
      LateCallsAddUp(deals[..|deals| - 1], master);
      CallsOfOneDeal(deals[|deals| - 1], master);
    }
  }

  lemma {:induction false} CancellationsAddUp(deals: seq<Deal>, master: MasterId)
    ensures CalledIn(deals, Penalty(master, Cancellation)) == CancelledIn(deals, master)
  {
    if deals != [] {
      CancellationsAddUp(deals[..|deals| - 1], master);
      CallsOfOneDeal(deals[|deals| - 1], master);
    }
  }

  lemma {:induction false} ComplaintsAddUp(deals: seq<Deal>, master: MasterId)
    ensures CalledIn(deals, Penalty(master, CustomerComplaint)) == ComplaintsIn(deals, master)
  {
    if deals != [] {
      ComplaintsAddUp(deals[..|deals| - 1], master);
      CallsOfOneDeal(deals[|deals| - 1], master);
    }
  }

  /** Over the whole market, the penalties of a master are as many as the events that call for them. */
  lemma PenaltiesMatchEvents(m: Market, master: MasterId)
    requires MarketInv(m)
    ensures AccountedIn(m.deals, Penalty(master, LateResponse)) == TimedOutIn(m.deals, master)
    ensures AccountedIn(m.deals, Penalty(master, Cancellation)) == CancelledIn(m.deals, master)
    ensures AccountedIn(m.deals, Penalty(master, CustomerComplaint)) == ComplaintsIn(m.deals, master)
  {
    LedgersAddUp(m.deals, Penalty(master, LateResponse));
    LedgersAddUp(m.deals, Penalty(master, Cancellation));
    LedgersAddUp(m.deals, Penalty(master, CustomerComplaint));
    LateCallsAddUp(m.deals, master);
    CancellationsAddUp(m.deals, master);
    ComplaintsAddUp(m.deals, master);
  }
}
