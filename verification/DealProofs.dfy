/** Every step keeps the invariant, one lemma per kind of step. */
module DealProofs {
  import opened Prelude
  import opened OrderState
  import opened Pricing
  import opened Scoring
  import opened Eligibility
  import opened Orders
  import opened Payments
  import opened Deals
  import opened DealInvariants

  lemma NewDealIsSound(customer: UserId, category: Option<CategoryId>, description: string)
    ensures Inv(NewDeal(customer, category, description))
  {
    NewOrderIsSound(customer, category, description);
  }

  // ---- Writes to the order row alone ----------------------------------------------

  /** A legal write that neither starts nor ends a search, sets no master and owes no penalty. */
  predicate QuietWrite(b: Book, c: Book) {
    && LegalWrite(b, c) && c.row.master == b.row.master
    && (c.row.status == b.row.status || c.row.status !in {Searching, Assigned, Expired, CancelledByMaster})
  }

  lemma SearchesSurvive(b: Book, c: Book, h: Hunt)
    requires SearchInv(b, h) && BookInv(c) && Follows(b.row, c.row) && b.row.status != Expired && c.row.status != Expired
    ensures forall i :: 0 <= i < |h.searches| ==> SearchOk(c, h.offers, h.searches[i])
  {
    forall i | 0 <= i < |h.searches| ensures SearchOk(c, h.offers, h.searches[i]) {
      assert SearchOk(b, h.offers, h.searches[i]);
    }
  }

  lemma QuietWriteKeepsSearch(b: Book, c: Book, h: Hunt)
    requires SearchInv(b, h) && QuietWrite(b, c) && b.row.status != Expired
    ensures SearchInv(c, h)
  {
    LegalWriteKeepsBook(b, c);
    SearchesSurvive(b, c, h);
    assert RowOk(b.row) && RowOk(c.row);
  }

  lemma ExpiredIsFinal(b: Book, c: Book)
    requires LegalWrite(b, c) && b.row.status == Expired
    ensures c.row.status == Expired && c.row == b.row && c.history == b.history
  {
  }

  lemma QuietWriteKeepsRest(x: Deal, c: Book)
    requires Inv(x) && QuietWrite(x.book, c) && x.book.row.status != Expired
    ensures PaymentsInv(x.payments, c.row) && PenaltyLaw(c.row, x.hunt, x.conduct)
  {
    assert RowOk(x.book.row) && Follows(x.book.row, c.row);
    assert CancelFee(c.row) == CancelFee(x.book.row);
    forall p ensures Called(c.row, x.hunt.offers, x.conduct.review, p) == Accounted(x.hunt.searches, x.conduct, p) {
      assert Called(x.book.row, x.hunt.offers, x.conduct.review, p) == Accounted(x.hunt.searches, x.conduct, p);
    }
  }

  lemma QuietWriteKeepsInv(x: Deal, c: Book)
    requires Inv(x) && (c == x.book || QuietWrite(x.book, c))
    ensures Inv(x.(book := c))
  {
    if c != x.book {
      if x.book.row.status == Expired {
        ExpiredIsFinal(x.book, c);
      } else {
        QuietWriteKeepsSearch(x.book, c, x.hunt);
        QuietWriteKeepsRest(x, c);
      }
    }
  }

  lemma BookStepIsQuiet(b: Book, e: Event)
    requires BookInv(b) && IsBookEvent(e)
    requires match e
             case CancelEv(_, seen) => seen in b.versions
             case EnRouteEv(_, seen) => seen in b.versions
             case StartServiceEv(_, seen) => seen in b.versions
             case CompleteEv(_, seen, _) => seen in b.versions
             case ConfirmEv(_, seen) => seen in b.versions
             case _ => true
    ensures BookStep(b, e) == b || QuietWrite(b, BookStep(b, e))
  {
    match e
    case UpdateDraftEv(caller, patch, categories, now) => EditIsLegal(b, caller, patch, categories, now);
    case DiagnoseEv(caller, k, suggested, catalog) => DiagnoseIsLegal(b, caller, k, suggested, catalog);
    case CancelEv(caller, seen) => CancelIsLegal(b, caller, seen);
    case ConfirmEv(caller, seen) => ConfirmIsLegal(b, caller, seen);
    case EnRouteEv(m, seen) => MoveIsLegal(b, m, seen, EnRoute);
    case StartServiceEv(m, seen) => MoveIsLegal(b, m, seen, InProgress);
    case CompleteEv(m, seen, amount) => CompleteIsLegal(b, m, seen, amount);
  }

  lemma BookStepsKeepInv(x: Deal, e: Event)
    requires Inv(x) && Possible(x, e) && IsBookEvent(e)
    ensures Inv(Step(x, e))
  {
    BookStepIsQuiet(x.book, e);
    QuietWriteKeepsInv(x, BookStep(x.book, e));
  }

  lemma InFlightOne(s: Search)
    ensures InFlight([s]) == multiset(FeeOf(s))
  {
    assert [s][1..] == [];
  }

  lemma SubmitKeepsSearch(b: Book, c: Book, h: Hunt)
    requires SearchInv(b, h) && LegalWrite(b, c) && c.row.status == Searching && Editable(b.row.status)
    requires c.row.master == b.row.master
    ensures h.searches == [] && SearchInv(c, h.(searches := [ReadOrder(1)]))
  {
    assert h.searches == [];
    LegalWriteKeepsBook(b, c);
  }

  lemma IdleSearchOwesNothing(row: OrderRow, row': OrderRow, h: Hunt, c: Conduct, s: Search)
    requires PenaltyLaw(row, h, c) && h.searches == [] && c.review.None? && FeeOf(s) == []
    requires row.status != CancelledByMaster && row'.status != CancelledByMaster
    ensures PenaltyLaw(row', h.(searches := [s]), c)
  {
    InFlightOne(s);
    forall p ensures Called(row', h.offers, c.review, p) == Accounted([s], c, p) {
      assert Called(row, h.offers, c.review, p) == Accounted(h.searches, c, p);
    }
  }

  lemma SubmitKeepsInv(x: Deal, caller: UserId, now: int)
    requires Inv(x)
    ensures Inv(StartSearch(x, Submit(x.book, caller, now)))
  {
    var c := Submit(x.book, caller, now);
    SubmitIsLegal(x.book, caller, now);
    if c != x.book {
      SubmitKeepsSearch(x.book, c, x.hunt);
      assert x.payments == [] && x.conduct.review.None?;
      IdleSearchOwesNothing(x.book.row, c.row, x.hunt, x.conduct, ReadOrder(1));
      assert StartSearch(x, c).hunt == x.hunt.(searches := [ReadOrder(1)]);
    }
  }

  lemma CancelByMasterKeepsSearch(b: Book, c: Book, h: Hunt)
    requires SearchInv(b, h) && LegalWrite(b, c) && c.row.status == CancelledByMaster && b.row.master.Some?
    ensures SearchInv(c, h)
  {
    LegalWriteKeepsBook(b, c);
    assert h.searches == [];
  }

  lemma CancelFeeIsOwed(row: OrderRow, row': OrderRow, h: Hunt, c: Conduct, caller: MasterId)
    requires PenaltyLaw(row, h, c) && c.review.None? && row.status != CancelledByMaster
    requires row'.status == CancelledByMaster && row'.master == Some(caller)
    ensures PenaltyLaw(row', h, c.(owed := c.owed + [Penalty(caller, Cancellation)]))
  {
    var c' := c.(owed := c.owed + [Penalty(caller, Cancellation)]);
    forall p ensures Called(row', h.offers, c'.review, p) == Accounted(h.searches, c', p) {
      assert Called(row, h.offers, c.review, p) == Accounted(h.searches, c, p);
    }
  }

  lemma CancelByMasterKeepsInv(x: Deal, caller: MasterId, seen: OrderRow)
    requires Inv(x) && seen in x.book.versions
    ensures Inv(CancelByMaster(x, caller, seen))
  {
    var c := MoveByMaster(x.book, caller, seen, CancelledByMaster);
    MoveIsLegal(x.book, caller, seen, CancelledByMaster);
    if c != x.book {
      assert RowOk(seen) && Follows(seen, x.book.row);
      assert x.payments == [] && x.conduct.review.None?;
      CancelByMasterKeepsSearch(x.book, c, x.hunt);
      CancelFeeIsOwed(x.book.row, c.row, x.hunt, x.conduct, caller);
    }
  }

  // ---- Offers ---------------------------------------------------------------------

  lemma LateFeesOfLast(offers: seq<Offer>, last: Offer)
    requires offers != []
    ensures LateFees(offers[|offers| - 1 := last]) ==
            LateFees(offers[..|offers| - 1])
            + (if last.status == TimedOut then multiset{Penalty(last.master, LateResponse)} else multiset{})
  {
    var n := |offers| - 1;
    assert offers[n := last][..n] == offers[..n];
  }

  lemma OpenOfferIsLast(b: Book, h: Hunt, d: nat)
    requires SearchInv(b, h) && d < |h.offers| && h.offers[d].status == Offered
    ensures d == |h.offers| - 1 && h.searches == [] && h.lost == 0
    ensures b.row.status == Searching || b.row.status == CancelledByCustomer
    ensures b.row.master.None?
  {
    assert RowOk(b.row);
  }

  lemma SpendOfferKeepsSearch(b: Book, h: Hunt, d: nat, status: OfferStatus, next: Search)
    requires SearchInv(b, h) && d < |h.offers| && h.offers[d].status == Offered && Spent(status)
    requires next == ReadOrder(1) || next == LateFee(h.offers[d].master)
    ensures SearchInv(b, h.(offers := h.offers[d := h.offers[d].(status := status)], searches := [next]))
  {
    OpenOfferIsLast(b, h, d);
  }

  lemma SpentOfferFees(offers: seq<Offer>, d: nat, status: OfferStatus)
    requires d == |offers| - 1 && offers[d].status == Offered
    ensures LateFees(offers[d := offers[d].(status := status)]) ==
            LateFees(offers) + (if status == TimedOut then multiset{Penalty(offers[d].master, LateResponse)} else multiset{})
  {
    LateFeesOfLast(offers, offers[d].(status := status));
    assert LateFees(offers) == LateFees(offers[..d]);
  }

  lemma SpendOfferKeepsPenalties(row: OrderRow, h: Hunt, c: Conduct, d: nat, status: OfferStatus, next: Search)
    requires PenaltyLaw(row, h, c) && h.searches == [] && d == |h.offers| - 1 && h.offers[d].status == Offered
    requires (status == Declined && next == ReadOrder(1)) || (status == TimedOut && next == LateFee(h.offers[d].master))
    ensures PenaltyLaw(row, h.(offers := h.offers[d := h.offers[d].(status := status)], searches := [next]), c)
  {
    var offers := h.offers[d := h.offers[d].(status := status)];
    SpentOfferFees(h.offers, d, status);
    InFlightOne(next);
    forall p ensures Called(row, offers, c.review, p) == Accounted([next], c, p) {
      assert Called(row, h.offers, c.review, p) == Accounted(h.searches, c, p);
      assert LateFees(offers)[p] == LateFees(h.offers)[p] + multiset(FeeOf(next))[p];
    }
  }

  lemma SpendOfferKeepsInv(x: Deal, d: nat, status: OfferStatus, next: Search)
    requires Inv(x) && d < |x.hunt.offers| && x.hunt.offers[d].status == Offered
    requires (status == Declined && next == ReadOrder(1)) || (status == TimedOut && next == LateFee(x.hunt.offers[d].master))
    ensures Inv(Spend(x, d, status, next))
  {
    OpenOfferIsLast(x.book, x.hunt, d);
    assert x.hunt.searches + [next] == [next];
    SpendOfferKeepsSearch(x.book, x.hunt, d, status, next);
    SpendOfferKeepsPenalties(x.book.row, x.hunt, x.conduct, d, status, next);
  }

  lemma AcceptKeepsSearch(b: Book, h: Hunt, d: nat)
    requires SearchInv(b, h) && d < |h.offers| && h.offers[d].status == Offered && b.row.status == Searching
    ensures SearchInv(Assign(b, h.offers[d].master), h.(offers := h.offers[d := h.offers[d].(status := Accepted)]))
  {
    OpenOfferIsLast(b, h, d);
    AssignIsLegal(b, h.offers[d].master);
    LegalWriteKeepsBook(b, Assign(b, h.offers[d].master));
  }

  lemma AcceptKeepsPenalties(row: OrderRow, row': OrderRow, h: Hunt, c: Conduct, d: nat)
    requires PenaltyLaw(row, h, c) && d == |h.offers| - 1 && h.offers[d].status == Offered && c.review.None?
    requires row.status == Searching && row'.status == Assigned
    ensures PenaltyLaw(row', h.(offers := h.offers[d := h.offers[d].(status := Accepted)]), c)
  {
    var offers := h.offers[d := h.offers[d].(status := Accepted)];
    LateFeesOfLast(h.offers, h.offers[d].(status := Accepted));
    assert LateFees(h.offers) == LateFees(h.offers[..d]);
    forall p ensures Called(row', offers, c.review, p) == Accounted(h.searches, c, p) {
      assert Called(row, h.offers, c.review, p) == Accounted(h.searches, c, p);
    }
  }

  /** The write that withdraws the other open offers never finds one. */
  lemma NothingToWithdraw(x: Deal, d: nat, caller: MasterId, now: int)
    requires Inv(x) && AcceptAllowed(x, d, caller, now)
    ensures AcceptOffer(x, d, caller, now).hunt.offers == x.hunt.offers[d := x.hunt.offers[d].(status := Accepted)]
  {
    OpenOfferIsLast(x.book, x.hunt, d);
  }

  lemma AcceptKeepsInv(x: Deal, d: nat, caller: MasterId, now: int)
    requires Inv(x)
    ensures Inv(AcceptOffer(x, d, caller, now))
  {
    if AcceptAllowed(x, d, caller, now) {
      NothingToWithdraw(x, d, caller, now);
      AcceptKeepsSearch(x.book, x.hunt, d);
      OpenOfferIsLast(x.book, x.hunt, d);
      assert x.payments == [] && x.conduct.review.None?;
      AcceptKeepsPenalties(x.book.row, Assign(x.book, caller).row, x.hunt, x.conduct, d);
    }
  }

  // ---- The cascade ----------------------------------------------------------------

  /** With one token, the only in-flight search is the first. */
  lemma OnlySearch(b: Book, h: Hunt, i: nat)
    requires SearchInv(b, h) && i < |h.searches|
    ensures i == 0 && h.searches == [h.searches[0]] && h.lost == 0 && Live(h.offers) == 0
    ensures !Editable(b.row.status) && b.row.master.None? && SearchOk(b, h.offers, h.searches[0])
    ensures Without(h.searches, i) == [] && forall s :: h.searches[i := s] == [s]
  {
    assert RowOk(b.row);
  }

  /** Swapping one search for others that carry the same fee leaves the accounts alone. */
  lemma SameFee(row: OrderRow, h: Hunt, c: Conduct, searches: seq<Search>)
    requires PenaltyLaw(row, h, c) && InFlight(searches) == InFlight(h.searches)
    ensures PenaltyLaw(row, h.(searches := searches), c)
  {
    forall p ensures Called(row, h.offers, c.review, p) == Accounted(searches, c, p) {
      assert Called(row, h.offers, c.review, p) == Accounted(h.searches, c, p);
    }
  }

  lemma GotoKeepsInv(x: Deal, i: nat, s: Search)
    requires Inv(x) && i < |x.hunt.searches| && SearchOk(x.book, x.hunt.offers, s)
    requires FeeOf(x.hunt.searches[i]) == [] && !x.hunt.searches[i].FailHistory? && FeeOf(s) == []
    ensures Inv(Goto(x, i, s))
  {
    OnlySearch(x.book, x.hunt, i);
    assert Goto(x, i, s).hunt == x.hunt.(searches := [s]);
    InFlightOne(x.hunt.searches[0]);
    InFlightOne(s);
    SameFee(x.book.row, x.hunt, x.conduct, [s]);
    ReplaceSearch(x.book, x.hunt, s);
  }

  lemma ReplaceSearch(b: Book, h: Hunt, s: Search)
    requires SearchInv(b, h) && |h.searches| == 1 && !h.searches[0].FailHistory? && SearchOk(b, h.offers, s)
    ensures SearchInv(b, h.(searches := [s]))
  {
  }

  lemma EndSearch(b: Book, h: Hunt)
    requires SearchInv(b, h) && |h.searches| == 1 && b.row.status != Searching
    requires !h.searches[0].FailHistory?
    ensures SearchInv(b, h.(searches := []))
  {
    OnlySearch(b, h, 0);
  }

  lemma DoneKeepsInv(x: Deal, i: nat)
    requires Inv(x) && i < |x.hunt.searches| && x.book.row.status != Searching
    requires FeeOf(x.hunt.searches[i]) == [] && !x.hunt.searches[i].FailHistory?
    ensures Inv(Done(x, i))
  {
    OnlySearch(x.book, x.hunt, i);
    EndSearch(x.book, x.hunt);
    InFlightOne(x.hunt.searches[0]);
    SameFee(x.book.row, x.hunt, x.conduct, []);
  }

  lemma LateFeeIsWritten(row: OrderRow, h: Hunt, c: Conduct)
    requires PenaltyLaw(row, h, c) && |h.searches| == 1 && h.searches[0].LateFee?
    ensures PenaltyLaw(row, h.(searches := [ReadOrder(1)]), c.(penalties := c.penalties + FeeOf(h.searches[0])))
  {
    assert h.searches == [h.searches[0]];
    InFlightOne(h.searches[0]);
    InFlightOne(ReadOrder(1));
    var c' := c.(penalties := c.penalties + FeeOf(h.searches[0]));
    forall p ensures Called(row, h.offers, c'.review, p) == Accounted([ReadOrder(1)], c', p) {
      assert Called(row, h.offers, c.review, p) == Accounted(h.searches, c, p);
    }
  }

  lemma LateFeeKeepsInv(x: Deal, i: nat, out: Outside)
    requires Inv(x) && i < |x.hunt.searches| && x.hunt.searches[i].LateFee?
    ensures Inv(Advance(x, i, out))
  {
    OnlySearch(x.book, x.hunt, i);
    ReplaceSearch(x.book, x.hunt, ReadOrder(1));
    LateFeeIsWritten(x.book.row, x.hunt, x.conduct);
    assert Advance(x, i, out).hunt == x.hunt.(searches := [ReadOrder(1)]);
  }

  lemma NewMasterIsDistinct(offers: seq<Offer>, o: Offer)
    requires OffersInOrder(offers) && Live(offers) == 0
    requires o.master !in OfferedMasters(offers) && o.rank == |offers| + 1 && o.status == Offered
    ensures OffersInOrder(offers + [o])
  {
    var r := offers + [o];
    forall i, j | 0 <= i < j < |r| ensures r[i].master != r[j].master {
      if j == |offers| { assert offers[i].master in OfferedMasters(offers); }
    }
  }

  lemma CreateKeepsSearch(b: Book, h: Hunt, o: Offer)
    requires SearchInv(b, h) && |h.searches| == 1 && h.searches[0].CreateOffer?
    requires o.master == h.searches[0].picked.master && o.rank == h.searches[0].rank + 1 && o.status == Offered
    ensures SearchInv(b, h.(offers := h.offers + [o], searches := []))
  {
    OnlySearch(b, h, 0);
    NewMasterIsDistinct(h.offers, o);
    assert (h.offers + [o])[|h.offers|] == o;
  }

  lemma NewOfferOwesNothing(row: OrderRow, h: Hunt, c: Conduct, o: Offer)
    requires PenaltyLaw(row, h, c) && |h.searches| == 1 && FeeOf(h.searches[0]) == [] && o.status == Offered
    ensures PenaltyLaw(row, h.(offers := h.offers + [o], searches := []), c)
  {
    assert h.searches == [h.searches[0]];
    InFlightOne(h.searches[0]);
    assert (h.offers + [o])[..|h.offers|] == h.offers;
    assert LateFees(h.offers + [o]) == LateFees(h.offers);
    forall p ensures Called(row, h.offers + [o], c.review, p) == Accounted([], c, p) {
      assert Called(row, h.offers, c.review, p) == Accounted(h.searches, c, p);
    }
  }

  lemma InsertKeepsInv(x: Deal, o: Offer)
    requires Inv(x) && |x.hunt.searches| == 1 && x.hunt.searches[0].CreateOffer? && x.hunt.lost == 0 && Live(x.hunt.offers) == 0
    requires o.status == Offered && o.rank == |x.hunt.offers| + 1 && o.master == x.hunt.searches[0].picked.master
    ensures Inv(x.(hunt := x.hunt.(offers := x.hunt.offers + [o], searches := []), jobs := x.jobs + [Unqueued]))
  {
    assert x.hunt.searches == [x.hunt.searches[0]];
    CreateKeepsSearch(x.book, x.hunt, o);
    NewOfferOwesNothing(x.book.row, x.hunt, x.conduct, o);
  }

  lemma CreateInserts(x: Deal, i: nat, out: Outside)
    requires SearchInv(x.book, x.hunt) && i < |x.hunt.searches| && x.hunt.searches[i].CreateOffer?
    ensures var s := x.hunt.searches[0];
            && i == 0 && s.CreateOffer? && s.rank == |x.hunt.offers| && |x.hunt.searches| == 1
            && x.hunt.lost == 0 && Live(x.hunt.offers) == 0
            && Advance(x, i, out)
               == x.(hunt := x.hunt.(offers := x.hunt.offers + [FreshOffer(s.picked, s.rank + 1, s.order.tier, out)], searches := []),
                     jobs := x.jobs + [Unqueued])
  {
    OnlySearch(x.book, x.hunt, i);
  }

  lemma CreateKeepsInv(x: Deal, i: nat, out: Outside)
    requires Inv(x) && i < |x.hunt.searches| && x.hunt.searches[i].CreateOffer?
    ensures Inv(Advance(x, i, out))
  {
    CreateInserts(x, i, out);
    var s := x.hunt.searches[0];
    InsertKeepsInv(x, FreshOffer(s.picked, s.rank + 1, s.order.tier, out));
  }

  lemma FailWriteKeepsSearch(b: Book, h: Hunt, reason: Reason)
    requires SearchInv(b, h) && |h.searches| == 1 && b.row.status == Searching
    requires h.searches[0] == FailWrite(reason, Searching)
    ensures SearchInv(Expire(b, Searching), h.(searches := [FailHistory(reason, Searching)], expiredFor := Some(reason)))
  {
    OnlySearch(b, h, 0);
    ExpireKeepsBook(b, Searching);
    assert RowOk(b.row);
  }

  lemma ExpiryOwesNothing(row: OrderRow, h: Hunt, c: Conduct, reason: Reason)
    requires PenaltyLaw(row, h, c) && h.searches == [FailWrite(reason, Searching)] && row.status == Searching && c.review.None?
    ensures PenaltyLaw(row.(status := Expired), h.(searches := [FailHistory(reason, Searching)], expiredFor := Some(reason)), c)
  {
    InFlightOne(FailWrite(reason, Searching));
    InFlightOne(FailHistory(reason, Searching));
    forall p ensures Called(row.(status := Expired), h.offers, c.review, p) == Accounted([FailHistory(reason, Searching)], c, p) {
      assert Called(row, h.offers, c.review, p) == Accounted(h.searches, c, p);
    }
  }

  lemma FailWriteKeepsInv(x: Deal, i: nat, out: Outside)
    requires Inv(x) && i < |x.hunt.searches| && x.hunt.searches[i].FailWrite?
    ensures Inv(Advance(x, i, out))
  {
    OnlySearch(x.book, x.hunt, i);
    var s := x.hunt.searches[0];
    if x.book.row.status == Searching {
      FailWriteKeepsSearch(x.book, x.hunt, s.reason);
      ExpiryOwesNothing(x.book.row, x.hunt, x.conduct, s.reason);
      assert x.payments == [] && x.conduct.review.None?;
      assert Advance(x, i, out).hunt == x.hunt.(searches := [FailHistory(s.reason, Searching)], expiredFor := Some(s.reason));
    } else {
      DoneKeepsInv(x, i);
    }
  }

  lemma FailHistoryKeepsSearch(b: Book, h: Hunt)
    requires SearchInv(b, h) && |h.searches| == 1 && h.searches[0].FailHistory?
    ensures SearchInv(RecordExpiry(b, Searching), h.(searches := []))
  {
    OnlySearch(b, h, 0);
    RecordExpiryKeepsBook(b);
  }

  lemma FailHistoryKeepsInv(x: Deal, i: nat, out: Outside)
    requires Inv(x) && i < |x.hunt.searches| && x.hunt.searches[i].FailHistory?
    ensures Inv(Advance(x, i, out))
  {
    OnlySearch(x.book, x.hunt, i);
    FailHistoryKeepsSearch(x.book, x.hunt);
    InFlightOne(x.hunt.searches[0]);
    SameFee(x.book.row, x.hunt, x.conduct, []);
  }

  lemma QueryKeepsInv(x: Deal, i: nat, out: Outside)
    requires Inv(x) && i < |x.hunt.searches| && x.hunt.searches[i].QueryPool? && 0 < out.limit
    ensures Inv(Advance(x, i, out))
  {
    OnlySearch(x.book, x.hunt, i);
    var s := x.hunt.searches[i];
    var q := PoolQuery(x, s.order, s.attempt, out);
    var pool := FindEligible(out.world, q);
    EmptyMeansNobody(out.world, q);
    if pool == [] {
      GotoKeepsInv(x, i, if s.attempt == 1 then ReadOrder(2) else FailRead(PoolExhausted(out.world, q, out.expansion)));
    } else {
      var picked := pool[Pick(pool, out.draw)];
      PickedIsEligible(out.world, q, picked);
      GotoKeepsInv(x, i, CreateOffer(s.attempt, s.order, s.rank, picked));
    }
  }

  lemma ReadOrderKeepsInv(x: Deal, i: nat, out: Outside)
    requires Inv(x) && i < |x.hunt.searches| && x.hunt.searches[i].ReadOrder?
    ensures Inv(Advance(x, i, out))
  {
    OnlySearch(x.book, x.hunt, i);
    var row := x.book.row;
    assert RowOk(row);
    if row.status != Searching {
      DoneKeepsInv(x, i);
    } else if row.category.None? || !Locatable(row) {
      GotoKeepsInv(x, i, FailRead(MissingPlace));
    } else {
      GotoKeepsInv(x, i, CountOffers(x.hunt.searches[i].attempt, row));
    }
  }

  lemma AdvanceKeepsInv(x: Deal, i: nat, out: Outside)
    requires Inv(x) && i < |x.hunt.searches| && 0 < out.limit
    ensures Inv(Advance(x, i, out))
  {
    OnlySearch(x.book, x.hunt, i);
    match x.hunt.searches[i]
    case LateFee(_) => LateFeeKeepsInv(x, i, out);
    case ReadOrder(_) => ReadOrderKeepsInv(x, i, out);
    case CountOffers(attempt, order) => GotoKeepsInv(x, i, QueryPool(attempt, order, |x.hunt.offers|));
    case QueryPool(_, _, _) => QueryKeepsInv(x, i, out);
    case CreateOffer(_, _, _, _) => CreateKeepsInv(x, i, out);
    case FailRead(reason) =>
      if CanTransition(x.book.row.status, Expired) {
        GotoKeepsInv(x, i, FailWrite(reason, x.book.row.status));
      } else {
        DoneKeepsInv(x, i);
      }
    case FailWrite(_, _) => FailWriteKeepsInv(x, i, out);
    case FailHistory(_, _) => FailHistoryKeepsInv(x, i, out);
  }

  lemma CrashKeepsSearch(b: Book, h: Hunt)
    requires SearchInv(b, h) && |h.searches| == 1
    ensures SearchInv(b, h.(searches := [], lost := h.lost + 1))
  {
    OnlySearch(b, h, 0);
  }

  lemma FeeIsLost(row: OrderRow, h: Hunt, c: Conduct)
    requires PenaltyLaw(row, h, c) && |h.searches| == 1
    ensures PenaltyLaw(row, h.(searches := [], lost := h.lost + 1), c.(dropped := c.dropped + FeeOf(h.searches[0])))
  {
    assert h.searches == [h.searches[0]];
    InFlightOne(h.searches[0]);
    var c' := c.(dropped := c.dropped + FeeOf(h.searches[0]));
    forall p ensures Called(row, h.offers, c'.review, p) == Accounted([], c', p) {
      assert Called(row, h.offers, c.review, p) == Accounted(h.searches, c, p);
    }
  }

  lemma CrashKeepsInv(x: Deal, i: nat)
    requires Inv(x) && i < |x.hunt.searches|
    ensures Inv(Crash(x, i))
  {
    OnlySearch(x.book, x.hunt, i);
    CrashKeepsSearch(x.book, x.hunt);
    FeeIsLost(x.book.row, x.hunt, x.conduct);
  }

  // ---- Payments, reviews and penalties --------------------------------------------

  lemma PaymentStepKeepsPayments(ps: seq<Payment>, b: Book, e: Event)
    requires PaymentsInv(ps, b.row) && BookInv(b) && IsPaymentEvent(e)
    requires e.PayEv? ==> e.seen in b.versions && 0.0 <= e.rate <= 1.0
    ensures PaymentsInv(PaymentStep(ps, e), b.row)
  {
    match e
    case PayEv(caller, seen, rate) => InitiateKeepsPayments(ps, b, caller, seen, rate);
    case ChargeEv(p, success, ref) => SettlementKeepsPayments(ps, b.row, p, success, ref);
    case ChargeLostEv(p) => SettlementKeepsPayments(ps, b.row, p, true, "");
    case WebhookEv(ref, success) => WebhookIsNoOp(ps, b.row, ref, success);
    case ResolveEv(p, row, refund) => ResolveKeepsPayments(ps, b.row, p, row, refund);
  }

  lemma PaymentStepsKeepInv(x: Deal, e: Event)
    requires Inv(x) && Possible(x, e) && IsPaymentEvent(e)
    ensures Inv(Step(x, e))
  {
    PaymentStepKeepsPayments(x.payments, x.book, e);
  }

  lemma WithoutIsRemoval<T>(s: seq<T>, i: nat)
    requires i < |s|
    ensures multiset(s) == multiset(Without(s, i)) + multiset{s[i]}
  {
    assert s == s[..i] + [s[i]] + s[i + 1..];
  }

  lemma OwedMoves(row: OrderRow, h: Hunt, c: Conduct, i: nat)
    requires PenaltyLaw(row, h, c) && i < |c.owed|
    ensures PenaltyLaw(row, h, c.(penalties := c.penalties + [c.owed[i]], owed := Without(c.owed, i)))
    ensures PenaltyLaw(row, h, c.(dropped := c.dropped + [c.owed[i]], owed := Without(c.owed, i)))
  {
    WithoutIsRemoval(c.owed, i);
    var w := c.(penalties := c.penalties + [c.owed[i]], owed := Without(c.owed, i));
    var d := c.(dropped := c.dropped + [c.owed[i]], owed := Without(c.owed, i));
    forall p ensures Accounted(h.searches, w, p) == Accounted(h.searches, c, p) == Accounted(h.searches, d, p) {
    }
    assert w.review == c.review && d.review == c.review;
  }

  lemma ClosedStaysClosed(b: Book, seen: OrderRow)
    requires BookInv(b) && seen in b.versions && seen.status == Closed
    ensures b.row.status == Closed && seen.master == b.row.master
  {
    assert RowOk(seen) && Follows(seen, b.row) && RowOk(b.row);
  }

  lemma ReviewKeepsPenalties(row: OrderRow, h: Hunt, c: Conduct, rating: int, owed: seq<Penalty>)
    requires PenaltyLaw(row, h, c) && c.review.None? && row.status == Closed && row.master.Some?
    requires owed == if rating <= COMPLAINT_THRESHOLD then [Penalty(row.master.value, CustomerComplaint)] else []
    ensures PenaltyLaw(row, h, c.(review := Some(rating), owed := c.owed + owed))
  {
    assert ComplaintFee(row, Some(rating)) == multiset(owed);
    var c' := c.(review := Some(rating), owed := c.owed + owed);
    forall p ensures Called(row, h.offers, c'.review, p) == Accounted(h.searches, c', p) {
      assert Called(row, h.offers, c.review, p) == Accounted(h.searches, c, p);
    }
  }

  lemma ConductStepKeepsPenalties(b: Book, h: Hunt, c: Conduct, e: Event)
    requires BookInv(b) && PenaltyLaw(b.row, h, c) && IsConductEvent(e) && (e.ReviewEv? ==> e.seen in b.versions)
    ensures PenaltyLaw(b.row, h, ConductStep(c, e))
  {
    match e
    case ReviewEv(caller, seen, rating) =>
      if CreateReview(c, caller, seen, rating) != c {
        ClosedStaysClosed(b, seen);
        ReviewKeepsPenalties(b.row, h, c, rating,
                             if rating <= COMPLAINT_THRESHOLD then [Penalty(seen.master.value, CustomerComplaint)] else []);
      }
    case WritePenaltyEv(i) => if i < |c.owed| { OwedMoves(b.row, h, c, i); }
    case DropPenaltyEv(i) => if i < |c.owed| { OwedMoves(b.row, h, c, i); }
  }

  lemma ConductStepsKeepInv(x: Deal, e: Event)
    requires Inv(x) && Possible(x, e) && IsConductEvent(e)
    ensures Inv(Step(x, e))
  {
    ConductStepKeepsPenalties(x.book, x.hunt, x.conduct, e);
  }

  lemma OfferStepsKeepInv(x: Deal, e: Event)
    requires Inv(x) && IsOfferEvent(e)
    ensures Inv(OfferStep(x, e))
  {
    match e
    case AcceptEv(d, m, now) => AcceptKeepsInv(x, d, m, now);
    case DeclineEv(d, m) =>
      if DeclineOffer(x, d, m) != x { SpendOfferKeepsInv(x, d, Declined, ReadOrder(1)); }
    case ExpireEv(d) =>
      if ExpireOffer(x, d) != x { SpendOfferKeepsInv(x, d, TimedOut, LateFee(x.hunt.offers[d].master)); }
  }

  lemma SearchStepsKeepInv(x: Deal, e: Event)
    requires Inv(x) && Possible(x, e) && IsSearchEvent(e)
    ensures Inv(SearchStep(x, e))
  {
    match e
    case SubmitEv(caller, now) => SubmitKeepsInv(x, caller, now);
    case CancelByMasterEv(m, seen) => CancelByMasterKeepsInv(x, m, seen);
    case AdvanceEv(i, out) => AdvanceKeepsInv(x, i, out);
    case CrashEv(i) => CrashKeepsInv(x, i);
  }

  lemma JobStepsKeepInv(x: Deal, e: Event)
    requires Inv(x) && IsJobEvent(e)
    ensures Inv(x.(jobs := JobStep(x.jobs, e)))
  {
  }

  lemma StepKeepsInv(x: Deal, e: Event)
    requires Inv(x)
    ensures Inv(Step(x, e))
  {
    if !Possible(x, e) {
    } else if IsBookEvent(e) {
      BookStepsKeepInv(x, e);
    } else if IsPaymentEvent(e) {
      PaymentStepsKeepInv(x, e);
    } else if IsConductEvent(e) {
      ConductStepsKeepInv(x, e);
    } else if IsOfferEvent(e) {
      OfferStepsKeepInv(x, e);
    } else if IsJobEvent(e) {
      JobStepsKeepInv(x, e);
    } else {
      SearchStepsKeepInv(x, e);
    }
  }

  /** Every reachable deal satisfies the invariant, whatever happens and in whatever order. */
  lemma {:induction false} RunKeepsInv(x: Deal, events: seq<Event>)
    requires Inv(x)
    ensures Inv(Run(x, events))
    decreases |events|
  {
    if events != [] {
      StepKeepsInv(x, events[0]);
      RunKeepsInv(Step(x, events[0]), events[1..]);
    }
  }
}
