/** The search ends: every statement brings it closer, and only a crash can stall it. */
module SearchTermination {
  import opened Prelude
  import opened OrderState
  import opened Scoring
  import opened Eligibility
  import opened Orders
  import opened Deals
  import opened DealInvariants
  import opened DealProofs
  import opened DealTheorems

  /** Position of a search statement on its way to the next offer, counted down. */
  function Distance(s: Search): nat {
    match s
    case LateFee(_) => 12
    case ReadOrder(attempt) => if attempt == 1 then 11 else 8
    case CountOffers(attempt, _) => if attempt == 1 then 10 else 7
    case QueryPool(attempt, _, _) => if attempt == 1 then 9 else 6
    case CreateOffer(_, _, _, _) => 5
    case FailRead(_) => 4
    case FailWrite(_, _) => 3
    case FailHistory(_, _) => 2
  }

  function OpenOffer(offers: seq<Offer>): nat {
    if offers != [] && offers[|offers| - 1].status == Offered then 13 else 0
  }

  /** Masters of the pool never offered the order, then the position of the token. */
  function Measure(h: Hunt, pool: set<MasterId>): nat {
    14 * |pool - OfferedMasters(h.offers)| + (if h.searches == [] then OpenOffer(h.offers) else Distance(h.searches[0]))
  }

  /** Every master the event's query could find is in the pool. */
  predicate WithinPool(e: Event, pool: set<MasterId>) {
    e.AdvanceEv? ==> forall m :: m in e.out.world ==> m.id in pool
  }

  predicate PickedWithinPool(h: Hunt, pool: set<MasterId>) {
    && OfferedMasters(h.offers) <= pool
    && forall i :: 0 <= i < |h.searches| ==> h.searches[i].CreateOffer? ==> h.searches[i].picked.master in pool
  }

  lemma OfferedGrows(offers: seq<Offer>, o: Offer)
    ensures OfferedMasters(offers + [o]) == OfferedMasters(offers) + {o.master}
  {
    var r := offers + [o];
    forall m ensures m in OfferedMasters(r) <==> m in OfferedMasters(offers) + {o.master} {
      if m in OfferedMasters(offers) {
        var i :| 0 <= i < |offers| && offers[i].master == m;
        assert r[i].master == m;
      }
      if m == o.master { assert r[|offers|].master == m; }
    }
  }

  lemma OfferedUnchanged(offers: seq<Offer>, d: nat, status: OfferStatus)
    requires d < |offers|
    ensures OfferedMasters(offers[d := offers[d].(status := status)]) == OfferedMasters(offers)
  {
    var r := offers[d := offers[d].(status := status)];
    assert |r| == |offers| && forall i :: 0 <= i < |r| ==> r[i].master == offers[i].master;
    forall m ensures m in OfferedMasters(r) <==> m in OfferedMasters(offers) {
      if m in OfferedMasters(offers) { var i :| 0 <= i < |offers| && offers[i].master == m; assert r[i].master == m; }
      if m in OfferedMasters(r) { var i :| 0 <= i < |r| && r[i].master == m; assert offers[i].master == m; }
    }
  }

  lemma OneFewer(pool: set<MasterId>, offered: set<MasterId>, m: MasterId)
    requires m in pool && m !in offered
    ensures |pool - (offered + {m})| + 1 == |pool - offered|
  {
    assert pool - offered == (pool - (offered + {m})) + {m};
  }

  /** Strictly closer to the end of the search, with everybody still in the pool. */
  predicate Closer(h: Hunt, h': Hunt, pool: set<MasterId>) {
    PickedWithinPool(h', pool) && h' != h && Measure(h', pool) < Measure(h, pool)
  }

  lemma CreateDescends(h: Hunt, o: Offer, pool: set<MasterId>)
    requires PickedWithinPool(h, pool) && |h.searches| == 1 && h.searches[0].CreateOffer?
    requires o.master == h.searches[0].picked.master && o.master !in OfferedMasters(h.offers) && o.status == Offered
    ensures Closer(h, h.(searches := [], offers := h.offers + [o]), pool)
  {
    OfferedGrows(h.offers, o);
    OneFewer(pool, OfferedMasters(h.offers), o.master);
  }

  lemma GotoDescends(h: Hunt, s: Search, pool: set<MasterId>)
    requires PickedWithinPool(h, pool) && |h.searches| == 1 && Distance(s) < Distance(h.searches[0])
    requires s.CreateOffer? ==> s.picked.master in pool
    ensures Closer(h, h.(searches := [s]), pool)
  {
  }

  lemma EndDescends(h: Hunt, h': Hunt, pool: set<MasterId>)
    requires PickedWithinPool(h, pool) && |h.searches| == 1 && h'.searches == [] && h'.offers == h.offers
    requires OpenOffer(h.offers) == 0
    ensures Closer(h, h', pool)
  {
  }

  lemma QueryPicksFromPool(s: Search, q: Query, found: seq<Candidate>, out: Outside, pool: set<MasterId>)
    requires s.QueryPool? && Attempt(s.attempt)
    requires forall k :: 0 <= k < |found| ==> found[k].master in pool
    ensures Distance(AfterQuery(s, q, found, out)) < Distance(s)
    ensures AfterQuery(s, q, found, out).CreateOffer? ==> AfterQuery(s, q, found, out).picked.master in pool
  {
  }

  lemma QueryGoesOn(x: Deal, out: Outside)
    requires |x.hunt.searches| == 1 && x.hunt.searches[0].QueryPool? && x.hunt.searches[0].order.category.Some?
    ensures var s := x.hunt.searches[0];
            var q := PoolQuery(x, s.order, s.attempt, out);
            Advance(x, 0, out).hunt == x.hunt.(searches := [AfterQuery(s, q, FindEligible(out.world, q), out)])
  {
    assert forall s :: x.hunt.searches[0 := s] == [s];
  }

  lemma QueryDescends(x: Deal, i: nat, out: Outside, pool: set<MasterId>)
    requires Inv(x) && i < |x.hunt.searches| && x.hunt.searches[i].QueryPool?
    requires PickedWithinPool(x.hunt, pool) && forall m :: m in out.world ==> m.id in pool
    ensures Closer(x.hunt, Advance(x, i, out).hunt, pool)
  {
    OnlySearch(x.book, x.hunt, i);
    var s := x.hunt.searches[0];
    var q := PoolQuery(x, s.order, s.attempt, out);
    var found := FindEligible(out.world, q);
    forall k | 0 <= k < |found| ensures found[k].master in pool {
      FoundIsKnown(out.world, q, k, pool);
    }
    QueryPicksFromPool(s, q, found, out, pool);
    QueryGoesOn(x, out);
    GotoDescends(x.hunt, AfterQuery(s, q, found, out), pool);
  }

  lemma CreateGoesOn(x: Deal, out: Outside)
    requires |x.hunt.searches| == 1 && x.hunt.searches[0].CreateOffer?
    requires x.hunt.searches[0].picked.master !in OfferedMasters(x.hunt.offers)
    ensures var s := x.hunt.searches[0];
            Advance(x, 0, out).hunt
            == x.hunt.(searches := [], offers := x.hunt.offers + [FreshOffer(s.picked, s.rank + 1, s.order.tier, out)])
  {
    assert Without(x.hunt.searches, 0) == [];
  }

  lemma CreateStatementDescends(x: Deal, i: nat, out: Outside, pool: set<MasterId>)
    requires Inv(x) && i < |x.hunt.searches| && x.hunt.searches[i].CreateOffer? && PickedWithinPool(x.hunt, pool)
    ensures Closer(x.hunt, Advance(x, i, out).hunt, pool)
  {
    OnlySearch(x.book, x.hunt, i);
    var s := x.hunt.searches[0];
    CreateGoesOn(x, out);
    CreateDescends(x.hunt, FreshOffer(s.picked, s.rank + 1, s.order.tier, out), pool);
  }

  /** The statements that neither query nor create: drop the search, or send it on to a nearer statement. */
  lemma PlainStatement(x: Deal, out: Outside)
    requires |x.hunt.searches| == 1 && SearchOk(x.book, x.hunt.offers, x.hunt.searches[0])
    requires !x.hunt.searches[0].QueryPool? && !x.hunt.searches[0].CreateOffer?
    ensures var h := Advance(x, 0, out).hunt;
            && h.offers == x.hunt.offers
            && (|| h.searches == []
                || (|h.searches| == 1 && Distance(h.searches[0]) < Distance(x.hunt.searches[0]) && !h.searches[0].CreateOffer?))
  {
    assert Without(x.hunt.searches, 0) == [];
  }

  lemma PlainDescends(x: Deal, out: Outside, pool: set<MasterId>)
    requires |x.hunt.searches| == 1 && SearchOk(x.book, x.hunt.offers, x.hunt.searches[0])
    requires !x.hunt.searches[0].QueryPool? && !x.hunt.searches[0].CreateOffer?
    requires PickedWithinPool(x.hunt, pool) && Live(x.hunt.offers) == 0
    ensures Closer(x.hunt, Advance(x, 0, out).hunt, pool)
  {
    PlainStatement(x, out);
  }

  lemma AdvanceDescends(x: Deal, i: nat, out: Outside, pool: set<MasterId>)
    requires Inv(x) && i < |x.hunt.searches|
    requires PickedWithinPool(x.hunt, pool) && forall m :: m in out.world ==> m.id in pool
    ensures Closer(x.hunt, Advance(x, i, out).hunt, pool)
  {
    var s := x.hunt.searches[i];
    if s.QueryPool? {
      QueryDescends(x, i, out, pool);
    } else if s.CreateOffer? {
      CreateStatementDescends(x, i, out, pool);
    } else {
      OnlySearch(x.book, x.hunt, i);
      PlainDescends(x, out, pool);
    }
  }

  lemma SpendDescends(h: Hunt, d: nat, status: OfferStatus, next: Search, pool: set<MasterId>)
    requires d == |h.offers| - 1 && h.offers[d].status == Offered && h.searches == [] && PickedWithinPool(h, pool)
    requires Spent(status) && (next == ReadOrder(1) || next == LateFee(h.offers[d].master))
    ensures Closer(h, h.(offers := h.offers[d := h.offers[d].(status := status)], searches := [next]), pool)
  {
    OfferedUnchanged(h.offers, d, status);
  }

  lemma AnswerDescends(x: Deal, d: nat, status: OfferStatus, next: Search, pool: set<MasterId>)
    requires Inv(x) && d < |x.hunt.offers| && x.hunt.offers[d].status == Offered && PickedWithinPool(x.hunt, pool)
    requires Spent(status) && (next == ReadOrder(1) || next == LateFee(x.hunt.offers[d].master))
    ensures Closer(x.hunt, Spend(x, d, status, next).hunt, pool)
  {
    OpenOfferIsLast(x.book, x.hunt, d);
    assert x.hunt.searches + [next] == [next];
    SpendDescends(x.hunt, d, status, next, pool);
  }

  lemma CrashDescends(b: Book, h: Hunt, i: nat, pool: set<MasterId>)
    requires SearchInv(b, h) && i < |h.searches| && PickedWithinPool(h, pool)
    ensures Closer(h, h.(searches := Without(h.searches, i), lost := h.lost + 1), pool)
  {
    OnlySearch(b, h, i);
    EndDescends(h, h.(searches := Without(h.searches, i), lost := h.lost + 1), pool);
  }

  lemma AnswersDescend(x: Deal, e: Event, pool: set<MasterId>)
    requires Inv(x) && PickedWithinPool(x.hunt, pool) && (e.DeclineEv? || e.ExpireEv?)
    ensures OfferStep(x, e).hunt == x.hunt || Closer(x.hunt, OfferStep(x, e).hunt, pool)
  {
    if OfferStep(x, e).hunt != x.hunt {
      if e.DeclineEv? {
        AnswerDescends(x, e.offer, Declined, ReadOrder(1), pool);
      } else {
        AnswerDescends(x, e.offer, TimedOut, LateFee(x.hunt.offers[e.offer].master), pool);
      }
    }
  }

  lemma StatementsDescend(x: Deal, e: Event, pool: set<MasterId>)
    requires Inv(x) && PickedWithinPool(x.hunt, pool) && WithinPool(e, pool) && (e.AdvanceEv? || e.CrashEv?) && Possible(x, e)
    ensures Closer(x.hunt, SearchStep(x, e).hunt, pool)
  {
    match e
    case AdvanceEv(i, out) => AdvanceDescends(x, i, out, pool);
    case CrashEv(i) => CrashDescends(x.book, x.hunt, i, pool);
  }

  /** An acceptance ends the searching; a searching order cannot be submitted again, nor cancelled by a master. */
  lemma AcceptanceEndsSearching(x: Deal, e: Event)
    requires x.book.row.status == Searching && e.AcceptEv?
    ensures OfferStep(x, e).book.row.status == Searching ==> OfferStep(x, e).hunt == x.hunt
  {
  }

  lemma NoSecondSubmission(x: Deal, e: Event)
    requires x.book.row.status == Searching && (e.SubmitEv? || e.CancelByMasterEv?) && Possible(x, e)
    ensures SearchStep(x, e).hunt == x.hunt
  {
  }

  /** While the order is searching, each step either leaves the search alone or brings it strictly closer to its end. */
  lemma SearchDescends(x: Deal, e: Event, pool: set<MasterId>)
    requires Inv(x) && x.book.row.status == Searching && Step(x, e).book.row.status == Searching
    requires PickedWithinPool(x.hunt, pool) && WithinPool(e, pool)
    ensures Step(x, e).hunt == x.hunt || Closer(x.hunt, Step(x, e).hunt, pool)
  {
    if !Possible(x, e) || IsBookEvent(e) || IsPaymentEvent(e) || IsConductEvent(e) || IsJobEvent(e) {
    } else if e.AcceptEv? {
      AcceptanceEndsSearching(x, e);
    } else if IsOfferEvent(e) {
      AnswersDescend(x, e, pool);
    } else if e.AdvanceEv? || e.CrashEv? {
      StatementsDescend(x, e, pool);
    } else {
      NoSecondSubmission(x, e);
    }
  }

  predicate SearchingThroughout(x: Deal, events: seq<Event>)
    decreases |events|
  {
    x.book.row.status == Searching && (events != [] ==> SearchingThroughout(Step(x, events[0]), events[1..]))
  }

  /** How many events of the run touch the search. */
  function Moves(x: Deal, events: seq<Event>): nat
    decreases |events|
  {
    if events == [] then 0
    else (if Step(x, events[0]).hunt != x.hunt then 1 else 0) + Moves(Step(x, events[0]), events[1..])
  }

  /** A search can be touched only so often before the order stops searching: the whole run is bounded in advance. */
  lemma {:induction false} SearchIsBounded(x: Deal, events: seq<Event>, pool: set<MasterId>)
    requires Inv(x) && SearchingThroughout(x, events) && PickedWithinPool(x.hunt, pool)
    requires forall k :: 0 <= k < |events| ==> WithinPool(events[k], pool)
    ensures Moves(x, events) + Measure(Run(x, events).hunt, pool) <= Measure(x.hunt, pool)
    ensures PickedWithinPool(Run(x, events).hunt, pool)
    decreases |events|
  {
    if events != [] {
      var y := Step(x, events[0]);
      SearchDescends(x, events[0], pool);
      StepKeepsInv(x, events[0]);
      SearchIsBounded(y, events[1..], pool);
    }
  }

  lemma {:induction false} DistinctMastersAreMany(offers: seq<Offer>)
    requires forall i, j :: 0 <= i < j < |offers| ==> offers[i].master != offers[j].master
    ensures |OfferedMasters(offers)| == |offers|
  {
    if offers != [] {
      var n := |offers| - 1;
      DistinctMastersAreMany(offers[..n]);
      assert offers == offers[..n] + [offers[n]];
      OfferedGrows(offers[..n], offers[n]);
      assert offers[n].master !in OfferedMasters(offers[..n]);
    } else {
      assert OfferedMasters(offers) == {};
    }
  }

  /** A cascade starts: a search comes into being, to run its first pass. */
  predicate Launches(x: Deal, e: Event) {
    x.hunt.searches == [] && Step(x, e).hunt.searches != []
  }

  /** How many cascades a run starts. */
  function Cascades(x: Deal, events: seq<Event>): nat
    decreases |events|
  {
    if events == [] then 0 else (if Launches(x, events[0]) then 1 else 0) + Cascades(Step(x, events[0]), events[1..])
  }

  function SpentOffers(offers: seq<Offer>): nat {
    if offers == [] then 0 else SpentOffers(offers[..|offers| - 1]) + if Spent(offers[|offers| - 1].status) then 1 else 0
  }

  lemma {:induction false} SpentAreOffers(offers: seq<Offer>)
    ensures SpentOffers(offers) <= |offers|
  {
    if offers != [] { SpentAreOffers(offers[..|offers| - 1]); }
  }

  lemma SpendCounts(offers: seq<Offer>, status: OfferStatus)
    requires offers != [] && offers[|offers| - 1].status == Offered && Spent(status)
    ensures var d := |offers| - 1; SpentOffers(offers[d := offers[d].(status := status)]) == SpentOffers(offers) + 1
  {
    var d := |offers| - 1;
    assert offers[d := offers[d].(status := status)][..d] == offers[..d];
  }

  /** What spends an offer starts one cascade, and nothing else does while the order searches. */
  lemma AnswerLaunches(x: Deal, e: Event)
    requires Inv(x) && (e.DeclineEv? || e.ExpireEv?)
    ensures var y := OfferStep(x, e);
            SpentOffers(y.hunt.offers) == SpentOffers(x.hunt.offers)
                                          + if x.hunt.searches == [] && y.hunt.searches != [] then 1 else 0
  {
    if OfferStep(x, e).hunt != x.hunt {
      OpenOfferIsLast(x.book, x.hunt, e.offer);
      SpendCounts(x.hunt.offers, if e.DeclineEv? then Declined else TimedOut);
    }
  }

  lemma StatementLaunchesNothing(x: Deal, e: Event)
    requires Inv(x) && (e.AdvanceEv? || e.CrashEv?) && Possible(x, e)
    ensures x.hunt.searches != [] && SpentOffers(SearchStep(x, e).hunt.offers) == SpentOffers(x.hunt.offers)
  {
    if e.AdvanceEv? && SearchStep(x, e).hunt.offers != x.hunt.offers {
      OnlySearch(x.book, x.hunt, e.search);
      CreateGoesOn(x, e.out);
      assert SearchStep(x, e).hunt.offers[..|x.hunt.offers|] == x.hunt.offers;
    }
  }

  lemma CascadesFollowAnswers(x: Deal, e: Event)
    requires Inv(x) && x.book.row.status == Searching && Step(x, e).book.row.status == Searching
    ensures SpentOffers(Step(x, e).hunt.offers) == SpentOffers(x.hunt.offers) + if Launches(x, e) then 1 else 0
  {
    if !Possible(x, e) || IsBookEvent(e) || IsPaymentEvent(e) || IsConductEvent(e) || IsJobEvent(e) {
    } else if e.AcceptEv? {
      AcceptanceEndsSearching(x, e);
    } else if IsOfferEvent(e) {
      AnswerLaunches(x, e);
    } else if e.AdvanceEv? || e.CrashEv? {
      StatementLaunchesNothing(x, e);
    } else {
      NoSecondSubmission(x, e);
    }
  }

  lemma {:induction false} CascadesAreCounted(x: Deal, events: seq<Event>)
    requires Inv(x) && SearchingThroughout(x, events)
    ensures Cascades(x, events) == SpentOffers(Run(x, events).hunt.offers) - SpentOffers(x.hunt.offers)
    decreases |events|
  {
    if events != [] {
      CascadesFollowAnswers(x, events[0]);
      StepKeepsInv(x, events[0]);
      CascadesAreCounted(Step(x, events[0]), events[1..]);
    }
  }

  /**
   * From submission on, with M masters in the pool: at most M offers are made, at most M + 1 cascades are ever
   * started (one at submission, one per offer answered or run out), and the search is touched at most 14 M + 11 times.
   */
  lemma SearchTerminates(x: Deal, caller: UserId, now: int, events: seq<Event>, pool: set<MasterId>)
    requires Reachable(x) && SubmitAllowed(x.book.row, caller, now)
    requires SearchingThroughout(Step(x, SubmitEv(caller, now)), events)
    requires forall k :: 0 <= k < |events| ==> WithinPool(events[k], pool)
    ensures var y := Step(x, SubmitEv(caller, now));
            && |Run(y, events).hunt.offers| <= |pool|
            && Cascades(x, [SubmitEv(caller, now)] + events) <= |pool| + 1
            && Moves(y, events) <= 14 * |pool| + 11
  {
    ReachableIsSound(x);
    var y := Step(x, SubmitEv(caller, now));
    StepKeepsInv(x, SubmitEv(caller, now));
    SubmissionStartsSearch(x, caller, now);
    assert OfferedMasters(y.hunt.offers) == {} && pool - {} == pool;
    SearchIsBounded(y, events, pool);
    RunKeepsInv(y, events);
    OffersFitPool(Run(y, events), pool);
    CascadesAreCounted(y, events);
    SpentAreOffers(Run(y, events).hunt.offers);
    assert ([SubmitEv(caller, now)] + events)[1..] == events;
  }

  lemma SubmissionStartsSearch(x: Deal, caller: UserId, now: int)
    requires TokenLaw(x.book.row, x.hunt) && SubmitAllowed(x.book.row, caller, now)
    ensures x.hunt.offers == [] && Step(x, SubmitEv(caller, now)).hunt == x.hunt.(searches := [ReadOrder(1)])
  {
    assert x.hunt.searches == [];
    assert Submit(x.book, caller, now).history != x.book.history;
  }

  lemma OffersFitPool(z: Deal, pool: set<MasterId>)
    requires Inv(z) && OfferedMasters(z.hunt.offers) <= pool
    ensures |z.hunt.offers| <= |pool|
  {
    DistinctMastersAreMany(z.hunt.offers);
    SubsetIsSmaller(OfferedMasters(z.hunt.offers), pool);
  }

  lemma SubsetIsSmaller(a: set<MasterId>, b: set<MasterId>)
    requires a <= b
    ensures |a| <= |b|
  {
    assert b == a + (b - a);
  }

  lemma AdvanceIsStep(x: Deal, out: Outside)
    requires x.hunt.searches != [] && 0 < out.limit && 0.0 <= out.draw < 1.0
    ensures Step(x, AdvanceEv(0, out)) == Advance(x, 0, out)
  {
  }
}
