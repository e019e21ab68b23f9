/**
 * The dispatch calls, statement by statement, with other callers running whenever a statement waits for the
 * database. `db.searches` holds the statement this search runs next, so that others see it in flight.
 */
module DispatchService {
  import opened Prelude
  import opened OrderState
  import opened Pricing
  import opened Scoring
  import opened Eligibility
  import opened Orders
  import opened Deals
  import opened DealInvariants
  import opened DealProofs
  import opened DealTheorems
  import opened DealEvolution
  import opened SearchTermination
  import opened Database

  datatype Outcome = Done | NotFound | Forbidden | Conflict

  /** What each pass of a cascade finds outside the order. */
  type Surroundings = nat -> Outside

  predicate Legal(out: Outside) {
    0 < out.limit && 0.0 <= out.draw < 1.0
  }

  // ---- What each statement writes -------------------------------------------------

  function Moved(x: Deal, searches: seq<Search>): Deal {
    x.(hunt := x.hunt.(searches := searches))
  }

  function AfterRead(row: OrderRow, attempt: nat): seq<Search> {
    if row.status != Searching then []
    else if row.category.None? || !Locatable(row) then [FailRead(MissingPlace)]
    else [CountOffers(attempt, row)]
  }

  lemma ReadEffect(x: Deal, attempt: nat, out: Outside)
    requires x.hunt.searches == [ReadOrder(attempt)] && Legal(out)
    ensures Step(x, AdvanceEv(0, out)) == Moved(x, AfterRead(x.book.row, attempt))
  {
    assert Without(x.hunt.searches, 0) == [];
    assert forall s :: x.hunt.searches[0 := s] == [s];
  }

  lemma CountEffect(x: Deal, attempt: nat, order: OrderRow, out: Outside)
    requires x.hunt.searches == [CountOffers(attempt, order)] && Legal(out)
    ensures Step(x, AdvanceEv(0, out)) == Moved(x, [QueryPool(attempt, order, |x.hunt.offers|)])
  {
    assert forall s :: x.hunt.searches[0 := s] == [s];
  }

  lemma QueryEffect(x: Deal, s: Search, q: Query, found: seq<Candidate>, out: Outside)
    requires x.hunt.searches == [s] && s.QueryPool? && s.order.category.Some? && Legal(out)
    requires q == PoolQuery(x, s.order, s.attempt, out) && found == FindEligible(out.world, q)
    ensures Step(x, AdvanceEv(0, out)) == Moved(x, [AfterQuery(s, q, found, out)])
  {
    var next := AfterQuery(s, q, found, out);
    assert x.hunt.searches[0 := next] == [next];
    AdvanceIsStep(x, out);
    QueryAdvances(x, s, out);
  }

  lemma QueryAdvances(x: Deal, s: Search, out: Outside)
    requires x.hunt.searches == [s] && s.QueryPool? && s.order.category.Some?
    ensures var q := PoolQuery(x, s.order, s.attempt, out);
            Advance(x, 0, out) == Goto(x, 0, AfterQuery(s, q, FindEligible(out.world, q), out))
  {
  }

  lemma CreateEffect(x: Deal, attempt: nat, order: OrderRow, rank: nat, picked: Candidate, out: Outside)
    requires x.hunt.searches == [CreateOffer(attempt, order, rank, picked)] && Legal(out)
    requires picked.master !in OfferedMasters(x.hunt.offers)
    ensures Step(x, AdvanceEv(0, out))
            == x.(hunt := x.hunt.(searches := [], offers := x.hunt.offers + [FreshOffer(picked, rank + 1, order.tier, out)]),
                  jobs := x.jobs + [Unqueued])
  {
    assert Without(x.hunt.searches, 0) == [];
  }

  lemma FailReadEffect(x: Deal, reason: Reason, out: Outside)
    requires x.hunt.searches == [FailRead(reason)] && Legal(out)
    ensures Step(x, AdvanceEv(0, out))
            == Moved(x, if x.book.row.status == Searching then [FailWrite(reason, Searching)] else [])
  {
    assert Without(x.hunt.searches, 0) == [];
    assert forall s :: x.hunt.searches[0 := s] == [s];
  }

  lemma FailLostEffect(x: Deal, reason: Reason, out: Outside)
    requires x.hunt.searches == [FailWrite(reason, Searching)] && Legal(out) && x.book.row.status != Searching
    ensures Step(x, AdvanceEv(0, out)) == Moved(x, [])
  {
    assert Without(x.hunt.searches, 0) == [];
  }

  lemma FailWriteEffect(x: Deal, reason: Reason, out: Outside)
    requires x.hunt.searches == [FailWrite(reason, Searching)] && Legal(out) && x.book.row.status == Searching
    ensures Step(x, AdvanceEv(0, out))
            == x.(book := Rewrite(x.book, x.book.row.(status := Expired)),
                  hunt := x.hunt.(searches := [FailHistory(reason, Searching)], expiredFor := Some(reason)))
  {
    assert forall s :: x.hunt.searches[0 := s] == [s];
  }

  lemma FailHistoryEffect(x: Deal, reason: Reason, out: Outside)
    requires x.hunt.searches == [FailHistory(reason, Searching)] && Legal(out)
    ensures Step(x, AdvanceEv(0, out))
            == Moved(x, []).(book := x.book.(history := x.book.history + [HistoryRow(Some(Searching), Expired)]))
  {
    assert Without(x.hunt.searches, 0) == [];
  }

  lemma LateFeeEffect(x: Deal, m: MasterId, out: Outside)
    requires x.hunt.searches == [LateFee(m)] && Legal(out)
    ensures Step(x, AdvanceEv(0, out))
            == Moved(x, [ReadOrder(1)]).(conduct := x.conduct.(penalties := x.conduct.penalties + [Penalty(m, LateResponse)]))
  {
    assert forall s :: x.hunt.searches[0 := s] == [s];
  }

  lemma QueueEffect(x: Deal, d: nat)
    requires d < |x.jobs| && x.jobs[d] == Unqueued
    ensures Step(x, QueueEv(d)) == x.(jobs := x.jobs[d := Queued])
  {
  }

  lemma AcceptEffect(x: Deal, d: nat, caller: MasterId, now: int)
    requires AcceptAllowed(x, d, caller, now)
    ensures Step(x, AcceptEv(d, caller, now))
            == x.(hunt := x.hunt.(offers := WithdrawOthers(x.hunt.offers[d := x.hunt.offers[d].(status := Accepted)], d)),
                  book := Record(x.book, x.book.row.status, x.book.row.(status := Assigned, master := Some(caller))))
  {
  }

  // ---- What a cascade achieves ----------------------------------------------------

  /** Whom a pass finds for an order: at the masters' own radii the first time, at the expanded ones the second. */
  function FoundIn(row: OrderRow, offered: set<MasterId>, attempt: nat, out: Outside): seq<Candidate> {
    if row.category.None? then []
    else FindEligible(out.world, Query(row.category.value, RequiredTier(row.complexity),
                                       if attempt == 1 then 1.0 else out.expansion, out.limit, offered))
  }

  /** The candidate that owns the draw among those found. */
  ghost predicate Drawn(row: OrderRow, offered: set<MasterId>, c: Candidate, attempt: nat, out: Outside) {
    var found := FoundIn(row, offered, attempt, out);
    exists k: nat :: k < |found| && found[k] == c && OwnsDraw(found, k, out.draw)
  }

  /**
   * A master of the world the pass saw that meets every condition of the matching rule, was not offered the order
   * before, and is this far away: the distance of its nearest area that reaches the order.
   */
  predicate Qualified(row: OrderRow, offered: set<MasterId>, master: MasterId, distanceM: int, attempt: nat, out: Outside) {
    var multiplier := if attempt == 1 then 1.0 else out.expansion;
    exists m :: m in out.world && m.id == master
      && m.accountActive && row.category.Some? && row.category.value in m.skills && m.verified && m.online
      && RequiredTier(row.complexity) <= m.trustTier && m.id !in offered && !m.onActiveJob && !m.bookedToday
      && (exists a :: a in m.areas && Reaches(a, multiplier) && a.distanceM == distanceM)
      && (forall a :: a in m.areas && Reaches(a, multiplier) ==> distanceM <= a.distanceM)
  }

  ghost predicate MadeIn(row: OrderRow, offered: set<MasterId>, o: Offer, attempt: nat, out: Outside) {
    && (exists c :: Drawn(row, offered, c, attempt, out) && o.master == c.master && o.distanceM == c.distanceM && o.score == Score(c))
    && Qualified(row, offered, o.master, o.distanceM, attempt, out)
    && Deadline(row.tier, out, o.expiresAt)
  }

  /** One more offer, made in the pass begun with or, when that was the first and found nobody, in the second. */
  ghost predicate OneMoreOffer(row: OrderRow, a: seq<Offer>, b: seq<Offer>, attempt: nat, outs: Surroundings) {
    && |b| == |a| + 1 && a <= b
    && b[|a|].status == Offered && b[|a|].rank == |a| + 1
    && (|| MadeIn(row, OfferedMasters(a), b[|a|], attempt, outs(attempt))
        || (&& attempt == 1 && FoundIn(row, OfferedMasters(a), 1, outs(1)) == []
            && MadeIn(row, OfferedMasters(a), b[|a|], 2, outs(2))))
  }

  lemma OnlyWhileSearching(s: Status)
    ensures CanTransition(s, Expired) <==> s == Searching
  {
  }

  lemma OrderStands(x: Deal, attempt: nat, order: OrderRow, rank: nat, picked: Candidate)
    requires Inv(x) && x.hunt.searches == [CreateOffer(attempt, order, rank, picked)]
    ensures order.category == x.book.row.category && order.complexity == x.book.row.complexity && order.tier == x.book.row.tier
    ensures rank == |x.hunt.offers| && picked.master !in OfferedMasters(x.hunt.offers)
  {
    assert SearchOk(x.book, x.hunt.offers, x.hunt.searches[0]);
  }

  lemma ReadStands(x: Deal, attempt: nat, order: OrderRow, rank: nat)
    requires Inv(x) && x.hunt.searches == [QueryPool(attempt, order, rank)]
    ensures SameDeal(order, x.book.row)
  {
    assert SearchOk(x.book, x.hunt.offers, x.hunt.searches[0]);
  }

  lemma PickIsDrawn(x: Deal, order: OrderRow, attempt: nat, out: Outside)
    requires order.category.Some? && Legal(out) && FindEligible(out.world, PoolQuery(x, order, attempt, out)) != []
    ensures var found := FindEligible(out.world, PoolQuery(x, order, attempt, out));
            Drawn(order, OfferedMasters(x.hunt.offers), found[Pick(found, out.draw)], attempt, out)
  {
    var found := FindEligible(out.world, PoolQuery(x, order, attempt, out));
    PickOwnsDraw(found, out.draw);
    assert FoundIn(order, OfferedMasters(x.hunt.offers), attempt, out) == found;
    assert found[Pick(found, out.draw)] == found[Pick(found, out.draw)];
  }

  lemma DrawnIsQualified(row: OrderRow, offered: set<MasterId>, c: Candidate, attempt: nat, out: Outside)
    requires Drawn(row, offered, c, attempt, out)
    ensures Qualified(row, offered, c.master, c.distanceM, attempt, out)
  {
    FoundMeetsEveryCondition(out.world, Query(row.category.value, RequiredTier(row.complexity),
                                              if attempt == 1 then 1.0 else out.expansion, out.limit, offered), c);
  }

  lemma SameDealFindsSame(row: OrderRow, order: OrderRow, offered: set<MasterId>, c: Candidate, attempt: nat, out: Outside)
    requires row.category == order.category && row.complexity == order.complexity
    ensures FoundIn(row, offered, attempt, out) == FoundIn(order, offered, attempt, out)
    ensures Drawn(row, offered, c, attempt, out) <==> Drawn(order, offered, c, attempt, out)
  {
  }

  lemma NewOfferSettles(row: OrderRow, order: OrderRow, a: seq<Offer>, picked: Candidate, attempt: nat, outs: Surroundings)
    requires Attempt(attempt) && Drawn(order, OfferedMasters(a), picked, attempt, outs(attempt))
    requires row.category == order.category && row.complexity == order.complexity && row.tier == order.tier
    ensures OneMoreOffer(row, a, a + [FreshOffer(picked, |a| + 1, order.tier, outs(attempt))], attempt, outs)
  {
    SameDealFindsSame(row, order, OfferedMasters(a), picked, attempt, outs(attempt));
    DrawnIsQualified(row, OfferedMasters(a), picked, attempt, outs(attempt));
  }

  /** What the second pass offers settles the first, which found nobody: the deal they act on is the same. */
  lemma SecondPassSettles(x: Deal, y: Deal, order: OrderRow, outs: Surroundings)
    requires Inv(x) && Evolves(x, y) && x.hunt.searches != [] && SameDeal(order, x.book.row)
    requires FoundIn(order, OfferedMasters(x.hunt.offers), 1, outs(1)) == []
    ensures OneMoreOffer(y.book.row, x.hunt.offers, y.hunt.offers, 2, outs)
            ==> OneMoreOffer(y.book.row, x.hunt.offers, y.hunt.offers, 1, outs)
  {
    EarlierRow(x, y);
    assert !Editable(x.book.row.status);
    assert FoundIn(y.book.row, OfferedMasters(x.hunt.offers), 1, outs(1)) == [];
  }

  /** While a search is still to write the expiry, the order has not expired. */
  lemma NotYetExpired(x: Deal)
    requires Inv(x) && x.hunt.searches != [] && !x.hunt.searches[0].FailHistory?
    ensures x.book.row.status != Expired
  {
  }

  lemma HistoryStillDue(x: Deal)
    requires Inv(x) && x.hunt.searches != [] && x.hunt.searches[0].FailHistory?
    ensures x.book.row.status == Expired
  {
    assert SearchOk(x.book, x.hunt.offers, x.hunt.searches[0]);
  }

  class DispatchService {
    const db: OrderTables

    constructor (db: OrderTables)
      ensures this.db == db
    {
      this.db := db;
    }

    /** The search goes on to its next statement, or ends. */
    method Move(searches: seq<Search>, ghost out: Outside)
      requires db.Valid() && Step(db.Snapshot(), AdvanceEv(0, out)) == Moved(db.Snapshot(), searches)
      modifies db
      ensures db.Valid() && db.Continues() && db.Snapshot() == Moved(old(db.Snapshot()), searches)
    {
      db.Write(Moved(db.Snapshot(), searches), AdvanceEv(0, out));
    }

    // ---- Giving up ----------------------------------------------------------------

    /** Two separate writes, the first guarded on the status just read. */
    method FailSearch(reason: Reason, ghost out: Outside)
      requires db.Valid() && db.searches == [FailRead(reason)] && Legal(out)
      modifies db
      ensures db.Valid() && db.Continues()
      ensures db.searches == [] && db.offers == old(db.offers) && db.row.status != Searching
      ensures db.row.status == Expired ==> db.expiredFor == Some(reason)
    {
      db.Await(true);
      var seen := db.row.status;
      OnlyWhileSearching(seen);
      if !CanTransition(seen, Expired) {
        FailReadEffect(db.Snapshot(), reason, out);
        LeaveSearch(out);
        return;
      }
      FailReadEffect(db.Snapshot(), reason, out);
      Move([FailWrite(reason, Searching)], out);
      WriteExpiry(reason, out);
    }

    /** Somebody else has moved the order on: the search ends without a word. */
    method LeaveSearch(ghost out: Outside)
      requires db.Valid() && db.searches != [] && !db.searches[0].FailHistory? && db.row.status != Searching
      requires Step(db.Snapshot(), AdvanceEv(0, out)) == Moved(db.Snapshot(), [])
      modifies db
      ensures db.Valid() && db.Continues()
      ensures db.searches == [] && db.offers == old(db.offers) && db.row == old(db.row)
      ensures db.row.status != Searching && db.row.status != Expired
    {
      db.Sound();
      NotYetExpired(db.Snapshot());
      Move([], out);
    }

    method WriteExpiry(reason: Reason, ghost out: Outside)
      requires db.Valid() && db.searches == [FailWrite(reason, Searching)] && Legal(out)
      modifies db
      ensures db.Valid() && db.Continues()
      ensures db.searches == [] && db.offers == old(db.offers) && db.row.status != Searching
      ensures db.row.status == Expired ==> db.expiredFor == Some(reason)
    {
      db.Await(true);
      if db.row.status != Searching {
        FailLostEffect(db.Snapshot(), reason, out);
        LeaveSearch(out);
        return;
      }
      ExpireOrder(reason, out);
      WriteExpiryHistory(reason, out);
    }

    /** The status alone. */
    method ExpireOrder(reason: Reason, ghost out: Outside)
      requires db.Valid() && db.searches == [FailWrite(reason, Searching)] && Legal(out) && db.row.status == Searching
      modifies db
      ensures db.Valid() && db.Continues()
      ensures db.row == old(db.row).(status := Expired) && db.expiredFor == Some(reason)
      ensures db.searches == [FailHistory(reason, Searching)] && db.offers == old(db.offers)
    {
      var x := db.Snapshot();
      FailWriteEffect(x, reason, out);
      db.Write(x.(book := Rewrite(x.book, x.book.row.(status := Expired)),
                  hunt := x.hunt.(searches := [FailHistory(reason, Searching)], expiredFor := Some(reason))),
               AdvanceEv(0, out));
    }

    method WriteExpiryHistory(reason: Reason, ghost out: Outside)
      requires db.Valid() && db.searches == [FailHistory(reason, Searching)] && Legal(out)
      requires db.row.status == Expired && db.expiredFor == Some(reason)
      modifies db
      ensures db.Valid() && db.Continues()
      ensures db.searches == [] && db.offers == old(db.offers) && db.row.status == Expired && db.expiredFor == Some(reason)
    {
      db.Await(true);
      var x := db.Snapshot();
      db.Sound();
      HistoryStillDue(x);
      FailHistoryEffect(x, reason, out);
      db.Write(Moved(x, []).(book := x.book.(history := x.book.history + [HistoryRow(Some(Searching), Expired)])),
               AdvanceEv(0, out));
    }

    // ---- The statements of a pass -------------------------------------------------

    method FindOrder(attempt: nat, ghost out: Outside) returns (order: OrderRow)
      requires db.Valid() && db.searches == [ReadOrder(attempt)] && Legal(out)
      modifies db
      ensures db.Valid() && db.Continues()
      ensures order == db.row && db.offers == old(db.offers) && db.searches == AfterRead(order, attempt)
    {
      db.Await(true);
      order := db.row;
      ReadEffect(db.Snapshot(), attempt, out);
      Move(AfterRead(order, attempt), out);
    }

    method CountOffersMade(attempt: nat, order: OrderRow, ghost out: Outside) returns (count: nat)
      requires db.Valid() && db.searches == [CountOffers(attempt, order)] && Legal(out)
      modifies db
      ensures db.Valid() && db.Continues()
      ensures db.offers == old(db.offers) && count == |db.offers| && db.searches == [QueryPool(attempt, order, count)]
    {
      db.Await(true);
      count := |db.offers|;
      CountEffect(db.Snapshot(), attempt, order, out);
      Move([QueryPool(attempt, order, count)], out);
    }

    method QueryCandidates(attempt: nat, order: OrderRow, rank: nat, out: Outside) returns (candidates: seq<Candidate>, query: Query)
      requires db.Valid() && db.searches == [QueryPool(attempt, order, rank)] && order.category.Some? && Legal(out)
      modifies db
      ensures db.Valid() && db.Continues() && db.offers == old(db.offers)
      ensures candidates == FindEligible(out.world, query)
      ensures db.searches == [AfterQuery(QueryPool(attempt, order, rank), query, candidates, out)]
      ensures candidates != [] ==>
                Drawn(order, OfferedMasters(db.offers), candidates[Pick(candidates, out.draw)], attempt, out)
      ensures candidates == FoundIn(order, OfferedMasters(db.offers), attempt, out) && SameDeal(order, db.row)
    {
      db.Await(true);
      ghost var x := db.Snapshot();
      db.Sound();
      ReadStands(x, attempt, order, rank);
      query := PoolQuery(db.Snapshot(), order, attempt, out);
      candidates := FindEligible(out.world, query);
      QueryEffect(x, QueryPool(attempt, order, rank), query, candidates, out);
      if candidates != [] { PickIsDrawn(x, order, attempt, out); }
      Move([AfterQuery(QueryPool(attempt, order, rank), query, candidates, out)], out);
    }

    /** The insert: the uniqueness violation that the source retries on cannot occur. */
    method InsertOffer(attempt: nat, order: OrderRow, rankSoFar: nat, picked: Candidate, outs: Surroundings)
      requires db.Valid() && db.searches == [CreateOffer(attempt, order, rankSoFar, picked)] && Attempt(attempt)
      requires Drawn(order, OfferedMasters(db.offers), picked, attempt, outs(attempt)) && Legal(outs(attempt))
      modifies db
      ensures db.Valid() && db.Continues() && db.searches == [] && OneMoreOffer(db.row, old(db.offers), db.offers, attempt, outs)
    {
      db.Await(true);
      var x := db.Snapshot();
      db.Sound();
      OrderStands(x, attempt, order, rankSoFar, picked);
      if picked.master in OfferedMasters(db.offers) {
        assert false;
      }
      var offers := db.offers + [FreshOffer(picked, rankSoFar + 1, order.tier, outs(attempt))];
      CreateEffect(x, attempt, order, rankSoFar, picked, outs(attempt));
      NewOfferSettles(db.row, order, db.offers, picked, attempt, outs);
      db.Write(x.(hunt := x.hunt.(searches := [], offers := offers), jobs := x.jobs + [Unqueued]), AdvanceEv(0, outs(attempt)));
    }

    // ---- The cascade --------------------------------------------------------------

    /** When the call returns nothing is in flight: either one more offer is open, or the order no longer searches. */
    twostate predicate Settled(attempt: nat, outs: Surroundings)
      reads db
    {
      && db.searches == []
      && (|| (db.offers == old(db.offers) && db.row.status != Searching)
          || OneMoreOffer(db.row, old(db.offers), db.offers, attempt, outs))
    }

    /** Called when an order enters Searching. */
    method StartDispatch(outs: Surroundings)
      requires db.Valid() && db.searches == [ReadOrder(1)] && Legal(outs(1)) && Legal(outs(2))
      modifies db
      ensures db.Valid() && db.Continues() && Settled(1, outs)
    {
      CascadeNext(1, outs);
    }

    /** Offers the order to the next eligible master, or gives the search up once the wider pool is empty too. */
    method CascadeNext(attempt: nat, outs: Surroundings)
      requires db.Valid() && db.searches == [ReadOrder(attempt)] && Attempt(attempt) && Legal(outs(1)) && Legal(outs(2))
      modifies db
      ensures db.Valid() && db.Continues() && Settled(attempt, outs)
      decreases 2 - attempt, 2
    {
      var out := outs(attempt);
      var order := FindOrder(attempt, out);
      if order.status != Searching { return; }
      if order.category.None? || order.latitude.None? || order.longitude.None? {
        FailSearch(MissingPlace, out);
        return;
      }
      OfferNext(attempt, order, outs);
    }

    /** The rest of a pass: count, query, then offer, widen or give up. */
    method OfferNext(attempt: nat, order: OrderRow, outs: Surroundings)
      requires db.Valid() && db.searches == [CountOffers(attempt, order)] && order.category.Some?
      requires Attempt(attempt) && Legal(outs(1)) && Legal(outs(2))
      modifies db
      ensures db.Valid() && db.Continues() && Settled(attempt, outs)
      decreases 2 - attempt, 1
    {
      var out := outs(attempt);
      var rankSoFar := CountOffersMade(attempt, order, out);
      var candidates, query := QueryCandidates(attempt, order, rankSoFar, out);
      if candidates == [] {
        if attempt == 1 {
          Widen(order, outs);
          return;
        }
        FailSearch(PoolExhausted(out.world, query, out.expansion), out);
        return;
      }
      var picked := candidates[Pick(candidates, out.draw)];
      InsertOffer(attempt, order, rankSoFar, picked, outs);
    }

    /** Nobody in range: once more, at the expanded radii. */
    method Widen(order: OrderRow, outs: Surroundings)
      requires db.Valid() && db.searches == [ReadOrder(2)] && Legal(outs(1)) && Legal(outs(2)) && SameDeal(order, db.row)
      requires FoundIn(order, OfferedMasters(db.offers), 1, outs(1)) == []
      modifies db
      ensures db.Valid() && db.Continues() && Settled(1, outs)
      decreases 0, 3
    {
      ghost var before := db.Snapshot();
      db.Sound();
      CascadeNext(2, outs);
      db.Evolved();
      SecondPassSettles(before, db.Snapshot(), order, outs);
    }

    // ---- Answers ------------------------------------------------------------------

    /** The offer is answered or runs out: from that write on the search is in flight again. */
    method SpendOffer(d: nat, status: OfferStatus, next: Search, ghost e: Event)
      requires db.Valid() && d < |db.offers| && db.offers[d].status == Offered
      requires Step(db.Snapshot(), e) == Spend(db.Snapshot(), d, status, next)
      modifies db
      ensures db.Valid() && db.Continues()
      ensures db.searches == [next] && db.offers == old(db.offers[d := db.offers[d].(status := status)])
      ensures |db.offers| == d + 1
      ensures db.conduct == old(db.conduct)
    {
      db.Sound();
      OpenOfferIsLast(db.Snapshot().book, db.Snapshot().hunt, d);
      db.Write(Spend(db.Snapshot(), d, status, next), e);
    }

    /**
     * The statement after the insert: whatever has become of the offer in `found`, its expiry job gets queued, unless
     * the process died before.
     */
    method QueueExpiry(d: nat) returns (ghost found: Deal)
      requires db.Valid() && d < |db.jobs|
      modifies db
      ensures db.Valid() && db.Continues() && d < |found.jobs| && d < |db.jobs|
      ensures if found.jobs[d] == Unqueued then db.Took(found, QueueEv(d)) && db.jobs[d] == Queued else db.Snapshot() == found
    {
      db.Await(false);
      db.JobsRemain();
      found := db.Snapshot();
      if db.jobs[d] == Unqueued {
        QueueEffect(db.Snapshot(), d);
        db.Write(db.Snapshot().(jobs := db.jobs[d := Queued]), QueueEv(d));
      }
    }

    /** The expiry job, delivered any number of times once queued: only the first to find the offer open does anything. */
    method HandleOfferExpiry(d: nat, outs: Surroundings)
      requires db.Valid() && Legal(outs(1)) && Legal(outs(2)) && d < |db.jobs| && db.jobs[d] == Queued
      modifies db
      ensures db.Valid() && db.Continues()
      ensures !(d < |old(db.offers)| && old(db.offers)[d].status == Offered) ==> db.Snapshot() == old(db.Snapshot())
      ensures d < |old(db.offers)| && old(db.offers)[d].status == Offered ==>
                && Answered(old(db.offers), d, TimedOut, outs)
                && Penalty(old(db.offers)[d].master, LateResponse) in db.conduct.penalties
    {
      if d >= |db.offers| || db.offers[d].status != Offered { return; }
      ExpireOpenOffer(d, outs);
    }

    method ExpireOpenOffer(d: nat, outs: Surroundings)
      requires db.Valid() && Legal(outs(1)) && Legal(outs(2)) && d < |db.jobs| && db.jobs[d] == Queued
      requires d < |db.offers| && db.offers[d].status == Offered
      modifies db
      ensures db.Valid() && db.Continues() && Answered(old(db.offers), d, TimedOut, outs)
      ensures Penalty(old(db.offers)[d].master, LateResponse) in db.conduct.penalties
    {
      var master := db.offers[d].master;
      SpendOffer(d, TimedOut, LateFee(master), ExpireEv(d));
      RecordLateResponse(master, outs(1));
      label Fined:
      CascadeNext(1, outs);
      db.PenaltiesRemain@Fined();
    }

    method RecordLateResponse(master: MasterId, ghost out: Outside)
      requires db.Valid() && db.searches == [LateFee(master)] && Legal(out)
      modifies db
      ensures db.Valid() && db.Continues() && db.searches == [ReadOrder(1)] && db.offers == old(db.offers)
      ensures Penalty(master, LateResponse) in db.conduct.penalties
    {
      db.Await(true);
      var x := db.Snapshot();
      LateFeeEffect(x, master, out);
      db.Write(Moved(x, [ReadOrder(1)]).(conduct := x.conduct.(penalties := x.conduct.penalties + [Penalty(master, LateResponse)])),
               AdvanceEv(0, out));
    }

    /** The answer to offer d is on record, and the search went on from there. */
    ghost predicate Answered(before: seq<Offer>, d: nat, status: OfferStatus, outs: Surroundings)
      requires d < |before|
      reads db
    {
      var spent := before[d := before[d].(status := status)];
      && db.searches == []
      && (|| (db.offers == spent && db.row.status != Searching)
          || OneMoreOffer(db.row, spent, db.offers, 1, outs))
    }

    /**
     * The offer is accepted, every other open one withdrawn and the order assigned, on record; nothing else changes.
     */
    ghost predicate MatchedFrom(found: Deal, d: nat, caller: MasterId)
      requires d < |found.hunt.offers|
      reads db
    {
      && |db.offers| == |found.hunt.offers|
      && db.offers[d] == found.hunt.offers[d].(status := Accepted)
      && (forall i :: 0 <= i < |db.offers| && i != d ==>
            db.offers[i] == if found.hunt.offers[i].status == Offered then found.hunt.offers[i].(status := Withdrawn)
                            else found.hunt.offers[i])
      && db.row == found.book.row.(status := Assigned, master := Some(caller))
      && db.history == found.book.history + [HistoryRow(Some(Searching), Assigned)]
      && db.payments == found.payments && db.conduct == found.conduct && db.jobs == found.jobs
      && db.searches == found.hunt.searches
    }

    /**
     * One transaction under the order's row lock decides between racing masters. It takes effect exactly when in `found`,
     * the deal under that lock, the offer is open and has not run out, and the order still searches.
     */
    method AcceptOffer(d: nat, caller: MasterId, now: int) returns (outcome: Outcome, ghost found: Deal)
      requires db.Valid()
      modifies db
      ensures db.Valid() && db.Continues()
      ensures outcome == NotFound <==> d >= |old(db.offers)|
      ensures outcome == Forbidden <==> d < |old(db.offers)| && old(db.offers)[d].master != caller
      ensures d < |old(db.offers)| ==>
                d < |found.hunt.offers| && found.hunt.offers[d].master == old(db.offers)[d].master
      ensures outcome == Done <==>
                && d < |old(db.offers)| && old(db.offers)[d].master == caller && found.book.row.status == Searching
                && found.hunt.offers[d].status == Offered && now <= found.hunt.offers[d].expiresAt
      ensures if outcome == Done then db.Took(found, AcceptEv(d, caller, now)) && MatchedFrom(found, d, caller)
              else db.Snapshot() == found
    {
      found := db.Snapshot();
      if d >= |db.offers| { outcome := NotFound; return; }
      if db.offers[d].master != caller { outcome := Forbidden; return; }
      db.Await(false);
      db.OffersRemain();
      found := db.Snapshot();
      outcome := Decide(d, caller, now);
    }

    /** The rest of the transaction, under the lock. */
    method Decide(d: nat, caller: MasterId, now: int) returns (outcome: Outcome)
      requires db.Valid() && d < |db.offers| && db.offers[d].master == caller
      modifies db
      ensures db.Valid() && db.Continues() && (outcome == Done || outcome == Conflict)
      ensures outcome == Done <==>
                old(db.row.status) == Searching && old(db.offers)[d].status == Offered && now <= old(db.offers)[d].expiresAt
      ensures if outcome == Done
              then db.Took(old(db.Snapshot()), AcceptEv(d, caller, now)) && MatchedFrom(old(db.Snapshot()), d, caller)
              else db.Snapshot() == old(db.Snapshot())
    {
      var offer := db.offers[d];
      if offer.status != Offered || offer.expiresAt < now { return Conflict; }
      if !CanTransition(db.row.status, Assigned) { return Conflict; }
      WriteAcceptance(d, caller, now);
      return Done;
    }

    method WriteAcceptance(d: nat, caller: MasterId, now: int)
      requires db.Valid() && AcceptAllowed(db.Snapshot(), d, caller, now)
      modifies db
      ensures db.Valid() && db.Continues() && db.Took(old(db.Snapshot()), AcceptEv(d, caller, now))
      ensures MatchedFrom(old(db.Snapshot()), d, caller)
    {
      var x := db.Snapshot();
      AcceptEffect(x, d, caller, now);
      var offers := WithdrawOthers(db.offers[d := db.offers[d].(status := Accepted)], d);
      var book := Record(x.book, db.row.status, db.row.(status := Assigned, master := Some(caller)));
      db.Write(x.(hunt := x.hunt.(offers := offers), book := book), AcceptEv(d, caller, now));
    }

    /**
     * Declines the offer exactly when it is open in `found`, the deal at the guarded write (`answered`), and then the
     * search goes on; otherwise writes nothing.
     */
    method DeclineOffer(d: nat, caller: MasterId, outs: Surroundings)
      returns (outcome: Outcome, answered: bool, ghost found: Deal)
      requires db.Valid() && Legal(outs(1)) && Legal(outs(2))
      modifies db
      ensures db.Valid() && db.Continues()
      ensures outcome == NotFound <==> d >= |old(db.offers)|
      ensures outcome == Forbidden <==> d < |old(db.offers)| && old(db.offers)[d].master != caller
      ensures outcome == Done ==> d < |found.hunt.offers|
      ensures outcome != Conflict
      ensures answered <==> outcome == Done && found.hunt.offers[d].status == Offered
      ensures !answered ==> db.Snapshot() == found
      ensures answered ==> Answered(found.hunt.offers, d, Declined, outs)
    {
      answered, found := false, db.Snapshot();
      if d >= |db.offers| { outcome := NotFound; return; }
      if db.offers[d].master != caller { outcome := Forbidden; return; }
      db.Await(false);
      db.OffersRemain();
      found, outcome := db.Snapshot(), Done;
      if db.offers[d].status != Offered { return; }
      RecordDecline(d, caller, outs);
      answered := true;
    }

    method RecordDecline(d: nat, caller: MasterId, outs: Surroundings)
      requires db.Valid() && Legal(outs(1)) && Legal(outs(2))
      requires d < |db.offers| && db.offers[d].status == Offered && db.offers[d].master == caller
      modifies db
      ensures db.Valid() && db.Continues() && Answered(old(db.offers), d, Declined, outs)
    {
      SpendOffer(d, Declined, ReadOrder(1), DeclineEv(d, caller));
      CascadeNext(1, outs);
    }
  }
}
