/** The review call, statement by statement, with other callers running in between. */
module ReviewsService {
  import opened Prelude
  import opened OrderState
  import opened Orders
  import opened Deals
  import opened DealInvariants
  import opened DealProofs
  import DealTheorems
  import opened Database
  import opened Profiles

  datatype Outcome = Done | Forbidden | Conflict

  function Reviewed(c: Conduct, master: MasterId, rating: int): Conduct {
    c.(review := Some(rating),
       owed := c.owed + if rating <= COMPLAINT_THRESHOLD then [Penalty(master, CustomerComplaint)] else [])
  }

  lemma ReviewEffect(x: Deal, caller: UserId, seen: OrderRow, rating: int)
    requires seen in x.book.versions && seen.customer == caller && seen.status == Closed && seen.master.Some?
    requires x.conduct.review.None?
    ensures Step(x, ReviewEv(caller, seen, rating)) == x.(conduct := Reviewed(x.conduct, seen.master.value, rating))
  {
  }

  /** The change on the profiles is the one that goes with the step. */
  lemma ReviewChange(x: Deal, caller: UserId, seen: OrderRow, rating: int)
    requires seen in x.book.versions && seen.customer == caller && seen.status == Closed && seen.master.Some?
    requires x.conduct.review.None?
    ensures ChangesOf(x, ReviewEv(caller, seen, rating)) == [Rated(seen.master.value, rating)]
  {
    ReviewEffect(x, caller, seen, rating);
    assert Reviewed(x.conduct, seen.master.value, rating).review.Some?;
  }

  /** Before the review there is no complaint. */
  lemma NoComplaintYet(x: Deal)
    requires Inv(x) && x.conduct.review.None?
    ensures forall i :: 0 <= i < |x.conduct.owed| ==> x.conduct.owed[i].kind != CustomerComplaint
  {
    forall i | 0 <= i < |x.conduct.owed| ensures x.conduct.owed[i].kind != CustomerComplaint {
      var p := x.conduct.owed[i];
      assert p in multiset(x.conduct.owed);
      NotCalled(x, p);
    }
  }

  lemma NotCalled(x: Deal, p: Penalty)
    requires Inv(x) && x.conduct.review.None? && multiset(x.conduct.owed)[p] > 0
    ensures p.kind != CustomerComplaint
  {
    DealTheorems.LedgerEntry(x, p);
    DealTheorems.LateFeesAreCounted(x.hunt.offers, p.master);
  }

  /** Nothing follows a closed row. */
  lemma ClosedRowIsFinal(b: Book, seen: OrderRow)
    requires BookInv(b) && seen in b.versions && seen.status == Closed
    ensures b.row == seen
  {
    ClosedStaysClosed(b, seen);
    assert RowOk(seen) && Follows(seen, b.row);
  }

  class ReviewsService {
    const db: OrderTables
    const profiles: ProfileTable

    constructor (db: OrderTables, profiles: ProfileTable)
      ensures this.db == db && this.profiles == profiles
    {
      this.db := db;
      this.profiles := profiles;
    }

    /** Others run; the closed order's row stays. */
    method Wait()
      requires db.Valid() && profiles.Valid() && db.row.status == Closed
      modifies db, profiles
      ensures db.Valid() && db.Continues() && db.row == old(db.row)
      ensures profiles.Valid() && Grown(old(profiles.credits), profiles.credits)
    {
      var order := db.row;
      db.Await(false);
      profiles.Await();
      db.Sound();
      ClosedRowIsFinal(db.Snapshot().book, order);
    }

    /** The transaction: the review and the master's new rating. */
    method Insert(caller: UserId, order: OrderRow, rating: int)
      requires db.Valid() && profiles.Valid() && db.conduct.review.None?
      requires order == db.row && order.customer == caller && order.status == Closed && order.master.Some?
      modifies db, profiles
      ensures db.Valid() && db.Continues() && db.Took(old(db.Snapshot()), ReviewEv(caller, order, rating))
      ensures db.row == order && db.conduct == Reviewed(old(db.conduct), order.master.value, rating)
      ensures forall i :: 0 <= i < |old(db.conduct).owed| ==> old(db.conduct).owed[i].kind != CustomerComplaint
      ensures profiles.Valid() && profiles.credits == Credited(old(profiles.credits), Rated(order.master.value, rating))
      ensures RatedOnce(CreditOf(old(profiles.credits), order.master.value), rating, CreditOf(profiles.credits, order.master.value))
      ensures ChangesOf(old(db.Snapshot()), ReviewEv(caller, order, rating)) == [Rated(order.master.value, rating)]
    {
      db.Sound();
      NoComplaintYet(db.Snapshot());
      var x := db.Snapshot();
      ReviewEffect(x, caller, order, rating);
      ReviewChange(x, caller, order, rating);
      db.Write(x.(conduct := Reviewed(x.conduct, order.master.value, rating)), ReviewEv(caller, order, rating));
      RatingAverages(CreditOf(profiles.credits, order.master.value), rating);
      profiles.Rate(order.master.value, rating);
    }

    /**
     * A review is inserted once per closed order, whoever races: exactly when the checks pass on the row read and
     * `found`, the deal at the insert, has none. A rating of 2 or less owes the master a complaint. In the same
     * transaction the master's stored rating becomes the average of all reviews in `rated`, the profiles found, and this.
     */
    method Create(caller: UserId, rating: int) returns (outcome: Outcome, ghost found: Deal, ghost rated: Credits)
      requires db.Valid() && profiles.Valid()
      modifies db, profiles
      ensures db.Valid() && db.Continues() && profiles.Valid() && Grown(old(profiles.credits), rated)
      ensures outcome == Forbidden <==> old(db.row.customer) != caller
      ensures outcome == Done <==>
                old(db.row.customer) == caller && old(db.row.status) == Closed && found.conduct.review.None?
      ensures if outcome == Done then db.Took(found, ReviewEv(caller, old(db.row), rating)) else db.Snapshot() == found
      ensures outcome == Done ==>
                && db.row == old(db.row) && db.row.master.Some?
                && db.conduct == found.conduct.(review := Some(rating), owed := db.conduct.owed)
                && db.conduct.owed == found.conduct.owed + (if rating <= 2 then [Penalty(db.row.master.value, CustomerComplaint)] else [])
                && (forall i :: 0 <= i < |found.conduct.owed| ==> found.conduct.owed[i].kind != CustomerComplaint)
      ensures outcome != Done ==> profiles.credits == rated
      ensures outcome == Done ==>
                var master := old(db.row.master).value;
                && ChangesOf(found, ReviewEv(caller, old(db.row), rating)) == [Rated(master, rating)]
                && profiles.credits == rated[master := CreditOf(profiles.credits, master)]
                && RatedOnce(CreditOf(rated, master), rating, CreditOf(profiles.credits, master))
    {
      var order := db.row;
      found, rated := db.Snapshot(), profiles.credits;
      if order.customer != caller { outcome := Forbidden; return; }
      if order.status != Closed { outcome := Conflict; return; }
      db.Sound();
      assert RowOk(order);
      if order.master.None? { outcome := Conflict; return; }
      Wait();
      found, rated := db.Snapshot(), profiles.credits;
      if db.conduct.review.Some? { outcome := Conflict; return; }
      Wait();
      found, rated := db.Snapshot(), profiles.credits;
      if db.conduct.review.Some? { outcome := Conflict; return; } // the insert violates the uniqueness of orderId
      Insert(caller, order, rating);
      outcome := Done;
    }
  }
}
