/** The order calls, statement by statement, with other callers running between a read and the write it guards. */
module OrdersService {
  import opened Prelude
  import opened OrderState
  import opened Pricing
  import opened Orders
  import opened Deals
  import opened DealInvariants
  import opened DealProofs
  import opened DealTheorems
  import opened DealEvolution
  import opened Database
  import opened Profiles

  datatype Outcome = Done | Forbidden | Conflict | BadRequest

  lemma SubmitEffect(x: Deal, caller: UserId, now: int)
    requires SubmitAllowed(x.book.row, caller, now)
    ensures var row := x.book.row;
            Step(x, SubmitEv(caller, now))
            == x.(book := Record(x.book, row.status, row.(status := Searching,
                                                         scheduledAt := if row.tier != Scheduled then None else row.scheduledAt)),
                  hunt := x.hunt.(searches := x.hunt.searches + [ReadOrder(1)]))
  {
    assert Submit(x.book, caller, now).history != x.book.history;
  }

  lemma WrittenIsSubmitted(x: Deal, y: Deal, caller: UserId, now: int)
    requires SubmitAllowed(x.book.row, caller, now) && x.hunt.searches == []
    requires var row := x.book.row;
             y == x.(book := Record(x.book, row.status, row.(status := Searching,
                                                             scheduledAt := if row.tier != Scheduled then None else row.scheduledAt)),
                     hunt := x.hunt.(searches := x.hunt.searches + [ReadOrder(1)]))
    ensures Submitted(x.book.row, y.book.row) && y.hunt.searches == [ReadOrder(1)]
    ensures y.book.history == x.book.history + [HistoryRow(Some(Priced), Searching)]
  {
  }

  lemma IdleUntilSubmitted(x: Deal)
    requires Inv(x) && Editable(x.book.row.status)
    ensures x.hunt.searches == []
  {
  }

  lemma CancelByMasterEffect(x: Deal, caller: MasterId, seen: OrderRow)
    requires seen in x.book.versions && seen.master == Some(caller)
    requires CanTransition(seen.status, CancelledByMaster) && x.book.row.status == seen.status
    ensures Step(x, CancelByMasterEv(caller, seen))
            == x.(book := Record(x.book, seen.status, x.book.row.(status := CancelledByMaster)),
                  conduct := x.conduct.(owed := x.conduct.owed + [Penalty(caller, Cancellation)]))
  {
    assert MoveByMaster(x.book, caller, seen, CancelledByMaster).history != x.book.history;
  }

  lemma ConfirmEffect(b: Book, caller: UserId, seen: OrderRow)
    requires seen.customer == caller && CanTransition(seen.status, Closed) && seen.master.Some?
    requires b.row.status == seen.status
    ensures BookStep(b, ConfirmEv(caller, seen)) == Record(b, seen.status, b.row.(status := Closed))
  {
  }

  /** The change on the profiles is the one that goes with the step. */
  lemma ConfirmChange(x: Deal, caller: UserId, seen: OrderRow)
    requires seen in x.book.versions && seen.customer == caller && CanTransition(seen.status, Closed) && seen.master.Some?
    requires x.book.row.status == seen.status
    ensures ChangesOf(x, ConfirmEv(caller, seen)) == [JobDone(seen.master.value)]
  {
    ConfirmEffect(x.book, caller, seen);
    assert Record(x.book, seen.status, x.book.row.(status := Closed)).history != x.book.history;
  }

  lemma CompleteEffect(b: Book, caller: MasterId, seen: OrderRow, amount: int)
    requires seen.master == Some(caller) && CanTransition(seen.status, Completed) && b.row.status == seen.status
    requires seen.priceMin.Some? && seen.priceMax.Some? ==> seen.priceMin.value <= amount <= seen.priceMax.value
    ensures BookStep(b, CompleteEv(caller, seen, amount))
            == Record(b, seen.status, b.row.(status := Completed, finalAmount := Some(amount)))
  {
  }

  lemma EditEffect(b: Book, caller: UserId, p: Patch, categories: set<CategoryId>, now: int)
    requires EditAllowed(b.row, caller, p, categories, now) && !InvalidatesQuote(b.row, p)
    ensures BookStep(b, UpdateDraftEv(caller, p, categories, now)) == Rewrite(b, Patched(b.row, p))
    ensures Applied(b.row, p, Patched(b.row, p))
  {
  }

  /**
   * What an edit leaves behind: its columns written, the rest kept; and if it names the description, category or tier of
   * a priced order, no quote, and the way back to Draft on record.
   */
  predicate Edited(b: Book, p: Patch, c: Book) {
    var dropped := b.row.status == Priced && (p.description.Some? || p.category.Some? || p.tier.Some?);
    && Applied(b.row, p, c.row)
    && c.row.platformFee == b.row.platformFee && c.row.basis == b.row.basis
    && (dropped ==> && c.row.status == Draft && c.row.priceMin.None? && c.row.priceMax.None?
                    && c.history == b.history + [HistoryRow(Some(Priced), Draft)])
    && (!dropped ==> && c.row.status == b.row.status && c.row.priceMin == b.row.priceMin && c.row.priceMax == b.row.priceMax
                     && c.history == b.history)
  }

  lemma UnquoteEffect(b: Book, caller: UserId, p: Patch, categories: set<CategoryId>, now: int)
    requires EditAllowed(b.row, caller, p, categories, now) && InvalidatesQuote(b.row, p)
    ensures var row := Patched(b.row, p).(status := Draft, priceMin := None, priceMax := None);
            && BookStep(b, UpdateDraftEv(caller, p, categories, now)) == Record(b, Priced, row)
            && Applied(b.row, p, row)
  {
  }

  lemma CancelEffect(b: Book, caller: UserId, seen: OrderRow)
    requires seen.customer == caller && CanTransition(seen.status, CancelledByCustomer) && b.row.status == seen.status
    ensures BookStep(b, CancelEv(caller, seen)) == Record(b, seen.status, b.row.(status := CancelledByCustomer))
  {
  }

  /**
   * What a diagnosis leaves behind: the customer's category or else the suggested one, the complexity, and the quote of
   * that category's band for the order's tier. Everything else is kept.
   */
  ghost predicate Diagnosed(r: OrderRow, complexity: Complexity, suggested: Option<CategoryId>, catalog: map<CategoryId, Band>,
                            s: OrderRow)
  {
    && s.category == (if r.category.Some? then r.category else suggested)
    && s.complexity == Some(complexity) && s.status == Priced
    && s.category.Some? && s.category.value in catalog && s.priceMin.Some? && s.priceMax.Some?
    && IsQuote(catalog[s.category.value], complexity, r.tier, Quote(s.priceMin.value, s.priceMax.value, s.platformFee))
    && s == r.(category := s.category, complexity := s.complexity, status := s.status, priceMin := s.priceMin,
               priceMax := s.priceMax, platformFee := s.platformFee, basis := s.basis)
  }

  /** Each outcome of a diagnosis exactly in its case. */
  predicate DiagnosisOutcome(r: OrderRow, caller: UserId, suggested: Option<CategoryId>, catalog: map<CategoryId, Band>,
                             outcome: Outcome)
  {
    var category := if r.category.Some? then r.category else suggested;
    if r.customer != caller then outcome == Forbidden
    else if r.status != Draft && r.status != Priced then outcome == Conflict
    else if category.None? || category.value !in catalog then outcome == BadRequest
    else outcome == Done
  }

  lemma RefusedDiagnosis(x: Deal, caller: UserId, complexity: Complexity, suggested: Option<CategoryId>,
                         catalog: map<CategoryId, Band>, outcome: Outcome)
    requires DiagnosisOutcome(x.book.row, caller, suggested, catalog, outcome) && outcome != Done
    ensures Step(x, DiagnoseEv(caller, complexity, suggested, catalog)) == x
  {
  }

  /** There is an address or a pair of coordinates and, for a scheduled order, a time that can be booked. */
  predicate Placed(r: OrderRow, now: int) {
    && (r.addressText == None || r.addressText == Some("") ==> r.latitude.Some? && r.longitude.Some?)
    && (r.tier == Scheduled ==> r.scheduledAt.Some? && Schedulable(r.scheduledAt.value, now))
  }

  /** Only the status moves; the appointment stays with a scheduled order and is cleared for the others. */
  predicate Submitted(r: OrderRow, s: OrderRow) {
    s == r.(status := Searching, scheduledAt := if r.tier == Scheduled then r.scheduledAt else None)
  }

  /** The status of `found` moves to this one, on record; nothing else of the order changes. */
  predicate Moves(found: Book, to: Status, c: Book) {
    && c.row == found.row.(status := to)
    && c.history == found.history + [HistoryRow(Some(found.row.status), to)]
  }

  function MoveEvent(caller: MasterId, seen: OrderRow, to: Status): Event {
    if to == EnRoute then EnRouteEv(caller, seen) else StartServiceEv(caller, seen)
  }

  lemma MoveEffect(b: Book, caller: MasterId, seen: OrderRow, to: Status)
    requires to == EnRoute || to == InProgress
    requires seen.master == Some(caller) && CanTransition(seen.status, to) && b.row.status == seen.status
    ensures BookStep(b, MoveEvent(caller, seen, to)) == Record(b, seen.status, b.row.(status := to))
  {
  }

  /** The amount lies inside the quote, as far as there is one. */
  predicate InQuote(r: OrderRow, amount: int) {
    r.priceMin.Some? && r.priceMax.Some? ==> r.priceMin.value <= amount <= r.priceMax.value
  }

  /** What was checked on the row read still holds for the row written. */
  lemma CheckedAmountStands(b: Book, seen: OrderRow, amount: int)
    requires BookInv(b) && seen in b.versions && seen.status == InProgress
    ensures seen.priceMin.Some? && seen.priceMax.Some?
    ensures b.row.priceMin == seen.priceMin && b.row.priceMax == seen.priceMax
  {
    assert RowOk(seen) && Follows(seen, b.row);
  }

  class OrdersService {
    const db: OrderTables
    const profiles: ProfileTable

    constructor (db: OrderTables, profiles: ProfileTable)
      ensures this.db == db && this.profiles == profiles
    {
      this.db := db;
      this.profiles := profiles;
    }

    /** A new draft, unless its category is not an active one. */
    static method CreateDraft(customer: UserId, category: Option<CategoryId>, description: string, active: set<CategoryId>,
                              script: seq<seq<Event>>)
      returns (outcome: Outcome, db: OrderTables?)
      ensures outcome == BadRequest <==> category.Some? && category.value !in active
      ensures outcome == BadRequest || outcome == Done
      ensures outcome == Done ==>
                db != null && fresh(db) && db.Valid() && db.Snapshot() == NewDeal(customer, category, description) && db.trace == []
      ensures outcome == Done ==>
                && db.row == OrderRow(customer, Draft, category, description, Scheduled, None, None, None, None,
                                      None, None, None, 0, None, None, None)
                && db.history == [HistoryRow(None, Draft)] && db.offers == [] && db.searches == [] && db.payments == []
    {
      if category.Some? && category.value !in active { return BadRequest, null; }
      db := new OrderTables.CreateDraft(customer, category, description, script);
      return Done, db;
    }

    /** The checks of an edit, in the order the service makes them. */
    static method CheckEdit(order: OrderRow, caller: UserId, p: Patch, categories: set<CategoryId>, now: int) returns (outcome: Outcome)
      ensures outcome == Done <==> EditAllowed(order, caller, p, categories, now)
      ensures outcome == Forbidden <==> order.customer != caller
      ensures outcome == Conflict <==> order.customer == caller && order.status != Draft && order.status != Priced
      ensures outcome == BadRequest <==>
                && order.customer == caller && (order.status == Draft || order.status == Priced)
                && (|| (p.category.Some? && p.category.value !in categories)
                    || (p.scheduledAt.Some? && p.scheduledAt.value.Some? && !Schedulable(p.scheduledAt.value.value, now)))
    {
      if order.customer != caller { return Forbidden; }
      if !Editable(order.status) { return Conflict; }
      if p.category.Some? && p.category.value !in categories { return BadRequest; }
      if p.scheduledAt.Some? && p.scheduledAt.value.Some? && !Schedulable(p.scheduledAt.value.value, now) { return BadRequest; }
      return Done;
    }

    method UpdateDraft(caller: UserId, p: Patch, categories: set<CategoryId>, now: int) returns (outcome: Outcome)
      requires db.Valid()
      modifies db
      ensures db.Valid() && db.Continues()
      ensures db.Snapshot() == Step(old(db.Snapshot()), UpdateDraftEv(caller, p, categories, now))
      ensures outcome == Done <==> EditAllowed(old(db.row), caller, p, categories, now)
      ensures if outcome == Done then Edited(old(db.Snapshot().book), p, db.Snapshot().book) else db.Snapshot() == old(db.Snapshot())
    {
      outcome := CheckEdit(db.row, caller, p, categories, now);
      if outcome == Done { WriteEdit(caller, p, categories, now); }
    }

    method WriteEdit(caller: UserId, p: Patch, categories: set<CategoryId>, now: int)
      requires db.Valid() && EditAllowed(db.row, caller, p, categories, now)
      modifies db
      ensures db.Valid() && db.Continues()
      ensures db.Snapshot() == Step(old(db.Snapshot()), UpdateDraftEv(caller, p, categories, now))
      ensures Edited(old(db.Snapshot().book), p, db.Snapshot().book)
    {
      if db.row.status == Priced && (p.description.Some? || p.category.Some? || p.tier.Some?) {
        WriteUnquoted(caller, p, categories, now);
      } else {
        EditEffect(db.Snapshot().book, caller, p, categories, now);
        db.WriteOrder(Patched(db.row, p), [], UpdateDraftEv(caller, p, categories, now));
      }
    }

    /** An edit that drops the quote, on record. */
    method WriteUnquoted(caller: UserId, p: Patch, categories: set<CategoryId>, now: int)
      requires db.Valid() && EditAllowed(db.row, caller, p, categories, now) && InvalidatesQuote(db.row, p)
      modifies db
      ensures db.Valid() && db.Continues()
      ensures db.Snapshot() == Step(old(db.Snapshot()), UpdateDraftEv(caller, p, categories, now))
      ensures Edited(old(db.Snapshot().book), p, db.Snapshot().book)
    {
      UnquoteEffect(db.Snapshot().book, caller, p, categories, now);
      db.WriteOrder(Patched(db.row, p).(status := Draft, priceMin := None, priceMax := None),
                    [HistoryRow(Some(Priced), Draft)], UpdateDraftEv(caller, p, categories, now));
    }

    method Diagnose(caller: UserId, complexity: Complexity, suggested: Option<CategoryId>, catalog: map<CategoryId, Band>)
      returns (outcome: Outcome)
      requires db.Valid()
      modifies db
      ensures db.Valid() && db.Continues()
      ensures db.Snapshot() == Step(old(db.Snapshot()), DiagnoseEv(caller, complexity, suggested, catalog))
      ensures DiagnosisOutcome(old(db.row), caller, suggested, catalog, outcome)
      ensures if outcome != Done then db.Snapshot() == old(db.Snapshot())
              else && Quoted(db.row) && Diagnosed(old(db.row), complexity, suggested, catalog, db.row)
                   && db.history == old(db.history) + [HistoryRow(Some(old(db.row.status)), Priced)]
    {
      var category: Option<CategoryId>;
      outcome, category := CheckDiagnosis(db.row, caller, suggested, catalog);
      if outcome == Done {
        WriteQuote(caller, complexity, suggested, catalog, category.value);
      } else {
        RefusedDiagnosis(db.Snapshot(), caller, complexity, suggested, catalog, outcome);
      }
    }

    /** The checks of a diagnosis, and the category it will price. */
    static method CheckDiagnosis(order: OrderRow, caller: UserId, suggested: Option<CategoryId>, catalog: map<CategoryId, Band>)
      returns (outcome: Outcome, category: Option<CategoryId>)
      ensures DiagnosisOutcome(order, caller, suggested, catalog, outcome)
      ensures category == if order.category.Some? then order.category else suggested
    {
      category := if order.category.Some? then order.category else suggested;
      if order.customer != caller { outcome := Forbidden; return; }
      if !CanTransition(order.status, Priced) { outcome := Conflict; return; }
      if category.None? { outcome := BadRequest; return; }
      if category.value !in catalog { outcome := BadRequest; return; }
      outcome := Done;
    }

    method WriteQuote(caller: UserId, complexity: Complexity, suggested: Option<CategoryId>, catalog: map<CategoryId, Band>,
                      category: CategoryId)
      requires db.Valid() && db.row.customer == caller && CanTransition(db.row.status, Priced) && category in catalog
      requires (if db.row.category.Some? then db.row.category else suggested) == Some(category)
      modifies db
      ensures db.Valid() && db.Continues()
      ensures db.Snapshot() == Step(old(db.Snapshot()), DiagnoseEv(caller, complexity, suggested, catalog))
      ensures Quoted(db.row) && Diagnosed(old(db.row), complexity, suggested, catalog, db.row)
      ensures db.history == old(db.history) + [HistoryRow(Some(old(db.row.status)), Priced)]
    {
      var order := db.row;
      var quote := ComputeQuote(catalog[category], complexity, order.tier);
      var data := order.(
        category := Some(category), complexity := Some(complexity), status := Priced,
        priceMin := Some(quote.priceMin), priceMax := Some(quote.priceMax), platformFee := quote.platformFee,
        basis := Some(Basis(category, catalog[category], complexity, order.tier, order.description)));
      QuoteMeetsBand(catalog[category], complexity, order.tier, quote);
      assert Diagnosed(order, complexity, suggested, catalog, data);
      db.WriteOrder(data, [HistoryRow(Some(order.status), Priced)], DiagnoseEv(caller, complexity, suggested, catalog));
    }

    /** The checks of a submission, in the order the service makes them. */
    static method CheckSubmission(order: OrderRow, caller: UserId, now: int) returns (outcome: Outcome)
      ensures outcome == Done <==> SubmitAllowed(order, caller, now)
      ensures outcome == Forbidden <==> order.customer != caller
      ensures outcome == Conflict <==> order.customer == caller && order.status != Priced
      ensures outcome == BadRequest <==> order.customer == caller && order.status == Priced && !Placed(order, now)
    {
      if order.customer != caller { return Forbidden; }
      if !CanTransition(order.status, Searching) { return Conflict; }
      if !(order.addressText.Some? && order.addressText.value != "") && (order.latitude.None? || order.longitude.None?) {
        return BadRequest;
      }
      if order.tier == Scheduled {
        if order.scheduledAt.None? || !Schedulable(order.scheduledAt.value, now) { return BadRequest; }
      }
      return Done;
    }

    /** Puts the order up for search; the search itself is left in flight. */
    method Submit(caller: UserId, now: int) returns (outcome: Outcome)
      requires db.Valid()
      modifies db
      ensures db.Valid() && db.Continues()
      ensures db.Snapshot() == Step(old(db.Snapshot()), SubmitEv(caller, now))
      ensures outcome == Done <==> old(db.row.customer) == caller && old(db.row.status) == Priced && Placed(old(db.row), now)
      ensures outcome != Done ==> db.Snapshot() == old(db.Snapshot())
      ensures outcome == Done ==> Submitted(old(db.row), db.row) && db.searches == [ReadOrder(1)]
      ensures outcome == Done ==> db.history == old(db.history) + [HistoryRow(Some(Priced), Searching)]
    {
      outcome := CheckSubmission(db.row, caller, now);
      if outcome == Done {
        db.Sound();
        IdleUntilSubmitted(db.Snapshot());
        EnterSearch(caller, now);
      }
    }

    method EnterSearch(caller: UserId, now: int)
      requires db.Valid() && SubmitAllowed(db.row, caller, now) && db.searches == []
      modifies db
      ensures db.Valid() && db.Continues() && db.Snapshot() == Step(old(db.Snapshot()), SubmitEv(caller, now))
      ensures Submitted(old(db.row), db.row) && db.searches == [ReadOrder(1)]
      ensures db.history == old(db.history) + [HistoryRow(Some(Priced), Searching)]
    {
      var x, order := db.Snapshot(), db.row;
      var data := order.(status := Searching, scheduledAt := if order.tier != Scheduled then None else order.scheduledAt);
      SubmitEffect(x, caller, now);
      var y := x.(book := Record(x.book, order.status, data), hunt := x.hunt.(searches := x.hunt.searches + [ReadOrder(1)]));
      WrittenIsSubmitted(x, y, caller, now);
      db.Write(y, SubmitEv(caller, now));
    }

    /**
     * Cancellation takes effect exactly when it was allowed on the row that was read and `found`, the deal at the
     * guarded write, still has the status that was read.
     */
    method Cancel(caller: UserId) returns (outcome: Outcome, ghost found: Deal)
      requires db.Valid()
      modifies db
      ensures db.Valid() && db.Continues()
      ensures outcome == Forbidden <==> old(db.row.customer) != caller
      ensures outcome == Done <==>
                && old(db.row.customer) == caller && CanTransition(old(db.row.status), CancelledByCustomer)
                && found.book.row.status == old(db.row.status)
      ensures outcome == Done || outcome == Forbidden || outcome == Conflict
      ensures if outcome == Done then db.Took(found, CancelEv(caller, old(db.row))) else db.Snapshot() == found
      ensures outcome == Done ==> Moves(found.book, CancelledByCustomer, db.Snapshot().book)
    {
      var order := db.row;
      found := db.Snapshot();
      if order.customer != caller { outcome := Forbidden; return; }
      if !CanTransition(order.status, CancelledByCustomer) { outcome := Conflict; return; }
      db.Await(false);
      found := db.Snapshot();
      if db.row.status != order.status { outcome := Conflict; return; }
      CancelEffect(found.book, caller, order);
      db.WriteOrder(db.row.(status := CancelledByCustomer), [HistoryRow(Some(order.status), CancelledByCustomer)],
                    CancelEv(caller, order));
      outcome := Done;
    }

    /** En-route and start: the guarded transition shared by the master's moves. */
    method MoveOn(caller: MasterId, to: Status) returns (outcome: Outcome, ghost found: Deal)
      requires db.Valid() && (to == EnRoute || to == InProgress)
      modifies db
      ensures db.Valid() && db.Continues()
      ensures outcome == Forbidden <==> old(db.row.master) != Some(caller)
      ensures outcome == Done <==>
                && old(db.row.master) == Some(caller) && CanTransition(old(db.row.status), to)
                && found.book.row.status == old(db.row.status)
      ensures if outcome == Done then db.Took(found, MoveEvent(caller, old(db.row), to)) else db.Snapshot() == found
      ensures outcome == Done ==> Moves(found.book, to, db.Snapshot().book) && db.row.master == Some(caller)
    {
      var order := db.row;
      found := db.Snapshot();
      if order.master != Some(caller) { outcome := Forbidden; return; }
      if !CanTransition(order.status, to) { outcome := Conflict; return; }
      db.Await(false);
      found := db.Snapshot();
      if db.row.status != order.status { outcome := Conflict; return; }
      MoveEffect(found.book, caller, order, to);
      db.WriteOrder(db.row.(status := to), [HistoryRow(Some(order.status), to)], MoveEvent(caller, order, to));
      outcome := Done;
    }

    /** The master reports the final amount: checked against the quote that was read, valid for the quote that stands. */
    method CompleteService(caller: MasterId, amount: int) returns (outcome: Outcome, ghost found: Deal)
      requires db.Valid()
      modifies db
      ensures db.Valid() && db.Continues()
      ensures outcome == Done <==>
                && old(db.row.master) == Some(caller) && CanTransition(old(db.row.status), Completed)
                && InQuote(old(db.row), amount) && found.book.row.status == old(db.row.status)
      ensures outcome == BadRequest <==>
                && old(db.row.master) == Some(caller) && CanTransition(old(db.row.status), Completed) && !InQuote(old(db.row), amount)
      ensures if outcome == Done then db.Took(found, CompleteEv(caller, old(db.row), amount)) else db.Snapshot() == found
      ensures outcome == Done ==>
                && Moves(found.book.(row := found.book.row.(finalAmount := Some(amount))), Completed, db.Snapshot().book)
                && db.row.priceMin.Some? && db.row.priceMax.Some? && InQuote(db.row, amount)
    {
      var order := db.row;
      found := db.Snapshot();
      if order.master != Some(caller) { outcome := Forbidden; return; }
      if !CanTransition(order.status, Completed) { outcome := Conflict; return; }
      if order.priceMin.Some? && order.priceMax.Some? {
        if amount < order.priceMin.value || amount > order.priceMax.value { outcome := BadRequest; return; }
      }
      db.Await(false);
      found := db.Snapshot();
      if db.row.status != order.status { outcome := Conflict; return; }
      WriteCompletion(caller, order, amount);
      outcome := Done;
    }

    method WriteCompletion(caller: MasterId, order: OrderRow, amount: int)
      requires db.Valid() && order in db.versions && order.master == Some(caller) && CanTransition(order.status, Completed)
      requires InQuote(order, amount) && db.row.status == order.status
      modifies db
      ensures db.Valid() && db.Continues() && db.Took(old(db.Snapshot()), CompleteEv(caller, order, amount))
      ensures Moves(old(db.Snapshot()).book.(row := old(db.row).(finalAmount := Some(amount))), Completed, db.Snapshot().book)
      ensures db.row.priceMin.Some? && db.row.priceMax.Some? && InQuote(db.row, amount)
    {
      db.Sound();
      CheckedAmountStands(db.Snapshot().book, order, amount);
      CompleteEffect(db.Snapshot().book, caller, order, amount);
      db.WriteOrder(db.row.(status := Completed, finalAmount := Some(amount)), [HistoryRow(Some(order.status), Completed)],
                    CompleteEv(caller, order, amount));
    }

    /** The transaction: the guarded status write and the job counted. */
    method Close(caller: UserId, order: OrderRow)
      requires db.Valid() && profiles.Valid() && order in db.versions && order.customer == caller
      requires order.status == Completed == db.row.status && order.master.Some?
      modifies db, profiles
      ensures db.Valid() && db.Continues() && db.Took(old(db.Snapshot()), ConfirmEv(caller, order))
      ensures Moves(old(db.Snapshot()).book, Closed, db.Snapshot().book)
      ensures ChangesOf(old(db.Snapshot()), ConfirmEv(caller, order)) == [JobDone(order.master.value)]
      ensures profiles.Valid() && CountedOnce(old(profiles.credits), order.master.value, profiles.credits)
    {
      ConfirmEffect(db.Snapshot().book, caller, order);
      ConfirmChange(db.Snapshot(), caller, order);
      db.WriteOrder(db.row.(status := Closed), [HistoryRow(Some(order.status), Closed)], ConfirmEv(caller, order));
      profiles.CountJob(order.master.value);
    }

    /**
     * The order is closed and the job counted for its master, once, in one transaction; `found` and `counted` are the
     * deal and the profiles it finds.
     */
    method ConfirmCompletion(caller: UserId) returns (outcome: Outcome, ghost found: Deal, ghost counted: Credits)
      requires db.Valid() && profiles.Valid()
      modifies db, profiles
      ensures db.Valid() && db.Continues() && profiles.Valid() && Grown(old(profiles.credits), counted)
      ensures outcome == Done <==>
                && old(db.row.customer) == caller && old(db.row.status) == Completed && old(db.row.master).Some?
                && found.book.row.status == Completed
      ensures if outcome == Done then db.Took(found, ConfirmEv(caller, old(db.row))) else db.Snapshot() == found
      ensures outcome == Done ==> Moves(found.book, Closed, db.Snapshot().book) && db.row.master == old(db.row.master)
      ensures outcome != Done ==> profiles.credits == counted
      ensures outcome == Done ==>
                var master := old(db.row.master).value;
                && ChangesOf(found, ConfirmEv(caller, old(db.row))) == [JobDone(master)]
                && CountedOnce(counted, master, profiles.credits)
    {
      var order := db.row;
      found, counted := db.Snapshot(), profiles.credits;
      if order.customer != caller { outcome := Forbidden; return; }
      if !CanTransition(order.status, Closed) { outcome := Conflict; return; }
      if order.master.None? { outcome := Conflict; return; }
      profiles.Await();
      db.Await(false);
      found, counted := db.Snapshot(), profiles.credits;
      outcome := CloseUnlessMoved(caller, order);
    }

    method CloseUnlessMoved(caller: UserId, order: OrderRow) returns (outcome: Outcome)
      requires db.Valid() && profiles.Valid() && order in db.versions && order.customer == caller
      requires order.status == Completed && order.master.Some?
      modifies db, profiles
      ensures db.Valid() && db.Continues() && profiles.Valid()
      ensures outcome == if old(db.row.status) == Completed then Done else Conflict
      ensures outcome != Done ==> db.Snapshot() == old(db.Snapshot()) && profiles.credits == old(profiles.credits)
      ensures outcome == Done ==>
                && db.Took(old(db.Snapshot()), ConfirmEv(caller, order)) && Moves(old(db.Snapshot()).book, Closed, db.Snapshot().book)
                && ChangesOf(old(db.Snapshot()), ConfirmEv(caller, order)) == [JobDone(order.master.value)]
                && CountedOnce(old(profiles.credits), order.master.value, profiles.credits)
    {
      if db.row.status != order.status { return Conflict; }
      Close(caller, order);
      return Done;
    }

    /** The master backs out; the penalty is owed from that very write on. */
    method CancelByMaster(caller: MasterId) returns (outcome: Outcome, ghost found: Deal)
      requires db.Valid()
      modifies db
      ensures db.Valid() && db.Continues()
      ensures outcome == Done <==>
                && old(db.row.master) == Some(caller) && CanTransition(old(db.row.status), CancelledByMaster)
                && found.book.row.status == old(db.row.status)
      ensures if outcome == Done then db.Took(found, CancelByMasterEv(caller, old(db.row))) else db.Snapshot() == found
      ensures outcome == Done ==>
                && Moves(found.book, CancelledByMaster, db.Snapshot().book) && db.row.master == Some(caller)
                && db.conduct.owed == found.conduct.owed + [Penalty(caller, Cancellation)]
    {
      var order := db.row;
      found := db.Snapshot();
      if order.master != Some(caller) { outcome := Forbidden; return; }
      if !CanTransition(order.status, CancelledByMaster) { outcome := Conflict; return; }
      db.Await(false);
      found := db.Snapshot();
      if db.row.status != order.status { outcome := Conflict; return; }
      WriteCancellation(caller, order);
      outcome := Done;
    }

    method WriteCancellation(caller: MasterId, order: OrderRow)
      requires db.Valid() && order in db.versions && order.master == Some(caller)
      requires CanTransition(order.status, CancelledByMaster) && db.row.status == order.status
      modifies db
      ensures db.Valid() && db.Continues() && db.Took(old(db.Snapshot()), CancelByMasterEv(caller, order))
      ensures Moves(old(db.Snapshot()).book, CancelledByMaster, db.Snapshot().book)
      ensures db.conduct.owed == old(db.conduct.owed) + [Penalty(caller, Cancellation)]
    {
      CancelByMasterEffect(db.Snapshot(), caller, order);
      var x := db.Snapshot();
      db.Write(x.(book := Record(x.book, order.status, x.book.row.(status := CancelledByMaster)),
                  conduct := x.conduct.(owed := x.conduct.owed + [Penalty(caller, Cancellation)])),
               CancelByMasterEv(caller, order));
    }
  }
}
