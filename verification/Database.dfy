/**
 * The rows of one order as the services update them in place, with everybody else's steps in between.
 *
 * `script` holds what others do whenever a service waits for the database; it is arbitrary. A service that runs
 * a search takes the steps of that search itself. `trace` records every step since `origin`.
 */
module Database {
  import opened Prelude
  import opened OrderState
  import opened Orders
  import opened Payments
  import opened Deals
  import opened DealInvariants
  import opened DealProofs
  import opened DealTheorems
  import opened DealEvolution

  /** Not a step of an in-flight search. */
  predicate Foreign(e: Event) {
    !e.AdvanceEv? && !e.CrashEv?
  }

  lemma ForeignLeavesSearch(x: Deal, e: Event)
    requires Inv(x) && Foreign(e) && x.hunt.searches != []
    ensures Step(x, e).hunt == x.hunt
  {
    OnlySearch(x.book, x.hunt, 0);
    if !Possible(x, e) || IsBookEvent(e) || IsPaymentEvent(e) || IsConductEvent(e) || IsJobEvent(e) {
    } else if IsOfferEvent(e) {
      ForeignOffers(x, e);
    } else {
      ForeignSubmission(x, e);
    }
  }

  lemma ForeignOffers(x: Deal, e: Event)
    requires OffersInOrder(x.hunt.offers) && Live(x.hunt.offers) == 0 && IsOfferEvent(e)
    ensures OfferStep(x, e).hunt == x.hunt
  {
  }

  lemma ForeignSubmission(x: Deal, e: Event)
    requires !Editable(x.book.row.status) && (e.SubmitEv? || e.CancelByMasterEv?) && Possible(x, e)
    ensures SearchStep(x, e).hunt == x.hunt
  {
  }

  lemma EarlierRow(x: Deal, y: Deal)
    requires Inv(x) && Evolves(x, y)
    ensures x.book.row in y.book.versions && Follows(x.book.row, y.book.row)
  {
  }

  class OrderTables {
    var row: OrderRow
    var versions: set<OrderRow>
    var history: seq<HistoryRow>
    var offers: seq<Offer>
    var searches: seq<Search>
    var lost: nat
    var expiredFor: Option<Reason>
    var payments: seq<Payment>
    var conduct: Conduct
    var jobs: seq<Job>
    var script: seq<seq<Event>>
    ghost var origin: Deal
    ghost var trace: seq<Event>

    function Snapshot(): Deal
      reads this
    {
      Deal(Book(row, versions, history), Hunt(offers, searches, lost, expiredFor), payments, conduct, jobs)
    }

    /** The tables are what the recorded steps make of a sound beginning. */
    ghost predicate Valid()
      reads this
    {
      Inv(origin) && Snapshot() == Run(origin, trace)
    }

    lemma Sound()
      requires Valid()
      ensures Inv(Snapshot())
    {
      RunKeepsInv(origin, trace);
    }

    /** Since the earlier state: only recorded steps were added. */
    twostate predicate Continues()
      reads this
    {
      origin == old(origin) && old(trace) <= trace
    }

    /** Event e was the last step recorded, and was taken on `found`. */
    ghost predicate Took(found: Deal, e: Event)
      reads this
    {
      && trace != [] && trace[|trace| - 1] == e
      && found == Run(origin, trace[..|trace| - 1]) && Snapshot() == Step(found, e)
    }

    constructor CreateDraft(customer: UserId, category: Option<CategoryId>, description: string, script: seq<seq<Event>>)
      ensures Valid() && Snapshot() == NewDeal(customer, category, description) && trace == []
    {
      var x := NewDeal(customer, category, description);
      row, versions, history := x.book.row, x.book.versions, x.book.history;
      offers, searches, lost, expiredFor := [], [], 0, None;
      payments, conduct, jobs := [], x.conduct, [];
      this.script := script;
      origin, trace := x, [];
      new;
      NewDealIsSound(customer, category, description);
    }

    /** Records that the fields now are what event e makes of `before`. */
    ghost method Commit(e: Event, before: Deal)
      requires Inv(origin) && before == Run(origin, trace) && Snapshot() == Step(before, e)
      modifies this`trace
      ensures Valid() && trace == old(trace) + [e]
    {
      RunAppends(origin, trace, [e]);
      assert [e][1..] == [] && Run(before, [e]) == Run(Step(before, e), []);
      trace := trace + [e];
    }

    method Load(y: Deal)
      modifies this
      ensures Snapshot() == y && origin == old(origin) && trace == old(trace) && script == old(script)
    {
      row, versions, history := y.book.row, y.book.versions, y.book.history;
      offers, searches, lost, expiredFor := y.hunt.offers, y.hunt.searches, y.hunt.lost, y.hunt.expiredFor;
      payments, conduct, jobs := y.payments, y.conduct, y.jobs;
    }

    /** Somebody else's step. */
    method Perform(e: Event)
      requires Valid()
      modifies this
      ensures Valid() && Continues() && Snapshot() == Step(old(Snapshot()), e) && script == old(script)
    {
      ghost var before := Snapshot();
      Load(Step(Snapshot(), e));
      Commit(e, before);
    }

    /** Whatever was recorded since the earlier state, the tables only evolved. */
    twostate lemma Evolved()
      requires old(Valid()) && Valid() && Continues()
      ensures Evolves(old(Snapshot()), Snapshot())
    {
      var more := trace[|old(trace)|..];
      assert trace == old(trace) + more;
      RunAppends(origin, old(trace), more);
      RunKeepsInv(origin, old(trace));
      RunEvolves(old(Snapshot()), more);
    }

    twostate lemma OffersRemain()
      requires old(Valid()) && Valid() && Continues()
      ensures |old(offers)| <= |offers|
      ensures forall d :: 0 <= d < |old(offers)| ==> offers[d] == old(offers)[d].(status := offers[d].status)
    {
      Evolved();
    }

    twostate lemma JobsRemain()
      requires old(Valid()) && Valid() && Continues()
      ensures JobsEvolve(old(jobs), jobs)
    {
      Evolved();
    }

    twostate lemma PenaltiesRemain()
      requires old(Valid()) && Valid() && Continues()
      ensures old(conduct.penalties) <= conduct.penalties
    {
      Evolved();
    }

    twostate lemma PaymentsRemain()
      requires old(Valid()) && Valid() && Continues()
      ensures |old(payments)| <= |payments|
      ensures forall i :: 0 <= i < |old(payments)| ==>
                Later(old(payments)[i].row, payments[i].row) && old(payments)[i].past <= payments[i].past
    {
      Evolved();
    }

    /** Other callers take these steps. A search of the service's own is left to the service. */
    method Others(events: seq<Event>, ownSearch: bool)
      requires Valid()
      modifies this
      ensures Valid() && Continues() && script == old(script)
      ensures ownSearch && old(searches) != [] ==> Snapshot().hunt == old(Snapshot().hunt)
    {
      for k := 0 to |events|
        invariant Valid() && Continues() && script == old(script)
        invariant ownSearch && old(searches) != [] ==> Snapshot().hunt == old(Snapshot().hunt)
      {
        if !ownSearch || Foreign(events[k]) {
          ghost var mid := Snapshot();
          if ownSearch && mid.hunt.searches != [] {
            Sound();
            ForeignLeavesSearch(mid, events[k]);
          }
          Perform(events[k]);
        }
      }
    }

    /** Waiting for the database: whatever others are scripted to do happens now. */
    method Await(ownSearch: bool)
      requires Valid()
      modifies this
      ensures Valid() && Continues()
      ensures old(row) in versions && Follows(old(row), row)
      ensures ownSearch && old(searches) != [] ==> Snapshot().hunt == old(Snapshot().hunt)
    {
      ghost var before := Snapshot();
      Sound();
      var events := if script == [] then [] else script[0];
      script := if script == [] then [] else script[1..];
      Others(events, ownSearch);
      Evolved();
      EarlierRow(before, Snapshot());
    }

    /** One transaction on the order: a new value of the row, with its history entries. */
    method WriteOrder(next: OrderRow, entries: seq<HistoryRow>, ghost e: Event)
      requires Valid() && IsBookEvent(e) && Possible(Snapshot(), e)
      requires BookStep(Snapshot().book, e) == Book(next, versions + {next}, history + entries)
      modifies this
      ensures Valid() && Snapshot() == Step(old(Snapshot()), e)
      ensures row == next && history == old(history) + entries && Took(old(Snapshot()), e)
      ensures trace == old(trace) + [e] && origin == old(origin) && script == old(script)
    {
      ghost var before := Snapshot();
      Load(Snapshot().(book := Book(next, versions + {next}, history + entries)));
      Commit(e, before);
    }

    /** One transaction on several tables. */
    method Write(y: Deal, ghost e: Event)
      requires Valid() && Step(Snapshot(), e) == y
      modifies this
      ensures Valid() && Snapshot() == y && Took(old(Snapshot()), e)
      ensures trace == old(trace) + [e] && origin == old(origin) && script == old(script)
    {
      ghost var before := Snapshot();
      Load(y);
      Commit(e, before);
    }
  }
}
