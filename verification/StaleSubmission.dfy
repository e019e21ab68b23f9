/**
 * Delayed pre-submission calls on the whole deal: a delayed submission also starts a search. When the deal stays
 * sound, among any other steps, and what two overlapping submissions do to the offers.
 */
module StaleSubmission {
  import opened Prelude
  import opened OrderState
  import opened Pricing
  import opened Scoring
  import opened Eligibility
  import opened Orders
  import opened Payments
  import opened Deals
  import opened DealInvariants
  import opened DealProofs
  import opened DealTheorems
  import opened SearchTermination
  import opened StaleWizard
  import Stalls

  /** The delayed write, on the deal as it is by then; a submission dispatches whatever it has found. */
  function WrittenDeal(x: Deal, c: Call): Deal {
    x.(book := Written(x.book, c),
       hunt := if c.Send? then x.hunt.(searches := x.hunt.searches + [ReadOrder(1)]) else x.hunt)
  }

  /** With no delay a submission is the atomic one. */
  lemma FreshSubmission(x: Deal, caller: UserId, now: int)
    requires SubmitAllowed(x.book.row, caller, now)
    ensures WrittenDeal(x, Send(x.book.row)) == Step(x, SubmitEv(caller, now))
  {
    FreshSend(x.book, caller, now);
    assert Submit(x.book, caller, now).history != x.book.history;
  }

  // ---- When the deal stays sound --------------------------------------------------

  lemma StandingSend(x: Deal, c: Call)
    requires Inv(x) && WellRead(x.book, c) && c.Send? && Stands(x.book.row, c)
    ensures Inv(WrittenDeal(x, c))
  {
    var d := Written(x.book, c);
    assert RowOk(x.book.row) && LegalWrite(x.book, d);
    SubmitKeepsSearch(x.book, d, x.hunt);
    assert x.payments == [] && x.conduct.review.None?;
    IdleSearchOwesNothing(x.book.row, d.row, x.hunt, x.conduct, ReadOrder(1));
    assert WrittenDeal(x, c).hunt == x.hunt.(searches := [ReadOrder(1)]);
  }

  lemma StandingWriteIsQuiet(b: Book, c: Call)
    requires BookInv(b) && WellRead(b, c) && !c.Send? && Stands(b.row, c)
    ensures Written(b, c) == b || QuietWrite(b, Written(b, c))
  {
    assert RowOk(b.row);
    if c.Edit? { StandingEditIsQuiet(b, c); }
  }

  lemma StandingEditIsQuiet(b: Book, c: Call)
    requires BookInv(b) && RowOk(b.row) && WellRead(b, c) && c.Edit? && Stands(b.row, c)
    ensures Written(b, c) == b || QuietWrite(b, Written(b, c))
  {
  }

  /** A delayed call leaves a sound deal sound exactly when it stands at its write. */
  lemma DelayedCallIsSoundIff(x: Deal, c: Call)
    requires Inv(x) && WellRead(x.book, c)
    ensures Inv(WrittenDeal(x, c)) <==> Stands(x.book.row, c)
  {
    DelayIsHarmlessIff(x.book, c);
    if Stands(x.book.row, c) {
      if c.Send? {
        StandingSend(x, c);
      } else {
        StandingWriteIsQuiet(x.book, c);
        QuietWriteKeepsInv(x, Written(x.book, c));
      }
    }
  }

  // ---- Runs of delayed calls among all other steps --------------------------------

  datatype Act = Ordinary(event: Event) | Delayed(call: Call)

  function ActStep(x: Deal, a: Act): Deal {
    match a
    case Ordinary(e) => Step(x, e)
    case Delayed(c) => WrittenDeal(x, c)
  }

  function ActRun(x: Deal, acts: seq<Act>): Deal
    decreases |acts|
  {
    if acts == [] then x else ActRun(ActStep(x, acts[0]), acts[1..])
  }

  /** Each delayed call read a version the order really had. */
  predicate ActsRead(x: Deal, acts: seq<Act>)
    decreases |acts|
  {
    acts != [] ==> (acts[0].Delayed? ==> WellRead(x.book, acts[0].call)) && ActsRead(ActStep(x, acts[0]), acts[1..])
  }

  predicate ActsStand(x: Deal, acts: seq<Act>)
    decreases |acts|
  {
    acts != [] ==> (acts[0].Delayed? ==> Stands(x.book.row, acts[0].call)) && ActsStand(ActStep(x, acts[0]), acts[1..])
  }

  ghost predicate SoundAlong(x: Deal, acts: seq<Act>)
    decreases |acts|
  {
    Inv(x) && (acts != [] ==> SoundAlong(ActStep(x, acts[0]), acts[1..]))
  }

  /** Along any run - delayed calls in the midst of every other step - all deals are sound exactly when each call stands. */
  lemma {:induction false} ActsAreSoundIffAllStand(x: Deal, acts: seq<Act>)
    requires Inv(x) && ActsRead(x, acts)
    ensures SoundAlong(x, acts) <==> ActsStand(x, acts)
    decreases |acts|
  {
    if acts != [] {
      var y := ActStep(x, acts[0]);
      if acts[0].Delayed? {
        DelayedCallIsSoundIff(x, acts[0].call);
      } else {
        StepKeepsInv(x, acts[0].event);
      }
      if Inv(y) { ActsAreSoundIffAllStand(y, acts[1..]); }
    }
  }

  lemma {:induction false} SoundAtTheEnd(x: Deal, acts: seq<Act>)
    requires SoundAlong(x, acts)
    ensures Inv(ActRun(x, acts))
    decreases |acts|
  {
    if acts != [] { SoundAtTheEnd(ActStep(x, acts[0]), acts[1..]); }
  }

  /**
   * So as long as every delayed call stands, whatever else runs: one search token, offers ranked 1..n to distinct
   * masters with none withdrawn, one accepted offer at most, and every insert goes through.
   */
  lemma OffersAreSafeWhileCallsStand(customer: UserId, category: Option<CategoryId>, description: string, acts: seq<Act>)
    requires ActsRead(NewDeal(customer, category, description), acts) && ActsStand(NewDeal(customer, category, description), acts)
    ensures var x := ActRun(NewDeal(customer, category, description), acts);
            && Token(x.hunt) <= 1
            && (forall i :: 0 <= i < |x.hunt.offers| ==> x.hunt.offers[i].rank == i + 1 && x.hunt.offers[i].status != Withdrawn)
            && (forall i, j :: 0 <= i < j < |x.hunt.offers| ==> x.hunt.offers[i].master != x.hunt.offers[j].master)
            && CountStatus(x.hunt.offers, Accepted) <= 1
            && (forall i :: 0 <= i < |x.hunt.searches| && x.hunt.searches[i].CreateOffer?
                            ==> x.hunt.searches[i].picked.master !in OfferedMasters(x.hunt.offers))
  {
    var x0 := NewDeal(customer, category, description);
    NewDealIsSound(customer, category, description);
    ActsAreSoundIffAllStand(x0, acts);
    SoundAtTheEnd(x0, acts);
    var x := ActRun(x0, acts);
    LiveIsCounted(x.hunt.offers);
    forall i | 0 <= i < |x.hunt.searches| && x.hunt.searches[i].CreateOffer?
      ensures x.hunt.searches[i].picked.master !in OfferedMasters(x.hunt.offers)
    {
      assert SearchOk(x.book, x.hunt.offers, x.hunt.searches[i]);
    }
  }

  // ---- Overlapping submissions ----------------------------------------------------

  /** The deal after two submissions that both read the same priced row. */
  function Twice(x: Deal): Deal {
    WrittenDeal(WrittenDeal(x, Send(x.book.row)), Send(x.book.row))
  }

  /** From every sound priced deal: two searches are in flight, and the history records two submissions. */
  lemma TwoSubmissionsOverlap(x: Deal)
    requires Inv(x) && x.book.row.status == Priced
    ensures ActsRead(x, [Delayed(Send(x.book.row)), Delayed(Send(x.book.row))])
    ensures !ActsStand(x, [Delayed(Send(x.book.row)), Delayed(Send(x.book.row))])
    ensures var y := Twice(x);
            && y.hunt == x.hunt.(offers := [], searches := [ReadOrder(1), ReadOrder(1)]) && Token(y.hunt) == 2
            && y.book.row.status == Searching && !Walk(y.book.history)
            && y.book.row == x.book.row.(status := Searching, scheduledAt := y.book.row.scheduledAt)
  {
    var c := Send(x.book.row);
    OverlapIsRead(x, c);
    NothingBeforeSubmission(x);
    StandingSend(x, c);
    SecondSendBreaksWalk(WrittenDeal(x, c).book, c);
    SendsTwice(x, c);
  }

  lemma OverlapIsRead(x: Deal, c: Call)
    requires x.book.row in x.book.versions && x.book.row.status == Priced && c == Send(x.book.row) && WellRead(x.book, c)
    ensures ActsRead(x, [Delayed(c), Delayed(c)]) && !ActsStand(x, [Delayed(c), Delayed(c)])
  {
    var y := WrittenDeal(x, c);
    assert y.book.row.status == Searching && c.seen in y.book.versions;
    assert WellRead(y.book, c) && !Stands(y.book.row, c);
    OneMore(y, c, []);
    OneMore(x, c, [Delayed(c)]);
    assert [Delayed(c)] + [] == [Delayed(c)] && [Delayed(c)] + [Delayed(c)] == [Delayed(c), Delayed(c)];
  }

  lemma OneMore(x: Deal, c: Call, rest: seq<Act>)
    ensures ActsRead(x, [Delayed(c)] + rest) <==> WellRead(x.book, c) && ActsRead(WrittenDeal(x, c), rest)
    ensures ActsStand(x, [Delayed(c)] + rest) <==> Stands(x.book.row, c) && ActsStand(WrittenDeal(x, c), rest)
  {
    assert ([Delayed(c)] + rest)[1..] == rest;
  }

  lemma NothingBeforeSubmission(x: Deal)
    requires Inv(x) && x.book.row.status == Priced
    ensures x.hunt.searches == [] && x.hunt.offers == [] && Token(x.hunt) == 0
  {
  }

  lemma SendsTwice(x: Deal, c: Call)
    requires x.hunt.searches == [] && x.hunt.offers == [] && Token(x.hunt) == 0 && c.Send? && c.seen == x.book.row
    ensures var y := WrittenDeal(WrittenDeal(x, c), c);
            && y.hunt == x.hunt.(searches := [ReadOrder(1), ReadOrder(1)]) && Token(y.hunt) == 2
            && y.book.row == x.book.row.(status := Searching, scheduledAt := y.book.row.scheduledAt)
  {
  }

  lemma SecondSendBreaksWalk(b: Book, c: Call)
    requires BookInv(b) && c.Send? && c.seen.status == Priced && b.row.status == Searching && c.seen in b.versions
    ensures !Walk(Written(b, c).history)
  {
    if Walk(Written(b, c).history) { WalkNeedsLast(b.history, Priced, Searching); }
  }

  predicate Legal(out: Outside) {
    0 < out.limit && 0.0 <= out.draw < 1.0
  }

  lemma AdvanceAt(x: Deal, i: nat, out: Outside)
    requires i < |x.hunt.searches| && Legal(out)
    ensures Step(x, AdvanceEv(i, out)) == Advance(x, i, out)
  {
  }

  /** Two searches of a deal that has no offers yet. */
  function With(y: Deal, s: Search, t: Search): Deal {
    y.(hunt := y.hunt.(searches := [s, t]))
  }

  lemma FirstMoves(y: Deal, s: Search, t: Search, next: Search, out: Outside)
    requires Legal(out) && Advance(With(y, s, t), 0, out) == Goto(With(y, s, t), 0, next)
    ensures Step(With(y, s, t), AdvanceEv(0, out)) == With(y, next, t)
  {
    AdvanceAt(With(y, s, t), 0, out);
    assert [s, t][0 := next] == [next, t];
  }

  lemma SecondMoves(y: Deal, s: Search, t: Search, next: Search, out: Outside)
    requires Legal(out) && Advance(With(y, s, t), 1, out) == Goto(With(y, s, t), 1, next)
    ensures Step(With(y, s, t), AdvanceEv(1, out)) == With(y, s, next)
  {
    AdvanceAt(With(y, s, t), 1, out);
    assert [s, t][1 := next] == [s, next];
  }

  predicate Dispatchable(y: Deal) {
    && y.book.row.status == Searching && y.book.row.category.Some? && Locatable(y.book.row)
    && y.hunt.offers == [] && y.hunt.searches == [ReadOrder(1), ReadOrder(1)]
  }

  function FoundBy(y: Deal, out: Outside): seq<Candidate>
    requires y.book.row.category.Some?
  {
    FindEligible(out.world, PoolQuery(y, y.book.row, 1, out))
  }

  function PickOf(y: Deal, out: Outside): Candidate
    requires y.book.row.category.Some? && FoundBy(y, out) != []
  {
    FoundBy(y, out)[Pick(FoundBy(y, out), out.draw)]
  }

  /** Read, count and query, turn by turn. */
  function TurnByTurn(a: Outside, b: Outside): seq<Event> {
    [AdvanceEv(0, a)] + ([AdvanceEv(1, b)] + ([AdvanceEv(0, a)] + ([AdvanceEv(1, b)] + ([AdvanceEv(0, a)] + ([AdvanceEv(1, b)] + [])))))
  }

  lemma BothQuery(y: Deal, a: Outside, b: Outside)
    requires Dispatchable(y) && Legal(a) && Legal(b) && FoundBy(y, a) != [] && FoundBy(y, b) != []
    ensures var row := y.book.row;
            Run(y, TurnByTurn(a, b)) == With(y, CreateOffer(1, row, 0, PickOf(y, a)), CreateOffer(1, row, 0, PickOf(y, b)))
  {
    var row := y.book.row;
    var r, c, q := ReadOrder(1), CountOffers(1, row), QueryPool(1, row, 0);
    var p, o := CreateOffer(1, row, 0, PickOf(y, a)), CreateOffer(1, row, 0, PickOf(y, b));
    assert y == With(y, r, r);
    FirstMoves(y, r, r, c, a);
    SecondMoves(y, c, r, c, b);
    FirstMoves(y, c, c, q, a);
    SecondMoves(y, q, c, q, b);
    QueriesPick(y, q, a, 0, With(y, q, q));
    FirstMoves(y, q, q, p, a);
    QueriesPick(y, q, b, 1, With(y, p, q));
    SecondMoves(y, p, q, o, b);
    Stalls.Then(y, AdvanceEv(0, a), [AdvanceEv(1, b)] + ([AdvanceEv(0, a)] + ([AdvanceEv(1, b)] + ([AdvanceEv(0, a)] + ([AdvanceEv(1, b)] + [])))));
    Stalls.Then(With(y, c, r), AdvanceEv(1, b), [AdvanceEv(0, a)] + ([AdvanceEv(1, b)] + ([AdvanceEv(0, a)] + ([AdvanceEv(1, b)] + []))));
    Stalls.Then(With(y, c, c), AdvanceEv(0, a), [AdvanceEv(1, b)] + ([AdvanceEv(0, a)] + ([AdvanceEv(1, b)] + [])));
    Stalls.Then(With(y, q, c), AdvanceEv(1, b), [AdvanceEv(0, a)] + ([AdvanceEv(1, b)] + []));
    Stalls.Then(With(y, q, q), AdvanceEv(0, a), [AdvanceEv(1, b)] + []);
    Stalls.Then(With(y, p, q), AdvanceEv(1, b), []);
  }

  lemma QueriesPick(y: Deal, q: Search, out: Outside, i: nat, z: Deal)
    requires y.book.row.category.Some? && y.hunt.offers == [] && q == QueryPool(1, y.book.row, 0) && FoundBy(y, out) != []
    requires z.hunt.offers == [] && i < |z.hunt.searches| && z.hunt.searches[i] == q
    ensures Advance(z, i, out) == Goto(z, i, CreateOffer(1, y.book.row, 0, PickOf(y, out)))
  {
    assert PoolQuery(z, y.book.row, 1, out) == PoolQuery(y, y.book.row, 1, out);
  }

  /** Both inserts, one after the other. */
  function Inserts(a: Outside, b: Outside): seq<Event> {
    [AdvanceEv(0, a)] + ([AdvanceEv(0, b)] + [])
  }

  lemma FirstInsert(y: Deal, row: OrderRow, p: Candidate, o: Search, out: Outside)
    requires Legal(out) && y.hunt.offers == []
    ensures Step(With(y, CreateOffer(1, row, 0, p), o), AdvanceEv(0, out))
            == y.(hunt := y.hunt.(offers := [FreshOffer(p, 1, row.tier, out)], searches := [o]), jobs := y.jobs + [Unqueued])
  {
    var x := With(y, CreateOffer(1, row, 0, p), o);
    AdvanceAt(x, 0, out);
    assert Without(x.hunt.searches, 0) == [o];
  }

  lemma SecondInsert(z: Deal, row: OrderRow, first: Offer, p: Candidate, out: Outside)
    requires Legal(out) && z.hunt.offers == [first] && z.hunt.searches == [CreateOffer(1, row, 0, p)]
    ensures var w := Step(z, AdvanceEv(0, out));
            && w.book == z.book
            && (p.master == first.master ==> w.hunt == z.hunt.(searches := [ReadOrder(1)]))
            && (p.master != first.master ==> w.hunt == z.hunt.(searches := [], offers := [first, FreshOffer(p, 1, row.tier, out)]))
  {
    AdvanceAt(z, 0, out);
    assert OfferedMasters([first]) == {first.master} by { assert [first][0] == first; }
    assert Without(z.hunt.searches, 0) == [] && z.hunt.searches[0 := ReadOrder(1)] == [ReadOrder(1)];
    assert [first] + [FreshOffer(p, 1, row.tier, out)] == [first, FreshOffer(p, 1, row.tier, out)];
  }

  /**
   * Two searches in flight: the second insert meets the uniqueness violation and starts over exactly when both picked
   * the same master; otherwise two offers are open at once, both ranked first.
   */
  lemma RetryFiresIffSameMaster(y: Deal, a: Outside, b: Outside)
    requires Dispatchable(y) && Legal(a) && Legal(b) && FoundBy(y, a) != [] && FoundBy(y, b) != []
    ensures var z := Run(Run(y, TurnByTurn(a, b)), Inserts(a, b));
            && z.book == y.book
            && (z.hunt.searches == [ReadOrder(1)] <==> PickOf(y, a).master == PickOf(y, b).master)
            && (PickOf(y, a).master == PickOf(y, b).master ==> z.hunt.offers == [FreshOffer(PickOf(y, a), 1, y.book.row.tier, a)])
            && (PickOf(y, a).master != PickOf(y, b).master ==>
                  z.hunt.searches == [] && z.hunt.offers == [FreshOffer(PickOf(y, a), 1, y.book.row.tier, a), FreshOffer(PickOf(y, b), 1, y.book.row.tier, b)])
  {
    var row := y.book.row;
    var x := With(y, CreateOffer(1, row, 0, PickOf(y, a)), CreateOffer(1, row, 0, PickOf(y, b)));
    BothQuery(y, a, b);
    FirstInsert(y, row, PickOf(y, a), CreateOffer(1, row, 0, PickOf(y, b)), a);
    var z := Step(x, AdvanceEv(0, a));
    SecondInsert(z, row, FreshOffer(PickOf(y, a), 1, y.book.row.tier, a), PickOf(y, b), b);
    Stalls.Then(x, AdvanceEv(0, a), [AdvanceEv(0, b)] + []);
    Stalls.Then(z, AdvanceEv(0, b), []);
  }

  /** Of two open offers, accepting one withdraws the other. */
  lemma AcceptanceWithdraws(z: Deal, first: Offer, second: Offer, now: int)
    requires z.hunt.offers == [first, second] && first.status == Offered && second.status == Offered
    requires z.book.row.status == Searching && now <= first.expiresAt
    ensures Step(z, AcceptEv(0, first.master, now)).hunt.offers
            == [first.(status := Accepted), second.(status := Withdrawn)]
  {
    var y := AcceptOffer(z, 0, first.master, now);
    assert AcceptAllowed(z, 0, first.master, now);
    assert Step(z, AcceptEv(0, first.master, now)) == y;
    assert z.hunt.offers[0 := first.(status := Accepted)] == [first.(status := Accepted), second];
  }

  // ---- It does happen -------------------------------------------------------------

  /** A master who can serve any order of the category. */
  function Lone(id: MasterId, category: CategoryId): Master {
    Master(id, true, true, true, 3, {category}, [Area(0.0, 0, 1_000)], 5.0, 0, false, false, false)
  }

  lemma LoneIsFound(y: Deal, id: MasterId, out: Outside)
    requires y.book.row.category.Some? && y.hunt.offers == [] && Legal(out)
    requires out.world == [Lone(id, y.book.row.category.value)]
    ensures FoundBy(y, out) != [] && PickOf(y, out).master == id
  {
    var m := Lone(id, y.book.row.category.value);
    var q := PoolQuery(y, y.book.row, 1, out);
    assert m.areas[0] in m.areas && InRange(m.areas[0], q.multiplier);
    assert q.offered == {};
    assert m in out.world && Eligible(m, q);
    EmptyMeansNobody(out.world, q);
    PickedIsEligible(out.world, q, PickOf(y, out));
  }

  /** A reachable priced deal with a place, and two submissions that both read it, both allowed. */
  lemma DoubleSubmission(customer: UserId, category: CategoryId, band: Band)
    ensures var edit := UpdateDraftEv(customer, Patch(None, None, Some(Priority), None, Some("Navoiy 1"), Some(41.3), Some(69.2)), {}, 0);
            var price := DiagnoseEv(customer, Simple, None, map[category := band]);
            var x := Run(NewDeal(customer, Some(category), "leak"), [edit] + ([price] + []));
            && Reachable(x) && SubmitAllowed(x.book.row, customer, 0) && x.book.row.category == Some(category)
            && Dispatchable(Twice(x)) && Token(Twice(x).hunt) == 2 && Twice(x).book.row.category == Some(category)
  {
    var x0 := NewDeal(customer, Some(category), "leak");
    var edit := UpdateDraftEv(customer, Patch(None, None, Some(Priority), None, Some("Navoiy 1"), Some(41.3), Some(69.2)), {}, 0);
    var price := DiagnoseEv(customer, Simple, None, map[category := band]);
    var x1 := Step(x0, edit);
    var x := Step(x1, price);
    Stalls.Then(x0, edit, [price] + []);
    Stalls.Then(x1, price, []);
    Stalls.WizardEdits(x0, customer, category, Some(41.3), Some(69.2));
    Stalls.WizardPrices(x1, customer, category, band);
    assert Reachable(x);
    ReachableIsSound(x);
    TwoSubmissionsOverlap(x);
  }

  /**
   * From that deal: if both searches find the one master m, the second insert retries; if they find m and n, two
   * offers stand open, and m's acceptance withdraws n's.
   */
  lemma OverlapRetriesOrWithdraws(x: Deal, m: MasterId, n: MasterId, a: Outside, b: Outside)
    requires Inv(x) && x.book.row.status == Priced && x.book.row.category.Some? && Locatable(x.book.row) && Legal(a) && Legal(b)
    requires a.world == [Lone(m, x.book.row.category.value)] && b.world == [Lone(n, x.book.row.category.value)]
    ensures var z := Run(Run(Twice(x), TurnByTurn(a, b)), Inserts(a, b));
            && (m == n ==> z.hunt.searches == [ReadOrder(1)] && |z.hunt.offers| == 1)
            && (m != n ==>
                  && |z.hunt.offers| == 2 && z.hunt.offers[0].status == z.hunt.offers[1].status == Offered
                  && z.hunt.offers[0].rank == z.hunt.offers[1].rank == 1
                  && Step(z, AcceptEv(0, m, a.now)).hunt.offers
                     == [z.hunt.offers[0].(status := Accepted), z.hunt.offers[1].(status := Withdrawn)])
  {
    var y := Twice(x);
    TwoSubmissionsOverlap(x);
    LoneIsFound(y, m, a);
    LoneIsFound(y, n, b);
    RetryFiresIffSameMaster(y, a, b);
    if m != n {
      var z := Run(Run(y, TurnByTurn(a, b)), Inserts(a, b));
      AcceptanceWithdraws(z, FreshOffer(PickOf(y, a), 1, y.book.row.tier, a), FreshOffer(PickOf(y, b), 1, y.book.row.tier, b), a.now);
    }
  }
}
