/** The counters on the masters' profiles, changed in place by the calls on all orders. */
module Profiles {
  import opened Prelude
  import opened Deals
  import opened DealInvariants
  import opened Market
  import ReviewRace

  /** Jobs done, the reviews received, and the stored average of one master. */
  datatype Credit = Credit(jobsDone: nat, ratings: seq<int>, ratingAvg: real)

  type Credits = map<MasterId, Credit>

  datatype Change = JobDone(master: MasterId) | Rated(master: MasterId, rating: int)

  function CreditOf(credits: Credits, master: MasterId): Credit {
    if master in credits then credits[master] else Credit(0, [], 0.0)
  }

  function WithJob(c: Credit): Credit {
    c.(jobsDone := c.jobsDone + 1)
  }

  function WithRating(c: Credit, rating: int): Credit {
    c.(ratings := c.ratings + [rating], ratingAvg := ReviewRace.Rating(c.ratings + [rating]))
  }

  function Credited(credits: Credits, change: Change): Credits {
    match change
    case JobDone(master) => credits[master := WithJob(CreditOf(credits, master))]
    case Rated(master, rating) => credits[master := WithRating(CreditOf(credits, master), rating)]
  }

  /** What one step of an order changes on the profiles. */
  function ChangesOf(x: Deal, e: Event): seq<Change> {
    if e.ConfirmEv? && Step(x, e).book != x.book && e.seen.master.Some? then [JobDone(e.seen.master.value)]
    else if e.ReviewEv? && Step(x, e).conduct != x.conduct && e.seen.master.Some? then [Rated(e.seen.master.value, e.rating)]
    else []
  }

  /** One more job for this master, and nothing else. */
  predicate CountedOnce(credits: Credits, master: MasterId, after: Credits) {
    after == credits[master := CreditOf(credits, master).(jobsDone := CreditOf(credits, master).jobsDone + 1)]
  }

  /** One more review, and an average that is the sum over the number, to half a hundredth. */
  predicate RatedOnce(c: Credit, rating: int, d: Credit) {
    && d.jobsDone == c.jobsDone && d.ratings == c.ratings + [rating]
    && Close(d.ratingAvg, |d.ratings| as real, ReviewRace.Sum(d.ratings) as real)
  }

  lemma RatingAverages(c: Credit, rating: int)
    ensures RatedOnce(c, rating, WithRating(c, rating))
  {
    var all := c.ratings + [rating];
    AverageIsClose(ReviewRace.Sum(all) as real, |all| as real);
  }

  /** Every stored average is that of the master's reviews. */
  predicate Averaged(credits: Credits) {
    forall master :: master in credits && credits[master].ratings != [] ==>
      credits[master].ratingAvg == ReviewRace.Rating(credits[master].ratings)
  }

  /** Jobs are only added, and so are reviews. */
  ghost predicate Grown(earlier: Credits, credits: Credits) {
    forall master :: CreditOf(earlier, master).jobsDone <= CreditOf(credits, master).jobsDone
                     && CreditOf(earlier, master).ratings <= CreditOf(credits, master).ratings
  }

  // ---- The profiles and the market ------------------------------------------------

  /** One master's profile is what its orders make of it. */
  predicate MirrorsOne(c: Credit, m: Market, master: MasterId) {
    && c.jobsDone == JobsOf(m, master)
    && |c.ratings| == ReviewCount(m.deals, master) && ReviewRace.Sum(c.ratings) == RatingSum(m.deals, master)
    && (c.ratings != [] ==> master in m.ratingAvg && c.ratingAvg == m.ratingAvg[master])
  }

  ghost predicate Mirrors(credits: Credits, m: Market) {
    forall master :: MirrorsOne(CreditOf(credits, master), m, master)
  }

  lemma {:induction false} OneMoreReview(deals: seq<Deal>, o: nat, y: Deal, master: MasterId)
    requires o < |deals| && !Reviews(deals[o], master) && Reviews(y, master)
    ensures ReviewCount(deals[o := y], master) == ReviewCount(deals, master) + 1
    ensures RatingSum(deals[o := y], master) == RatingSum(deals, master) + y.conduct.review.value
  {
    var n := |deals| - 1;
    if o < n {
      assert deals[o := y][..n] == deals[..n][o := y];
      OneMoreReview(deals[..n], o, y, master);
    } else {
      assert deals[o := y][..n] == deals[..n];
    }
  }

  lemma SameReviewsMirror(c: Credit, m: Market, o: nat, y: Deal, m': Market, master: MasterId)
    requires o < |m.deals| && m'.deals == m.deals[o := y] && MirrorsOne(c, m, master)
    requires Reviews(m.deals[o], master) == Reviews(y, master) && (Reviews(y, master) ==> m.deals[o].conduct.review == y.conduct.review)
    requires master in m.ratingAvg ==> master in m'.ratingAvg && m'.ratingAvg[master] == m.ratingAvg[master]
    ensures MirrorsOne(c.(jobsDone := JobsOf(m', master)), m', master)
  {
    ReviewsUpdate(m.deals, o, y, master);
  }

  lemma RatingMirrors(c: Credit, m: Market, o: nat, y: Deal, m': Market, master: MasterId, rating: int)
    requires o < |m.deals| && m'.deals == m.deals[o := y] && MirrorsOne(c, m, master) && m'.jobsDone == m.jobsDone
    requires !Reviews(m.deals[o], master) && Reviews(y, master) && y.conduct.review == Some(rating)
    requires ReviewCount(m'.deals, master) > 0 ==>
               master in m'.ratingAvg && m'.ratingAvg[master] == Hundredths(Average(m'.deals, master))
    ensures MirrorsOne(WithRating(c, rating), m', master)
  {
    OneMoreReview(m.deals, o, y, master);
    assert (c.ratings + [rating])[..|c.ratings|] == c.ratings;
  }

  lemma ConfirmMirrors(credits: Credits, m: Market, o: nat, e: Event)
    requires Mirrors(credits, m) && o < |m.deals| && Inv(m.deals[o]) && e.ConfirmEv? && ChangesOf(m.deals[o], e) != []
    ensures Mirrors(Credited(credits, ChangesOf(m.deals[o], e)[0]), MarketStep(m, On(o, e)))
  {
    var x, y, m' := m.deals[o], Step(m.deals[o], e), MarketStep(m, On(o, e));
    assert Possible(x, e);
    ConfirmClosesForItsMaster(x, e.caller, e.seen);
    forall master ensures MirrorsOne(CreditOf(Credited(credits, JobDone(e.seen.master.value)), master), m', master) {
      assert MirrorsOne(CreditOf(credits, master), m, master);
      SameReviewsMirror(CreditOf(credits, master), m, o, y, m', master);
    }
  }

  lemma OneReviewMirrors(credits: Credits, m: Market, o: nat, y: Deal, m': Market, who: MasterId, rating: int)
    requires Mirrors(credits, m) && o < |m.deals| && m'.deals == m.deals[o := y] && m'.jobsDone == m.jobsDone
    requires m.deals[o].book == y.book && m.deals[o].conduct.review.None? && y.conduct.review == Some(rating)
    requires y.book.row.master == Some(who)
    requires ReviewCount(m'.deals, who) > 0 ==> m'.ratingAvg == m.ratingAvg[who := Hundredths(Average(m'.deals, who))]
    requires ReviewCount(m'.deals, who) == 0 ==> m'.ratingAvg == m.ratingAvg
    ensures Mirrors(Credited(credits, Rated(who, rating)), m')
  {
    RatingMirrors(CreditOf(credits, who), m, o, y, m', who, rating);
    forall master | master != who ensures MirrorsOne(CreditOf(Credited(credits, Rated(who, rating)), master), m', master) {
      OtherMirrors(CreditOf(credits, master), m, o, y, m', who, master);
    }
  }

  lemma OtherMirrors(c: Credit, m: Market, o: nat, y: Deal, m': Market, who: MasterId, master: MasterId)
    requires MirrorsOne(c, m, master) && o < |m.deals| && m'.deals == m.deals[o := y] && m'.jobsDone == m.jobsDone
    requires m.deals[o].book.row.master == y.book.row.master == Some(who) && master != who
    requires master in m.ratingAvg ==> master in m'.ratingAvg && m'.ratingAvg[master] == m.ratingAvg[master]
    ensures MirrorsOne(c, m', master)
  {
    SameReviewsMirror(c, m, o, y, m', master);
  }

  lemma ReviewMirrors(credits: Credits, m: Market, o: nat, e: Event)
    requires Mirrors(credits, m) && o < |m.deals| && Inv(m.deals[o]) && e.ReviewEv? && ChangesOf(m.deals[o], e) != []
    ensures Mirrors(Credited(credits, ChangesOf(m.deals[o], e)[0]), MarketStep(m, On(o, e)))
  {
    var x, y, m' := m.deals[o], Step(m.deals[o], e), MarketStep(m, On(o, e));
    var who := e.seen.master.value;
    assert Possible(x, e);
    ReviewIsForItsMaster(x, e.caller, e.seen, e.rating);
    assert Reviews(y, who) && !Reviews(x, who);
    OneReviewMirrors(credits, m, o, y, m', who, e.rating);
  }

  lemma NothingMirrors(credits: Credits, m: Market, o: nat, e: Event)
    requires Mirrors(credits, m) && o < |m.deals| && Inv(m.deals[o]) && ChangesOf(m.deals[o], e) == []
    ensures Mirrors(credits, MarketStep(m, On(o, e)))
  {
    var x, y, m' := m.deals[o], Step(m.deals[o], e), MarketStep(m, On(o, e));
    if e.ReviewEv? && Possible(x, e) { ReviewIsForItsMaster(x, e.caller, e.seen, e.rating); }
    assert m'.ratingAvg == m.ratingAvg && m'.jobsDone == m.jobsDone;
    forall master ensures MirrorsOne(CreditOf(credits, master), m', master) {
      assert MirrorsOne(CreditOf(credits, master), m, master);
      ReviewsStay(x, e, master);
      SameReviewsMirror(CreditOf(credits, master), m, o, y, m', master);
    }
  }

  /**
   * The in-place updates refine the market: profiles that mirror all orders still do after any step of any order and
   * the changes that go with it.
   */
  lemma ProfilesMirrorMarket(credits: Credits, m: Market, o: nat, e: Event)
    requires Mirrors(credits, m) && o < |m.deals| && Inv(m.deals[o])
    ensures var changes := ChangesOf(m.deals[o], e);
            Mirrors(if changes == [] then credits else Credited(credits, changes[0]), MarketStep(m, On(o, e)))
  {
    if ChangesOf(m.deals[o], e) == [] {
      NothingMirrors(credits, m, o, e);
    } else if e.ConfirmEv? {
      ConfirmMirrors(credits, m, o, e);
    } else {
      ReviewMirrors(credits, m, o, e);
    }
  }

  // ---- The tables -----------------------------------------------------------------

  class ProfileTable {
    var credits: Credits
    var script: seq<seq<Change>>

    ghost predicate Valid()
      reads this
    {
      Averaged(credits)
    }

    constructor (script: seq<seq<Change>>)
      ensures Valid() && credits == map[] && this.script == script
    {
      credits := map[];
      this.script := script;
    }

    /** The increment of a confirmed job. */
    method CountJob(master: MasterId)
      requires Valid()
      modifies this`credits
      ensures Valid() && credits == Credited(old(credits), JobDone(master)) && Grown(old(credits), credits)
    {
      credits := credits[master := WithJob(CreditOf(credits, master))];
    }

    /** The insert of a review, the average of all there are, and its write to the profile. */
    method Rate(master: MasterId, rating: int)
      requires Valid()
      modifies this`credits
      ensures Valid() && credits == Credited(old(credits), Rated(master, rating)) && Grown(old(credits), credits)
    {
      var all := CreditOf(credits, master).ratings + [rating];
      credits := credits[master := CreditOf(credits, master).(ratings := all, ratingAvg := ReviewRace.Rating(all))];
    }

    /** Waiting for the database: the calls on other orders that are scripted to run now. */
    method Await()
      requires Valid()
      modifies this
      ensures Valid() && Grown(old(credits), credits)
    {
      var changes := if script == [] then [] else script[0];
      script := if script == [] then [] else script[1..];
      for k := 0 to |changes|
        invariant Valid() && Grown(old(credits), credits)
      {
        match changes[k]
        case JobDone(master) => CountJob(master);
        case Rated(master, rating) => Rate(master, rating);
      }
    }
  }
}
