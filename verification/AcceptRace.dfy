/**
 * Accepting an offer, statement by statement. The transaction locks the order row but not the offer row, so an
 * expiry or a decline may commit between its read of the offer and its write. What survives of the match, what
 * does not, and exactly when.
 *
 * Grain: one statement is one step. Rows a transaction has written stay locked until it commits or rolls back,
 * and its writes become visible when it commits; a write to a locked row waits.
 */
module AcceptRace {
  import opened Prelude
  import opened OrderState
  import opened Deals

  datatype Row = Row(master: MasterId, rank: nat, status: OfferStatus)

  /** The next statement of the calls that send the search on; the first fines the master whose offer timed out. */
  datatype Cascade =
    | Fining
    | Reading
    | Counting
    | Querying(rank: nat)
    | Inserting(rank: nat, picked: MasterId)

  /** Where an accepting transaction stands. */
  datatype Tx =
    | Begun(offer: nat)
    | Locked(offer: nat)
    | Checked(offer: nat)
    | Wrote(offer: nat)
    | Withdrew(offer: nat, others: set<nat>)
    | Ended

  /**
   * `searches` are in flight; `ended` counts those that ended without an offer. `fines` are the late-response
   * penalties written, `dropped` those never written, as the call died before.
   */
  datatype World = World(status: Status, master: Option<MasterId>, offers: seq<Row>, lock: Option<nat>, txs: seq<Tx>,
                         searches: seq<Cascade>, ended: nat, fines: nat, dropped: nat)

  datatype Event =
    | Begin(offer: nat, caller: MasterId)
    | LockOrder(tx: nat)
    | ReadRows(tx: nat, inTime: bool)
    | WriteOffer(tx: nat)
    | WithdrawRest(tx: nat)
    | Commit(tx: nat)
    | Rollback(tx: nat)
    | Expire(offer: nat)
    | Decline(offer: nat)
    | Advance(search: nat, pick: MasterId)
    | EndSearch(search: nat, expires: bool)
    | Move(to: Status)

  predicate Holds(t: Tx) {
    t.Locked? || t.Checked? || t.Wrote? || t.Withdrew?
  }

  /** The offer rows written by a transaction that has not committed. */
  function RowsOf(t: Tx): set<nat> {
    match t
    case Wrote(d) => {d}
    case Withdrew(d, others) => {d} + others
    case _ => {}
  }

  function LockedRows(w: World): set<nat> {
    if w.lock.Some? && w.lock.value < |w.txs| then RowsOf(w.txs[w.lock.value]) else {}
  }

  function OthersOpen(offers: seq<Row>, d: nat): set<nat> {
    set i | 0 <= i < |offers| && i != d && offers[i].status == Offered
  }

  function Written(offers: seq<Row>, d: nat, others: set<nat>): (r: seq<Row>)
    ensures |r| == |offers|
  {
    seq(|offers|, i requires 0 <= i < |offers| =>
      if i == d then offers[i].(status := Accepted)
      else if i in others then offers[i].(status := Withdrawn) else offers[i])
  }

  predicate IsAccepting(e: Event) {
    e.LockOrder? || e.ReadRows? || e.WriteOffer? || e.WithdrawRest? || e.Commit? || e.Rollback?
  }

  function AcceptStep(w: World, e: Event): World
    requires IsAccepting(e)
  {
    if e.tx >= |w.txs| then w
    else
      var t := w.txs[e.tx];
      match e
      case LockOrder(k) => if t.Begun? && w.lock.None? then w.(lock := Some(k), txs := w.txs[k := Locked(t.offer)]) else w
      case ReadRows(k, inTime) =>
        if !t.Locked? || t.offer >= |w.offers| then w
        else if w.offers[t.offer].status != Offered || !inTime || !CanTransition(w.status, Assigned) then
          w.(lock := None, txs := w.txs[k := Ended])
        else w.(txs := w.txs[k := Checked(t.offer)])
      case WriteOffer(k) => if t.Checked? then w.(txs := w.txs[k := Wrote(t.offer)]) else w
      case WithdrawRest(k) =>
        if t.Wrote? then
          w.(txs := w.txs[k := Withdrew(t.offer, OthersOpen(w.offers, t.offer))])
        else w
      case Commit(k) =>
        if !t.Withdrew? || t.offer >= |w.offers| then w
        else w.(status := Assigned, master := Some(w.offers[t.offer].master), offers := Written(w.offers, t.offer, t.others),
                lock := None, txs := w.txs[k := Ended])
      case Rollback(k) => if Holds(t) then w.(lock := None, txs := w.txs[k := Ended]) else w
  }

  /** An expiry or a decline can be written: the offer is open and its row is free. */
  predicate CanAnswer(w: World, d: nat) {
    d < |w.offers| && d !in LockedRows(w) && w.offers[d].status == Offered
  }

  /** The guarded write of an answer; it sends the search on. */
  function Answer(w: World, d: nat, s: OfferStatus): World {
    if !CanAnswer(w, d) then w
    else
      w.(offers := w.offers[d := w.offers[d].(status := s)], searches := w.searches + [if s == TimedOut then Fining else Reading])
  }

  function Masters(offers: seq<Row>): set<MasterId> {
    set i | 0 <= i < |offers| :: offers[i].master
  }

  /** One search is over. */
  function Over(w: World, i: nat): World
    requires i < |w.searches|
  {
    w.(searches := Without(w.searches, i), ended := w.ended + 1, dropped := w.dropped + if w.searches[i].Fining? then 1 else 0)
  }

  /** The next statement of one search; the query returns a master not offered yet, the insert fails for one who is. */
  function SearchStep(w: World, i: nat, pick: MasterId): World
    requires i < |w.searches|
  {
    match w.searches[i]
    case Fining => w.(fines := w.fines + 1, searches := w.searches[i := Reading])
    case Reading => if w.status == Searching then w.(searches := w.searches[i := Counting]) else Over(w, i)
    case Counting => w.(searches := w.searches[i := Querying(|w.offers|)])
    case Querying(rank) => if pick in Masters(w.offers) then w else w.(searches := w.searches[i := Inserting(rank, pick)])
    case Inserting(rank, picked) =>
      if w.lock.Some? then w
      else if picked in Masters(w.offers) then w.(searches := w.searches[i := Reading])
      else w.(offers := w.offers + [Row(picked, rank + 1, Offered)], searches := Without(w.searches, i))
  }

  function Step(w: World, e: Event): World {
    match e
    case Begin(d, caller) =>
      if d < |w.offers| && w.offers[d].master == caller then w.(txs := w.txs + [Begun(d)]) else w
    case Expire(d) => Answer(w, d, TimedOut)
    case Decline(d) => Answer(w, d, Declined)
    case Advance(i, pick) => if i < |w.searches| then SearchStep(w, i, pick) else w
    case EndSearch(i, expires) =>
      if i >= |w.searches| || (expires && (w.lock.Some? || w.status != Searching)) then w
      else Over(w, i).(status := if expires then Expired else w.status)
    case Move(to) =>
      if w.lock.None? && to !in {Assigned, Searching, Expired} && !Editable(to) && CanTransition(w.status, to) then w.(status := to) else w
    case _ => AcceptStep(w, e)
  }

  function Run(w: World, events: seq<Event>): World
    decreases |events|
  {
    if events == [] then w else Run(Step(w, events[0]), events[1..])
  }

  /** A searching order with its first offer open. */
  function Searched(master: MasterId): World {
    World(Searching, None, [Row(master, 1, Offered)], None, [], [], 0, 0, 0)
  }

  // ---- What survives --------------------------------------------------------------

  /** The order lock is held by one transaction, and past the check the order is still searching. */
  predicate LockLaw(w: World) {
    && (forall k :: 0 <= k < |w.txs| && Holds(w.txs[k]) ==> w.lock == Some(k))
    && (forall k :: 0 <= k < |w.txs| && (w.txs[k].Checked? || w.txs[k].Wrote? || w.txs[k].Withdrew?) ==> w.status == Searching)
  }

  predicate AcceptedAt(w: World, i: nat) {
    i < |w.offers| && w.offers[i].status == Accepted
  }

  /** At most one accepted offer; the order has a master exactly when there is one, and it is its master. */
  ghost predicate MatchLaw(w: World) {
    && (forall i: nat, j: nat :: AcceptedAt(w, i) && AcceptedAt(w, j) ==> i == j)
    && (forall i: nat :: AcceptedAt(w, i) ==> w.master == Some(w.offers[i].master))
    && (w.master.Some? ==> exists i: nat :: AcceptedAt(w, i))
    && (w.status == Searching ==> w.master.None?)
  }

  ghost predicate Inv(w: World) {
    LockLaw(w) && MatchLaw(w)
  }

  lemma SameMatch(w: World, w': World)
    requires MatchLaw(w) && w'.master == w.master && (w'.status == Searching ==> w.status == Searching)
    requires forall i: nat :: AcceptedAt(w', i) <==> AcceptedAt(w, i)
    requires forall i :: 0 <= i < |w.offers| && i < |w'.offers| ==> w'.offers[i].master == w.offers[i].master
    ensures MatchLaw(w')
  {
    if w.master.Some? {
      var i: nat :| AcceptedAt(w, i);
      assert AcceptedAt(w', i);
    }
  }

  lemma CommitKeepsMatch(w: World, k: nat)
    requires Inv(w) && k < |w.txs| && w.txs[k].Withdrew? && w.txs[k].offer < |w.offers|
    ensures MatchLaw(AcceptStep(w, Commit(k)))
  {
    var w', d := AcceptStep(w, Commit(k)), w.txs[k].offer;
    assert forall i: nat :: !AcceptedAt(w, i);
    forall i: nat ensures AcceptedAt(w', i) <==> i == d {
      if i < |w.offers| && i != d { assert !AcceptedAt(w, i); }
    }
    assert AcceptedAt(w', d);
  }

  lemma AcceptKeepsInv(w: World, e: Event)
    requires Inv(w) && IsAccepting(e)
    ensures Inv(AcceptStep(w, e))
  {
    var w' := AcceptStep(w, e);
    if e.Commit? && e.tx < |w.txs| && w.txs[e.tx].Withdrew? && w.txs[e.tx].offer < |w.offers| {
      CommitKeepsMatch(w, e.tx);
    } else {
      assert forall i: nat :: AcceptedAt(w', i) <==> AcceptedAt(w, i);
      SameMatch(w, w');
    }
  }

  lemma StepKeepsInv(w: World, e: Event)
    requires Inv(w)
    ensures Inv(Step(w, e))
  {
    var w' := Step(w, e);
    if IsAccepting(e) {
      AcceptKeepsInv(w, e);
    } else {
      assert forall i: nat :: AcceptedAt(w', i) <==> AcceptedAt(w, i);
      SameMatch(w, w');
    }
  }

  /** However the statements of any number of acceptances interleave with everything else, the match is safe. */
  lemma {:induction false} MatchSurvives(w: World, events: seq<Event>)
    requires Inv(w)
    ensures Inv(Run(w, events))
    decreases |events|
  {
    if events != [] {
      StepKeepsInv(w, events[0]);
      MatchSurvives(Step(w, events[0]), events[1..]);
    }
  }

  // ---- The token at the grain of statements ---------------------------------------

  function Count(offers: seq<Row>, s: OfferStatus): nat {
    if offers == [] then 0 else Count(offers[..|offers| - 1], s) + if offers[|offers| - 1].status == s then 1 else 0
  }

  lemma {:induction false} CountUpdate(offers: seq<Row>, d: nat, to: OfferStatus, s: OfferStatus)
    requires d < |offers|
    ensures Count(offers[d := offers[d].(status := to)], s) + (if offers[d].status == s then 1 else 0)
            == Count(offers, s) + if to == s then 1 else 0
  {
    var n, r := |offers| - 1, offers[d].(status := to);
    if d < n {
      assert offers[d := r][..n] == offers[..n][d := r];
      CountUpdate(offers[..n], d, to, s);
    } else {
      assert offers[d := r][..n] == offers[..n];
    }
  }

  lemma CountAppend(offers: seq<Row>, r: Row, s: OfferStatus)
    ensures Count(offers + [r], s) == Count(offers, s) + if r.status == s then 1 else 0
  {
    assert (offers + [r])[..|offers|] == offers;
  }

  lemma {:induction false} Counted(offers: seq<Row>, d: nat, s: OfferStatus)
    requires d < |offers| && offers[d].status == s
    ensures Count(offers, s) >= 1
  {
    if d < |offers| - 1 { Counted(offers[..|offers| - 1], d, s); }
  }

  lemma {:induction false} CountedTwice(offers: seq<Row>, c: nat, d: nat, s: OfferStatus)
    requires c < d < |offers| && offers[c].status == s && offers[d].status == s
    ensures Count(offers, s) >= 2
  {
    var n := |offers| - 1;
    if d < n { CountedTwice(offers[..n], c, d, s); } else { Counted(offers[..n], c, s); }
  }

  lemma {:induction false} NotCounted(offers: seq<Row>, s: OfferStatus)
    requires forall i :: 0 <= i < |offers| ==> offers[i].status != s
    ensures Count(offers, s) == 0
  {
    if offers != [] { NotCounted(offers[..|offers| - 1], s); }
  }

  /** Open offers, searches in flight and searches that came to nothing. */
  function Loose(w: World): nat {
    Count(w.offers, Offered) + |w.searches| + w.ended
  }

  /** These, and the accepted offers. */
  function Tokens(w: World): nat {
    Loose(w) + Count(w.offers, Accepted)
  }

  function FinesDue(searches: seq<Cascade>): nat {
    if searches == [] then 0 else FinesDue(searches[1..]) + if searches[0].Fining? then 1 else 0
  }

  /** Late-response penalties written, due and never written. */
  function Fines(w: World): nat {
    w.fines + FinesDue(w.searches) + w.dropped
  }

  predicate Commits(w: World, e: Event) {
    e.Commit? && e.tx < |w.txs| && w.txs[e.tx].Withdrew? && w.txs[e.tx].offer < |w.offers|
  }

  /** A commit that turns an offer already answered into an accepted one. */
  predicate Overwrites(w: World, e: Event) {
    Commits(w, e) && w.offers[w.txs[e.tx].offer].status != Offered
  }

  predicate OverwritesTimeout(w: World, e: Event) {
    Overwrites(w, e) && w.offers[w.txs[e.tx].offer].status == TimedOut
  }

  /** How many commits of a run overwrite an answer, and how many of these a timeout. */
  function Overwritten(w: World, events: seq<Event>): nat
    decreases |events|
  {
    if events == [] then 0 else (if Overwrites(w, events[0]) then 1 else 0) + Overwritten(Step(w, events[0]), events[1..])
  }

  function TimeoutsOverwritten(w: World, events: seq<Event>): nat
    decreases |events|
  {
    if events == [] then 0
    else (if OverwritesTimeout(w, events[0]) then 1 else 0) + TimeoutsOverwritten(Step(w, events[0]), events[1..])
  }

  predicate PastCheck(t: Tx) {
    t.Checked? || t.Wrote? || t.Withdrew?
  }

  /** Past its check, a transaction's offer exists, no other is open, and there is nothing to withdraw. */
  predicate CheckLaw(w: World) {
    forall k :: 0 <= k < |w.txs| && PastCheck(w.txs[k]) ==>
      && w.txs[k].offer < |w.offers|
      && (forall i :: 0 <= i < |w.offers| && i != w.txs[k].offer ==> w.offers[i].status != Offered)
      && (w.txs[k].Withdrew? ==> w.txs[k].others == {})
  }

  /** While nobody is accepted there is one token; nothing is ever withdrawn. */
  predicate OneToken(w: World) {
    && (w.master.None? ==> Tokens(w) == 1)
    && Loose(w) <= 1
    && (forall i :: 0 <= i < |w.offers| ==> w.offers[i].status != Withdrawn)
  }

  /** Ranks are 1..n, no master is offered twice, and a search past its count or its query is up to date. */
  predicate RankLaw(w: World) {
    && (forall i :: 0 <= i < |w.offers| ==> w.offers[i].rank == i + 1)
    && (forall i, j :: 0 <= i < j < |w.offers| ==> w.offers[i].master != w.offers[j].master)
    && (forall i :: 0 <= i < |w.searches| ==> SearchOk(w.offers, w.searches[i]))
  }

  predicate SearchOk(offers: seq<Row>, s: Cascade) {
    && (s.Querying? || s.Inserting? ==> s.rank == |offers|)
    && (s.Inserting? ==> s.picked !in Masters(offers))
  }

  ghost predicate Sound(w: World) {
    Inv(w) && CheckLaw(w) && OneToken(w) && RankLaw(w)
  }

  lemma NothingWithdrawn(offers: seq<Row>, d: nat)
    requires d < |offers|
    ensures Written(offers, d, {}) == offers[d := offers[d].(status := Accepted)]
  {
  }

  lemma OnlyOpenOffer(w: World, d: nat)
    requires Tokens(w) == 1 && d < |w.offers| && w.offers[d].status == Offered
    ensures forall i :: 0 <= i < |w.offers| && i != d ==> w.offers[i].status != Offered
  {
    forall i | 0 <= i < |w.offers| && i != d ensures w.offers[i].status != Offered {
      if w.offers[i].status == Offered {
        if i < d { CountedTwice(w.offers, i, d, Offered); } else { CountedTwice(w.offers, d, i, Offered); }
      }
    }
  }

  /** One step: every token is kept, but that a commit over an answered offer makes one more. */
  lemma CommitCountsTokens(w: World, e: Event)
    requires Sound(w) && Commits(w, e)
    ensures var w', d := Step(w, e), w.txs[e.tx].offer;
            && w'.offers == w.offers[d := w.offers[d].(status := Accepted)]
            && Tokens(w') == Tokens(w) + (if Overwrites(w, e) then 1 else 0)
            && Loose(w') <= Loose(w) && Fines(w') == Fines(w)
            && Count(w'.offers, TimedOut) + (if OverwritesTimeout(w, e) then 1 else 0) == Count(w.offers, TimedOut)
  {
    var d := w.txs[e.tx].offer;
    assert w.txs[e.tx].others == {} && w.status == Searching;
    NothingWithdrawn(w.offers, d);
    assert !AcceptedAt(w, d);
    CountUpdate(w.offers, d, Accepted, Offered);
    CountUpdate(w.offers, d, Accepted, Accepted);
    CountUpdate(w.offers, d, Accepted, TimedOut);
  }

  lemma AnswerCountsTokens(w: World, d: nat, s: OfferStatus)
    requires CanAnswer(w, d) && (s == TimedOut || s == Declined)
    ensures var w' := Answer(w, d, s);
            && Loose(w') == Loose(w) && Tokens(w') == Tokens(w)
            && Fines(w') - Count(w'.offers, TimedOut) == Fines(w) - Count(w.offers, TimedOut)
  {
    CountUpdate(w.offers, d, s, Offered);
    CountUpdate(w.offers, d, s, Accepted);
    CountUpdate(w.offers, d, s, TimedOut);
    FinesAppend(w.searches, if s == TimedOut then Fining else Reading);
  }

  lemma {:induction false} FinesAppend(searches: seq<Cascade>, s: Cascade)
    ensures FinesDue(searches + [s]) == FinesDue(searches) + if s.Fining? then 1 else 0
  {
    if searches == [] {
      assert [] + [s] == [s] && [s][1..] == [];
    } else {
      assert (searches + [s])[1..] == searches[1..] + [s];
      FinesAppend(searches[1..], s);
    }
  }

  lemma {:induction false} FinesWithout(searches: seq<Cascade>, i: nat)
    requires i < |searches|
    ensures FinesDue(Without(searches, i)) + (if searches[i].Fining? then 1 else 0) == FinesDue(searches)
  {
    if i == 0 {
      assert Without(searches, 0) == searches[1..];
    } else {
      assert Without(searches, i)[1..] == Without(searches[1..], i - 1);
      FinesWithout(searches[1..], i - 1);
    }
  }

  lemma {:induction false} FinesUpdate(searches: seq<Cascade>, i: nat, s: Cascade)
    requires i < |searches|
    ensures FinesDue(searches[i := s]) + (if searches[i].Fining? then 1 else 0)
            == FinesDue(searches) + if s.Fining? then 1 else 0
  {
    if i == 0 {
      assert searches[i := s][1..] == searches[1..];
    } else {
      assert searches[i := s][1..] == searches[1..][i - 1 := s];
      FinesUpdate(searches[1..], i - 1, s);
    }
  }

  lemma OverCountsTokens(w: World, i: nat)
    requires i < |w.searches|
    ensures Loose(Over(w, i)) == Loose(w) && Fines(Over(w, i)) == Fines(w)
  {
    FinesWithout(w.searches, i);
  }

  lemma InsertCountsTokens(w: World, i: nat, row: Row)
    requires i < |w.searches| && !w.searches[i].Fining? && row.status == Offered
    ensures var w' := w.(offers := w.offers + [row], searches := Without(w.searches, i));
            && Loose(w') == Loose(w) && Tokens(w') == Tokens(w) && Fines(w') == Fines(w)
            && Count(w'.offers, TimedOut) == Count(w.offers, TimedOut)
  {
    CountAppend(w.offers, row, Offered);
    CountAppend(w.offers, row, Accepted);
    CountAppend(w.offers, row, TimedOut);
    FinesWithout(w.searches, i);
  }

  lemma SearchCountsTokens(w: World, i: nat, pick: MasterId)
    requires i < |w.searches|
    ensures var w' := SearchStep(w, i, pick);
            && Loose(w') == Loose(w) && Tokens(w') == Tokens(w) && Fines(w') == Fines(w)
            && Count(w'.offers, TimedOut) == Count(w.offers, TimedOut)
  {
    var s, w' := w.searches[i], SearchStep(w, i, pick);
    if s.Inserting? && w.lock.None? && s.picked !in Masters(w.offers) {
      InsertCountsTokens(w, i, Row(s.picked, s.rank + 1, Offered));
    } else if s.Reading? && w.status != Searching {
      OverCountsTokens(w, i);
    } else if w' != w {
      FinesUpdate(w.searches, i, w'.searches[i]);
    }
  }

  lemma OnlyCommitsWriteOffers(w: World, e: Event)
    requires IsAccepting(e) && !Commits(w, e)
    ensures var w' := AcceptStep(w, e);
            w' == w.(lock := w'.lock, txs := w'.txs)
  {
  }

  lemma StepCountsTokens(w: World, e: Event)
    requires Sound(w)
    ensures Tokens(Step(w, e)) == Tokens(w) + if Overwrites(w, e) then 1 else 0
    ensures Loose(Step(w, e)) <= Loose(w)
    ensures Fines(Step(w, e)) - Count(Step(w, e).offers, TimedOut)
            == Fines(w) - Count(w.offers, TimedOut) + if OverwritesTimeout(w, e) then 1 else 0
  {
    match e
    case Expire(d) => if CanAnswer(w, d) { AnswerCountsTokens(w, d, TimedOut); }
    case Decline(d) => if CanAnswer(w, d) { AnswerCountsTokens(w, d, Declined); }
    case Advance(i, pick) => if i < |w.searches| { SearchCountsTokens(w, i, pick); }
    case EndSearch(i, _) => if i < |w.searches| { OverCountsTokens(w, i); }
    case Begin(_, _) =>
    case Move(_) =>
    case _ => if Commits(w, e) { CommitCountsTokens(w, e); } else { OnlyCommitsWriteOffers(w, e); }
  }

  /** There is one search at most, and while it runs no offer is open. */
  lemma OneSearch(w: World)
    requires Loose(w) <= 1
    ensures |w.searches| <= 1
    ensures w.searches != [] ==> forall i :: 0 <= i < |w.offers| ==> w.offers[i].status != Offered
  {
    if w.searches != [] {
      forall i | 0 <= i < |w.offers| ensures w.offers[i].status != Offered {
        if w.offers[i].status == Offered { Counted(w.offers, i, Offered); }
      }
    }
  }

  predicate SameRanks(offers: seq<Row>, later: seq<Row>) {
    |later| == |offers| && forall i :: 0 <= i < |offers| ==> later[i].master == offers[i].master && later[i].rank == offers[i].rank
  }

  lemma SameRanksKeepLaw(w: World, w': World)
    requires RankLaw(w) && SameRanks(w.offers, w'.offers)
    requires forall i :: 0 <= i < |w'.searches| ==> w'.searches[i] in w.searches || w'.searches[i].Fining? || w'.searches[i].Reading?
    ensures RankLaw(w')
  {
    assert Masters(w'.offers) == Masters(w.offers);
  }

  lemma SearchKeepsRanks(w: World, i: nat, pick: MasterId)
    requires RankLaw(w) && |w.searches| <= 1 && i < |w.searches|
    ensures RankLaw(SearchStep(w, i, pick))
  {
    var s, w' := w.searches[i], SearchStep(w, i, pick);
    if s.Inserting? && w.lock.None? {
      assert w'.searches == [];
      assert SearchOk(w.offers, s);
      forall j | 0 <= j < |w.offers| ensures w.offers[j].master != s.picked {
        assert w.offers[j].master in Masters(w.offers);
      }
    }
  }

  lemma AcceptingKeepsRanks(w: World, e: Event)
    requires RankLaw(w) && IsAccepting(e)
    ensures RankLaw(AcceptStep(w, e))
  {
    if Commits(w, e) {
      SameRanksKeepLaw(w, AcceptStep(w, e));
    } else {
      OnlyCommitsWriteOffers(w, e);
    }
  }

  lemma StepKeepsRanks(w: World, e: Event)
    requires RankLaw(w) && Loose(w) <= 1
    ensures RankLaw(Step(w, e))
  {
    OneSearch(w);
    if IsAccepting(e) {
      AcceptingKeepsRanks(w, e);
    } else if e.Advance? && e.search < |w.searches| {
      SearchKeepsRanks(w, e.search, e.pick);
    } else {
      SameRanksKeepLaw(w, Step(w, e));
    }
  }

  lemma CheckKeepsLaw(w: World, e: Event)
    requires Sound(w) && e.ReadRows?
    ensures CheckLaw(Step(w, e))
  {
    if e.tx < |w.txs| && w.txs[e.tx].Locked? && w.txs[e.tx].offer < |w.offers| && w.offers[w.txs[e.tx].offer].status == Offered
       && w.status == Searching {
      OnlyOpenOffer(w, w.txs[e.tx].offer);
    }
  }

  lemma WithdrawalIsEmpty(w: World, e: Event)
    requires LockLaw(w) && CheckLaw(w) && e.WithdrawRest?
    ensures CheckLaw(Step(w, e))
  {
    if e.tx < |w.txs| && w.txs[e.tx].Wrote? {
      assert OthersOpen(w.offers, w.txs[e.tx].offer) == {};
    }
  }

  lemma StepKeepsCheckLaw(w: World, e: Event)
    requires Sound(w)
    ensures CheckLaw(Step(w, e))
  {
    if e.ReadRows? {
      CheckKeepsLaw(w, e);
    } else if e.WithdrawRest? {
      WithdrawalIsEmpty(w, e);
    } else if Commits(w, e) {
      CommitEndsChecks(w, e);
    } else if e.Advance? && e.search < |w.searches| {
      SearchKeepsCheckLaw(w, e.search, e.pick);
    }
  }

  lemma SearchKeepsCheckLaw(w: World, i: nat, pick: MasterId)
    requires LockLaw(w) && CheckLaw(w) && i < |w.searches|
    ensures CheckLaw(SearchStep(w, i, pick))
  {
    if w.searches[i].Inserting? && w.lock.None? {
      assert forall k :: 0 <= k < |w.txs| && PastCheck(w.txs[k]) ==> Holds(w.txs[k]);
    }
  }

  lemma CommitEndsChecks(w: World, e: Event)
    requires LockLaw(w) && Commits(w, e)
    ensures forall k :: 0 <= k < |w.txs| ==> !PastCheck(Step(w, e).txs[k])
  {
    forall k | 0 <= k < |w.txs| ensures !PastCheck(Step(w, e).txs[k]) {
      if k != e.tx && PastCheck(w.txs[k]) { assert Holds(w.txs[k]) && Holds(w.txs[e.tx]); }
    }
  }

  lemma NobodyIsWithdrawn(w: World, e: Event)
    requires Sound(w)
    ensures forall i :: 0 <= i < |Step(w, e).offers| ==> Step(w, e).offers[i].status != Withdrawn
  {
    if Commits(w, e) { CommitCountsTokens(w, e); }
  }

  lemma UnmatchedKeepsToken(w: World, e: Event)
    requires Sound(w) && Step(w, e).master.None?
    ensures w.master.None? && !Commits(w, e)
  {
  }

  lemma StepKeepsSound(w: World, e: Event)
    requires Sound(w)
    ensures Sound(Step(w, e))
  {
    var w' := Step(w, e);
    StepKeepsInv(w, e);
    StepKeepsCheckLaw(w, e);
    StepKeepsRanks(w, e);
    assert OneToken(w') by {
      StepCountsTokens(w, e);
      NobodyIsWithdrawn(w, e);
      if w'.master.None? { UnmatchedKeepsToken(w, e); }
    }
  }

  /** A second commit never comes, as the first ends the searching for good. */
  lemma AcceptedIsFinal(w: World, e: Event)
    requires Sound(w) && w.master.Some?
    ensures Step(w, e).master.Some? && !Commits(w, e)
  {
  }

  lemma {:induction false} TokensFollowOverwrites(w: World, events: seq<Event>)
    requires Sound(w)
    ensures var w' := Run(w, events);
            && Sound(w') && Tokens(w') == Tokens(w) + Overwritten(w, events)
            && Fines(w') - Count(w'.offers, TimedOut) == Fines(w) - Count(w.offers, TimedOut) + TimeoutsOverwritten(w, events)
            && (w.master.Some? ==> Overwritten(w, events) == 0 && w'.master.Some?)
            && Overwritten(w, events) <= 1
    decreases |events|
  {
    if events != [] {
      var v := Step(w, events[0]);
      StepKeepsSound(w, events[0]);
      StepCountsTokens(w, events[0]);
      if w.master.Some? { AcceptedIsFinal(w, events[0]); }
      TokensFollowOverwrites(v, events[1..]);
    }
  }

  lemma SearchedIsSound(m: MasterId)
    ensures Sound(Searched(m)) && Tokens(Searched(m)) == 1
  {
    var w := Searched(m);
    assert w.offers == [] + [Row(m, 1, Offered)];
    CountAppend([], Row(m, 1, Offered), Offered);
    CountAppend([], Row(m, 1, Offered), Accepted);
    assert forall i: nat :: !AcceptedAt(w, i);
  }

  /**
   * The token at the grain of statements: in every run, open and accepted offers, searches in flight and searches
   * that came to nothing are one, plus the commits that overwrote an answer, of which there is at most one. The
   * late-response penalties - written, still to be written by the search under way, or lost with it - are the timed-out
   * offers plus the timeouts overwritten.
   */
  lemma TokenAtStatementGrain(m: MasterId, events: seq<Event>)
    ensures var w := Run(Searched(m), events);
            && Tokens(w) == 1 + Overwritten(Searched(m), events) && Overwritten(Searched(m), events) <= 1
            && Fines(w) == Count(w.offers, TimedOut) + TimeoutsOverwritten(Searched(m), events)
            && (forall i :: 0 <= i < |w.offers| ==> w.offers[i].status != Withdrawn)
  {
    SearchedIsSound(m);
    assert Searched(m).offers == [] + [Row(m, 1, Offered)];
    CountAppend([], Row(m, 1, Offered), TimedOut);
    TokensFollowOverwrites(Searched(m), events);
  }

  /**
   * Whatever is overwritten, in every run one search at most is in flight, ranks are 1..n in the order of the inserts,
   * no master is offered twice, and a search that has picked a master can insert: the retry never comes.
   */
  lemma RanksAtStatementGrain(m: MasterId, events: seq<Event>)
    ensures var w := Run(Searched(m), events);
            && |w.searches| <= 1
            && (forall i :: 0 <= i < |w.offers| ==> w.offers[i].rank == i + 1)
            && (forall i, j :: 0 <= i < j < |w.offers| ==> w.offers[i].master != w.offers[j].master)
            && (forall i :: 0 <= i < |w.searches| && w.searches[i].Inserting? ==> w.searches[i].picked !in Masters(w.offers))
  {
    SearchedIsSound(m);
    TokensFollowOverwrites(Searched(m), events);
    var w := Run(Searched(m), events);
    OneSearch(w);
    forall i | 0 <= i < |w.searches| && w.searches[i].Inserting? ensures w.searches[i].picked !in Masters(w.offers) {
      assert SearchOk(w.offers, w.searches[i]);
    }
  }

  // ---- When an answer is overwritten ----------------------------------------------

  /** The world after the first n events of a run. */
  function At(w: World, events: seq<Event>, n: nat): World
    requires n <= |events|
  {
    Run(w, events[..n])
  }

  /** This event answers the offer that transaction k has checked and has still to write. */
  predicate AnswersUnder(w: World, e: Event, k: nat) {
    && (e.Expire? || e.Decline?) && CanAnswer(w, e.offer)
    && k < |w.txs| && w.txs[k] == Checked(e.offer)
  }

  /** An answer came between the ReadRows and the WriteOffer of transaction k, within the first n events. */
  ghost predicate Overtaken(w: World, events: seq<Event>, n: nat, k: nat)
    requires n <= |events|
  {
    exists j :: 0 <= j < n && AnswersUnder(At(w, events, j), events[j], k)
  }

  lemma RunSnoc(w: World, events: seq<Event>, n: nat)
    requires n < |events|
    ensures At(w, events, n + 1) == Step(At(w, events, n), events[n])
  {
    assert events[..n + 1] == events[..n] + [events[n]];
    RunSplits(w, events[..n], [events[n]]);
    assert Run(At(w, events, n), [events[n]]) == Run(Step(At(w, events, n), events[n]), [events[n]][1..]);
  }

  lemma OvertakenGrows(w: World, events: seq<Event>, n: nat, k: nat)
    requires n < |events|
    ensures Overtaken(w, events, n + 1, k) <==> Overtaken(w, events, n, k) || AnswersUnder(At(w, events, n), events[n], k)
  {
    if Overtaken(w, events, n, k) {
      var j :| 0 <= j < n && AnswersUnder(At(w, events, j), events[j], k);
      assert 0 <= j < n + 1 && AnswersUnder(At(w, events, j), events[j], k);
    }
    if AnswersUnder(At(w, events, n), events[n], k) { assert 0 <= n < n + 1; }
  }

  /** A transaction checks once: before that nothing has overtaken it. */
  predicate Unchecked(w: World, k: nat) {
    k >= |w.txs| || w.txs[k].Begun? || w.txs[k].Locked?
  }

  ghost predicate OvertakenLaw(w: World, events: seq<Event>, n: nat, k: nat)
    requires n <= |events|
  {
    var v := At(w, events, n);
    && (Unchecked(v, k) ==> !Overtaken(w, events, n, k))
    && (k < |v.txs| && PastCheck(v.txs[k]) ==>
          v.txs[k].offer < |v.offers| && (v.offers[v.txs[k].offer].status == Offered <==> !Overtaken(w, events, n, k)))
  }

  lemma StillUnchecked(v: World, e: Event, k: nat)
    ensures Unchecked(Step(v, e), k) ==> Unchecked(v, k) && !AnswersUnder(v, e, k)
  {
  }

  predicate IsPastCheck(v: World, k: nat) {
    k < |v.txs| && PastCheck(v.txs[k])
  }

  lemma CheckFindsItOpen(v: World, e: Event, k: nat)
    requires IsPastCheck(Step(v, e), k) && !IsPastCheck(v, k)
    ensures var v' := Step(v, e);
            && Unchecked(v, k) && v'.txs[k].offer < |v'.offers| && v'.offers[v'.txs[k].offer].status == Offered
            && !AnswersUnder(v, e, k)
  {
  }

  lemma OnlyAnswersChangeIt(v: World, e: Event, k: nat)
    requires Sound(v) && IsPastCheck(Step(v, e), k) && IsPastCheck(v, k)
    ensures var v' := Step(v, e);
            && v'.txs[k].offer == v.txs[k].offer < |v.offers| <= |v'.offers|
            && (v'.offers[v.txs[k].offer].status == Offered
                <==> v.offers[v.txs[k].offer].status == Offered && !AnswersUnder(v, e, k))
  {
    assert Holds(v.txs[k]) && v.lock == Some(k);
  }

  lemma {:induction false} OvertakenIsSeen(w: World, events: seq<Event>, n: nat, k: nat)
    requires Sound(w) && n <= |events| && Unchecked(w, k)
    ensures Sound(At(w, events, n)) && OvertakenLaw(w, events, n, k)
    decreases n
  {
    if n == 0 {
      assert events[..0] == [];
    } else {
      OvertakenIsSeen(w, events, n - 1, k);
      RunSnoc(w, events, n - 1);
      OvertakenGrows(w, events, n - 1, k);
      StepKeepsSound(At(w, events, n - 1), events[n - 1]);
      var v, e := At(w, events, n - 1), events[n - 1];
      StillUnchecked(v, e, k);
      if IsPastCheck(Step(v, e), k) {
        if IsPastCheck(v, k) { OnlyAnswersChangeIt(v, e, k); } else { CheckFindsItOpen(v, e, k); }
      }
    }
  }

  /** The commit at position c overwrites an answer exactly when one fell between its transaction's check and write. */
  lemma CommitOverwritesIffOvertaken(m: MasterId, events: seq<Event>, c: nat)
    requires c < |events| && Commits(At(Searched(m), events, c), events[c])
    ensures Overwrites(At(Searched(m), events, c), events[c]) <==> Overtaken(Searched(m), events, c, events[c].tx)
  {
    SearchedIsSound(m);
    OvertakenIsSeen(Searched(m), events, c, events[c].tx);
  }

  /** A run overwrites an answer exactly when one of its commits was overtaken. */
  ghost predicate SomeCommitOvertaken(w: World, events: seq<Event>) {
    exists c :: 0 <= c < |events| && Commits(At(w, events, c), events[c]) && Overtaken(w, events, c, events[c].tx)
  }

  lemma {:induction false} OverwrittenSomewhere(w: World, events: seq<Event>)
    ensures Overwritten(w, events) > 0 <==> exists c :: 0 <= c < |events| && Overwrites(At(w, events, c), events[c])
    decreases |events|
  {
    if events != [] {
      var v, rest := Step(w, events[0]), events[1..];
      OverwrittenSomewhere(v, rest);
      assert events[..0] == [] && At(w, events, 0) == w;
      forall c | 0 <= c < |rest| ensures At(w, events, c + 1) == At(v, rest, c) && events[c + 1] == rest[c] {
        assert events[..c + 1][1..] == rest[..c] && events[..c + 1][0] == events[0];
      }
      if c :| 0 <= c < |rest| && Overwrites(At(v, rest, c), rest[c]) {
        assert Overwrites(At(w, events, c + 1), events[c + 1]);
      }
      if c :| 0 <= c < |events| && Overwrites(At(w, events, c), events[c]) {
        if c > 0 { assert Overwrites(At(v, rest, c - 1), rest[c - 1]); }
      }
    }
  }

  /**
   * The exact condition: a run overwrites an answer, once, exactly when an expiry or a decline of the offer fell
   * between the ReadRows and the WriteOffer of a transaction that committed.
   */
  lemma AnswerIsOverwrittenIffItCameBetween(m: MasterId, events: seq<Event>)
    ensures Overwritten(Searched(m), events) == 1 <==> SomeCommitOvertaken(Searched(m), events)
  {
    var w := Searched(m);
    TokenAtStatementGrain(m, events);
    OverwrittenSomewhere(w, events);
    forall c | 0 <= c < |events| && Commits(At(w, events, c), events[c])
      ensures Overwrites(At(w, events, c), events[c]) <==> Overtaken(w, events, c, events[c].tx)
    {
      CommitOverwritesIffOvertaken(m, events, c);
    }
  }

  lemma {:induction false} AtMostOneCounted(offers: seq<Row>)
    requires forall i, j :: 0 <= i < j < |offers| ==> !(offers[i].status == Accepted && offers[j].status == Accepted)
    ensures Count(offers, Accepted) <= 1
  {
    if offers != [] {
      var n := |offers| - 1;
      AtMostOneCounted(offers[..n]);
      if offers[n].status == Accepted { NotCounted(offers[..n], Accepted); }
    }
  }

  /**
   * What holds of the match at this grain, and when: the accepted offer is unique and its master's always; beside
   * it there is no open offer, no search in flight and none that came to nothing exactly when no committed
   * transaction was overtaken; and then the penalties are the timed-out offers.
   */
  lemma MatchAtStatementGrain(m: MasterId, events: seq<Event>)
    ensures var w := Run(Searched(m), events);
            w.master.Some? ==>
              && Count(w.offers, Accepted) == 1
              && (Loose(w) == 0 <==> !SomeCommitOvertaken(Searched(m), events))
    ensures !SomeCommitOvertaken(Searched(m), events) ==>
              Fines(Run(Searched(m), events)) == Count(Run(Searched(m), events).offers, TimedOut)
  {
    var w := Run(Searched(m), events);
    SearchedIsSound(m);
    TokensFollowOverwrites(Searched(m), events);
    TokenAtStatementGrain(m, events);
    AnswerIsOverwrittenIffItCameBetween(m, events);
    TimeoutsAmongOverwritten(Searched(m), events);
    if w.master.Some? {
      var i: nat :| AcceptedAt(w, i);
      Counted(w.offers, i, Accepted);
      forall i, j | 0 <= i < j < |w.offers| ensures !(w.offers[i].status == Accepted && w.offers[j].status == Accepted) {
        assert AcceptedAt(w, i) && AcceptedAt(w, j) ==> i == j;
      }
      AtMostOneCounted(w.offers);
    }
  }

  lemma {:induction false} TimeoutsAmongOverwritten(w: World, events: seq<Event>)
    ensures TimeoutsOverwritten(w, events) <= Overwritten(w, events)
    decreases |events|
  {
    if events != [] { TimeoutsAmongOverwritten(Step(w, events[0]), events[1..]); }
  }

  /** An answered offer stays as it is, but for a commit that overwrites it. */
  lemma AnswersStayUnlessOverwritten(w: World, e: Event, i: nat)
    requires Sound(w) && i < |w.offers| && w.offers[i].status != Offered
    ensures i < |Step(w, e).offers|
    ensures Step(w, e).offers[i] == w.offers[i] <==> !(Overwrites(w, e) && w.txs[e.tx].offer == i)
  {
    if Commits(w, e) {
      CommitCountsTokens(w, e);
      assert PastCheck(w.txs[e.tx]) && w.status == Searching;
      assert !AcceptedAt(w, i);
    }
  }

  /** The offer runs out between the two statements; its search goes on and makes a second offer after the match. */
  function Race(m: MasterId, n: MasterId): seq<Event> {
    Until(m) + ([Expire(0)] + (Onward(n) + After(n)))
  }

  function Until(m: MasterId): seq<Event> {
    [Begin(0, m)] + ([LockOrder(0)] + ([ReadRows(0, true)] + []))
  }

  /** Fining, read, count and query. */
  function Onward(n: MasterId): seq<Event> {
    [Advance(0, n)] + ([Advance(0, n)] + ([Advance(0, n)] + ([Advance(0, n)] + [])))
  }

  function After(n: MasterId): seq<Event> {
    [WriteOffer(0)] + ([WithdrawRest(0)] + ([Commit(0)] + ([Advance(0, n)] + [])))
  }

  lemma Then(w: World, e: Event, rest: seq<Event>)
    ensures Run(w, [e] + rest) == Run(Step(w, e), rest)
  {
    assert ([e] + rest)[1..] == rest;
  }

  lemma {:induction false} RunSplits(w: World, events: seq<Event>, more: seq<Event>)
    ensures Run(w, events + more) == Run(Run(w, events), more)
    decreases |events|
  {
    if events == [] {
      assert events + more == more;
    } else {
      assert (events + more)[1..] == events[1..] + more;
      RunSplits(Step(w, events[0]), events[1..], more);
    }
  }

  lemma UntilChecked(m: MasterId)
    ensures Run(Searched(m), Until(m)) == Searched(m).(lock := Some(0), txs := [Checked(0)])
  {
    var w1 := Searched(m).(txs := [Begun(0)]);
    var w2 := w1.(lock := Some(0), txs := [Locked(0)]);
    var w3 := w2.(txs := [Checked(0)]);
    Then(Searched(m), Begin(0, m), [LockOrder(0)] + ([ReadRows(0, true)] + []));
    Then(w1, LockOrder(0), [ReadRows(0, true)] + []);
    Then(w2, ReadRows(0, true), []);
    assert Step(Searched(m), Begin(0, m)) == w1 && Step(w1, LockOrder(0)) == w2 && Step(w2, ReadRows(0, true)) == w3;
  }

  lemma Moves(w: World, n: MasterId, s: Cascade, next: Cascade, fine: nat)
    requires w.searches == [s] && SearchStep(w, 0, n) == w.(searches := w.searches[0 := next], fines := w.fines + fine)
    ensures Step(w, Advance(0, n)) == w.(searches := [next], fines := w.fines + fine)
  {
    assert [s][0 := next] == [next];
  }

  lemma SearchGoesOn(w: World, n: MasterId)
    requires w.status == Searching && w.searches == [Fining] && n !in Masters(w.offers)
    ensures Run(w, Onward(n)) == w.(searches := [Inserting(|w.offers|, n)], fines := w.fines + 1)
  {
    var r := w.(searches := [Reading], fines := w.fines + 1);
    var c, q := r.(searches := [Counting]), r.(searches := [Querying(|w.offers|)]);
    Moves(w, n, Fining, Reading, 1);
    Moves(r, n, Reading, Counting, 0);
    Moves(c, n, Counting, Querying(|w.offers|), 0);
    Moves(q, n, Querying(|w.offers|), Inserting(|w.offers|, n), 0);
    Then(w, Advance(0, n), [Advance(0, n)] + ([Advance(0, n)] + ([Advance(0, n)] + [])));
    Then(r, Advance(0, n), [Advance(0, n)] + ([Advance(0, n)] + []));
    Then(c, Advance(0, n), [Advance(0, n)] + []);
    Then(q, Advance(0, n), []);
  }

  lemma CommitsAnyway(w: World, m: MasterId)
    requires w.status == Searching && w.offers == [Row(m, 1, TimedOut)] && w.lock == Some(0) && w.txs == [Wrote(0)]
    ensures Step(Step(w, WithdrawRest(0)), Commit(0))
            == w.(status := Assigned, master := Some(m), offers := [Row(m, 1, Accepted)], lock := None, txs := [Ended])
  {
    assert OthersOpen(w.offers, 0) == {};
    assert Written(w.offers, 0, {}) == [Row(m, 1, Accepted)];
    assert w.txs[0 := Withdrew(0, {})] == [Withdrew(0, {})] && [Withdrew(0, {})][0 := Ended] == [Ended];
  }

  lemma InsertsNext(w: World, m: MasterId, n: MasterId)
    requires m != n && w.offers == [Row(m, 1, Accepted)] && w.lock.None? && w.searches == [Inserting(1, n)]
    ensures Step(w, Advance(0, n)) == w.(offers := [Row(m, 1, Accepted), Row(n, 2, Offered)], searches := [])
  {
    assert Without(w.searches, 0) == [] && w.offers + [Row(n, 2, Offered)] == [Row(m, 1, Accepted), Row(n, 2, Offered)];
  }

  lemma AfterTimeout(w: World, m: MasterId, n: MasterId)
    requires m != n && w.status == Searching && w.offers == [Row(m, 1, TimedOut)] && w.lock == Some(0) && w.txs == [Checked(0)]
    requires w.searches == [Inserting(1, n)]
    ensures Run(w, After(n)) == w.(status := Assigned, master := Some(m), offers := [Row(m, 1, Accepted), Row(n, 2, Offered)],
                                   lock := None, txs := [Ended], searches := [])
  {
    var wrote := w.(txs := [Wrote(0)]);
    var withdrew, committed := Step(wrote, WithdrawRest(0)), Step(Step(wrote, WithdrawRest(0)), Commit(0));
    CommitsAnyway(wrote, m);
    InsertsNext(committed, m, n);
    assert w.txs[0 := Wrote(0)] == [Wrote(0)];
    Then(w, WriteOffer(0), [WithdrawRest(0)] + ([Commit(0)] + ([Advance(0, n)] + [])));
    Then(wrote, WithdrawRest(0), [Commit(0)] + ([Advance(0, n)] + []));
    Then(withdrew, Commit(0), [Advance(0, n)] + []);
    Then(committed, Advance(0, n), []);
  }

  /** One run in which a timed-out, fined offer ends up accepted, and an open offer stands beside an assigned order. */
  lemma TimedOutOfferIsAccepted(m: MasterId, n: MasterId)
    requires m != n
    ensures Sound(Searched(m))
    ensures Run(Searched(m), Until(m) + [Expire(0)]).offers == [Row(m, 1, TimedOut)]
    ensures var w := Run(Searched(m), Race(m, n));
            w.offers == [Row(m, 1, Accepted), Row(n, 2, Offered)] && w.status == Assigned && w.master == Some(m) && w.fines == 1
  {
    var w3 := Searched(m).(lock := Some(0), txs := [Checked(0)]);
    var w4 := w3.(offers := [Row(m, 1, TimedOut)], searches := [Fining]);
    SearchedIsSound(m);
    UntilChecked(m);
    RunSplits(Searched(m), Until(m), [Expire(0)] + (Onward(n) + After(n)));
    RunSplits(Searched(m), Until(m), [Expire(0)] + []);
    assert [Expire(0)] + [] == [Expire(0)];
    Then(w3, Expire(0), Onward(n) + After(n));
    Then(w3, Expire(0), []);
    assert w3.offers[0 := Row(m, 1, TimedOut)] == w4.offers && w3.searches + [Fining] == [Fining];
    assert Step(w3, Expire(0)) == w4;
    RunSplits(w4, Onward(n), After(n));
    SearchGoesOn(w4, n);
    AfterTimeout(Run(w4, Onward(n)), m, n);
  }
}
