/**
 * Reviewing a master, statement by statement. The transaction inserts its review, averages what it sees - the
 * committed reviews and its own - and overwrites the profile's rating with the result. Nothing locks the reviews,
 * so two customers of one master may each average without the other's. When the stored rating counts every review.
 *
 * Grain: one statement is one step. The profile's row is locked from its write to the end of the transaction, and
 * writes become visible at commit. Reviews are of different orders, so the inserts do not collide.
 */
module ReviewRace {
  import opened Prelude
  import Market

  /** Where a reviewing transaction stands; `basis` is what it averaged. */
  datatype Tx =
    | Begun(rating: int)
    | Inserted(rating: int)
    | Averaged(rating: int, basis: seq<int>)
    | Wrote(rating: int, basis: seq<int>)
    | Ended

  /** The committed reviews of one master, and the reviews its stored rating is the average of. */
  datatype World = World(committed: seq<int>, basis: seq<int>, lock: Option<nat>, txs: seq<Tx>)

  const EMPTY: World := World([], [], None, [])

  datatype Event =
    | Begin(rating: int)
    | Insert(tx: nat)
    | Average(tx: nat)
    | WriteProfile(tx: nat)
    | Commit(tx: nat)
    | Rollback(tx: nat)

  function Sum(s: seq<int>): int {
    if s == [] then 0 else Sum(s[..|s| - 1]) + s[|s| - 1]
  }

  /** What the profile's column holds for an average of these reviews. */
  function Rating(basis: seq<int>): real {
    if basis == [] then 0.0 else Market.Hundredths(Sum(basis) as real / |basis| as real)
  }

  function TxStep(w: World, e: Event): World
    requires !e.Begin? && e.tx < |w.txs|
  {
    var t := w.txs[e.tx];
    match e
    case Insert(k) => if t.Begun? then w.(txs := w.txs[k := Inserted(t.rating)]) else w
    case Average(k) => if t.Inserted? then w.(txs := w.txs[k := Averaged(t.rating, w.committed + [t.rating])]) else w
    case WriteProfile(k) =>
      if t.Averaged? && w.lock.None? then w.(lock := Some(k), txs := w.txs[k := Wrote(t.rating, t.basis)]) else w
    case Commit(k) =>
      if t.Wrote? then World(w.committed + [t.rating], t.basis, None, w.txs[k := Ended]) else w
    case Rollback(k) => w.(lock := if t.Wrote? then None else w.lock, txs := w.txs[k := Ended])
  }

  function Step(w: World, e: Event): World {
    if e.Begin? then w.(txs := w.txs + [Begun(e.rating)])
    else if e.tx < |w.txs| then TxStep(w, e) else w
  }

  function Run(w: World, events: seq<Event>): World
    decreases |events|
  {
    if events == [] then w else Run(Step(w, events[0]), events[1..])
  }

  function At(events: seq<Event>, n: nat): World
    requires n <= |events|
  {
    Run(EMPTY, events[..n])
  }

  predicate Averages(w: World, e: Event) {
    e.Average? && e.tx < |w.txs| && w.txs[e.tx].Inserted?
  }

  predicate Commits(w: World, e: Event) {
    e.Commit? && e.tx < |w.txs| && w.txs[e.tx].Wrote?
  }

  lemma {:induction false} RunSplits(w: World, events: seq<Event>, more: seq<Event>)
    ensures Run(w, events + more) == Run(Run(w, events), more)
    decreases |events|
  {
    if events == [] {
      assert events + more == more;
    } else {
      assert (events + more)[1..] == events[1..] + more;
      RunSplits(Step(w, events[0]), events[1..], more);
    }
  }

  lemma RunSnoc(events: seq<Event>, n: nat)
    requires n < |events|
    ensures At(events, n + 1) == Step(At(events, n), events[n])
  {
    assert events[..n + 1] == events[..n] + [events[n]];
    RunSplits(EMPTY, events[..n], [events[n]]);
    assert Run(At(events, n), [events[n]]) == Run(Step(At(events, n), events[n]), [events[n]][1..]);
  }

  // ---- What a transaction averaged stays what it writes ----------------------------

  predicate Holding(w: World, k: nat, rating: int, basis: seq<int>) {
    k < |w.txs| && (w.txs[k] == Averaged(rating, basis) || w.txs[k] == Wrote(rating, basis) || w.txs[k].Ended?)
  }

  lemma {:induction false} BasisStays(events: seq<Event>, a: nat, n: nat, k: nat, rating: int, basis: seq<int>)
    requires a <= n <= |events| && Holding(At(events, a), k, rating, basis)
    ensures Holding(At(events, n), k, rating, basis)
    decreases n - a
  {
    if a < n {
      BasisStays(events, a, n - 1, k, rating, basis);
      RunSnoc(events, n - 1);
    }
  }

  lemma OnlyCommitsAdd(w: World, e: Event)
    ensures Commits(w, e) ==> |Step(w, e).committed| == |w.committed| + 1
    ensures !Commits(w, e) ==> Step(w, e).committed == w.committed && Step(w, e).basis == w.basis
  {
  }

  ghost predicate CommitsBetween(events: seq<Event>, a: nat, n: nat)
    requires n <= |events|
  {
    exists j :: a <= j < n && Commits(At(events, j), events[j])
  }

  lemma BetweenGrows(events: seq<Event>, a: nat, n: nat)
    requires a <= n < |events|
    ensures CommitsBetween(events, a, n + 1) <==> CommitsBetween(events, a, n) || Commits(At(events, n), events[n])
  {
    if CommitsBetween(events, a, n) {
      var j :| a <= j < n && Commits(At(events, j), events[j]);
      assert a <= j < n + 1 && Commits(At(events, j), events[j]);
    }
    if Commits(At(events, n), events[n]) { assert a <= n < n + 1; }
  }

  lemma {:induction false} CommittedGrows(events: seq<Event>, a: nat, n: nat)
    requires a <= n <= |events|
    ensures CommitsBetween(events, a, n) ==> |At(events, a).committed| < |At(events, n).committed|
    ensures !CommitsBetween(events, a, n) ==> At(events, a).committed == At(events, n).committed && At(events, a).basis == At(events, n).basis
    decreases n - a
  {
    if a < n {
      CommittedGrows(events, a, n - 1);
      RunSnoc(events, n - 1);
      OnlyCommitsAdd(At(events, n - 1), events[n - 1]);
      BetweenGrows(events, a, n - 1);
    }
  }

  lemma CommitStores(events: seq<Event>, a: nat, c: nat)
    requires a < c < |events| && Averages(At(events, a), events[a]) && Commits(At(events, c), events[c])
    requires events[a].tx == events[c].tx
    ensures var rating := At(events, a).txs[events[a].tx].rating;
            && At(events, c + 1).basis == At(events, a).committed + [rating]
            && At(events, c + 1).committed == At(events, c).committed + [rating]
  {
    var k := events[a].tx;
    var rating := At(events, a).txs[k].rating;
    RunSnoc(events, a);
    BasisStays(events, a + 1, c, k, rating, At(events, a).committed + [rating]);
    RunSnoc(events, c);
  }

  /**
   * The exact condition: of a run whose last commit is at c, by a transaction that averaged at a, the stored rating
   * is of all committed reviews exactly when no other transaction committed between a and c - that is, when the one
   * that wrote last averaged after every other had committed. Otherwise reviews are missing from it.
   */
  lemma RatingCountsAllIffAveragedLast(events: seq<Event>, a: nat, c: nat)
    requires a < c < |events| && Averages(At(events, a), events[a]) && Commits(At(events, c), events[c])
    requires events[a].tx == events[c].tx && !CommitsBetween(events, c + 1, |events|)
    ensures var w := Run(EMPTY, events);
            && (w.basis == w.committed <==> !CommitsBetween(events, a, c))
            && (w.basis != w.committed ==> |w.basis| < |w.committed|)
            && (!CommitsBetween(events, a, c) ==> Rating(w.basis) == Rating(w.committed))
  {
    assert events[..|events|] == events;
    CommitStores(events, a, c);
    CommittedGrows(events, a, c);
    CommittedGrows(events, c + 1, |events|);
  }

  // ---- Every committed run has such a last writer ----------------------------------

  /** The averaging step of the review that transaction k is about to store. */
  ghost predicate HasAveraged(events: seq<Event>, n: nat, k: nat)
    requires n <= |events|
  {
    exists a :: 0 <= a < n && Averages(At(events, a), events[a]) && events[a].tx == k
  }

  predicate PastAverage(w: World, k: nat) {
    k < |w.txs| && (w.txs[k].Averaged? || w.txs[k].Wrote?)
  }

  lemma AveragingShows(w: World, e: Event, k: nat)
    requires PastAverage(Step(w, e), k)
    ensures PastAverage(w, k) || (Averages(w, e) && e.tx == k)
  {
  }

  lemma {:induction false} AveragedBefore(events: seq<Event>, n: nat, k: nat)
    requires n <= |events| && PastAverage(At(events, n), k)
    ensures HasAveraged(events, n, k)
    decreases n
  {
    assert events[..0] == [];
    if n > 0 {
      RunSnoc(events, n - 1);
      AveragingShows(At(events, n - 1), events[n - 1], k);
      if PastAverage(At(events, n - 1), k) {
        AveragedBefore(events, n - 1, k);
        var a :| 0 <= a < n - 1 && Averages(At(events, a), events[a]) && events[a].tx == k;
        assert 0 <= a < n;
      } else {
        assert 0 <= n - 1 < n;
      }
    }
  }

  /** The last commit of a run that has one. */
  lemma {:induction false} LastCommit(events: seq<Event>, n: nat) returns (c: nat)
    requires n <= |events| && CommitsBetween(events, 0, n)
    ensures c < n && Commits(At(events, c), events[c]) && !CommitsBetween(events, c + 1, n)
    decreases n
  {
    if Commits(At(events, n - 1), events[n - 1]) {
      c := n - 1;
    } else {
      BetweenGrows(events, 0, n - 1);
      c := LastCommit(events, n - 1);
      BetweenGrows(events, c + 1, n - 1);
    }
  }

  /** The run commits last at c what was averaged at a. */
  ghost predicate LastStored(events: seq<Event>, a: nat, c: nat) {
    && a < c < |events| && Averages(At(events, a), events[a]) && Commits(At(events, c), events[c])
    && events[a].tx == events[c].tx && !CommitsBetween(events, c + 1, |events|)
  }

  /**
   * Every run: either no review was ever committed and none is stored, or some transaction stored last what it had
   * averaged, and the stored rating counts every review exactly when nobody committed in between.
   */
  lemma EveryRunStoresLast(events: seq<Event>)
    ensures var w := Run(EMPTY, events);
            || (w.committed == [] && w.basis == [])
            || exists a, c :: LastStored(events, a, c) && (w.basis == w.committed <==> !CommitsBetween(events, a, c))
  {
    assert events[..|events|] == events && events[..0] == [];
    if CommitsBetween(events, 0, |events|) {
      var c := LastCommit(events, |events|);
      AveragedBefore(events, c, events[c].tx);
      var a :| 0 <= a < c && Averages(At(events, a), events[a]) && events[a].tx == events[c].tx;
      RatingCountsAllIffAveragedLast(events, a, c);
      assert LastStored(events, a, c);
    } else {
      CommittedGrows(events, 0, |events|);
    }
  }

  // ---- The race -------------------------------------------------------------------

  lemma Then(w: World, e: Event, rest: seq<Event>)
    ensures Run(w, [e] + rest) == Run(Step(w, e), rest)
  {
    assert ([e] + rest)[1..] == rest;
  }

  /** Both transactions average before either commits. */
  function BothAverage(r: int, s: int): seq<Event> {
    [Begin(r)] + ([Begin(s)] + ([Insert(0)] + ([Insert(1)] + ([Average(0)] + ([Average(1)] + [])))))
  }

  function BothCommit(): seq<Event> {
    [WriteProfile(0)] + ([Commit(0)] + ([WriteProfile(1)] + ([Commit(1)] + [])))
  }

  lemma BothHaveAveraged(r: int, s: int)
    ensures Run(EMPTY, BothAverage(r, s)) == World([], [], None, [Averaged(r, [r]), Averaged(s, [s])])
  {
    var w1 := World([], [], None, [Begun(r)]);
    var w2 := World([], [], None, [Begun(r), Begun(s)]);
    var w3 := World([], [], None, [Inserted(r), Begun(s)]);
    var w4 := World([], [], None, [Inserted(r), Inserted(s)]);
    var w5 := World([], [], None, [Averaged(r, [r]), Inserted(s)]);
    Then(EMPTY, Begin(r), [Begin(s)] + ([Insert(0)] + ([Insert(1)] + ([Average(0)] + ([Average(1)] + [])))));
    Then(w1, Begin(s), [Insert(0)] + ([Insert(1)] + ([Average(0)] + ([Average(1)] + []))));
    Then(w2, Insert(0), [Insert(1)] + ([Average(0)] + ([Average(1)] + [])));
    Then(w3, Insert(1), [Average(0)] + ([Average(1)] + []));
    Then(w4, Average(0), [Average(1)] + []);
    Then(w5, Average(1), []);
    assert Step(EMPTY, Begin(r)) == w1 && Step(w1, Begin(s)) == w2 && Step(w2, Insert(0)) == w3;
    assert w4.committed + [r] == [r] && w5.committed + [s] == [s];
    assert Step(w3, Insert(1)) == w4 && Step(w4, Average(0)) == w5;
  }

  lemma BothHaveCommitted(r: int, s: int)
    ensures Run(World([], [], None, [Averaged(r, [r]), Averaged(s, [s])]), BothCommit())
            == World([r, s], [s], None, [Ended, Ended])
  {
    var w6 := World([], [], None, [Averaged(r, [r]), Averaged(s, [s])]);
    var w7 := World([], [], Some(0), [Wrote(r, [r]), Averaged(s, [s])]);
    var w8 := World([r], [r], None, [Ended, Averaged(s, [s])]);
    var w9 := World([r], [r], Some(1), [Ended, Wrote(s, [s])]);
    Then(w6, WriteProfile(0), [Commit(0)] + ([WriteProfile(1)] + ([Commit(1)] + [])));
    Then(w7, Commit(0), [WriteProfile(1)] + ([Commit(1)] + []));
    Then(w8, WriteProfile(1), [Commit(1)] + []);
    Then(w9, Commit(1), []);
    assert Step(w6, WriteProfile(0)) == w7 && Step(w7, Commit(0)) == w8 && Step(w8, WriteProfile(1)) == w9;
    assert w9.committed + [s] == [r, s];
  }

  lemma FloorIs(z: real, n: int)
    requires n as real <= z < n as real + 1.0
    ensures z.Floor == n
  {
  }

  /** Two decimals hold every half. */
  lemma HalvesAreExact(n: int)
    ensures Market.Hundredths(n as real / 2.0) == n as real / 2.0
  {
    FloorIs(n as real / 2.0 * 100.0 + 0.5, 50 * n);
  }

  lemma RatingOfOne(s: int)
    ensures Rating([s]) == s as real
  {
    assert [s][..0] == [] && Sum([s]) == s;
    HalvesAreExact(2 * s);
    assert (2 * s) as real / 2.0 == s as real;
  }

  lemma RatingOfTwo(r: int, s: int)
    ensures Rating([r, s]) == (r + s) as real / 2.0
  {
    assert [r, s][..1] == [r] && [r][..0] == [] && Sum([r]) == r && Sum([r, s]) == r + s;
    HalvesAreExact(r + s);
  }

  /**
   * Two customers rate one master r and s at the same time: only s is in the stored rating, which is the average of
   * the two exactly when they happen to be equal.
   */
  lemma TwoReviewsRace(r: int, s: int)
    ensures var w := Run(EMPTY, BothAverage(r, s) + BothCommit());
            && w.committed == [r, s] && w.basis == [s]
            && (Rating(w.basis) == Rating(w.committed) <==> r == s)
  {
    RunSplits(EMPTY, BothAverage(r, s), BothCommit());
    BothHaveAveraged(r, s);
    BothHaveCommitted(r, s);
    RatingOfOne(s);
    RatingOfTwo(r, s);
  }
}
