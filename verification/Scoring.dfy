/** Candidate scoring and the weighted random pick among the nearest masters. */
module Scoring {
  import opened Prelude
  import opened Pricing

  datatype Candidate = Candidate(master: MasterId, distanceM: int, ratingAvg: real, jobsDone: nat, premium: bool)

  function RequiredTier(complexity: Option<Complexity>): int {
    match complexity
    case Some(Critical) => 3
    case Some(Complex) => 2
    case Some(Medium) => 1
    case _ => 0
  }

  /** A master of this tier may be given the job: one tier up for each step of difficulty, none for an unknown one. */
  lemma TierGate(complexity: Option<Complexity>, tier: int)
    ensures RequiredTier(complexity) <= tier
            <==> && 0 <= tier && (complexity == Some(Medium) ==> 1 <= tier)
                 && (complexity == Some(Complex) ==> 2 <= tier) && (complexity == Some(Critical) ==> 3 <= tier)
  {
  }

  function Clamp01(x: real): real {
    if x < 0.0 then 0.0 else if 1.0 < x then 1.0 else x
  }

  const PREMIUM_BONUS: real := 0.1
  const DISTANCE_REFERENCE_M: real := 20_000.0

  function Score(c: Candidate): real {
    var distance := Clamp01(1.0 - c.distanceM as real / DISTANCE_REFERENCE_M);
    var rating := Clamp01(c.ratingAvg / 5.0);
    var jobs := Clamp01(c.jobsDone as real / 100.0);
    var base := 0.5 * distance + 0.35 * rating + 0.15 * jobs;
    if c.premium then base + PREMIUM_BONUS else base
  }

  /** Scores stay in [0, 1.1], and being nearer, better rated, more experienced or premium never hurts. */
  lemma ScoreRewardsMerit(c: Candidate, d: Candidate)
    ensures 0.0 <= Score(c) <= 1.0 + PREMIUM_BONUS
    ensures d.distanceM <= c.distanceM && c.ratingAvg <= d.ratingAvg && c.jobsDone <= d.jobsDone && (c.premium ==> d.premium)
            ==> Score(c) <= Score(d)
  {
  }

  /**
   * What each merit is worth, whatever the others: nearness half a point over 20 km, the rating 0.35 over five stars,
   * experience 0.15 over a hundred jobs, a subscription 0.1. Without any the score is 0.
   */
  lemma ScoreOfEachMerit(c: Candidate, distanceM: int, ratingAvg: real, jobsDone: nat)
    ensures 0 <= distanceM <= 20_000 ==>
              Score(c.(distanceM := 0)) - Score(c.(distanceM := distanceM)) == 0.5 * distanceM as real / 20_000.0
    ensures distanceM >= 20_000 ==> Score(c.(distanceM := 0)) - Score(c.(distanceM := distanceM)) == 0.5
    ensures 0.0 <= ratingAvg <= 5.0 ==>
              Score(c.(ratingAvg := ratingAvg)) - Score(c.(ratingAvg := 0.0)) == 0.35 * ratingAvg / 5.0
    ensures jobsDone <= 100 ==> Score(c.(jobsDone := jobsDone)) - Score(c.(jobsDone := 0)) == 0.15 * jobsDone as real / 100.0
    ensures jobsDone >= 100 ==> Score(c.(jobsDone := jobsDone)) - Score(c.(jobsDone := 0)) == 0.15
    ensures Score(c.(premium := true)) - Score(c.(premium := false)) == 0.1
    ensures Score(Candidate(c.master, 20_000, 0.0, 0, false)) == 0.0
  {
  }

  const MIN_WEIGHT: real := 0.0001

  function Weight(w: real): real {
    if w < MIN_WEIGHT then MIN_WEIGHT else w
  }

  function Weights<T>(candidates: seq<T>, weightOf: T -> real): (ws: seq<real>)
    ensures |ws| == |candidates|
    ensures forall i :: 0 <= i < |ws| ==> MIN_WEIGHT <= ws[i]
    ensures forall i :: 0 <= i < |ws| ==> ws[i] == (if weightOf(candidates[i]) < 0.0001 then 0.0001 else weightOf(candidates[i]))
  {
    seq(|candidates|, i requires 0 <= i < |candidates| => Weight(weightOf(candidates[i])))
  }

  predicate Positive(ws: seq<real>) {
    forall i :: 0 <= i < |ws| ==> 0.0 < ws[i]
  }

  /** Sum of the first k weights. */
  function Prefix(ws: seq<real>, k: nat): real
    requires k <= |ws|
  {
    if k == 0 then 0.0 else Prefix(ws, k - 1) + ws[k - 1]
  }

  function Total(ws: seq<real>): real { Prefix(ws, |ws|) }

  lemma {:induction false} PrefixGrows(ws: seq<real>, i: nat, j: nat)
    requires Positive(ws) && i <= j <= |ws|
    ensures Prefix(ws, i) <= Prefix(ws, j)
    ensures i < j ==> Prefix(ws, i) < Prefix(ws, j)
    decreases j - i
  {
    if i < j { PrefixGrows(ws, i, j - 1); }
  }

  /**
   * The slice of [0, total] that belongs to index i: the half-open interval above its prefix sum,
   * whose width is exactly ws[i]. Roll 0 belongs to the first candidate.
   */
  predicate Owns(ws: seq<real>, i: nat, roll: real)
    requires i < |ws|
  {
    (Prefix(ws, i) < roll || (i == 0 && roll == 0.0)) && roll <= Prefix(ws, i + 1)
  }

  /** The slices partition [0, total]: no roll belongs to two candidates. */
  lemma OwnerIsUnique(ws: seq<real>, i: nat, j: nat, roll: real)
    requires Positive(ws) && i < |ws| && j < |ws|
    requires Owns(ws, i, roll) && Owns(ws, j, roll)
    ensures i == j
  {
    if i < j { PrefixGrows(ws, i + 1, j); }
    if j < i { PrefixGrows(ws, j + 1, i); }
  }

  /** First index at or after i whose prefix sum reaches the roll. */
  function PickFrom(ws: seq<real>, roll: real, i: nat): (r: nat)
    requires i < |ws|
    ensures i <= r < |ws|
    decreases |ws| - i
  {
    if i + 1 == |ws| || roll <= Prefix(ws, i + 1) then i else PickFrom(ws, roll, i + 1)
  }

  /** Every roll has exactly one owner, and it is the one picked: candidate i wins on a stretch of length ws[i]. */
  lemma PickIsProportional(ws: seq<real>, roll: real, i: nat)
    requires Positive(ws) && i < |ws| && 0.0 <= roll <= Total(ws)
    ensures PickFrom(ws, roll, 0) == i <==> Owns(ws, i, roll)
    ensures Prefix(ws, i + 1) - Prefix(ws, i) == ws[i]
  {
    PickReaches(ws, roll, 0);
    if Owns(ws, i, roll) {
      OwnerIsUnique(ws, i, PickFrom(ws, roll, 0), roll);
    }
  }

  lemma {:induction false} PickReaches(ws: seq<real>, roll: real, i: nat)
    requires Positive(ws) && i < |ws| && roll <= Total(ws)
    requires Prefix(ws, i) < roll || (i == 0 && roll == 0.0)
    ensures Owns(ws, PickFrom(ws, roll, i), roll)
    decreases |ws| - i
  {
    if i + 1 == |ws| || roll <= Prefix(ws, i + 1) {
      PrefixGrows(ws, i, i + 1);
    } else {
      PickReaches(ws, roll, i + 1);
    }
  }

  lemma RollIsWithin(u: real, total: real)
    requires 0.0 <= u < 1.0 && 0.0 < total
    ensures 0.0 <= u * total < total
  {
    assert 0.0 < (1.0 - u) * total;
  }

  /** The pick loop: subtract each weight from the roll until it is used up. The return after the loop is dead. */
  method SpendRoll(ws: seq<real>, start: real) returns (picked: nat)
    requires ws != [] && Positive(ws) && 0.0 <= start <= Total(ws)
    ensures picked < |ws| && Owns(ws, picked, start) && picked == PickFrom(ws, start, 0)
  {
    var roll := start;
    for i := 0 to |ws|
      invariant roll == start - Prefix(ws, i)
      invariant 0.0 < roll || (i == 0 && roll == 0.0)
    {
      roll := roll - ws[i];
      if roll <= 0.0 {
        PickIsProportional(ws, start, i);
        return i;
      }
    }
    assert false;
  }

  /** Where on [0, total) the draw u lands. */
  function RollOf(ws: seq<real>, u: real): real { u * Total(ws) }

  lemma TotalIsPositive(ws: seq<real>)
    requires ws != [] && Positive(ws)
    ensures 0.0 < Total(ws)
  {
    PrefixGrows(ws, 0, |ws|);
  }

  /** The draw u stands for the share u of all the weight. */
  lemma RollOfTotal(ws: seq<real>, u: real, total: real)
    requires total == Prefix(ws, |ws|)
    ensures total == Total(ws) && RollOf(ws, u) == u * total
  {
  }

  method Roll(ws: seq<real>, u: real) returns (roll: real)
    requires ws != [] && Positive(ws) && 0.0 <= u < 1.0
    ensures roll == RollOf(ws, u) && 0.0 <= roll < Total(ws)
  {
    var total := 0.0;
    for k := 0 to |ws|
      invariant total == Prefix(ws, k)
    {
      total := total + ws[k];
    }
    TotalIsPositive(ws);
    RollIsWithin(u, total);
    RollOfTotal(ws, u, total);
    roll := u * total;
  }

  /** The candidate chosen by the random draw u, as a function. */
  function Pick(candidates: seq<Candidate>, u: real): (r: nat)
    requires candidates != []
    ensures r < |candidates|
  {
    var ws := Weights(candidates, c => Score(c));
    PickFrom(ws, RollOf(ws, u), 0)
  }

  /** The weights of a list of candidates: their scores, but never less than 0.0001. */
  predicate AreWeights(ws: seq<real>, candidates: seq<Candidate>) {
    && |ws| == |candidates|
    && forall i :: 0 <= i < |ws| ==> ws[i] == (if Score(candidates[i]) < 0.0001 then 0.0001 else Score(candidates[i]))
  }

  /** Candidate k owns the draw: of the whole weight, the share u falls to it. */
  ghost predicate OwnsDraw(candidates: seq<Candidate>, k: nat, u: real)
    requires k < |candidates|
  {
    exists ws :: AreWeights(ws, candidates) && Owns(ws, k, RollOf(ws, u))
  }

  lemma WeightsAreUnique(ws: seq<real>, vs: seq<real>, candidates: seq<Candidate>)
    requires AreWeights(ws, candidates) && AreWeights(vs, candidates)
    ensures ws == vs
  {
    assert forall i :: 0 <= i < |ws| ==> ws[i] == vs[i];
  }

  lemma ScoresAreWeights(candidates: seq<Candidate>)
    ensures AreWeights(Weights(candidates, c => Score(c)), candidates)
  {
  }

  lemma DrawLandsInside(ws: seq<real>, u: real)
    requires ws != [] && Positive(ws) && 0.0 <= u < 1.0
    ensures 0.0 <= RollOf(ws, u) < Total(ws)
  {
    var total := Total(ws);
    TotalIsPositive(ws);
    RollIsWithin(u, total);
    RollOfTotal(ws, u, total);
  }

  lemma RollHasOwner(ws: seq<real>, roll: real)
    requires ws != [] && Positive(ws) && 0.0 <= roll <= Total(ws)
    ensures Owns(ws, PickFrom(ws, roll, 0), roll)
  {
    PickReaches(ws, roll, 0);
  }

  lemma PickOwnsDraw(candidates: seq<Candidate>, u: real)
    requires candidates != [] && 0.0 <= u < 1.0
    ensures OwnsDraw(candidates, Pick(candidates, u), u)
  {
    ScoresAreWeights(candidates);
    var ws := Weights(candidates, c => Score(c));
    DrawLandsInside(ws, u);
    RollHasOwner(ws, RollOf(ws, u));
  }

  lemma RollHasOneOwner(ws: seq<real>, k: nat, l: nat, roll: real)
    requires (forall i :: 0 <= i < |ws| ==> 0.0001 <= ws[i]) && k < |ws| && l < |ws| && Owns(ws, k, roll) && Owns(ws, l, roll)
    ensures k == l
  {
    OwnerIsUnique(ws, k, l, roll);
  }

  /** Nobody else owns it. */
  lemma DrawHasOneOwner(candidates: seq<Candidate>, k: nat, l: nat, u: real)
    requires k < |candidates| && l < |candidates| && OwnsDraw(candidates, k, u) && OwnsDraw(candidates, l, u)
    ensures k == l
  {
    var ws :| AreWeights(ws, candidates) && Owns(ws, k, RollOf(ws, u));
    var vs :| AreWeights(vs, candidates) && Owns(vs, l, RollOf(vs, u));
    WeightsAreUnique(ws, vs, candidates);
    RollHasOneOwner(ws, k, l, RollOf(ws, u));
  }

  /** An empty list is an error; otherwise the candidate that owns the draw is returned. */
  method WeightedRandomPick<T>(candidates: seq<T>, weightOf: T -> real, u: real) returns (picked: Option<nat>)
    requires 0.0 <= u < 1.0
    ensures picked.None? <==> candidates == []
    ensures picked.Some? ==>
              && picked.value < |candidates|
              && var ws := Weights(candidates, weightOf);
                 Owns(ws, picked.value, RollOf(ws, u)) && picked.value == PickFrom(ws, RollOf(ws, u), 0)
  {
    if candidates == [] {
      return None;
    }
    var ws := Weights(candidates, weightOf);
    var roll := Roll(ws, u);
    var i := SpendRoll(ws, roll);
    return Some(i);
  }
}
