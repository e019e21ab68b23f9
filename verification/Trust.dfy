/** The trust score of a master, over exact reals, with the penalties that lower it. */
module Trust {
  import opened Prelude

  const JOBS_DONE_CAP: nat := 50
  const MAX_PENALTY_DEDUCTION: nat := 20
  const LOOKBACK_MS: int := 7_776_000_000
  const THRESHOLDS: seq<int> := [40, 60, 80]

  datatype PenaltyRow = PenaltyRow(points: nat, createdAt: int)

  /** What the score is computed from. */
  datatype Standing = Standing(jobsDone: nat, ratingAvg: real, cancelled: nat, closed: nat, accepted: nat, refused: nat,
                               verified: bool, penalties: seq<PenaltyRow>)

  /** Ratings are 1 to 5, and 0 before the first. */
  predicate RatingOk(s: Standing) {
    0.0 <= s.ratingAvg <= 5.0
  }

  // ---- The formula ----------------------------------------------------------------

  function Share(part: nat, rest: nat, ifNone: real): real {
    if part + rest > 0 then part as real / (part + rest) as real else ifNone
  }

  function CancellationRate(s: Standing): real {
    Share(s.cancelled, s.closed, 0.0)
  }

  function ResponseRate(s: Standing): real {
    Share(s.accepted, s.refused, 1.0)
  }

  function JobsFactor(jobsDone: nat): real {
    (if jobsDone < JOBS_DONE_CAP then jobsDone else JOBS_DONE_CAP) as real / JOBS_DONE_CAP as real
  }

  function RawScore(s: Standing): real {
    JobsFactor(s.jobsDone) * 30.0 + s.ratingAvg / 5.0 * 25.0 + ResponseRate(s) * 15.0
    + (1.0 - CancellationRate(s)) * 15.0 + (if s.verified then 1.0 else 0.0) * 15.0
  }

  /** Points of the last ninety days. */
  function ActivePoints(rows: seq<PenaltyRow>, now: int): nat {
    if rows == [] then 0
    else (if rows[0].createdAt >= now - LOOKBACK_MS then rows[0].points else 0) + ActivePoints(rows[1..], now)
  }

  function Deduction(points: nat): nat {
    if points < MAX_PENALTY_DEDUCTION then points else MAX_PENALTY_DEDUCTION
  }

  /** Math.round: halves go up. */
  function Round(x: real): int {
    (x + 0.5).Floor
  }

  function Clamp(x: int): int {
    if x < 0 then 0 else if x > 100 then 100 else x
  }

  function TrustScore(s: Standing, now: int): int {
    Clamp(Round(RawScore(s) - Deduction(ActivePoints(s.penalties, now)) as real))
  }

  /** Tier 1 from 40, tier 2 from 60, tier 3 from 80. */
  function TierOf(score: int): nat {
    if score >= 80 then 3 else if score >= 60 then 2 else if score >= 40 then 1 else 0
  }

  predicate HasTier(score: int, tier: nat) {
    tier <= 3 && (tier >= 1 <==> score >= 40) && (tier >= 2 <==> score >= 60) && (tier >= 3 <==> score >= 80)
  }

  method ScoreToTier(score: int) returns (tier: nat)
    ensures tier == TierOf(score) && HasTier(score, tier)
  {
    tier := 0;
    for i := 0 to |THRESHOLDS|
      invariant tier == if TierOf(score) < i then TierOf(score) else i
    {
      if score >= THRESHOLDS[i] { tier := tier + 1; }
    }
  }

  // ---- Bounds ---------------------------------------------------------------------

  lemma ShareIsFraction(part: nat, rest: nat, ifNone: real)
    requires 0.0 <= ifNone <= 1.0
    ensures 0.0 <= Share(part, rest, ifNone) <= 1.0
  {
    if part + rest > 0 {
      DivideUp(part as real, (part + rest) as real);
    }
  }

  lemma DivideUp(x: real, y: real)
    requires 0.0 <= x <= y && 0.0 < y
    ensures 0.0 <= x / y <= 1.0
  {
  }

  /** The weights add up to 100: only penalties can push a score out of range, and only below it. */
  lemma RawScoreIsBounded(s: Standing)
    requires RatingOk(s)
    ensures 0.0 <= RawScore(s) <= 100.0
  {
    ShareIsFraction(s.accepted, s.refused, 1.0);
    ShareIsFraction(s.cancelled, s.closed, 0.0);
  }

  lemma RoundCommutes(x: real, n: int)
    ensures Round(x - n as real) == Round(x) - n
  {
  }

  lemma RoundIsMonotone(x: real, y: real)
    requires x <= y
    ensures Round(x) <= Round(y)
  {
  }

  /**
   * Penalties commute with rounding, and the score needs its lower bound only: it is the rounded raw score less at
   * most 20 points, or 0.
   */
  lemma ScoreIsRoundedRawLessPenalties(s: Standing, now: int)
    requires RatingOk(s)
    ensures var left := Round(RawScore(s)) - Deduction(ActivePoints(s.penalties, now));
            TrustScore(s, now) == if left < 0 then 0 else left
    ensures 0 <= TrustScore(s, now) <= 100
  {
    RawScoreIsBounded(s);
    RoundCommutes(RawScore(s), Deduction(ActivePoints(s.penalties, now)));
    RoundIsMonotone(0.0, RawScore(s));
    RoundIsMonotone(RawScore(s), 100.0);
  }

  // ---- What each factor is worth --------------------------------------------------

  /** Fifty jobs are worth 30 points, in proportion, and more jobs no more; five stars 25; verification 15. */
  lemma MeritsAreWorth(s: Standing, jobs: nat, rating: real)
    requires 0.0 <= rating <= 5.0
    ensures RawScore(s.(jobsDone := jobs)) - RawScore(s.(jobsDone := 0)) == if jobs < 50 then 30.0 * jobs as real / 50.0 else 30.0
    ensures RawScore(s.(ratingAvg := rating)) - RawScore(s.(ratingAvg := 0.0)) == 25.0 * rating / 5.0
    ensures RawScore(s.(verified := true)) - RawScore(s.(verified := false)) == 15.0
  {
  }

  /** Accepting every offer is worth 15 points against accepting none, in proportion; no offers count as all accepted. */
  lemma ResponseIsWorth(s: Standing, accepted: nat, refused: nat)
    ensures RawScore(s.(accepted := accepted, refused := refused)) - RawScore(s.(accepted := 0, refused := 1))
            == 15.0 * (if accepted + refused == 0 then 1.0 else accepted as real / (accepted + refused) as real)
  {
  }

  /** Cancelling every job costs 15 points against cancelling none, in proportion; no jobs count as none cancelled. */
  lemma CancellationCosts(s: Standing, cancelled: nat, closed: nat)
    ensures RawScore(s.(cancelled := 0, closed := 1)) - RawScore(s.(cancelled := cancelled, closed := closed))
            == 15.0 * (if cancelled + closed == 0 then 0.0 else cancelled as real / (cancelled + closed) as real)
  {
  }

  /** The sum of what the factors are worth, from the worst standing up. */
  function Merit(s: Standing): real {
    30.0 * (if s.jobsDone < 50 then s.jobsDone as real / 50.0 else 1.0)
    + 25.0 * s.ratingAvg / 5.0
    + 15.0 * (if s.accepted + s.refused == 0 then 1.0 else s.accepted as real / (s.accepted + s.refused) as real)
    + 15.0 * (if s.cancelled + s.closed == 0 then 1.0 else s.closed as real / (s.cancelled + s.closed) as real)
    + (if s.verified then 15.0 else 0.0)
  }

  lemma SharesAddUp(part: nat, rest: nat)
    requires part + rest > 0
    ensures 1.0 - part as real / (part + rest) as real == rest as real / (part + rest) as real
  {
    var whole := (part + rest) as real;
    var a, b := part as real / whole, rest as real / whole;
    assert a * whole == part as real && b * whole == rest as real;
    assert (a + b - 1.0) * whole == 0.0;
    if a + b > 1.0 { Positive(a + b - 1.0, whole); }
    if a + b < 1.0 { Positive(1.0 - a - b, whole); }
  }

  /** The worst standing is worth nothing and the spotless one 100; in between the factors add up, each to its own worth. */
  lemma FactorsAddUp(s: Standing)
    ensures RawScore(s) == Merit(s)
    ensures Merit(Standing(0, 0.0, 1, 0, 0, 1, false, s.penalties)) == 0.0
    ensures Merit(Standing(50, 5.0, 0, 1, 1, 0, true, s.penalties)) == 100.0
  {
    if s.cancelled + s.closed > 0 { SharesAddUp(s.cancelled, s.closed); }
  }

  /** The score: the sum less the points of the last ninety days, 20 at most, to the nearest integer and not below 0. */
  predicate IsScore(s: Standing, now: int, score: int) {
    var left := Merit(s) - (if ActivePoints(s.penalties, now) < 20 then ActivePoints(s.penalties, now) else 20) as real;
    if left < -0.5 then score == 0 else score as real - 0.5 <= left < score as real + 0.5
  }

  lemma RoundsTo(x: real, n: int)
    ensures n == Round(x) <==> n as real - 0.5 <= x < n as real + 0.5
  {
  }

  /** A standing has one score. */
  lemma ScoreIsExact(s: Standing, now: int, score: int)
    requires RatingOk(s)
    ensures score == TrustScore(s, now) <==> IsScore(s, now, score)
  {
    FactorsAddUp(s);
    RawScoreIsBounded(s);
    var left := Merit(s) - Deduction(ActivePoints(s.penalties, now)) as real;
    RoundsTo(left, score);
    RoundsTo(left, Round(left));
  }

  // ---- Monotonicity ---------------------------------------------------------------

  lemma CrossMultiply(a: real, r: real, b: real, q: real)
    requires 0.0 <= a <= b && 0.0 <= q <= r && 0.0 < a + r && 0.0 < b + q
    ensures a / (a + r) <= b / (b + q)
  {
    var x, y := a + r, b + q;
    Products(a, b, q, r);
    assert a * y == a * b + a * q && b * x == b * a + b * r;
    DivideBoth(a, x, b, y);
  }

  lemma Products(a: real, b: real, q: real, r: real)
    requires 0.0 <= a <= b && 0.0 <= q <= r
    ensures a * q <= b * r
  {
    NonNegative(a, r - q);
    NonNegative(b - a, r);
    assert a * (r - q) == a * r - a * q && (b - a) * r == b * r - a * r;
  }

  lemma NonNegative(x: real, y: real)
    requires 0.0 <= x && 0.0 <= y
    ensures 0.0 <= x * y
  {
  }

  lemma DivideBoth(a: real, x: real, b: real, y: real)
    requires 0.0 < x && 0.0 < y && a * y <= b * x
    ensures a / x <= b / y
  {
    var u, v := a / x, b / y;
    assert u * x == a && v * y == b;
    assert (u - v) * (x * y) == (u * x) * y - (v * y) * x;
    if u > v { Positive(u - v, x * y); }
  }

  lemma Positive(x: real, y: real)
    requires 0.0 < x && 0.0 < y
    ensures 0.0 < x * y
  {
  }

  /** The more of the good and the less of the bad, the larger the share of the good. */
  lemma ShareIsMonotone(part: nat, rest: nat, part': nat, rest': nat)
    requires part <= part' && rest' <= rest
    ensures Share(part, rest, 1.0) <= Share(part', rest', 1.0)
    ensures Share(rest', part', 0.0) <= Share(rest, part, 0.0)
  {
    ShareIsFraction(part, rest, 1.0);
    ShareIsFraction(rest, part, 0.0);
    if part + rest > 0 && part' + rest' > 0 {
      CrossMultiply(part as real, rest as real, part' as real, rest' as real);
      CrossMultiply(rest' as real, part' as real, rest as real, part as real);
    }
  }

  lemma JobsFactorIsMonotone(m: nat, n: nat)
    requires m <= n
    ensures JobsFactor(m) <= JobsFactor(n)
  {
  }

  /** No worse in any respect; penalties may differ. */
  predicate NoWorse(s: Standing, better: Standing) {
    && s.jobsDone <= better.jobsDone && s.ratingAvg <= better.ratingAvg
    && better.cancelled <= s.cancelled && s.closed <= better.closed
    && s.accepted <= better.accepted && better.refused <= s.refused
    && (s.verified ==> better.verified)
  }

  lemma RawScoreIsMonotone(s: Standing, better: Standing)
    requires NoWorse(s, better)
    ensures RawScore(s) <= RawScore(better)
  {
    JobsFactorIsMonotone(s.jobsDone, better.jobsDone);
    ShareIsMonotone(s.accepted, s.refused, better.accepted, better.refused);
    ShareIsMonotone(s.closed, s.cancelled, better.closed, better.cancelled);
  }

  /**
   * The score and the tier are monotone: another accepted offer, closed job, better rating or verification never
   * lowers them; another refused offer, cancellation or active penalty point never raises them.
   */
  lemma TrustIsMonotone(s: Standing, now: int, better: Standing, later: int)
    requires RatingOk(s) && RatingOk(better) && NoWorse(s, better)
    requires ActivePoints(better.penalties, later) <= ActivePoints(s.penalties, now)
    ensures TrustScore(s, now) <= TrustScore(better, later)
    ensures TierOf(TrustScore(s, now)) <= TierOf(TrustScore(better, later))
  {
    RawScoreIsMonotone(s, better);
    RoundIsMonotone(RawScore(s), RawScore(better));
    ScoreIsRoundedRawLessPenalties(s, now);
    ScoreIsRoundedRawLessPenalties(better, later);
  }

  // ---- Penalties ------------------------------------------------------------------

  lemma {:induction false} PointsFade(rows: seq<PenaltyRow>, now: int, later: int)
    requires now <= later
    ensures ActivePoints(rows, later) <= ActivePoints(rows, now)
  {
    if rows != [] { PointsFade(rows[1..], now, later); }
  }

  lemma {:induction false} PointsAppend(rows: seq<PenaltyRow>, row: PenaltyRow, now: int)
    ensures ActivePoints(rows + [row], now)
            == ActivePoints(rows, now) + if now - row.createdAt <= 90 * 86_400_000 then row.points else 0
    ensures ActivePoints([], now) == 0
  {
    if rows == [] {
      assert (rows + [row])[1..] == [];
    } else {
      assert (rows + [row])[1..] == rows[1..] + [row];
      PointsAppend(rows[1..], row, now);
    }
  }

  /** Passing time alone never lowers a score. */
  lemma TimeHeals(s: Standing, now: int, later: int)
    requires RatingOk(s) && now <= later
    ensures TrustScore(s, now) <= TrustScore(s, later)
  {
    PointsFade(s.penalties, now, later);
    TrustIsMonotone(s, now, s, later);
  }

  /** However many penalties there are, they cost at most 20 points. */
  lemma PenaltiesAreCapped(s: Standing, now: int)
    requires RatingOk(s)
    ensures TrustScore(s, now) <= TrustScore(s.(penalties := []), now) <= TrustScore(s, now) + 20
  {
    var clean := s.(penalties := []);
    TrustIsMonotone(s, now, clean, now);
    ScoreIsRoundedRawLessPenalties(s, now);
    ScoreIsRoundedRawLessPenalties(clean, now);
  }

  // ---- The profile ----------------------------------------------------------------

  datatype PenaltyEvent = CancellationEvent | NoShowEvent | LateResponseEvent | PoorQualityEvent | ComplaintEvent

  function PointsFor(e: PenaltyEvent): nat {
    match e
    case CancellationEvent => 10
    case NoShowEvent => 20
    case LateResponseEvent => 3
    case PoorQualityEvent => 8
    case ComplaintEvent => 5
  }

  /** A master's profile; `standing` gathers what the score's queries read. */
  class Profile {
    var standing: Standing
    var trustTier: nat

    constructor (standing: Standing)
      ensures this.standing == standing && trustTier == 0
    {
      this.standing, trustTier := standing, 0;
    }

    method RecomputeTrustTier(now: int) returns (score: int)
      requires RatingOk(standing)
      modifies this`trustTier
      ensures score == TrustScore(standing, now) && trustTier == TierOf(score) && 0 <= score <= 100
      ensures IsScore(standing, now, score) && HasTier(score, trustTier)
    {
      ScoreIsRoundedRawLessPenalties(standing, now);
      ScoreIsExact(standing, now, TrustScore(standing, now));
      score := TrustScore(standing, now);
      var tier := ScoreToTier(score);
      trustTier := tier;
    }

    /** Records a penalty and brings the tier up to date: neither score nor tier is above what it was without it. */
    method RecordEvent(e: PenaltyEvent, now: int)
      requires RatingOk(standing)
      modifies this
      ensures standing == old(standing).(penalties := old(standing.penalties) + [PenaltyRow(PointsFor(e), now)])
      ensures PointsFor(e) == match e case CancellationEvent => 10 case NoShowEvent => 20 case LateResponseEvent => 3
                                      case PoorQualityEvent => 8 case ComplaintEvent => 5
      ensures ActivePoints(standing.penalties, now) == ActivePoints(old(standing.penalties), now) + PointsFor(e)
      ensures trustTier == TierOf(TrustScore(standing, now)) <= TierOf(TrustScore(old(standing), now))
      ensures TrustScore(standing, now) >= TrustScore(old(standing), now) - PointsFor(e)
    {
      ghost var before := standing;
      var row := PenaltyRow(PointsFor(e), now);
      standing := standing.(penalties := standing.penalties + [row]);
      PointsAppend(before.penalties, row, now);
      TrustIsMonotone(standing, now, before, now);
      ScoreIsRoundedRawLessPenalties(standing, now);
      ScoreIsRoundedRawLessPenalties(before, now);
      var _ := RecomputeTrustTier(now);
    }
  }
}
