/** Quotes, the platform fee and the split of a payment. Money is integer so'm. */
module Pricing {
  datatype Tier = Scheduled | Priority | Emergency
  datatype Complexity = Simple | Medium | Complex | Critical
  datatype Band = Band(min: int, max: int)
  datatype Quote = Quote(priceMin: int, priceMax: int, platformFee: int)

  const ROUND_TO: int := 5_000
  const FLOOR: int := 30_000

  function TierMultiplier(t: Tier): real {
    match t case Scheduled => 1.0 case Priority => 1.15 case Emergency => 1.3
  }

  function PlatformFee(t: Tier): int {
    match t case Scheduled => 0 case Priority => 15_000 case Emergency => 30_000
  }

  function ComplexityMultiplier(c: Complexity): real {
    match c case Simple => 0.8 case Medium => 1.0 case Complex => 1.6 case Critical => 2.2
  }

  function Max(a: int, b: int): int { if a < b then b else a }

  function Ceil(x: real): int { -((-x).Floor) }

  /** Rounds an arbitrary raw range: lower end down, upper end up, floored and never empty. */
  function PriceMin(rawMin: real): int {
    Max(FLOOR, (rawMin / (ROUND_TO as real)).Floor * ROUND_TO)
  }

  function PriceMax(rawMin: real, rawMax: real): int {
    Max(PriceMin(rawMin) + ROUND_TO, Ceil(rawMax / (ROUND_TO as real)) * ROUND_TO)
  }

  function QuoteOf(rawMin: real, rawMax: real, fee: int): Quote {
    Quote(PriceMin(rawMin), PriceMax(rawMin, rawMax), fee)
  }

  function QuoteAt(min: real, max: real, complexity: real, tier: real, fee: int): Quote {
    QuoteOf(min * complexity * tier, max * complexity * tier, fee)
  }

  function ComputeQuote(base: Band, c: Complexity, t: Tier): Quote {
    QuoteAt(base.min as real, base.max as real, ComplexityMultiplier(c), TierMultiplier(t), PlatformFee(t))
  }

  /** k steps of 5 000 lie at or below raw exactly when k is at most the floor of raw / 5 000. */
  lemma StepsBelow(raw: real, k: int)
    ensures (k * ROUND_TO) as real <= raw <==> k <= (raw / (ROUND_TO as real)).Floor
  {
    var q := raw / (ROUND_TO as real);
    assert q * 5000.0 == raw;
    assert (k * ROUND_TO) as real == k as real * 5000.0;
    assert k as real <= q <==> k <= q.Floor;
  }

  lemma StepsAbove(raw: real, k: int)
    ensures raw <= (k * ROUND_TO) as real <==> Ceil(raw / (ROUND_TO as real)) <= k
  {
    var q := raw / (ROUND_TO as real);
    assert q * 5000.0 == raw;
    assert (k * ROUND_TO) as real == k as real * 5000.0;
    assert -k as real <= -q <==> -k <= (-q).Floor;
  }

  /** The lower end: the largest multiple of 5 000 not above raw, or the 30 000 floor when that is higher. */
  lemma PriceMinIsGreatest(raw: real, k: int)
    ensures PriceMin(raw) % ROUND_TO == 0 && FLOOR <= PriceMin(raw)
    ensures PriceMin(raw) as real <= raw || PriceMin(raw) == FLOOR
    ensures (k * ROUND_TO) as real <= raw ==> k * ROUND_TO <= PriceMin(raw)
  {
    var f := (raw / (ROUND_TO as real)).Floor;
    StepsBelow(raw, f);
    StepsBelow(raw, k);
  }

  /** The upper end: the smallest multiple of 5 000 at or above raw that also exceeds the lower end. */
  lemma PriceMaxIsLeast(rawMin: real, rawMax: real, k: int)
    ensures PriceMax(rawMin, rawMax) % ROUND_TO == 0 && PriceMin(rawMin) < PriceMax(rawMin, rawMax)
    ensures rawMax <= PriceMax(rawMin, rawMax) as real
    ensures rawMax <= (k * ROUND_TO) as real && PriceMin(rawMin) < k * ROUND_TO
            ==> PriceMax(rawMin, rawMax) <= k * ROUND_TO
  {
    var c := Ceil(rawMax / (ROUND_TO as real));
    StepsAbove(rawMax, c);
    StepsAbove(rawMax, k);
    PriceMinIsGreatest(rawMin, 0);
    assert rawMax <= (c * ROUND_TO) as real;
  }

  lemma RangeShape(rawMin: real, rawMax: real)
    ensures FLOOR <= PriceMin(rawMin) < PriceMax(rawMin, rawMax)
    ensures PriceMin(rawMin) % ROUND_TO == 0 && PriceMax(rawMin, rawMax) % ROUND_TO == 0
  {
    PriceMinIsGreatest(rawMin, 0);
    PriceMaxIsLeast(rawMin, rawMax, 0);
  }

  lemma QuoteOfShape(lo: real, hi: real, t: Tier)
    ensures var q := QuoteOf(lo, hi, PlatformFee(t));
            && FLOOR <= q.priceMin < q.priceMax
            && q.priceMin % ROUND_TO == 0 && q.priceMax % ROUND_TO == 0
            && 0 <= q.platformFee <= q.priceMin
  {
    RangeShape(lo, hi);
  }

  /** What every quote guarantees, whatever the category's band. */
  lemma QuoteShape(base: Band, c: Complexity, t: Tier)
    ensures var q := ComputeQuote(base, c, t);
            && FLOOR <= q.priceMin < q.priceMax
            && q.priceMin % ROUND_TO == 0 && q.priceMax % ROUND_TO == 0
            && 0 <= q.platformFee <= q.priceMin
  {
    QuoteIsOfRange(base, c, t);
    QuoteOfShape(base.min as real * Factor(c, t), base.max as real * Factor(c, t), t);
  }

  // ---- What a quote is of its band ------------------------------------------------

  /** What a job of this difficulty and urgency costs, as a multiple of the category's band. */
  function Factor(c: Complexity, t: Tier): real {
    match (c, t)
    case (Simple, Scheduled) => 0.8 case (Simple, Priority) => 0.92 case (Simple, Emergency) => 1.04
    case (Medium, Scheduled) => 1.0 case (Medium, Priority) => 1.15 case (Medium, Emergency) => 1.3
    case (Complex, Scheduled) => 1.6 case (Complex, Priority) => 1.84 case (Complex, Emergency) => 2.08
    case (Critical, Scheduled) => 2.2 case (Critical, Priority) => 2.53 case (Critical, Emergency) => 2.86
  }

  /** p is the greatest multiple of 5 000 not above raw, or 30 000 when that is higher. */
  ghost predicate IsLowerPrice(p: int, raw: real) {
    && p % 5_000 == 0 && 30_000 <= p && (p as real <= raw || p == 30_000)
    && forall k: int :: 5_000.0 * k as real <= raw ==> 5_000 * k <= p
  }

  /** p is the least multiple of 5 000 above `low` and not below raw. */
  ghost predicate IsUpperPrice(p: int, low: int, raw: real) {
    && p % 5_000 == 0 && low < p && raw <= p as real
    && forall k: int :: raw <= 5_000.0 * k as real && low < 5_000 * k ==> p <= 5_000 * k
  }

  /** The specification of a quote: both ends of the band, scaled and rounded, and the fee of the tier. */
  ghost predicate IsQuote(base: Band, c: Complexity, t: Tier, q: Quote) {
    && IsLowerPrice(q.priceMin, base.min as real * Factor(c, t))
    && IsUpperPrice(q.priceMax, q.priceMin, base.max as real * Factor(c, t))
    && q.platformFee == (match t case Scheduled => 0 case Priority => 15_000 case Emergency => 30_000)
  }

  lemma LowerPrice(raw: real)
    ensures IsLowerPrice(PriceMin(raw), raw)
  {
    PriceMinIsGreatest(raw, 0);
    forall k: int | 5_000.0 * k as real <= raw ensures 5_000 * k <= PriceMin(raw) {
      PriceMinIsGreatest(raw, k);
    }
  }

  lemma UpperPrice(rawMin: real, rawMax: real)
    ensures IsUpperPrice(PriceMax(rawMin, rawMax), PriceMin(rawMin), rawMax)
  {
    PriceMaxIsLeast(rawMin, rawMax, 0);
    forall k: int | rawMax <= 5_000.0 * k as real && PriceMin(rawMin) < 5_000 * k ensures PriceMax(rawMin, rawMax) <= 5_000 * k {
      PriceMaxIsLeast(rawMin, rawMax, k);
    }
  }

  lemma Scaled(x: real, c: Complexity, t: Tier)
    ensures x * ComplexityMultiplier(c) * TierMultiplier(t) == x * Factor(c, t)
  {
  }

  lemma IsMultiple(p: int)
    requires p % 5_000 == 0
    ensures p == 5_000 * (p / 5_000) && p as real == 5_000.0 * (p / 5_000) as real
  {
  }

  /** There is one lower and one upper price. */
  lemma PricesAreUnique(p: int, p': int, raw: real, q: int, q': int, raw': real)
    requires IsLowerPrice(p, raw) && IsLowerPrice(p', raw) && IsUpperPrice(q, p, raw') && IsUpperPrice(q', p', raw')
    ensures p == p' && q == q'
  {
    IsMultiple(p);
    IsMultiple(p');
    IsMultiple(q);
    IsMultiple(q');
  }

  lemma RangeMeets(lo: real, hi: real, fee: int, q: Quote)
    ensures q == QuoteOf(lo, hi, fee)
            <==> IsLowerPrice(q.priceMin, lo) && IsUpperPrice(q.priceMax, q.priceMin, hi) && q.platformFee == fee
  {
    LowerPrice(lo);
    UpperPrice(lo, hi);
    if IsLowerPrice(q.priceMin, lo) && IsUpperPrice(q.priceMax, q.priceMin, hi) {
      PricesAreUnique(q.priceMin, PriceMin(lo), lo, q.priceMax, PriceMax(lo, hi), hi);
    }
  }

  lemma QuoteIsOfRange(base: Band, c: Complexity, t: Tier)
    ensures ComputeQuote(base, c, t) == QuoteOf(base.min as real * Factor(c, t), base.max as real * Factor(c, t), PlatformFee(t))
  {
    Scaled(base.min as real, c, t);
    Scaled(base.max as real, c, t);
  }

  /** The quote of a band is the one the specification allows: nothing else is. */
  lemma QuoteMeetsBand(base: Band, c: Complexity, t: Tier, q: Quote)
    ensures q == ComputeQuote(base, c, t) <==> IsQuote(base, c, t, q)
  {
    QuoteIsOfRange(base, c, t);
    RangeMeets(base.min as real * Factor(c, t), base.max as real * Factor(c, t), PlatformFee(t), q);
  }

  /** A dearer raw range never lowers either end of the quote. */
  lemma RoundingIsMonotone(lo: real, lo': real, hi: real, hi': real)
    requires lo <= lo' && hi <= hi'
    ensures PriceMin(lo) <= PriceMin(lo') && PriceMax(lo, hi) <= PriceMax(lo', hi')
  {
    var f := (lo / (ROUND_TO as real)).Floor;
    StepsBelow(lo, f);
    StepsBelow(lo', f);
    var c := Ceil(hi' / (ROUND_TO as real));
    StepsAbove(hi', c);
    StepsAbove(hi, c);
  }

  predicate NoDearer(q: Quote, q': Quote) {
    q.priceMin <= q'.priceMin && q.priceMax <= q'.priceMax && q.platformFee <= q'.platformFee
  }

  lemma QuoteOfIsMonotone(lo: real, lo': real, hi: real, hi': real, fee: int, fee': int)
    requires lo <= lo' && hi <= hi' && fee <= fee'
    ensures NoDearer(QuoteOf(lo, hi, fee), QuoteOf(lo', hi', fee'))
  {
    RoundingIsMonotone(lo, lo', hi, hi');
  }

  lemma QuoteAtIsMonotone(min: real, min': real, max: real, max': real, a: real, a': real, b: real, b': real, fee: int, fee': int)
    requires 0.0 <= min <= min' && 0.0 <= max <= max' && 0.0 <= a <= a' && 0.0 <= b <= b' && fee <= fee'
    ensures NoDearer(QuoteAt(min, max, a, b, fee), QuoteAt(min', max', a', b', fee'))
  {
    ProductIsMonotone(min, min', a, a', b, b');
    ProductIsMonotone(max, max', a, a', b, b');
    QuoteOfIsMonotone(min * a * b, min' * a' * b', max * a * b, max' * a' * b', fee, fee');
  }

  lemma FeesFollowTiers(c: Complexity, t: Tier, t': Tier)
    requires TierMultiplier(t) <= TierMultiplier(t')
    ensures 0.0 <= ComplexityMultiplier(c) && 0.0 <= TierMultiplier(t) && PlatformFee(t) <= PlatformFee(t')
  {
  }

  /** A dearer band, a harder job or a faster tier never lowers a quote. */
  lemma QuoteIsMonotone(base: Band, base': Band, c: Complexity, c': Complexity, t: Tier, t': Tier)
    requires 0 <= base.min <= base'.min && 0 <= base.max <= base'.max
    requires ComplexityMultiplier(c) <= ComplexityMultiplier(c') && TierMultiplier(t) <= TierMultiplier(t')
    ensures NoDearer(ComputeQuote(base, c, t), ComputeQuote(base', c', t'))
  {
    FeesFollowTiers(c, t, t');
    QuoteAtIsMonotone(base.min as real, base'.min as real, base.max as real, base'.max as real,
                      ComplexityMultiplier(c), ComplexityMultiplier(c'), TierMultiplier(t), TierMultiplier(t'),
                      PlatformFee(t), PlatformFee(t'));
  }

  lemma ProductIsMonotone(x: real, x': real, a: real, a': real, b: real, b': real)
    requires 0.0 <= x <= x' && 0.0 <= a <= a' && 0.0 <= b <= b'
    ensures x * a * b <= x' * a' * b'
  {
    ScaledIsMonotone(x, a, a', b, b');
    NonNegative(a', b');
    assert x' * a' * b' - x * a' * b' == (x' - x) * (a' * b');
    NonNegative(x' - x, a' * b');
  }

  lemma NonNegative(x: real, y: real)
    requires 0.0 <= x && 0.0 <= y
    ensures 0.0 <= x * y
  {
  }

  lemma ScaledIsMonotone(x: real, a: real, a': real, b: real, b': real)
    requires 0.0 <= x && 0.0 <= a <= a' && 0.0 <= b <= b'
    ensures x * a * b <= x * a' * b'
  {
    assert x * a <= x * a' by { assert 0.0 <= x * (a' - a); }
    assert x * a * b <= x * a' * b by { assert 0.0 <= (x * a' - x * a) * b; }
    assert 0.0 <= x * a';
    assert x * a' * b <= x * a' * b' by { assert 0.0 <= x * a' * (b' - b); }
  }

  // ---- Settlement -----------------------------------------------------------------

  /** Round half up, as Math.round does. */
  function Round(x: real): int { (x + 0.5).Floor }

  /** Tax withheld from the master's gross at the configured rate. */
  function TaxOn(gross: int, rate: real): int {
    Round(gross as real * rate)
  }

  datatype Split = Split(amount: int, platformFee: int, taxAmount: int, masterNet: int)

  function SplitPayment(amount: int, platformFee: int, rate: real): Split {
    var gross := amount - platformFee;
    Split(amount, platformFee, TaxOn(gross, rate), gross - TaxOn(gross, rate))
  }

  /** What a split says of an amount: the fee as it is, the tax to the nearest so'm (halves up), the rest to the master. */
  predicate IsSplit(amount: int, fee: int, rate: real, s: Split) {
    && s.amount == amount && s.platformFee == fee
    && s.taxAmount as real - 0.5 <= (amount - fee) as real * rate < s.taxAmount as real + 0.5
    && s.masterNet == amount - fee - s.taxAmount
  }

  lemma RoundsTo(x: real, n: int)
    ensures n == Round(x) <==> n as real - 0.5 <= x < n as real + 0.5
  {
  }

  /** A payment is split in one way only. */
  lemma SplitIsExact(amount: int, fee: int, rate: real, s: Split)
    ensures s == SplitPayment(amount, fee, rate) <==> IsSplit(amount, fee, rate, s)
  {
    RoundsTo((amount - fee) as real * rate, s.taxAmount);
    RoundsTo((amount - fee) as real * rate, TaxOn(amount - fee, rate));
  }

  /** A split is sound when its parts are non-negative and add up to the amount. */
  predicate SoundSplit(s: Split) {
    && 0 <= s.platformFee && 0 <= s.taxAmount && 0 <= s.masterNet
    && s.amount == s.platformFee + s.taxAmount + s.masterNet
  }

  lemma FractionIsBetween(g: real, rate: real)
    requires 0.0 <= g && 0.0 <= rate <= 1.0
    ensures 0.0 <= g * rate <= g
  {
    assert 0.0 <= g * (1.0 - rate);
  }

  /** The tax is the exact product to within half a so'm, and never exceeds the gross it is taken from. */
  lemma TaxIsBounded(gross: int, rate: real)
    requires 0 <= gross && 0.0 <= rate <= 1.0
    ensures 0 <= TaxOn(gross, rate) <= gross
    ensures -0.5 <= TaxOn(gross, rate) as real - gross as real * rate <= 0.5
  {
    FractionIsBetween(gross as real, rate);
  }

  /** t is the share r of g, but for `slack`. */
  predicate IsShare(t: real, g: real, r: real, slack: real) {
    -slack <= t - g * r <= slack
  }

  /** The tax is the rate's share of the gross, to the nearest so'm. */
  predicate TaxFits(s: Split, rate: real) {
    IsShare(s.taxAmount as real, (s.amount - s.platformFee) as real, rate, 0.5)
  }

  /** The rate as its column holds it: four decimals, half up. */
  function RateColumn(rate: real): real {
    (rate * 10_000.0 + 0.5).Floor as real / 10_000.0
  }

  /** The recorded rate is the configured one exactly when that has no more than four decimals. */
  lemma RateIsKept(rate: real)
    ensures RateColumn(rate) == rate <==> (rate * 10_000.0).Floor as real == rate * 10_000.0
    ensures -0.00005 <= RateColumn(rate) - rate <= 0.00005
    ensures FourDecimals(RateColumn(rate))
  {
    HalfUp(rate * 10_000.0);
    var n := (rate * 10_000.0 + 0.5).Floor;
    FloorIs(RateColumn(rate) * 10_000.0, n);
  }

  predicate FourDecimals(rate: real) {
    (rate * 10_000.0).Floor as real == rate * 10_000.0
  }

  lemma FloorIs(z: real, n: int)
    requires n as real <= z < n as real + 1.0
    ensures z.Floor == n
  {
  }

  lemma HalfUp(z: real)
    ensures (z + 0.5).Floor as real == z <==> z.Floor as real == z
    ensures -0.5 <= (z + 0.5).Floor as real - z <= 0.5
  {
    if (z + 0.5).Floor as real == z { FloorIs(z, (z + 0.5).Floor); }
    if z.Floor as real == z { FloorIs(z + 0.5, z.Floor); }
  }

  /** The tax is the recorded rate's share, but for half a so'm and what the column's decimals lose. */
  predicate TaxNear(s: Split, recorded: real) {
    var gross := (s.amount - s.platformFee) as real;
    IsShare(s.taxAmount as real, gross, recorded, 0.5 + 0.00005 * gross)
  }

  lemma RecordedRateIsNear(s: Split, rate: real)
    requires TaxFits(s, rate) && s.platformFee <= s.amount
    ensures TaxNear(s, RateColumn(rate))
  {
    RateIsKept(rate);
    Near(s.taxAmount as real, (s.amount - s.platformFee) as real, rate, RateColumn(rate));
  }

  lemma Near(t: real, g: real, a: real, b: real)
    requires 0.0 <= g && -0.00005 <= b - a <= 0.00005 && IsShare(t, g, a, 0.5)
    ensures IsShare(t, g, b, 0.5 + 0.00005 * g)
  {
    NonNegative(g, b - a + 0.00005);
    NonNegative(g, 0.00005 - (b - a));
    assert g * (b - a + 0.00005) == g * b - g * a + 0.00005 * g;
    assert g * (0.00005 - (b - a)) == 0.00005 * g - g * b + g * a;
  }

  /** The money chain: an amount inside any quoted range splits soundly at every legal tax rate. */
  lemma QuotedAmountSplits(base: Band, c: Complexity, t: Tier, amount: int, rate: real)
    requires ComputeQuote(base, c, t).priceMin <= amount
    requires 0.0 <= rate <= 1.0
    ensures SoundSplit(SplitPayment(amount, ComputeQuote(base, c, t).platformFee, rate))
    ensures TaxFits(SplitPayment(amount, ComputeQuote(base, c, t).platformFee, rate), rate)
  {
    QuoteShape(base, c, t);
    TaxIsBounded(amount - ComputeQuote(base, c, t).platformFee, rate);
  }
}
