/** Fee arithmetic of the main fee contract: rates, rounding, clamping and splitting. */
module FeeMath {
  import opened Arithmetic
  import opened Base

  const BPS: int := 10_000

  datatype RoundingMode = Floor | Round | Ceiling

  datatype Priority = Low | Medium | High | Urgent

  datatype Multipliers = Multipliers(low: U32, medium: U32, high: U32, urgent: U32)

  function Multiplier(m: Multipliers, p: Priority): U32 {
    match p
    case Low => m.low
    case Medium => m.medium
    case High => m.high
    case Urgent => m.urgent
  }

  function Rank(p: Priority): nat {
    match p
    case Low => 0
    case Medium => 1
    case High => 2
    case Urgent => 3
  }

  predicate Ascending(m: Multipliers) {
    m.low <= m.medium <= m.high <= m.urgent
  }

  /** The rate of a priority level. The final cast to u32 would drop high bits. */
  function AdjustedRate(base: U32, multiplier: U32): U32 {
    (base * multiplier / BPS) % (U32_MAX + 1)
  }

  datatype Schedule = Schedule(rounding: RoundingMode, minFee: I128, maxFee: I128)

  predicate ValidBounds(s: Schedule) {
    0 <= s.minFee <= s.maxFee
  }

  function Rounded(raw: nat, mode: RoundingMode): nat {
    match mode
    case Floor => raw / BPS
    case Round => (raw + 5_000) / BPS
    case Ceiling => if raw % BPS == 0 then raw / BPS else raw / BPS + 1
  }

  function Clamped(fee: int, s: Schedule): int {
    if fee < s.minFee then s.minFee else if fee > s.maxFee then s.maxFee else fee
  }

  datatype FeeError = InvalidAmount | FeeOverflow

  /** The fee of an amount at a rate; the product, and the half added before rounding, are checked i128 operations. */
  function Fee(amount: I128, rate: U32, s: Schedule): Result<I128, FeeError> {
    if amount <= 0 then Abort(InvalidAmount)
    else
      MulNonNegative(amount, rate);
      var raw := amount * rate;
      if raw > I128_MAX || (s.rounding == Round && raw + 5_000 > I128_MAX) then Abort(FeeOverflow)
      else Ok(Clamped(Rounded(raw, s.rounding), s))
  }

  // ----- rates -----

  /** The quotient fits u32, so the cast drops nothing. */
  predicate RateFits(base: U32, multiplier: U32) {
    base * multiplier / BPS <= U32_MAX
  }

  /** The adjusted rate is the quotient exactly when that fits u32, and otherwise less; rates up to 100% always fit. */
  lemma RateNotTruncated(base: U32, multiplier: U32)
    ensures AdjustedRate(base, multiplier) == base * multiplier / BPS <==> RateFits(base, multiplier)
    ensures AdjustedRate(base, multiplier) <= base * multiplier / BPS
    ensures base <= BPS ==> RateFits(base, multiplier) && base * multiplier / BPS <= multiplier
  {
    MulNonNegative(base, multiplier);
    if base <= BPS {
      MulMonotone(base, BPS, multiplier, multiplier);
    }
  }

  /** Rates grow with the priority as long as the higher one fits. */
  lemma RateMonotone(base: U32, m: Multipliers, p: Priority, q: Priority)
    requires RateFits(base, Multiplier(m, q)) && Ascending(m) && Rank(p) <= Rank(q)
    ensures AdjustedRate(base, Multiplier(m, p)) <= AdjustedRate(base, Multiplier(m, q))
  {
    RateNotTruncated(base, Multiplier(m, p));
    RateNotTruncated(base, Multiplier(m, q));
    MulMonotone(base, base, Multiplier(m, p), Multiplier(m, q));
    DivMonotone(base * Multiplier(m, p), base * Multiplier(m, q), BPS);
  }

  /** A rate above 100% can be cut to nothing: at 200% with an urgent multiplier of 2^31 the urgent rate is zero. */
  lemma UrgentCutToZero()
    ensures var m := Multipliers(BPS, BPS, BPS, 0x8000_0000);
      && Ascending(m) && !RateFits(20_000, m.urgent)
      && AdjustedRate(20_000, Multiplier(m, Urgent)) == 0 < AdjustedRate(20_000, Multiplier(m, Low))
  {
  }

  /** A smaller amount at a lower priority is never charged more, and is charged whenever the larger one is. */
  lemma FeeMonotone(a: I128, b: I128, base: U32, m: Multipliers, p: Priority, q: Priority, s: Schedule)
    requires 0 < a <= b && RateFits(base, Multiplier(m, q)) && Ascending(m) && Rank(p) <= Rank(q) && ValidBounds(s)
    requires Fee(b, AdjustedRate(base, Multiplier(m, q)), s).Ok?
    ensures var low, high := Fee(a, AdjustedRate(base, Multiplier(m, p)), s), Fee(b, AdjustedRate(base, Multiplier(m, q)), s);
      low.Ok? && s.minFee <= low.value <= high.value <= s.maxFee
  {
    RateMonotone(base, m, p, q);
    var r, t := AdjustedRate(base, Multiplier(m, p)), AdjustedRate(base, Multiplier(m, q));
    MulMonotone(a, b, r, t);
    MulNonNegative(a, r);
    RoundedMonotone(a * r, b * t, s.rounding);
  }

  lemma RoundedMonotone(x: nat, y: nat, mode: RoundingMode)
    requires x <= y
    ensures Rounded(x, mode) <= Rounded(y, mode)
  {
  }

  /** The largest amount whose fee can be computed at a positive rate; rounding to nearest adds a half before dividing. */
  function LargestAmount(rate: U32, mode: RoundingMode): int
    requires rate > 0
  {
    (I128_MAX - (if mode == Round then 5_000 else 0)) / rate
  }

  /** A fee is computed exactly for the amounts from one to that largest one, and never traps at rate zero. */
  lemma FeeComputedExactly(amount: I128, rate: U32, s: Schedule)
    ensures Fee(amount, rate, s).Ok? <==> 0 < amount && (rate > 0 ==> amount <= LargestAmount(rate, s.rounding))
    ensures Fee(amount, rate, s) == Abort(InvalidAmount) <==> amount <= 0
  {
    if amount > 0 && rate > 0 {
      MulNonNegative(amount, rate);
      ProductWithin(amount, rate, I128_MAX - if s.rounding == Round then 5_000 else 0);
    }
  }

  // ----- what a fee is, in plain terms -----

  /** u is x / 10_000: rounded down, to the nearest with halves up, or up. */
  predicate RoundsTo(x: int, mode: RoundingMode, u: int) {
    match mode
    case Floor => 10_000 * u <= x < 10_000 * (u + 1)
    case Round => 10_000 * u - 5_000 <= x < 10_000 * u + 5_000
    case Ceiling => 10_000 * (u - 1) < x <= 10_000 * u
  }

  /** The rate of a priority is the base rate times that priority's own multiplier over 10_000. */
  predicate IsPriorityRate(rate: int, base: int, m: Multipliers, p: Priority) {
    var multiplier := match p case Low => m.low case Medium => m.medium case High => m.high case Urgent => m.urgent;
    10_000 * rate <= base * multiplier < 10_000 * (rate + 1)
  }

  /** The fee is the rounded share u of the amount, cut to the bounds. */
  predicate IsFee(fee: int, amount: int, rate: int, s: Schedule, u: int) {
    && RoundsTo(amount * rate, s.rounding, u)
    && fee == (if u < s.minFee then s.minFee else if u > s.maxFee then s.maxFee else u)
  }

  lemma FeeIsRounded(amount: I128, rate: U32, s: Schedule) returns (u: int)
    requires Fee(amount, rate, s).Ok?
    ensures IsFee(Fee(amount, rate, s).value, amount, rate, s, u)
  {
    MulNonNegative(amount, rate);
    u := Rounded(amount * rate, s.rounding);
    RoundedExactly(amount * rate, s.rounding);
  }

  lemma RoundedExactly(raw: nat, mode: RoundingMode)
    ensures RoundsTo(raw, mode, Rounded(raw, mode))
  {
  }

  lemma PriorityRateExactly(base: U32, m: Multipliers, p: Priority)
    requires base <= BPS
    ensures IsPriorityRate(AdjustedRate(base, Multiplier(m, p)), base, m, p)
  {
    RateNotTruncated(base, Multiplier(m, p));
  }

  // ----- splitting -----

  function Total(parts: seq<int>): int {
    if parts == [] then 0 else Total(parts[..|parts| - 1]) + parts[|parts| - 1]
  }

  predicate Positive(parts: seq<int>) {
    forall i :: 0 <= i < |parts| ==> 0 < parts[i]
  }

  /** The fees of the parts, before clamping. */
  function SplitFees(parts: seq<int>, rate: nat, mode: RoundingMode): int
    requires Positive(parts)
  {
    if parts == [] then 0
    else
      MulNonNegative(parts[|parts| - 1], rate);
      SplitFees(parts[..|parts| - 1], rate, mode) + Rounded(parts[|parts| - 1] * rate, mode)
  }

  /** How far rounding may move 10_000 times a fee below or above the exact product. */
  function Down(mode: RoundingMode): int {
    match mode case Floor => 9_999 case Round => 4_999 case Ceiling => 0
  }

  function Up(mode: RoundingMode): int {
    match mode case Floor => 0 case Round => 5_000 case Ceiling => 9_999
  }

  lemma RoundingError(raw: nat, mode: RoundingMode)
    ensures raw - Down(mode) <= BPS * Rounded(raw, mode) <= raw + Up(mode)
  {
  }

  lemma {:induction false} SplitError(parts: seq<int>, rate: nat, mode: RoundingMode)
    requires Positive(parts)
    ensures Total(parts) >= |parts|
    ensures Total(parts) * rate - |parts| * Down(mode)
              <= BPS * SplitFees(parts, rate, mode)
              <= Total(parts) * rate + |parts| * Up(mode)
  {
    if parts != [] {
      var init, last := parts[..|parts| - 1], parts[|parts| - 1];
      SplitError(init, rate, mode);
      MulNonNegative(last, rate);
      RoundingError(last * rate, mode);
      MulDistributes(Total(init), last, rate);
      MulDistributes(|init|, 1, Down(mode));
      MulDistributes(|init|, 1, Up(mode));
    }
  }

  /** Paying an amount in n parts instead of at once: never dearer and at most n - 1 cheaper under Floor, the reverse
      under Ceiling, and at most n / 2 away either way under Round. */
  lemma SplittingBound(parts: seq<int>, rate: nat, mode: RoundingMode)
    requires Positive(parts) && parts != []
    ensures Total(parts) * rate >= 0
    ensures var whole, split, n := Rounded(Total(parts) * rate, mode), SplitFees(parts, rate, mode), |parts|;
      match mode
      case Floor => whole - (n - 1) <= split <= whole
      case Ceiling => whole <= split <= whole + (n - 1)
      case Round => whole - n / 2 <= split <= whole + n / 2
  {
    SplitError(parts, rate, mode);
    MulNonNegative(Total(parts), rate);
    RoundingError(Total(parts) * rate, mode);
  }
}
