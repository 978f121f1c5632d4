/** Rates and fees of the asset-aware fee contract: time windows, bounds, and their validators. */
module FeeWindows {
  import opened Arithmetic
  import opened Base
  import opened FeeMath

  datatype Window = Window(start: U64, end: U64, rate: U32)

  datatype AssetConfig = AssetConfig(rate: U32, minFee: I128, maxFee: I128)

  predicate Covers(w: Window, now: U64) {
    w.start <= now <= w.end
  }

  /** The rate of the first window that covers the time. */
  function RateAt(windows: seq<Window>, default: U32, now: U64): U32 {
    if windows == [] then default
    else if Covers(windows[0], now) then windows[0].rate
    else RateAt(windows[1..], default, now)
  }

  method FindRate(windows: seq<Window>, default: U32, now: U64) returns (rate: U32)
    ensures rate == RateAt(windows, default, now)
  {
    rate := default;
    for i := 0 to |windows|
      invariant RateAt(windows, default, now) == RateAt(windows[i..], default, now)
    {
      if Covers(windows[i], now) {
        return windows[i].rate;
      }
    }
  }

  // ----- window validation -----

  predicate ValidWindow(w: Window) {
    w.start < w.end && w.rate <= BPS
  }

  predicate Disjoint(v: Window, w: Window) {
    v.end < w.start || w.end < v.start
  }

  ghost predicate ValidWindows(windows: seq<Window>) {
    && (forall w <- windows :: w.start < w.end && w.rate <= 10_000)
    && (forall i, j :: 0 <= i < j < |windows| ==>
          windows[i].end < windows[j].start || windows[j].end < windows[i].start)
  }

  /** The nested loops accept exactly the lists of valid, pairwise disjoint windows. */
  method ValidateFeeWindows(windows: seq<Window>) returns (ok: bool)
    ensures ok <==> ValidWindows(windows)
  {
    for i := 0 to |windows|
      invariant forall k :: 0 <= k < i ==> ValidWindow(windows[k])
    {
      if !ValidWindow(windows[i]) {
        return false;
      }
    }
    for i := 0 to |windows|
      invariant forall k, j :: 0 <= k < i && k < j < |windows| ==> Disjoint(windows[k], windows[j])
    {
      for j := i + 1 to |windows|
        invariant forall k :: i < k < j ==> Disjoint(windows[i], windows[k])
      {
        if !(windows[i].end < windows[j].start || windows[j].end < windows[i].start) {
          return false;
        }
      }
    }
    return true;
  }

  lemma {:induction false} RateIsFromSomeWindow(windows: seq<Window>, default: U32, now: U64)
    ensures (exists w <- windows :: Covers(w, now) && RateAt(windows, default, now) == w.rate) ||
            ((forall w <- windows :: !Covers(w, now)) && RateAt(windows, default, now) == default)
  {
    if windows != [] && !Covers(windows[0], now) {
      RateIsFromSomeWindow(windows[1..], default, now);
      if w :| w in windows[1..] && Covers(w, now) && RateAt(windows[1..], default, now) == w.rate {
        assert w in windows;
      } else {
        forall w <- windows
          ensures !Covers(w, now)
        {
          assert w == windows[0] || w in windows[1..];
        }
      }
    }
  }

  /** At most one window of an accepted list covers a time. */
  lemma CoverUnique(windows: seq<Window>, v: Window, w: Window, now: U64)
    requires ValidWindows(windows) && v in windows && w in windows && Covers(v, now) && Covers(w, now)
    ensures v == w
  {
    var i :| 0 <= i < |windows| && windows[i] == v;
    var j :| 0 <= j < |windows| && windows[j] == w;
  }

  /** Every reordering of an accepted list charges the same rate at every time. */
  lemma OrderIrrelevant(windows: seq<Window>, reordered: seq<Window>, default: U32, now: U64)
    requires ValidWindows(windows) && multiset(windows) == multiset(reordered)
    ensures RateAt(windows, default, now) == RateAt(reordered, default, now)
  {
    RateIsFromSomeWindow(windows, default, now);
    RateIsFromSomeWindow(reordered, default, now);
    forall w: Window
      ensures w in windows <==> w in reordered
    {
      assert w in windows <==> w in multiset(windows);
      assert w in reordered <==> w in multiset(reordered);
    }
    if w :| w in windows && Covers(w, now) && RateAt(windows, default, now) == w.rate {
      var v :| v in reordered && Covers(v, now) && RateAt(reordered, default, now) == v.rate;
      CoverUnique(windows, v, w, now);
    }
  }

  // ----- fees -----

  datatype Rates = Rates(defaultRate: U32, windows: seq<Window>, multipliers: Multipliers)

  function DefaultRate(r: Rates, p: Priority, now: U64): U32 {
    AdjustedRate(RateAt(r.windows, r.defaultRate, now), Multiplier(r.multipliers, p))
  }

  /** Window i is the first whose bounds enclose the time; one past the end if none does. */
  predicate IsFirstAt(i: int, windows: seq<Window>, now: U64) {
    && 0 <= i <= |windows| && (i < |windows| ==> windows[i].start <= now <= windows[i].end)
    && forall j :: 0 <= j < i ==> !(windows[j].start <= now <= windows[j].end)
  }

  /** The rate of that window, or the default rate. */
  ghost predicate IsRateAt(rate: int, windows: seq<Window>, default: U32, now: U64) {
    exists i :: IsFirstAt(i, windows, now) && rate == if i < |windows| then windows[i].rate else default
  }

  lemma {:induction false} RateFromFirst(i: int, windows: seq<Window>, default: U32, now: U64)
    requires IsFirstAt(i, windows, now)
    ensures RateAt(windows, default, now) == if i < |windows| then windows[i].rate else default
  {
    if i > 0 {
      RateFromFirst(i - 1, windows[1..], default, now);
    }
  }

  lemma {:induction false} FirstExists(windows: seq<Window>, now: U64) returns (i: int)
    ensures IsFirstAt(i, windows, now)
  {
    if windows == [] || Covers(windows[0], now) {
      i := 0;
    } else {
      var k := FirstExists(windows[1..], now);
      i := k + 1;
    }
  }

  lemma RateAtExactly(rate: int, windows: seq<Window>, default: U32, now: U64)
    ensures IsRateAt(rate, windows, default, now) <==> rate == RateAt(windows, default, now)
  {
    var i := FirstExists(windows, now);
    RateFromFirst(i, windows, default, now);
    forall k | IsFirstAt(k, windows, now)
      ensures k == i
    {
    }
  }

  /** The rate after the priority's own multiplier, cut to 32 bits. */
  predicate IsAdjusted(a: int, rate: int, m: Multipliers, p: Priority) {
    var multiplier := match p case Low => m.low case Medium => m.medium case High => m.high case Urgent => m.urgent;
    a == rate * multiplier / 10_000 % 0x1_0000_0000
  }

  /** u is the whole part of the amount's share at a rate. */
  predicate IsShare(u: int, amount: int, a: int) {
    10_000 * u <= amount * a < 10_000 * (u + 1)
  }

  lemma AdjustedExactly(a: int, rate: U32, m: Multipliers, p: Priority)
    ensures IsAdjusted(a, rate, m, p) <==> a == AdjustedRate(rate, Multiplier(m, p))
    ensures rate <= BPS ==> (IsAdjusted(a, rate, m, p) <==> IsPriorityRate(a, rate, m, p))
  {
    RateNotTruncated(rate, Multiplier(m, p));
  }

  lemma ShareExactly(u: int, amount: I128, a: U32)
    requires amount > 0 && IsShare(u, amount, a)
    ensures RateFee(amount, a) == if amount * a <= I128_MAX then Some(u) else None
    ensures u >= 0
  {
    MulNonNegative(amount, a);
  }

  /** With accepted windows the rate charged is that of whichever window encloses the time, and the default rate exactly when
      none does, at the multiplier of the priority. */
  lemma WindowDecides(r: Rates, w: Window, p: Priority, now: U64)
    requires ValidWindows(r.windows)
    ensures w in r.windows && w.start <= now <= w.end ==> IsPriorityRate(DefaultRate(r, p, now), w.rate, r.multipliers, p)
    ensures (forall v <- r.windows :: !(v.start <= now <= v.end)) ==>
              IsAdjusted(DefaultRate(r, p, now), r.defaultRate, r.multipliers, p)
  {
    RateIsFromSomeWindow(r.windows, r.defaultRate, now);
    AdjustedExactly(DefaultRate(r, p, now), RateAt(r.windows, r.defaultRate, now), r.multipliers, p);
    if w in r.windows && Covers(w, now) {
      var v :| v in r.windows && Covers(v, now) && RateAt(r.windows, r.defaultRate, now) == v.rate;
      CoverUnique(r.windows, v, w, now);
    }
  }

  /** amount * rate / 10_000 with the product trapped at i128; zero for a non-positive amount. */
  function RateFee(amount: I128, rate: U32): Option<I128> {
    if amount <= 0 then Some(0)
    else
      MulNonNegative(amount, rate);
      if amount * rate > I128_MAX then None else Some(amount * rate / BPS)
  }

  /** The bounds of an asset apply only where they are positive. */
  function Bounded(fee: int, c: AssetConfig): int {
    var atLeast := if c.minFee > 0 && fee < c.minFee then c.minFee else fee;
    if c.maxFee > 0 && atLeast > c.maxFee then c.maxFee else atLeast
  }

  function AssetRateFee(amount: I128, c: AssetConfig, m: Multipliers, p: Priority): (r: Option<I128>)
    ensures r.Some? ==> r.value >= 0
  {
    if amount <= 0 then Some(0)
    else
      var f := RateFee(amount, AdjustedRate(c.rate, Multiplier(m, p)));
      RateFeeNonNegative(amount, AdjustedRate(c.rate, Multiplier(m, p)));
      if f.None? then None else Some(Bounded(f.value, c))
  }

  /** The calculations answer zero for a non-positive amount, whatever the bounds. */
  lemma NothingForNothing(amount: I128, rate: U32, c: AssetConfig, m: Multipliers, p: Priority)
    requires amount <= 0
    ensures RateFee(amount, rate) == AssetRateFee(amount, c, m, p) == Some(0)
  {
  }

  lemma RateFeeNonNegative(amount: I128, rate: U32)
    ensures RateFee(amount, rate).Some? ==> RateFee(amount, rate).value >= 0
  {
    if amount > 0 {
      MulNonNegative(amount, rate);
    }
  }

  /** A rate fee stays within the amount exactly while its surplus over 100% is worth less than one unit. */
  lemma RateFeeWithinAmount(amount: I128, rate: U32)
    requires amount > 0 && RateFee(amount, rate).Some?
    ensures RateFee(amount, rate).value <= amount <==> amount * (rate - BPS) < BPS
  {
    assert amount * (rate - BPS) == amount * rate - amount * BPS;
  }

  // ----- the deterministic-calculation check -----

  const U64_RANGE: int := U64_MAX + 1

  /** The check multiplies the amount cut to 64 bits, the calculation multiplies the amount itself. */
  predicate ValidateFeeCalculation(amount: I128, rate: U32, multiplier: U32) {
    && amount > 0 && rate <= BPS && multiplier != 0
    && rate * multiplier <= U64_MAX && rate * multiplier / BPS <= U32_MAX
    && var adjusted := AdjustedRate(rate, multiplier);
       (amount % U64_RANGE) * adjusted <= U64_MAX && (amount % U64_RANGE) * adjusted / BPS <= amount
  }

  /** For every input: up to 64 bits a positive amount at a rate up to 100% and a positive multiplier is accepted exactly when
      the product fits u64 and the fee is at most the amount; beyond, the fee is not looked at, and all that decides is the
      product of the low bits. */
  lemma ValidationExactly(amount: I128, rate: U32, multiplier: U32)
    ensures var a := rate * multiplier / 10_000;
      ValidateFeeCalculation(amount, rate, multiplier) <==>
        && amount > 0 && rate <= 10_000 && multiplier > 0
        && if amount <= U64_MAX then amount * a <= U64_MAX && amount * a / 10_000 <= amount
           else amount % 0x1_0000_0000_0000_0000 * a <= U64_MAX
    ensures 0 < amount <= U64_MAX && rate <= BPS && multiplier != 0 ==>
              var f := RateFee(amount, AdjustedRate(rate, multiplier));
              && AdjustedRate(rate, multiplier) == rate * multiplier / 10_000 && f.Some?
              && (f.value <= amount <==> amount * (AdjustedRate(rate, multiplier) - BPS) < BPS)
  {
    if 0 < amount && rate <= BPS && multiplier > 0 {
      var a := AdjustedRate(rate, multiplier);
      RateNotTruncated(rate, multiplier);
      MulMonotone(rate, BPS, multiplier, U32_MAX);
      MulMonotone(amount % U64_RANGE, U64_MAX, a, U32_MAX);
      MulNonNegative(amount % U64_RANGE, a);
      if amount <= U64_MAX {
        RateFeeWithinAmount(amount, a);
      }
    }
  }

  /** What an accepted calculation is meant to guarantee: it does not overflow, and charges at most the amount. */
  predicate KeepsPromise(amount: I128, adjusted: U32) {
    var f := RateFee(amount, adjusted);
    f.Some? && f.value <= amount
  }

  /** When an accepted calculation overflows, when its fee is within the amount, and so when it keeps its promise; it always
      does up to 64 bits. */
  lemma AcceptedExactly(amount: I128, rate: U32, multiplier: U32)
    requires ValidateFeeCalculation(amount, rate, multiplier)
    ensures var a := AdjustedRate(rate, multiplier);
      && (RateFee(amount, a).Some? <==> a == 0 || amount <= I128_MAX / a)
      && (RateFee(amount, a).Some? ==> (RateFee(amount, a).value <= amount <==> amount * (a - BPS) < BPS))
      && (KeepsPromise(amount, a) <==> (a == 0 || amount <= I128_MAX / a) && amount * (a - BPS) < BPS)
      && (amount <= U64_MAX ==> KeepsPromise(amount, a))
  {
    var a := AdjustedRate(rate, multiplier);
    MulNonNegative(amount, a);
    if a > 0 {
      ProductWithin(amount, a, I128_MAX);
    }
    if RateFee(amount, a).Some? {
      RateFeeWithinAmount(amount, a);
    }
    ValidationExactly(amount, rate, multiplier);
  }

  const TWO_POW_64: int := 0x1_0000_0000_0000_0000
  const TWO_POW_126: int := 0x4000_0000_0000_0000_0000_0000_0000_0000

  /** Per configuration, no accepted calculation overflows exactly for adjusted rates of at most one basis point: at 2^126 the
      check sees an amount of zero. */
  lemma NeverOverflowsExactly(rate: U32, multiplier: U32)
    requires rate <= BPS && multiplier != 0
    ensures (forall amount: I128 :: ValidateFeeCalculation(amount, rate, multiplier) ==>
                                      RateFee(amount, AdjustedRate(rate, multiplier)).Some?)
            <==> AdjustedRate(rate, multiplier) <= 1
  {
    var a := AdjustedRate(rate, multiplier);
    if a <= 1 {
      forall amount: I128 | ValidateFeeCalculation(amount, rate, multiplier)
        ensures RateFee(amount, a).Some?
      {
        AcceptedExactly(amount, rate, multiplier);
      }
    } else {
      ValidationExactly(TWO_POW_126, rate, multiplier);
      assert ValidateFeeCalculation(TWO_POW_126, rate, multiplier);
      MulMonotone(TWO_POW_126, TWO_POW_126, 2, a);
      assert RateFee(TWO_POW_126, a).None?;
    }
  }

  /** Per configuration, no accepted calculation charges more than the amount exactly for adjusted rates up to 100%: at 2^64
      the check sees an amount of zero there too. */
  lemma NeverAboveAmountExactly(rate: U32, multiplier: U32)
    requires rate <= BPS && multiplier != 0
    ensures (forall amount: I128 :: ChargesWithin(amount, rate, multiplier)) <==> AdjustedRate(rate, multiplier) <= BPS
  {
    var a := AdjustedRate(rate, multiplier);
    if a <= BPS {
      forall amount: I128
        ensures ChargesWithin(amount, rate, multiplier)
      {
        if ValidateFeeCalculation(amount, rate, multiplier) && RateFee(amount, a).Some? {
          AcceptedExactly(amount, rate, multiplier);
          MulNonNegative(amount, BPS - a);
          assert amount * (BPS - a) == -(amount * (a - BPS));
        }
      }
    } else {
      ValidationExactly(TWO_POW_64, rate, multiplier);
      assert ValidateFeeCalculation(TWO_POW_64, rate, multiplier);
      assert RateFee(TWO_POW_64, a).value > TWO_POW_64;
      assert !ChargesWithin(TWO_POW_64, rate, multiplier);
    }
  }

  predicate ChargesWithin(amount: I128, rate: U32, multiplier: U32) {
    var f := RateFee(amount, AdjustedRate(rate, multiplier));
    ValidateFeeCalculation(amount, rate, multiplier) && f.Some? ==> f.value <= amount
  }

  /** Two accepted calculations that break the promise: at 2^126 and 100% the product overflows, and at 2^64 and 200% the fee
      is twice the amount. */
  lemma ValidationMissesOverflow()
    ensures ValidateFeeCalculation(TWO_POW_126, BPS, BPS)
    ensures RateFee(TWO_POW_126, AdjustedRate(BPS, BPS)) == None
    ensures ValidateFeeCalculation(TWO_POW_64, BPS, 20_000)
    ensures RateFee(TWO_POW_64, AdjustedRate(BPS, 20_000)) == Some(2 * TWO_POW_64)
  {
  }
}
