/** The asset-aware fee contract: five deduction paths over per-asset, per-user and global ledgers. */
module AssetFees {
  import opened Arithmetic
  import opened Base
  import opened MapSums
  import opened FeeMath
  import opened FeeWindows

  datatype UserAsset = UserAsset(user: Address, asset: Address)

  datatype Settings = Settings(rates: Rates, minFee: I128, maxFee: I128, assets: map<Address, AssetConfig>)

  datatype Error = Unauthorized | BadAmount | Overflow | InvalidSettings

  datatype State = State(
    admin: Address,
    settings: Settings,
    total: I128,
    userAccrued: map<Address, I128>,
    assetCollected: map<Address, I128>,
    userAsset: map<UserAsset, I128>)

  datatype Status = Success | FallbackUsed

  datatype Charge = Charge(net: I128, fee: I128)

  datatype Reply = Charged(charge: Charge, status: Status) | Batched(charges: seq<Charge>, totalFees: I128) | Done

  datatype Tx = Tx(payer: Address, asset: Address, amount: I128, priority: Priority)

  datatype Op =
    | Deduct(payer: Address, amount: I128, priority: Priority)
    | DeductWithFallback(payer: Address, amount: I128, priority: Priority)
    | DeductAsset(tx: Tx)
    | DeductAssetWithFallback(tx: Tx)
    | DeductBatch(txs: seq<Tx>)
    | Configure(caller: Address, settings: Settings)

  datatype Event = Event(now: U64, op: Op)

  predicate ValidSettings(s: Settings) {
    && s.rates.defaultRate <= BPS && 0 < s.rates.multipliers.low && Ascending(s.rates.multipliers)
    && 0 <= s.minFee <= s.maxFee
    && forall a <- s.assets.Keys :: s.assets[a].rate <= BPS && 0 <= s.assets[a].minFee <= s.assets[a].maxFee
  }

  // ----- fees -----

  function DefaultFee(s: Settings, now: U64, amount: I128, p: Priority): Option<I128> {
    RateFee(amount, DefaultRate(s.rates, p, now))
  }

  function ClampedFee(s: Settings, fee: I128): I128 {
    var atLeast := if fee < s.minFee then s.minFee else fee;
    if atLeast > s.maxFee then s.maxFee else atLeast
  }

  /** The asset's own rate and bounds when configured, the default rate otherwise. */
  function AssetFee(s: Settings, now: U64, tx: Tx): Option<I128> {
    if tx.asset in s.assets then AssetRateFee(tx.amount, s.assets[tx.asset], s.rates.multipliers, tx.priority)
    else DefaultFee(s, now, tx.amount, tx.priority)
  }

  lemma AssetFeeNonNegative(s: Settings, now: U64, tx: Tx)
    ensures AssetFee(s, now, tx).Some? ==> AssetFee(s, now, tx).value >= 0
  {
    RateFeeNonNegative(tx.amount, DefaultRate(s.rates, tx.priority, now));
  }

  /** The rate an asset is charged at before the priority multiplier. */
  function RateInForce(s: Settings, now: U64, asset: Address): U32 {
    if asset in s.assets then s.assets[asset].rate else RateAt(s.rates.windows, s.rates.defaultRate, now)
  }

  /** A smaller amount of the same asset at a lower priority is never charged more, and is charged whenever the larger one
      is, as long as the adjusted rate fits u32, as a configured asset's always does; a fee stays within the asset's positive
      bounds. */
  lemma AssetFeeMonotone(s: Settings, now: U64, low: Tx, high: Tx)
    requires ValidSettings(s) && low.asset == high.asset && 0 < low.amount <= high.amount
    requires Rank(low.priority) <= Rank(high.priority) && AssetFee(s, now, high).Some?
    requires low.asset in s.assets ||
             RateFits(RateInForce(s, now, low.asset), Multiplier(s.rates.multipliers, high.priority))
    ensures AssetFee(s, now, low).Some? && AssetFee(s, now, low).value <= AssetFee(s, now, high).value
    ensures low.asset in s.assets && 0 < s.assets[low.asset].maxFee ==>
              s.assets[low.asset].minFee <= AssetFee(s, now, low).value <= s.assets[low.asset].maxFee
  {
    var base := RateInForce(s, now, low.asset);
    var r := AdjustedRate(base, Multiplier(s.rates.multipliers, low.priority));
    var t := AdjustedRate(base, Multiplier(s.rates.multipliers, high.priority));
    RateNotTruncated(base, Multiplier(s.rates.multipliers, high.priority));
    RateMonotone(base, s.rates.multipliers, low.priority, high.priority);
    MulMonotone(low.amount, high.amount, r, t);
    RateFeeNonNegative(low.amount, r);
    DivMonotone(low.amount * r, high.amount * t, BPS);
  }

  // ----- booking -----

  predicate UserFits(s: State, payer: Address, fee: I128) {
    FitsI128(s.total + fee) && FitsI128(Get(s.userAccrued, payer) + fee)
  }

  function UserBooked(s: State, payer: Address, fee: I128): State
    requires UserFits(s, payer, fee)
  {
    s.(total := s.total + fee, userAccrued := s.userAccrued[payer := Get(s.userAccrued, payer) + fee])
  }

  predicate AssetFits(s: State, k: UserAsset, fee: I128) {
    FitsI128(s.total + fee) && FitsI128(Get(s.assetCollected, k.asset) + fee) && FitsI128(Get(s.userAsset, k) + fee)
  }

  function AssetBooked(s: State, k: UserAsset, fee: I128): State
    requires AssetFits(s, k, fee)
  {
    s.(total := s.total + fee,
       assetCollected := s.assetCollected[k.asset := Get(s.assetCollected, k.asset) + fee],
       userAsset := s.userAsset[k := Get(s.userAsset, k) + fee])
  }

  function BookUser(s: State, payer: Address, amount: I128, fee: I128, status: Status): (State, Result<Reply, Error>) {
    if !FitsI128(amount - fee) || !UserFits(s, payer, fee) then (s, Abort(Overflow))
    else (UserBooked(s, payer, fee), Ok(Charged(Charge(amount - fee, fee), status)))
  }

  function BookAsset(s: State, tx: Tx, fee: I128, status: Status): (State, Result<Reply, Error>) {
    var k := UserAsset(tx.payer, tx.asset);
    if !FitsI128(tx.amount - fee) || !AssetFits(s, k, fee) then (s, Abort(Overflow))
    else (AssetBooked(s, k, fee), Ok(Charged(Charge(tx.amount - fee, fee), status)))
  }

  // ----- the single deductions -----

  function DeductStep(s: State, now: U64, payer: Address, amount: I128, p: Priority): (State, Result<Reply, Error>) {
    if amount <= 0 then (s, Abort(BadAmount))
    else
      var f := DefaultFee(s.settings, now, amount, p);
      if f.None? then (s, Abort(Overflow)) else BookUser(s, payer, amount, ClampedFee(s.settings, f.value), Success)
  }

  /** A fee above the amount is replaced by the minimum fee, itself capped at the amount. */
  function FallbackStep(s: State, now: U64, payer: Address, amount: I128, p: Priority): (State, Result<Reply, Error>) {
    if amount <= 0 then (s, Abort(BadAmount))
    else
      var f := DefaultFee(s.settings, now, amount, p);
      if f.None? then (s, Abort(Overflow))
      else if ClampedFee(s.settings, f.value) <= amount then
        BookUser(s, payer, amount, ClampedFee(s.settings, f.value), Success)
      else
        BookUser(s, payer, amount, if s.settings.minFee < amount then s.settings.minFee else amount, FallbackUsed)
  }

  function AssetStep(s: State, now: U64, tx: Tx): (State, Result<Reply, Error>) {
    if tx.amount <= 0 then (s, Abort(BadAmount))
    else
      var f := AssetFee(s.settings, now, tx);
      if f.None? then (s, Abort(Overflow)) else BookAsset(s, tx, f.value, Success)
  }

  predicate UsesAssetFee(s: Settings, tx: Tx) {
    tx.asset in s.assets &&
    var f := AssetRateFee(tx.amount, s.assets[tx.asset], s.rates.multipliers, tx.priority);
    f.Some? && f.value <= tx.amount
  }

  /** Without an asset fee that fits the amount, the default rate is charged. */
  function AssetFallbackStep(s: State, now: U64, tx: Tx): (State, Result<Reply, Error>) {
    if tx.amount <= 0 then (s, Abort(BadAmount))
    else if tx.asset in s.settings.assets && AssetFee(s.settings, now, tx).None? then (s, Abort(Overflow))
    else if UsesAssetFee(s.settings, tx) then BookAsset(s, tx, AssetFee(s.settings, now, tx).value, Success)
    else
      var f := DefaultFee(s.settings, now, tx.amount, tx.priority);
      if f.None? then (s, Abort(Overflow)) else BookAsset(s, tx, f.value, FallbackUsed)
  }

  /** A plain deduction charges within the configured bounds, never less for a larger amount at a higher priority, and goes
      through whenever the larger fee can be computed and booked. */
  lemma PlainFeeMonotone(s: Settings, now: U64, a: I128, b: I128, p: Priority, q: Priority)
    requires ValidSettings(s) && 0 < a <= b && Rank(p) <= Rank(q)
    requires RateFits(RateAt(s.rates.windows, s.rates.defaultRate, now), Multiplier(s.rates.multipliers, q))
    requires DefaultFee(s, now, b, q).Some?
    ensures DefaultFee(s, now, a, p).Some?
    ensures var low, high := ClampedFee(s, DefaultFee(s, now, a, p).value), ClampedFee(s, DefaultFee(s, now, b, q).value);
      s.minFee <= low <= high <= s.maxFee
  {
    var base := RateAt(s.rates.windows, s.rates.defaultRate, now);
    var r := AdjustedRate(base, Multiplier(s.rates.multipliers, p));
    var t := AdjustedRate(base, Multiplier(s.rates.multipliers, q));
    RateMonotone(base, s.rates.multipliers, p, q);
    MulMonotone(a, b, r, t);
    RateFeeNonNegative(a, r);
    DivMonotone(a * r, b * t, BPS);
  }

  /** The plain fallback never charges more than the amount nor less than nothing. It falls back exactly when the plain
      deduction would take more than the amount, and then charges less than the plain deduction would. */
  lemma FallbackWithinAmount(s: State, now: U64, payer: Address, amount: I128, p: Priority)
    requires ValidSettings(s.settings) && FallbackStep(s, now, payer, amount, p).1.Ok?
    ensures var r := FallbackStep(s, now, payer, amount, p).1.value;
      var plain := DeductStep(s, now, payer, amount, p).1;
      && r.Charged? && 0 <= r.charge.fee <= amount && r.charge.net == amount - r.charge.fee
      && (plain.Ok? ==>
            && plain.value.Charged?
            && (r.status == FallbackUsed <==> plain.value.charge.net < 0)
            && (r.status == Success ==> r == plain.value)
            && (r.status == FallbackUsed ==> r.charge.fee < plain.value.charge.fee)
            && (r.charge.fee < s.settings.minFee ==> r.charge.net == 0))
  {
  }

  /** The asset fallback charges at most the amount exactly when the asset's own fee fits, or the surplus of the default
      rate over 100% is worth less than one unit; a default rate times an urgent multiplier can exceed 100%. It falls back
      exactly when the asset has no configuration or the plain asset deduction would take more than the amount. */
  lemma AssetFallbackWithinAmount(s: State, now: U64, tx: Tx)
    requires AssetFallbackStep(s, now, tx).1.Ok?
    ensures var r, own := AssetFallbackStep(s, now, tx).1.value, AssetStep(s, now, tx).1;
      && r.Charged?
      && (r.status == Success <==> UsesAssetFee(s.settings, tx))
      && (r.charge.net >= 0 <==>
            UsesAssetFee(s.settings, tx) || tx.amount * (DefaultRate(s.settings.rates, tx.priority, now) - BPS) < BPS)
      && (tx.asset !in s.settings.assets ==> r.status == FallbackUsed)
      && (tx.asset in s.settings.assets && own.Ok? ==>
            own.value.Charged? && (r.status == Success <==> own.value.charge.net >= 0))
      && (r.status == Success ==> Ok(r) == own)
  {
    if !UsesAssetFee(s.settings, tx) {
      RateFeeWithinAmount(tx.amount, DefaultRate(s.settings.rates, tx.priority, now));
    }
  }

  /** The settings pass every check, and the fallback still takes twice the amount: an urgent transfer of 100 in an asset
      without configuration, at a default rate of 100% and an urgent multiplier of 2. */
  lemma AssetFallbackOvercharges(admin: Address, payer: Address, asset: Address, now: U64)
    ensures var s := Deployed(admin, Settings(Rates(BPS, [], Multipliers(BPS, BPS, BPS, 20_000)), 0, I128_MAX, map[]));
      && ValidSettings(s.settings)
      && AssetFallbackStep(s, now, Tx(payer, asset, 100, Urgent)).1 == Ok(Charged(Charge(-100, 200), FallbackUsed))
  {
    assert RateFee(100, 20_000) == Some(200);
  }

  // ----- the batch -----

  /** What the batch loop carries. */
  datatype Acc = Acc(
    charges: seq<Charge>,
    batchTotal: I128,
    userAccrued: map<Address, I128>,
    assetCollected: map<Address, I128>,
    userAsset: map<UserAsset, I128>)

  predicate ItemFits(a: Acc, tx: Tx, fee: I128) {
    && FitsI128(tx.amount - fee) && FitsI128(Get(a.assetCollected, tx.asset) + fee)
    && FitsI128(Get(a.userAsset, UserAsset(tx.payer, tx.asset)) + fee) && FitsI128(Get(a.userAccrued, tx.payer) + fee)
    && FitsI128(a.batchTotal + fee)
  }

  function ItemBooked(a: Acc, tx: Tx, fee: I128): Acc
    requires ItemFits(a, tx, fee)
  {
    var k := UserAsset(tx.payer, tx.asset);
    Acc(a.charges + [Charge(tx.amount - fee, fee)],
        a.batchTotal + fee,
        a.userAccrued[tx.payer := Get(a.userAccrued, tx.payer) + fee],
        a.assetCollected[tx.asset := Get(a.assetCollected, tx.asset) + fee],
        a.userAsset[k := Get(a.userAsset, k) + fee])
  }

  function BookItem(a: Acc, tx: Tx, fee: I128): Result<Acc, Error> {
    if ItemFits(a, tx, fee) then Ok(ItemBooked(a, tx, fee)) else Abort(Overflow)
  }

  function BatchItem(s: Settings, now: U64, a: Acc, tx: Tx): Result<Acc, Error> {
    if tx.amount <= 0 then Abort(BadAmount)
    else
      var f := AssetFee(s, now, tx);
      if f.None? then Abort(Overflow) else BookItem(a, tx, f.value)
  }

  function BatchItems(s: State, now: U64, txs: seq<Tx>): Result<Acc, Error> {
    if txs == [] then Ok(Acc([], 0, s.userAccrued, s.assetCollected, s.userAsset))
    else
      var a := BatchItems(s, now, txs[..|txs| - 1]);
      if a.Abort? then a else BatchItem(s.settings, now, a.value, txs[|txs| - 1])
  }

  /** The global total moves once, by the batch's sum. */
  function CloseBatch(s: State, a: Result<Acc, Error>): (State, Result<Reply, Error>) {
    if a.Abort? then (s, Abort(a.error))
    else if !FitsI128(s.total + a.value.batchTotal) then (s, Abort(Overflow))
    else (AfterItems(s, a.value), Ok(Batched(a.value.charges, a.value.batchTotal)))
  }

  function AfterItems(s: State, a: Acc): State
    requires FitsI128(s.total + a.batchTotal)
  {
    s.(total := s.total + a.batchTotal, userAccrued := a.userAccrued, assetCollected := a.assetCollected,
       userAsset := a.userAsset)
  }

  function BatchStep(s: State, now: U64, txs: seq<Tx>): (State, Result<Reply, Error>) {
    CloseBatch(s, BatchItems(s, now, txs))
  }

  function Step(s: State, e: Event): (State, Result<Reply, Error>) {
    match e.op
    case Deduct(payer, amount, p) => DeductStep(s, e.now, payer, amount, p)
    case DeductWithFallback(payer, amount, p) => FallbackStep(s, e.now, payer, amount, p)
    case DeductAsset(tx) => AssetStep(s, e.now, tx)
    case DeductAssetWithFallback(tx) => AssetFallbackStep(s, e.now, tx)
    case DeductBatch(txs) => BatchStep(s, e.now, txs)
    case Configure(caller, settings) =>
      if caller != s.admin then (s, Abort(Unauthorized))
      else if !ValidSettings(settings) then (s, Abort(InvalidSettings))
      else (s.(settings := settings), Ok(Done))
  }

  function Run(s: State, events: seq<Event>): State {
    if events == [] then s else Step(Run(s, events[..|events| - 1]), events[|events| - 1]).0
  }

  // ----- ledgers over runs -----

  /** The entries of one asset. */
  ghost function OfAsset(m: map<UserAsset, I128>, asset: Address): map<UserAsset, int> {
    map k | k in m && k.asset == asset :: m[k]
  }

  predicate NonNegativeMap<K>(m: map<K, I128>) {
    forall k <- m.Keys :: m[k] >= 0
  }

  ghost predicate AssetBalanced(s: State, asset: Address) {
    Get(s.assetCollected, asset) == Sum(OfAsset(s.userAsset, asset))
  }

  /** plain is what the two asset-free paths charged. */
  ghost predicate Balanced(s: State, plain: int) {
    && ValidSettings(s.settings) && plain >= 0
    && (forall asset :: AssetBalanced(s, asset))
    && s.total == Sum(s.assetCollected) + plain
    && Sum(s.userAccrued) <= s.total
    && NonNegativeMap(s.assetCollected) && NonNegativeMap(s.userAsset) && NonNegativeMap(s.userAccrued)
  }

  function PlainFee(s: State, e: Event): int {
    var r := Step(s, e).1;
    if (e.op.Deduct? || e.op.DeductWithFallback?) && r.Ok? && r.value.Charged? then r.value.charge.fee else 0
  }

  function PlainFees(s: State, events: seq<Event>): int {
    if events == [] then 0
    else PlainFees(s, events[..|events| - 1]) + PlainFee(Run(s, events[..|events| - 1]), events[|events| - 1])
  }

  lemma OfAssetUpdate(m: map<UserAsset, I128>, k: UserAsset, v: I128, asset: Address)
    ensures Sum(OfAsset(m[k := v], asset)) ==
            Sum(OfAsset(m, asset)) + if k.asset == asset then v - Get(m, k) else 0
  {
    if k.asset == asset {
      assert OfAsset(m[k := v], asset) == OfAsset(m, asset)[k := v];
      SumUpdate(OfAsset(m, asset), k, v);
    } else {
      assert OfAsset(m[k := v], asset) == OfAsset(m, asset);
    }
  }

  lemma BalancedByUser(s: State, plain: int, payer: Address, fee: I128)
    requires Balanced(s, plain) && fee >= 0 && UserFits(s, payer, fee)
    ensures Balanced(UserBooked(s, payer, fee), plain + fee)
  {
    SumUpdate(s.userAccrued, payer, Get(s.userAccrued, payer) + fee);
    forall asset
      ensures AssetBalanced(UserBooked(s, payer, fee), asset)
    {
      assert AssetBalanced(s, asset);
    }
  }

  lemma AssetsBalancedByAsset(s: State, k: UserAsset, fee: I128)
    requires (forall asset :: AssetBalanced(s, asset)) && AssetFits(s, k, fee)
    ensures forall asset :: AssetBalanced(AssetBooked(s, k, fee), asset)
  {
    var s' := AssetBooked(s, k, fee);
    forall asset
      ensures AssetBalanced(s', asset)
    {
      assert AssetBalanced(s, asset);
      OfAssetUpdate(s.userAsset, k, Get(s.userAsset, k) + fee, asset);
    }
  }

  lemma BalancedByAsset(s: State, plain: int, k: UserAsset, fee: I128)
    requires Balanced(s, plain) && fee >= 0 && AssetFits(s, k, fee)
    ensures Balanced(AssetBooked(s, k, fee), plain)
  {
    AssetsBalancedByAsset(s, k, fee);
    SumUpdate(s.assetCollected, k.asset, Get(s.assetCollected, k.asset) + fee);
  }

  lemma {:induction false} BatchTotalGrows(s: State, now: U64, txs: seq<Tx>)
    requires BatchItems(s, now, txs).Ok?
    ensures BatchItems(s, now, txs).value.batchTotal >= 0
    ensures txs != [] ==>
              && BatchItems(s, now, txs[..|txs| - 1]).Ok?
              && BatchItems(s, now, txs[..|txs| - 1]).value.batchTotal <= BatchItems(s, now, txs).value.batchTotal
  {
    if txs != [] {
      BatchTotalGrows(s, now, txs[..|txs| - 1]);
      AssetFeeNonNegative(s.settings, now, txs[|txs| - 1]);
    }
  }

  /** One iteration of the batch loop is an asset booking followed by a credit to the payer's overall balance. */
  lemma BalancedByItem(t: State, plain: int, k: UserAsset, fee: I128, credited: I128)
    requires Balanced(t, plain) && 0 <= fee && AssetFits(t, k, fee) && credited == Get(t.userAccrued, k.user) + fee
    ensures var mid := AssetBooked(t, k, fee);
      Balanced(mid.(userAccrued := mid.userAccrued[k.user := credited]), plain)
  {
    BalancedByAsset(t, plain, k, fee);
    BalancedByCredit(AssetBooked(t, k, fee), plain, k.user, fee, credited);
  }

  lemma BalancedByCredit(s: State, plain: int, payer: Address, fee: I128, credited: I128)
    requires Balanced(s, plain) && 0 <= fee && credited == Get(s.userAccrued, payer) + fee
    requires Sum(s.userAccrued) + fee <= s.total
    ensures Balanced(s.(userAccrued := s.userAccrued[payer := credited]), plain)
  {
    SumUpdate(s.userAccrued, payer, credited);
    var s' := s.(userAccrued := s.userAccrued[payer := credited]);
    forall asset
      ensures AssetBalanced(s', asset)
    {
      assert AssetBalanced(s, asset);
    }
  }

  lemma {:induction false} BalancedByBatch(s: State, plain: int, now: U64, txs: seq<Tx>)
    requires Balanced(s, plain) && BatchItems(s, now, txs).Ok?
    requires FitsI128(s.total + BatchItems(s, now, txs).value.batchTotal)
    ensures Balanced(AfterItems(s, BatchItems(s, now, txs).value), plain)
  {
    if txs == [] {
      assert AfterItems(s, BatchItems(s, now, txs).value) == s;
    } else {
      TotalNonNegative(s, plain);
      BatchTotalGrows(s, now, txs);
      BatchTotalGrows(s, now, txs[..|txs| - 1]);
      BalancedByBatch(s, plain, now, txs[..|txs| - 1]);
      AssetFeeNonNegative(s.settings, now, txs[|txs| - 1]);
      ItemIsBooking(s, BatchItems(s, now, txs[..|txs| - 1]).value, txs[|txs| - 1],
                    AssetFee(s.settings, now, txs[|txs| - 1]).value, plain);
    }
  }

  lemma ItemIsBooking(s: State, a: Acc, tx: Tx, fee: I128, plain: int)
    requires ItemFits(a, tx, fee) && FitsI128(s.total + a.batchTotal) && FitsI128(s.total + a.batchTotal + fee) && 0 <= fee
    requires Balanced(AfterItems(s, a), plain)
    ensures Balanced(AfterItems(s, ItemBooked(a, tx, fee)), plain)
  {
    var k, credited := UserAsset(tx.payer, tx.asset), Get(a.userAccrued, tx.payer) + fee;
    ItemState(s, a, tx, fee);
    BalancedByItem(AfterItems(s, a), plain, k, fee, credited);
  }

  lemma ItemState(s: State, a: Acc, tx: Tx, fee: I128)
    requires ItemFits(a, tx, fee) && FitsI128(s.total + a.batchTotal) && FitsI128(s.total + a.batchTotal + fee)
    ensures var t, k := AfterItems(s, a), UserAsset(tx.payer, tx.asset);
      && AssetFits(t, k, fee)
      && var mid := AssetBooked(t, k, fee);
         mid.(userAccrued := mid.userAccrued[k.user := Get(a.userAccrued, tx.payer) + fee]) == AfterItems(s, ItemBooked(a, tx, fee))
  {
  }

  lemma TotalNonNegative(s: State, plain: int)
    requires Balanced(s, plain)
    ensures s.total >= 0 && UsersWithin(s.userAccrued, s.total)
  {
    SumNonNegative(s.assetCollected);
    SumNonNegative(s.userAccrued);
  }

  lemma BalancedByBookUser(s: State, plain: int, payer: Address, amount: I128, fee: I128, status: Status)
    requires Balanced(s, plain) && 0 <= fee && BookUser(s, payer, amount, fee, status).1.Ok?
    ensures var (s', r) := BookUser(s, payer, amount, fee, status);
      r.value.Charged? && r.value.charge == Charge(amount - fee, fee) && Balanced(s', plain + fee)
  {
    BalancedByUser(s, plain, payer, fee);
  }

  lemma BalancedByBookAsset(s: State, plain: int, tx: Tx, fee: I128, status: Status)
    requires Balanced(s, plain) && 0 <= fee && BookAsset(s, tx, fee, status).1.Ok?
    ensures Balanced(BookAsset(s, tx, fee, status).0, plain)
  {
    BalancedByAsset(s, plain, UserAsset(tx.payer, tx.asset), fee);
  }

  lemma BalancedByFallback(s: State, plain: int, now: U64, payer: Address, amount: I128, p: Priority)
    requires Balanced(s, plain) && FallbackStep(s, now, payer, amount, p).1.Ok?
    ensures var (s', r) := FallbackStep(s, now, payer, amount, p);
      r.value.Charged? && Balanced(s', plain + r.value.charge.fee)
  {
    var fee := ClampedFee(s.settings, DefaultFee(s.settings, now, amount, p).value);
    if fee <= amount {
      BalancedByBookUser(s, plain, payer, amount, fee, Success);
    } else {
      BalancedByBookUser(s, plain, payer, amount, if s.settings.minFee < amount then s.settings.minFee else amount, FallbackUsed);
    }
  }

  lemma BalancedByAssetFallback(s: State, plain: int, now: U64, tx: Tx)
    requires Balanced(s, plain) && AssetFallbackStep(s, now, tx).1.Ok?
    ensures Balanced(AssetFallbackStep(s, now, tx).0, plain)
  {
    if UsesAssetFee(s.settings, tx) {
      AssetFeeNonNegative(s.settings, now, tx);
      BalancedByBookAsset(s, plain, tx, AssetFee(s.settings, now, tx).value, Success);
    } else {
      RateFeeNonNegative(tx.amount, DefaultRate(s.settings.rates, tx.priority, now));
      BalancedByBookAsset(s, plain, tx, DefaultFee(s.settings, now, tx.amount, tx.priority).value, FallbackUsed);
    }
  }

  lemma BalancedByConfigure(s: State, plain: int, settings: Settings)
    requires Balanced(s, plain) && ValidSettings(settings)
    ensures Balanced(s.(settings := settings), plain)
  {
    var s' := s.(settings := settings);
    forall asset
      ensures AssetBalanced(s', asset)
    {
      assert AssetBalanced(s, asset);
    }
  }

  lemma BalancedStep(s: State, plain: int, e: Event)
    requires Balanced(s, plain)
    ensures Balanced(Step(s, e).0, plain + PlainFee(s, e))
  {
    if Step(s, e).1.Ok? {
      match e.op
      case Deduct(payer, amount, p) =>
        BalancedByBookUser(s, plain, payer, amount, ClampedFee(s.settings, DefaultFee(s.settings, e.now, amount, p).value),
                           Success);
      case DeductWithFallback(payer, amount, p) => BalancedByFallback(s, plain, e.now, payer, amount, p);
      case DeductAsset(tx) =>
        AssetFeeNonNegative(s.settings, e.now, tx);
        BalancedByBookAsset(s, plain, tx, AssetFee(s.settings, e.now, tx).value, Success);
      case DeductAssetWithFallback(tx) => BalancedByAssetFallback(s, plain, e.now, tx);
      case DeductBatch(txs) => BalancedByBatch(s, plain, e.now, txs);
      case Configure(_, settings) => BalancedByConfigure(s, plain, settings);
    }
  }

  function Deployed(admin: Address, settings: Settings): State {
    State(admin, settings, 0, map[], map[], map[])
  }

  /** Over every run of the five paths: each asset's total is the sum over its users, and the grand total is the sum over
      assets plus what the asset-free paths charged. */
  lemma {:induction false} BalancedRun(admin: Address, settings: Settings, events: seq<Event>)
    requires ValidSettings(settings)
    ensures var s := Deployed(admin, settings); Balanced(Run(s, events), PlainFees(s, events))
  {
    var s := Deployed(admin, settings);
    if events == [] {
      forall asset
        ensures AssetBalanced(s, asset)
      {
        assert OfAsset(s.userAsset, asset) == map[];
      }
    } else {
      var init := events[..|events| - 1];
      BalancedRun(admin, settings, init);
      BalancedStep(Run(s, init), PlainFees(s, init), events[|events| - 1]);
    }
  }

  // ----- the batch refines single deductions -----

  datatype Series = Series(state: State, charges: seq<Charge>)

  function AddSingle(q: Series, r: (State, Result<Reply, Error>)): Result<Series, Error> {
    if r.1.Abort? then Abort(r.1.error)
    else if !r.1.value.Charged? then Abort(Overflow)
    else Ok(Series(r.0, q.charges + [r.1.value.charge]))
  }

  /** One asset deduction per item, in order; aborts as soon as one does. */
  function Singles(s: State, now: U64, txs: seq<Tx>): Result<Series, Error> {
    if txs == [] then Ok(Series(s, []))
    else
      var before := Singles(s, now, txs[..|txs| - 1]);
      if before.Abort? then before
      else AddSingle(before.value, AssetStep(before.value.state, now, txs[|txs| - 1]))
  }

  function FeesOf(charges: seq<Charge>): int {
    if charges == [] then 0 else FeesOf(charges[..|charges| - 1]) + charges[|charges| - 1].fee
  }

  ghost predicate UsersWithin(m: map<Address, I128>, bound: int) {
    forall u :: Get(m, u) <= bound
  }

  lemma UsersWithinUpdate(m: map<Address, I128>, bound: int, u: Address, fee: I128, v: I128)
    requires UsersWithin(m, bound) && 0 <= fee && v == Get(m, u) + fee
    ensures UsersWithin(m[u := v], bound + fee)
  {
    var n := m[u := v];
    forall w
      ensures Get(n, w) <= bound + fee
    {
      assert Get(m, w) <= bound;
    }
  }

  /** The loop and the series agree after every item, and each can go on exactly when the other can. */
  ghost predicate InStep(s: State, a: Result<Acc, Error>, q: Result<Series, Error>) {
    && (q.Ok? <==> a.Ok? && s.total + a.value.batchTotal <= I128_MAX)
    && (a.Ok? ==> a.value.batchTotal >= 0 && a.value.batchTotal == FeesOf(a.value.charges)
                  && UsersWithin(a.value.userAccrued, s.total + a.value.batchTotal))
    && (q.Ok? ==>
          && a.value.charges == q.value.charges
          && q.value.state == s.(total := s.total + a.value.batchTotal,
                                 assetCollected := a.value.assetCollected, userAsset := a.value.userAsset))
  }

  lemma FitsAgree(s: State, a: Acc, q: Series, tx: Tx, fee: I128)
    requires InStep(s, Ok(a), Ok(q)) && 0 <= s.total && 0 <= fee
    ensures FitsI128(tx.amount - fee) && AssetFits(q.state, UserAsset(tx.payer, tx.asset), fee) <==>
            ItemFits(a, tx, fee) && s.total + a.batchTotal + fee <= I128_MAX
  {
    assert Get(a.userAccrued, tx.payer) <= s.total + a.batchTotal;
  }

  lemma InStepBook(s: State, a: Acc, q: Series, tx: Tx, fee: I128)
    requires InStep(s, Ok(a), Ok(q)) && 0 <= s.total && 0 <= fee
    ensures InStep(s, BookItem(a, tx, fee), AddSingle(q, BookAsset(q.state, tx, fee, Success)))
  {
    FitsAgree(s, a, q, tx, fee);
    if ItemFits(a, tx, fee) {
      if s.total + a.batchTotal + fee <= I128_MAX {
        InStepBoth(s, a, q, tx, fee);
        AddSingleOk(q, tx, fee);
      } else {
        ItemTotals(s, a, tx, fee);
      }
    }
  }

  lemma AddSingleOk(q: Series, tx: Tx, fee: I128)
    requires FitsI128(tx.amount - fee) && AssetFits(q.state, UserAsset(tx.payer, tx.asset), fee)
    ensures AddSingle(q, BookAsset(q.state, tx, fee, Success)) ==
            Ok(Series(AssetBooked(q.state, UserAsset(tx.payer, tx.asset), fee), q.charges + [Charge(tx.amount - fee, fee)]))
  {
  }

  lemma InStepBoth(s: State, a: Acc, q: Series, tx: Tx, fee: I128)
    requires InStep(s, Ok(a), Ok(q)) && 0 <= s.total && 0 <= fee
    requires ItemFits(a, tx, fee) && s.total + a.batchTotal + fee <= I128_MAX
    requires AssetFits(q.state, UserAsset(tx.payer, tx.asset), fee)
    ensures InStep(s, Ok(ItemBooked(a, tx, fee)),
              Ok(Series(AssetBooked(q.state, UserAsset(tx.payer, tx.asset), fee), q.charges + [Charge(tx.amount - fee, fee)])))
  {
    var b, t := ItemBooked(a, tx, fee), AssetBooked(q.state, UserAsset(tx.payer, tx.asset), fee);
    ItemTotals(s, a, tx, fee);
    BothBooked(s, a, q.state, tx, fee);
    InStepFrom(s, b, t, q.charges + [Charge(tx.amount - fee, fee)]);
  }

  lemma InStepFrom(s: State, b: Acc, t: State, charges: seq<Charge>)
    requires 0 <= b.batchTotal == FeesOf(b.charges) && FitsI128(s.total + b.batchTotal)
    requires UsersWithin(b.userAccrued, s.total + b.batchTotal) && b.charges == charges
    requires t == s.(total := s.total + b.batchTotal, assetCollected := b.assetCollected, userAsset := b.userAsset)
    ensures InStep(s, Ok(b), Ok(Series(t, charges)))
  {
  }

  lemma BothBooked(s: State, a: Acc, t: State, tx: Tx, fee: I128)
    requires ItemFits(a, tx, fee) && FitsI128(s.total + a.batchTotal) && FitsI128(s.total + a.batchTotal + fee)
    requires t == s.(total := s.total + a.batchTotal, assetCollected := a.assetCollected, userAsset := a.userAsset)
    requires AssetFits(t, UserAsset(tx.payer, tx.asset), fee)
    ensures var b := ItemBooked(a, tx, fee);
      AssetBooked(t, UserAsset(tx.payer, tx.asset), fee) ==
        s.(total := s.total + b.batchTotal, assetCollected := b.assetCollected, userAsset := b.userAsset)
  {
  }

  lemma ItemTotals(s: State, a: Acc, tx: Tx, fee: I128)
    requires ItemFits(a, tx, fee) && 0 <= fee && a.batchTotal == FeesOf(a.charges)
    requires UsersWithin(a.userAccrued, s.total + a.batchTotal)
    ensures var b := ItemBooked(a, tx, fee);
      b.batchTotal == FeesOf(b.charges) && UsersWithin(b.userAccrued, s.total + b.batchTotal)
  {
    assert ItemBooked(a, tx, fee).charges[..|a.charges|] == a.charges;
    UsersWithinUpdate(a.userAccrued, s.total + a.batchTotal, tx.payer, fee, Get(a.userAccrued, tx.payer) + fee);
  }

  /** Once the running total has left i128, the loop can go on, but the series and the batch are both lost. */
  lemma InStepLost(s: State, a: Acc, q: Result<Series, Error>, tx: Tx, fee: I128)
    requires InStep(s, Ok(a), q) && q.Abort? && 0 <= s.total && 0 <= fee
    ensures InStep(s, BookItem(a, tx, fee), q)
  {
    if ItemFits(a, tx, fee) {
      ItemTotals(s, a, tx, fee);
    }
  }

  lemma {:induction false} InStepAll(s: State, now: U64, txs: seq<Tx>)
    requires 0 <= s.total && UsersWithin(s.userAccrued, s.total)
    ensures InStep(s, BatchItems(s, now, txs), Singles(s, now, txs))
  {
    if txs != [] {
      var init, tx := txs[..|txs| - 1], txs[|txs| - 1];
      InStepAll(s, now, init);
      var a, q, f := BatchItems(s, now, init), Singles(s, now, init), AssetFee(s.settings, now, tx);
      AssetFeeNonNegative(s.settings, now, tx);
      if a.Ok? && tx.amount > 0 && f.Some? {
        if q.Ok? {
          InStepBook(s, a.value, q.value, tx, f.value);
        } else {
          InStepLost(s, a.value, q, tx, f.value);
        }
      }
    }
  }

  /** In every reachable state a batch succeeds exactly when the item-by-item series does. It then reports the same list
      of net amounts and fees and their sum, and leaves the same storage except that it also credits each payer's overall
      balance. Payers and assets may repeat. */
  lemma BatchRefinesSingles(admin: Address, settings: Settings, events: seq<Event>, now: U64, txs: seq<Tx>)
    requires ValidSettings(settings)
    ensures var s := Run(Deployed(admin, settings), events);
      SameOutcome(s, BatchStep(s, now, txs).0, BatchStep(s, now, txs).1, Singles(s, now, txs))
  {
    BalancedRun(admin, settings, events);
    var s := Run(Deployed(admin, settings), events);
    TotalNonNegative(s, PlainFees(Deployed(admin, settings), events));
    InStepAll(s, now, txs);
    BatchAgainstSeries(s, BatchItems(s, now, txs), Singles(s, now, txs));
  }

  ghost predicate SameOutcome(s: State, after: State, r: Result<Reply, Error>, q: Result<Series, Error>) {
    && (r.Ok? <==> q.Ok?)
    && (r.Ok? ==> r.value.Batched? && r.value.charges == q.value.charges
                  && r.value.totalFees == FeesOf(q.value.charges)
                  && after.(userAccrued := s.userAccrued) == q.value.state)
  }

  lemma BatchAgainstSeries(s: State, a: Result<Acc, Error>, q: Result<Series, Error>)
    requires 0 <= s.total && InStep(s, a, q)
    ensures SameOutcome(s, CloseBatch(s, a).0, CloseBatch(s, a).1, q)
  {
  }

  function FeesPaidBy(txs: seq<Tx>, charges: seq<Charge>, user: Address): int
    requires |txs| == |charges|
  {
    if txs == [] then 0
    else FeesPaidBy(txs[..|txs| - 1], charges[..|txs| - 1], user)
         + if txs[|txs| - 1].payer == user then charges[|txs| - 1].fee else 0
  }

  /** The extra credit of a batch: each user's overall balance grows by exactly the fees of that user's items. */
  lemma {:induction false} BatchCreditsPayers(s: State, now: U64, txs: seq<Tx>, user: Address)
    requires BatchItems(s, now, txs).Ok?
    ensures var a := BatchItems(s, now, txs).value;
      |a.charges| == |txs| && Get(a.userAccrued, user) == Get(s.userAccrued, user) + FeesPaidBy(txs, a.charges, user)
  {
    if txs != [] {
      var init := txs[..|txs| - 1];
      BatchCreditsPayers(s, now, init, user);
      var a, before := BatchItems(s, now, txs).value, BatchItems(s, now, init).value;
      assert a.charges[..|init|] == before.charges;
    }
  }

  // ----- the deductions, in plain terms -----

  /** The fee of an asset: with its own configuration, its rate's share of the amount raised to a positive minimum and then
      lowered to a positive maximum; without, the share at the rate in force. */
  ghost predicate IsAssetFee(s: Settings, now: U64, tx: Tx, rate: int, a: int, u: int, fee: int) {
    && IsAdjusted(a, rate, s.rates.multipliers, tx.priority) && IsShare(u, tx.amount, a)
    && if tx.asset in s.assets then
         var c := s.assets[tx.asset];
         var raised := if c.minFee > 0 && u < c.minFee then c.minFee else u;
         rate == c.rate && fee == if c.maxFee > 0 && raised > c.maxFee then c.maxFee else raised
       else IsRateAt(rate, s.rates.windows, s.rates.defaultRate, now) && fee == u
  }

  /** The plain fee: the share at the rate in force, raised to the minimum and then lowered to the maximum. */
  ghost predicate IsPlainFee(s: Settings, now: U64, amount: int, p: Priority, rate: int, a: int, u: int, fee: int) {
    && IsRateAt(rate, s.rates.windows, s.rates.defaultRate, now)
    && IsAdjusted(a, rate, s.rates.multipliers, p) && IsShare(u, amount, a)
    && var raised := if u < s.minFee then s.minFee else u;
       fee == if raised > s.maxFee then s.maxFee else raised
  }

  predicate AssetRoom(s: State, tx: Tx, fee: int) {
    && tx.amount - fee >= I128_MIN && s.total + fee <= I128_MAX && Get(s.assetCollected, tx.asset) + fee <= I128_MAX
    && Get(s.userAsset, UserAsset(tx.payer, tx.asset)) + fee <= I128_MAX
  }

  ghost predicate BooksAsset(s: State, after: State, tx: Tx, fee: int) {
    && after.total == s.total + fee && Grows(s.assetCollected, after.assetCollected, tx.asset, fee)
    && Grows(s.userAsset, after.userAsset, UserAsset(tx.payer, tx.asset), fee)
    && after.(total := s.total, assetCollected := s.assetCollected, userAsset := s.userAsset) == s
  }

  predicate UserRoom(s: State, payer: Address, amount: int, fee: int) {
    amount - fee >= I128_MIN && s.total + fee <= I128_MAX && Get(s.userAccrued, payer) + fee <= I128_MAX
  }

  ghost predicate BooksUser(s: State, after: State, payer: Address, fee: int) {
    && after.total == s.total + fee && Grows(s.userAccrued, after.userAccrued, payer, fee)
    && after.(total := s.total, userAccrued := s.userAccrued) == s
  }

  /** The call took the fee from the amount. */
  predicate Takes(r: Result<Reply, Error>, amount: int, fee: int, status: Status) {
    && r.Ok? && r.value.Charged? && r.value.charge.fee == fee && r.value.charge.net == amount - fee
    && r.value.status == status
  }

  lemma AssetFeeExactly(s: Settings, now: U64, tx: Tx, rate: int, a: int, u: int, fee: int)
    requires tx.amount > 0 && IsAssetFee(s, now, tx, rate, a, u, fee)
    ensures AssetFee(s, now, tx) == if tx.amount * a <= I128_MAX then Some(fee) else None
    ensures fee >= 0
  {
    if tx.asset in s.assets {
      AdjustedExactly(a, s.assets[tx.asset].rate, s.rates.multipliers, tx.priority);
    } else {
      RateAtExactly(rate, s.rates.windows, s.rates.defaultRate, now);
      AdjustedExactly(a, RateAt(s.rates.windows, s.rates.defaultRate, now), s.rates.multipliers, tx.priority);
    }
    ShareExactly(u, tx.amount, a);
  }

  lemma PlainFeeExactly(s: Settings, now: U64, amount: I128, p: Priority, rate: int, a: int, u: int, fee: int)
    requires amount > 0 && 0 <= s.minFee <= s.maxFee && IsPlainFee(s, now, amount, p, rate, a, u, fee)
    ensures DefaultFee(s, now, amount, p) == if amount * a <= I128_MAX then Some(u) else None
    ensures amount * a <= I128_MAX ==> ClampedFee(s, u) == fee
    ensures u >= 0 && fee >= 0
  {
    RateAtExactly(rate, s.rates.windows, s.rates.defaultRate, now);
    AdjustedExactly(a, RateAt(s.rates.windows, s.rates.defaultRate, now), s.rates.multipliers, p);
    ShareExactly(u, amount, a);
  }

  lemma BookAssetLaw(s: State, tx: Tx, fee: I128, status: Status)
    requires fee >= 0
    ensures var (after, r) := BookAsset(s, tx, fee, status);
      && (r.Ok? <==> AssetRoom(s, tx, fee)) && (r.Abort? ==> after == s && r.error == Overflow)
      && (r.Ok? ==> Takes(r, tx.amount, fee, status) && BooksAsset(s, after, tx, fee))
  {
  }

  /** The whole law of an asset deduction: accepted exactly when the amount is positive and all sums fit, it takes that fee and
      books it to the total, the asset and the payer's account of the asset. */
  lemma AssetLaw(s: State, now: U64, tx: Tx, rate: int, a: int, u: int, fee: int)
    requires IsAssetFee(s.settings, now, tx, rate, a, u, fee)
    ensures var (after, r) := Step(s, Event(now, DeductAsset(tx)));
      && (r.Ok? <==> tx.amount > 0 && tx.amount * a <= I128_MAX && AssetRoom(s, tx, fee))
      && (r.Ok? ==> Takes(r, tx.amount, fee, Success) && BooksAsset(s, after, tx, fee))
      && (r.Abort? ==> after == s && r.error == if tx.amount <= 0 then BadAmount else Overflow)
  {
    if tx.amount > 0 {
      AssetFeeExactly(s.settings, now, tx, rate, a, u, fee);
    }
    AssetStepLaw(s, now, tx, tx.amount * a <= I128_MAX, fee);
  }

  lemma AssetStepLaw(s: State, now: U64, tx: Tx, computed: bool, fee: int)
    requires tx.amount > 0 ==> fee >= 0 && AssetFee(s.settings, now, tx) == if computed then Some(fee) else None
    ensures var (after, r) := Step(s, Event(now, DeductAsset(tx)));
      && (r.Ok? <==> tx.amount > 0 && computed && AssetRoom(s, tx, fee))
      && (r.Ok? ==> Takes(r, tx.amount, fee, Success) && BooksAsset(s, after, tx, fee))
      && (r.Abort? ==> after == s && r.error == if tx.amount <= 0 then BadAmount else Overflow)
  {
    if tx.amount > 0 && computed {
      BookAssetLaw(s, tx, fee, Success);
    }
  }

  /** The same for the plain deduction. */
  lemma PlainLaw(s: State, now: U64, payer: Address, amount: I128, p: Priority, rate: int, a: int, u: int, fee: int)
    requires ValidSettings(s.settings) && IsPlainFee(s.settings, now, amount, p, rate, a, u, fee)
    ensures var (after, r) := Step(s, Event(now, Deduct(payer, amount, p)));
      && (r.Ok? <==> amount > 0 && amount * a <= I128_MAX && UserRoom(s, payer, amount, fee))
      && (r.Ok? ==> Takes(r, amount, fee, Success) && BooksUser(s, after, payer, fee))
      && (r.Abort? ==> after == s && r.error == if amount <= 0 then BadAmount else Overflow)
  {
    if amount > 0 {
      PlainFeeExactly(s.settings, now, amount, p, rate, a, u, fee);
    }
  }

  /** The plain fallback takes the plain fee if that is within the amount, and otherwise the smaller of the minimum fee and the
      amount. */
  lemma FallbackLaw(s: State, now: U64, payer: Address, amount: I128, p: Priority, rate: int, a: int, u: int, fee: int)
    requires ValidSettings(s.settings) && IsPlainFee(s.settings, now, amount, p, rate, a, u, fee)
    ensures var (after, r) := Step(s, Event(now, DeductWithFallback(payer, amount, p)));
      var taken := if fee <= amount then fee else if s.settings.minFee < amount then s.settings.minFee else amount;
      && (r.Ok? <==> amount > 0 && amount * a <= I128_MAX && UserRoom(s, payer, amount, taken))
      && (r.Ok? ==> Takes(r, amount, taken, if fee <= amount then Success else FallbackUsed)
                    && BooksUser(s, after, payer, taken))
      && (r.Abort? ==> after == s && r.error == if amount <= 0 then BadAmount else Overflow)
  {
    if amount > 0 {
      PlainFeeExactly(s.settings, now, amount, p, rate, a, u, fee);
    }
  }

  /** The asset fallback takes a configured asset's fee if that is within the amount, and otherwise the share at the rate in
      force, whatever that is. */
  lemma AssetFallbackLaw(s: State, now: U64, tx: Tx, rate: int, a: int, u: int, own: int, rate2: int, a2: int, plain: int)
    requires IsAssetFee(s.settings, now, tx, rate, a, u, own)
    requires IsAssetFee(s.settings.(assets := map[]), now, tx, rate2, a2, plain, plain)
    ensures var (after, r) := Step(s, Event(now, DeductAssetWithFallback(tx)));
      var fits := tx.asset in s.settings.assets && own <= tx.amount;
      var taken := if fits then own else plain;
      && (r.Ok? <==>
            && tx.amount > 0 && (tx.asset in s.settings.assets ==> tx.amount * a <= I128_MAX)
            && (!fits ==> tx.amount * a2 <= I128_MAX) && AssetRoom(s, tx, taken))
      && (r.Ok? ==> Takes(r, tx.amount, taken, if fits then Success else FallbackUsed)
                    && BooksAsset(s, after, tx, taken))
      && (r.Abort? ==> after == s && r.error == if tx.amount <= 0 then BadAmount else Overflow)
  {
    if tx.amount > 0 {
      AssetFeeExactly(s.settings, now, tx, rate, a, u, own);
      AssetFeeExactly(s.settings.(assets := map[]), now, tx, rate2, a2, plain, plain);
    }
    AssetFallbackStepLaw(s, now, tx, tx.amount * a <= I128_MAX, own, tx.amount * a2 <= I128_MAX, plain);
  }

  lemma AssetFallbackStepLaw(s: State, now: U64, tx: Tx, ownComputed: bool, own: int, plainComputed: bool, plain: int)
    requires tx.amount > 0 ==>
               && own >= 0 && AssetFee(s.settings, now, tx) == (if ownComputed then Some(own) else None)
               && plain >= 0
               && DefaultFee(s.settings, now, tx.amount, tx.priority) == if plainComputed then Some(plain) else None
    ensures var (after, r) := Step(s, Event(now, DeductAssetWithFallback(tx)));
      var fits := tx.asset in s.settings.assets && own <= tx.amount;
      var taken := if fits then own else plain;
      && (r.Ok? <==> tx.amount > 0 && (tx.asset in s.settings.assets ==> ownComputed) && (!fits ==> plainComputed)
                     && AssetRoom(s, tx, taken))
      && (r.Ok? ==> Takes(r, tx.amount, taken, if fits then Success else FallbackUsed)
                    && BooksAsset(s, after, tx, taken))
      && (r.Abort? ==> after == s && r.error == if tx.amount <= 0 then BadAmount else Overflow)
  {
    if tx.amount > 0 {
      AssetFallbackIs(s, now, tx);
      if ownComputed {
        BookAssetLaw(s, tx, own, Success);
      }
      if plainComputed {
        BookAssetLaw(s, tx, plain, FallbackUsed);
      }
    }
  }

  /** Which booking the asset fallback makes. */
  lemma AssetFallbackIs(s: State, now: U64, tx: Tx)
    requires tx.amount > 0
    ensures var own, plain := AssetFee(s.settings, now, tx), DefaultFee(s.settings, now, tx.amount, tx.priority);
      AssetFallbackStep(s, now, tx) ==
        if tx.asset in s.settings.assets && own.None? then (s, Abort(Overflow))
        else if tx.asset in s.settings.assets && own.value <= tx.amount then BookAsset(s, tx, own.value, Success)
        else if plain.None? then (s, Abort(Overflow))
        else BookAsset(s, tx, plain.value, FallbackUsed)
  {
  }

  /** A configured asset charges, in every accepted deduction, the share of the amount at its rate times the multiplier of that
      priority over 10_000, within its positive bounds. */
  ghost predicate ChargesConfigured(s: Settings, tx: Tx, charge: Charge)
    requires tx.asset in s.assets
  {
    var c := s.assets[tx.asset];
    && charge.net == tx.amount - charge.fee
    && exists a, u ::
         && IsPriorityRate(a, c.rate, s.rates.multipliers, tx.priority) && IsShare(u, tx.amount, a)
         && var raised := if c.minFee > 0 && u < c.minFee then c.minFee else u;
            charge.fee == if c.maxFee > 0 && raised > c.maxFee then c.maxFee else raised
  }

  /** Any asset charges a fee that IsAssetFee names. */
  ghost predicate ChargesAsset(s: Settings, now: U64, tx: Tx, charge: Charge) {
    && charge.net == tx.amount - charge.fee
    && exists rate, a, u :: IsAssetFee(s, now, tx, rate, a, u, charge.fee)
  }

  ghost predicate ItemCharges(s: Settings, now: U64, tx: Tx, charge: Charge) {
    && tx.amount > 0 && ChargesAsset(s, now, tx, charge)
    && (tx.asset in s.assets ==> ChargesConfigured(s, tx, charge))
  }

  lemma ChargedFeeExists(s: Settings, now: U64, tx: Tx)
    requires ValidSettings(s) && tx.amount > 0 && AssetFee(s, now, tx).Some?
    ensures var fee := AssetFee(s, now, tx).value;
      FitsI128(tx.amount - fee) ==>
        && ChargesAsset(s, now, tx, Charge(tx.amount - fee, fee))
        && (tx.asset in s.assets ==> ChargesConfigured(s, tx, Charge(tx.amount - fee, fee)))
  {
    var rate := RateInForce(s, now, tx.asset);
    var a := AdjustedRate(rate, Multiplier(s.rates.multipliers, tx.priority));
    RateAtExactly(rate, s.rates.windows, s.rates.defaultRate, now);
    AdjustedExactly(a, rate, s.rates.multipliers, tx.priority);
    var u := RateFee(tx.amount, a).value;
    assert IsShare(u, tx.amount, a);
    assert IsAssetFee(s, now, tx, rate, a, u, AssetFee(s, now, tx).value);
  }

  /** An accepted asset deduction charges so. */
  lemma AssetCharges(s: State, now: U64, tx: Tx)
    requires ValidSettings(s.settings) && Step(s, Event(now, DeductAsset(tx))).1.Ok?
    ensures var r := Step(s, Event(now, DeductAsset(tx))).1;
      && r.value.Charged? && ChargesAsset(s.settings, now, tx, r.value.charge)
      && (tx.asset in s.settings.assets ==> ChargesConfigured(s.settings, tx, r.value.charge))
  {
    ChargedFeeExists(s.settings, now, tx);
  }

  /** So does every item of an accepted batch, in order, and the batch answers the sum of the item fees. */
  lemma BatchCharges(s: State, now: U64, txs: seq<Tx>)
    requires ValidSettings(s.settings) && Step(s, Event(now, DeductBatch(txs))).1.Ok?
    ensures var r := Step(s, Event(now, DeductBatch(txs))).1;
      && r.value.Batched? && |r.value.charges| == |txs| && r.value.totalFees == FeesOf(r.value.charges)
      && forall i :: 0 <= i < |txs| ==> ItemCharges(s.settings, now, txs[i], r.value.charges[i])
  {
    ItemsCharge(s, now, txs);
  }

  lemma {:induction false} ItemsCharge(s: State, now: U64, txs: seq<Tx>)
    requires ValidSettings(s.settings) && BatchItems(s, now, txs).Ok?
    ensures var a := BatchItems(s, now, txs).value;
      && |a.charges| == |txs| && a.batchTotal == FeesOf(a.charges)
      && forall i :: 0 <= i < |txs| ==> ItemCharges(s.settings, now, txs[i], a.charges[i])
  {
    if txs != [] {
      var init, tx := txs[..|txs| - 1], txs[|txs| - 1];
      ItemsCharge(s, now, init);
      ChargedFeeExists(s.settings, now, tx);
      var a, before := BatchItems(s, now, txs).value, BatchItems(s, now, init).value;
      assert a.charges[..|init|] == before.charges;
      assert ItemCharges(s.settings, now, tx, a.charges[|init|]);
    }
  }

  /** Settings are accepted exactly from the admin, with rates up to 100%, ascending positive multipliers and ordered bounds. */
  lemma ConfiguresExactly(s: State, now: U64, caller: Address, settings: Settings)
    ensures Step(s, Event(now, Configure(caller, settings))).1.Ok? <==>
              && caller == s.admin && settings.rates.defaultRate <= 10_000
              && 0 < settings.rates.multipliers.low <= settings.rates.multipliers.medium
              && settings.rates.multipliers.medium <= settings.rates.multipliers.high <= settings.rates.multipliers.urgent
              && 0 <= settings.minFee <= settings.maxFee
              && forall x <- settings.assets.Keys ::
                   settings.assets[x].rate <= 10_000 && 0 <= settings.assets[x].minFee <= settings.assets[x].maxFee
    ensures Step(s, Event(now, Configure(caller, settings))).1.Abort? ==>
              Step(s, Event(now, Configure(caller, settings))) ==
                (s, Abort(if caller != s.admin then Unauthorized else InvalidSettings))
  {
  }

  /** Item i is the first that the batch cannot take. */
  predicate IsFirstRefused(s: State, now: U64, txs: seq<Tx>, i: nat)
    requires i < |txs|
  {
    BatchItems(s, now, txs[..i]).Ok? && BatchItems(s, now, txs[..i + 1]).Abort?
  }

  /** A refused batch changes nothing; it answers a bad amount exactly when the first item it cannot take has none that is
      positive, and otherwise an overflow. */
  lemma BatchRefusal(s: State, now: U64, txs: seq<Tx>, i: nat)
    ensures var (after, r) := Step(s, Event(now, DeductBatch(txs)));
      && (r.Abort? ==> after == s)
      && (i < |txs| && IsFirstRefused(s, now, txs, i) ==> r == Abort(if txs[i].amount <= 0 then BadAmount else Overflow))
      && (BatchItems(s, now, txs).Ok? && r.Abort? ==> r == Abort(Overflow))
  {
    if i < |txs| && IsFirstRefused(s, now, txs, i) {
      AbortStays(s, now, txs, i + 1);
      assert txs[..i + 1][..i] == txs[..i];
    }
  }

  /** Over every run the settings stay within the bounds the setters check, and only the admin's calls change them. */
  lemma {:induction false} SettingsRun(admin: Address, settings: Settings, events: seq<Event>)
    requires ValidSettings(settings)
    ensures var s := Run(Deployed(admin, settings), events);
      ValidSettings(s.settings) && s.admin == admin && s.settings == SettingsAfter(admin, settings, events)
  {
    if events != [] {
      var s, init := Deployed(admin, settings), events[..|events| - 1];
      SettingsRun(admin, settings, init);
      SettingsKept(Run(s, init), events[|events| - 1]);
    }
  }

  /** The settings of the last valid call of the admin. */
  function SettingsAfter(admin: Address, settings: Settings, events: seq<Event>): Settings {
    if events == [] then settings
    else
      var op := events[|events| - 1].op;
      if op.Configure? && op.caller == admin && ValidSettings(op.settings) then op.settings
      else SettingsAfter(admin, settings, events[..|events| - 1])
  }

  lemma SettingsKept(s: State, e: Event)
    ensures Step(s, e).0.admin == s.admin
    ensures Step(s, e).0.settings ==
              if e.op.Configure? && e.op.caller == s.admin && ValidSettings(e.op.settings) then e.op.settings else s.settings
  {
  }

  // ----- the contract -----

  lemma {:induction false} AbortStays(s: State, now: U64, txs: seq<Tx>, i: nat)
    requires i <= |txs| && BatchItems(s, now, txs[..i]).Abort?
    ensures BatchItems(s, now, txs) == BatchItems(s, now, txs[..i])
  {
    if i < |txs| {
      var init := txs[..|txs| - 1];
      assert init[..i] == txs[..i];
      AbortStays(s, now, init, i);
    } else {
      assert txs[..i] == txs;
    }
  }

  class FeeContract {
    var admin: Address
    var settings: Settings
    var total: I128
    var userAccrued: map<Address, I128>
    var assetCollected: map<Address, I128>
    var userAsset: map<UserAsset, I128>

    ghost function View(): State
      reads this
    {
      State(admin, settings, total, userAccrued, assetCollected, userAsset)
    }

    constructor (admin: Address, settings: Settings)
      requires ValidSettings(settings)
      ensures View() == Deployed(admin, settings)
    {
      this.admin, this.settings, total := admin, settings, 0;
      userAccrued, assetCollected, userAsset := map[], map[], map[];
    }

    method CalculateDefault(amount: I128, p: Priority, now: U64) returns (fee: Option<I128>)
      ensures fee == DefaultFee(settings, now, amount, p)
    {
      var rate := FindRate(settings.rates.windows, settings.rates.defaultRate, now);
      fee := RateFee(amount, AdjustedRate(rate, Multiplier(settings.rates.multipliers, p)));
    }

    method CalculateForAsset(tx: Tx, now: U64) returns (fee: Option<I128>)
      ensures fee == AssetFee(settings, now, tx)
    {
      if tx.asset in settings.assets {
        fee := AssetRateFee(tx.amount, settings.assets[tx.asset], settings.rates.multipliers, tx.priority);
      } else {
        fee := CalculateDefault(tx.amount, tx.priority, now);
      }
    }

    /** The quote an asset deduction then charges. */
    method CalculateAssetFee(tx: Tx, now: U64) returns (r: Result<I128, Error>)
      ensures r == Abort(BadAmount) <==> tx.amount <= 0
      ensures r.Ok? ==> AssetFee(settings, now, tx) == Some(r.value)
      ensures var charged := AssetStep(View(), now, tx).1;
        && (r.Abort? ==> charged == Abort(r.error))
        && (charged.Ok? ==> r.Ok? && charged.value == Charged(Charge(tx.amount - r.value, r.value), Success))
    {
      if tx.amount <= 0 {
        return Abort(BadAmount);
      }
      var fee := CalculateForAsset(tx, now);
      if fee.None? {
        return Abort(Overflow);
      }
      return Ok(fee.value);
    }

    method CreditUser(payer: Address, amount: I128, fee: I128, status: Status) returns (r: Result<Reply, Error>)
      modifies this`total, this`userAccrued
      ensures (View(), r) == BookUser(old(View()), payer, amount, fee, status)
    {
      if !FitsI128(amount - fee) || !FitsI128(total + fee) || !FitsI128(Get(userAccrued, payer) + fee) {
        return Abort(Overflow);
      }
      total := total + fee;
      userAccrued := userAccrued[payer := Get(userAccrued, payer) + fee];
      return Ok(Charged(Charge(amount - fee, fee), status));
    }

    method CreditAsset(tx: Tx, fee: I128, status: Status) returns (r: Result<Reply, Error>)
      modifies this`total, this`assetCollected, this`userAsset
      ensures (View(), r) == BookAsset(old(View()), tx, fee, status)
    {
      var k := UserAsset(tx.payer, tx.asset);
      if !FitsI128(tx.amount - fee) || !FitsI128(Get(assetCollected, tx.asset) + fee) || !FitsI128(total + fee)
         || !FitsI128(Get(userAsset, k) + fee) {
        return Abort(Overflow);
      }
      assetCollected := assetCollected[tx.asset := Get(assetCollected, tx.asset) + fee];
      total := total + fee;
      userAsset := userAsset[k := Get(userAsset, k) + fee];
      return Ok(Charged(Charge(tx.amount - fee, fee), status));
    }

    method DeductFeeWithPriority(payer: Address, amount: I128, p: Priority, now: U64) returns (r: Result<Reply, Error>)
      modifies this
      ensures (View(), r) == Step(old(View()), Event(now, Deduct(payer, amount, p)))
    {
      if amount <= 0 {
        return Abort(BadAmount);
      }
      var fee := CalculateDefault(amount, p, now);
      if fee.None? {
        return Abort(Overflow);
      }
      r := CreditUser(payer, amount, ClampedFee(settings, fee.value), Success);
    }

    method DeductFeeWithFallback(payer: Address, amount: I128, p: Priority, now: U64) returns (r: Result<Reply, Error>)
      modifies this
      ensures (View(), r) == Step(old(View()), Event(now, DeductWithFallback(payer, amount, p)))
    {
      if amount <= 0 {
        return Abort(BadAmount);
      }
      var fee := CalculateDefault(amount, p, now);
      if fee.None? {
        return Abort(Overflow);
      }
      var primary := ClampedFee(settings, fee.value);
      if primary <= amount {
        r := CreditUser(payer, amount, primary, Success);
      } else {
        r := CreditUser(payer, amount, if settings.minFee < amount then settings.minFee else amount, FallbackUsed);
      }
    }

    method DeductAssetFee(tx: Tx, now: U64) returns (r: Result<Reply, Error>)
      modifies this
      ensures (View(), r) == Step(old(View()), Event(now, DeductAsset(tx)))
    {
      if tx.amount <= 0 {
        return Abort(BadAmount);
      }
      var fee := CalculateForAsset(tx, now);
      if fee.None? {
        return Abort(Overflow);
      }
      r := CreditAsset(tx, fee.value, Success);
    }

    method DeductAssetFeeWithFallback(tx: Tx, now: U64) returns (r: Result<Reply, Error>)
      modifies this
      ensures (View(), r) == Step(old(View()), Event(now, DeductAssetWithFallback(tx)))
    {
      if tx.amount <= 0 {
        return Abort(BadAmount);
      }
      if tx.asset in settings.assets {
        var own := AssetRateFee(tx.amount, settings.assets[tx.asset], settings.rates.multipliers, tx.priority);
        if own.None? {
          return Abort(Overflow);
        }
        if own.value <= tx.amount {
          r := CreditAsset(tx, own.value, Success);
          return;
        }
      }
      var fee := CalculateDefault(tx.amount, tx.priority, now);
      if fee.None? {
        return Abort(Overflow);
      }
      r := CreditAsset(tx, fee.value, FallbackUsed);
    }

    /** The body of the batch loop. */
    method ProcessItem(a: Acc, tx: Tx, now: U64) returns (r: Result<Acc, Error>)
      ensures r == BatchItem(settings, now, a, tx)
    {
      if tx.amount <= 0 {
        return Abort(BadAmount);
      }
      var charged := CalculateForAsset(tx, now);
      if charged.None? || !ItemFits(a, tx, charged.value) {
        return Abort(Overflow);
      }
      var k, fee := UserAsset(tx.payer, tx.asset), charged.value;
      var assetTotals := a.assetCollected[tx.asset := Get(a.assetCollected, tx.asset) + fee];
      var userAssetTotals := a.userAsset[k := Get(a.userAsset, k) + fee];
      var userTotals := a.userAccrued[tx.payer := Get(a.userAccrued, tx.payer) + fee];
      return Ok(Acc(a.charges + [Charge(tx.amount - fee, fee)], a.batchTotal + fee, userTotals, assetTotals, userAssetTotals));
    }

    /** The batch loop, over copies of the ledgers. */
    method ProcessItems(txs: seq<Tx>, now: U64) returns (r: Result<Acc, Error>)
      ensures r == BatchItems(View(), now, txs)
    {
      var a := Acc([], 0, userAccrued, assetCollected, userAsset);
      for i := 0 to |txs|
        invariant BatchItems(View(), now, txs[..i]) == Ok(a)
      {
        assert txs[..i + 1][..i] == txs[..i];
        var next := ProcessItem(a, txs[i], now);
        if next.Abort? {
          AbortStays(View(), now, txs, i + 1);
          return Abort(next.error);
        }
        a := next.value;
      }
      assert txs[..|txs|] == txs;
      return Ok(a);
    }

    method DeductBatchFees(txs: seq<Tx>, now: U64) returns (r: Result<Reply, Error>)
      modifies this
      ensures (View(), r) == Step(old(View()), Event(now, DeductBatch(txs)))
    {
      var a := ProcessItems(txs, now);
      if a.Abort? {
        return Abort(a.error);
      }
      if !FitsI128(total + a.value.batchTotal) {
        return Abort(Overflow);
      }
      total := total + a.value.batchTotal;
      userAccrued, assetCollected, userAsset := a.value.userAccrued, a.value.assetCollected, a.value.userAsset;
      return Ok(Batched(a.value.charges, a.value.batchTotal));
    }

    method ConfigureFees(caller: Address, s: Settings) returns (r: Result<Reply, Error>)
      modifies this`settings
      ensures (View(), r) == Step(old(View()), Event(0, Configure(caller, s)))
    {
      if caller != admin {
        return Abort(Unauthorized);
      }
      if !ValidSettings(s) {
        return Abort(InvalidSettings);
      }
      settings := s;
      return Ok(Done);
    }
  }
}
