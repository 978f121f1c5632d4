/** The main fee contract: overlapping ledgers, escrow, refunds and distribution. */
module Fees {
  import opened Arithmetic
  import opened Base
  import opened MapSums
  import opened FeeMath

  datatype Category = Transaction | PriorityFee | CrossContract | Batch | TokenTransfer | WalletCreation | Other

  datatype Recipient = Recipient(address: Address, share: U32)

  datatype Settings = Settings(
    percentage: U32,
    schedule: Schedule,
    multipliers: Multipliers,
    treasuryPercentage: U32,
    categoryOf: map<Address, Category>)

  datatype Error =
    | Unauthorized | BadAmount | Overflow | InvalidSettings | InvalidRefundAmount | InsufficientFeeBalance
    | InvalidDistribution | DistributionSumsToWrong | NoDistributionConfigured | NoEscrowedFees

  datatype State = State(
    admin: Address,
    settings: Settings,
    distribution: seq<Recipient>,
    totalCollected: I128,
    treasury: I128,
    userAccrued: map<Address, I128>,
    categoryFees: map<Category, I128>,
    escrowed: map<Address, I128>,
    recipientFees: map<Address, I128>)

  datatype Charge = Charge(net: I128, fee: I128)

  datatype Reply = Charged(charge: Charge) | Amount(amount: I128) | Done

  datatype Op =
    | Deduct(payer: Address, amount: I128)
    | DeductWithPriority(payer: Address, amount: I128, priority: Priority)
    | DeductToEscrow(payer: Address, amount: I128)
    | ReleaseEscrow(caller: Address, user: Address)
    | Refund(caller: Address, user: Address, amount: I128)
    | SetDistribution(caller: Address, recipients: seq<Recipient>)
    | Distribute(caller: Address)
    | Configure(caller: Address, settings: Settings)

  predicate ValidSettings(s: Settings) {
    s.percentage <= BPS && s.treasuryPercentage <= BPS && ValidBounds(s.schedule) && Ascending(s.multipliers)
  }

  function AsError(e: FeeError): Error {
    match e
    case InvalidAmount => BadAmount
    case FeeOverflow => Overflow
  }

  // ----- booking one fee -----

  function TreasuryPart(fee: I128, percentage: U32): int {
    if percentage == 0 then 0 else fee * percentage / BPS
  }

  lemma TreasuryPartBounds(fee: I128, percentage: U32)
    requires 0 <= fee && percentage <= BPS
    ensures 0 <= TreasuryPart(fee, percentage) <= fee
  {
    MulNonNegative(fee, percentage);
    MulMonotone(fee, fee, percentage, BPS);
  }

  function CategoryOf(s: Settings, user: Address): Category {
    if user in s.categoryOf then s.categoryOf[user] else Transaction
  }

  predicate BookingFits(s: State, payer: Address, fee: I128) {
    var part := TreasuryPart(fee, s.settings.treasuryPercentage);
    && (s.settings.treasuryPercentage != 0 ==> FitsI128(fee * s.settings.treasuryPercentage))
    && FitsI128(part) && FitsI128(fee - part)
    && FitsI128(s.treasury + part)
    && FitsI128(Get(s.categoryFees, CategoryOf(s.settings, payer)) + fee)
    && FitsI128(s.totalCollected + fee - part)
    && FitsI128(Get(s.userAccrued, payer) + fee)
  }

  function Booked(s: State, payer: Address, fee: I128): State
    requires BookingFits(s, payer, fee)
  {
    var part := TreasuryPart(fee, s.settings.treasuryPercentage);
    var category := CategoryOf(s.settings, payer);
    s.(treasury := s.treasury + part,
       categoryFees := s.categoryFees[category := Get(s.categoryFees, category) + fee],
       totalCollected := s.totalCollected + fee - part,
       userAccrued := s.userAccrued[payer := Get(s.userAccrued, payer) + fee])
  }

  function DeductStep(s: State, payer: Address, amount: I128, rate: U32): (State, Result<Reply, Error>) {
    var f := Fee(amount, rate, s.settings.schedule);
    if f.Abort? then (s, Abort(AsError(f.error)))
    else if !FitsI128(amount - f.value) || !BookingFits(s, payer, f.value) then (s, Abort(Overflow))
    else (Booked(s, payer, f.value), Ok(Charged(Charge(amount - f.value, f.value))))
  }

  function EscrowStep(s: State, payer: Address, amount: I128): (State, Result<Reply, Error>) {
    var f := Fee(amount, s.settings.percentage, s.settings.schedule);
    if f.Abort? then (s, Abort(AsError(f.error)))
    else
      var held := Get(s.escrowed, payer) + f.value;
      if !FitsI128(amount - f.value) || !FitsI128(held) then (s, Abort(Overflow))
      else (s.(escrowed := s.escrowed[payer := held]), Ok(Charged(Charge(amount - f.value, f.value))))
  }

  function ReleaseStep(s: State, user: Address): (State, Result<Reply, Error>) {
    if Get(s.escrowed, user) == 0 then (s, Abort(NoEscrowedFees))
    else if !FitsI128(s.totalCollected + Get(s.escrowed, user)) then (s, Abort(Overflow))
    else (s.(totalCollected := s.totalCollected + Get(s.escrowed, user), escrowed := s.escrowed - {user}), Ok(Done))
  }

  /** Only the user's own balance is compared with the refund; the global total may become negative. */
  function RefundStep(s: State, user: Address, amount: I128): (State, Result<Reply, Error>) {
    if amount <= 0 then (s, Abort(InvalidRefundAmount))
    else if Get(s.userAccrued, user) < amount then (s, Abort(InsufficientFeeBalance))
    else if !FitsI128(s.totalCollected - amount) then (s, Abort(Overflow))
    else
      (s.(totalCollected := s.totalCollected - amount,
          userAccrued := s.userAccrued[user := Get(s.userAccrued, user) - amount]),
       Ok(Amount(amount)))
  }

  // ----- distribution -----

  function SharesTotal(recipients: seq<Recipient>): nat {
    if recipients == [] then 0
    else SharesTotal(recipients[..|recipients| - 1]) + recipients[|recipients| - 1].share
  }

  /** The first failing check of the validating loop, or None. A u32 overflow needs more than 400_000 entries. */
  function ShareFault(recipients: seq<Recipient>): Option<Error> {
    if recipients == [] then None
    else
      var init, last := recipients[..|recipients| - 1], recipients[|recipients| - 1];
      var fault := ShareFault(init);
      if fault.Some? then fault
      else if last.share > BPS then Some(InvalidDistribution)
      else if SharesTotal(init) + last.share > U32_MAX then Some(Overflow)
      else None
  }

  function SetDistributionStep(s: State, recipients: seq<Recipient>): (State, Result<Reply, Error>) {
    if recipients == [] then (s, Abort(InvalidDistribution))
    else if ShareFault(recipients).Some? then (s, Abort(ShareFault(recipients).value))
    else if SharesTotal(recipients) != BPS then (s, Abort(DistributionSumsToWrong))
    else (s.(distribution := recipients), Ok(Done))
  }

  function ShareOf(total: nat, r: Recipient): nat {
    MulNonNegative(total, r.share);
    total * r.share / BPS
  }

  datatype Payout = Payout(accounts: map<Address, I128>, paid: I128)

  /** Crediting one recipient; None when a checked operation overflows. */
  function PayEntry(total: nat, p: Payout, r: Recipient): Option<Payout> {
    var share := ShareOf(total, r);
    if !FitsI128(total * r.share) || !FitsI128(Get(p.accounts, r.address) + share) || !FitsI128(p.paid + share) then None
    else Some(Payout(p.accounts[r.address := Get(p.accounts, r.address) + share], p.paid + share))
  }

  /** Crediting the recipients in order. */
  function PayOut(total: nat, recipients: seq<Recipient>, accounts: map<Address, I128>): Option<Payout> {
    if recipients == [] then Some(Payout(accounts, 0))
    else
      var before := PayOut(total, recipients[..|recipients| - 1], accounts);
      if before.None? then None else PayEntry(total, before.value, recipients[|recipients| - 1])
  }

  function DistributeStep(s: State): (State, Result<Reply, Error>) {
    if s.distribution == [] then (s, Abort(NoDistributionConfigured))
    else if s.totalCollected <= 0 then (s, Ok(Amount(0)))
    else
      var p := PayOut(s.totalCollected, s.distribution, s.recipientFees);
      if p.None? then (s, Abort(Overflow))
      else (s.(recipientFees := p.value.accounts, totalCollected := 0), Ok(Amount(p.value.paid)))
  }

  function Step(s: State, op: Op): (State, Result<Reply, Error>) {
    match op
    case Deduct(payer, amount) => DeductStep(s, payer, amount, s.settings.percentage)
    case DeductWithPriority(payer, amount, p) =>
      DeductStep(s, payer, amount, AdjustedRate(s.settings.percentage, Multiplier(s.settings.multipliers, p)))
    case DeductToEscrow(payer, amount) => EscrowStep(s, payer, amount)
    case ReleaseEscrow(caller, user) => if caller != s.admin then (s, Abort(Unauthorized)) else ReleaseStep(s, user)
    case Refund(caller, user, amount) =>
      if caller != s.admin then (s, Abort(Unauthorized)) else RefundStep(s, user, amount)
    case SetDistribution(caller, recipients) =>
      if caller != s.admin then (s, Abort(Unauthorized)) else SetDistributionStep(s, recipients)
    case Distribute(caller) => if caller != s.admin then (s, Abort(Unauthorized)) else DistributeStep(s)
    case Configure(caller, settings) =>
      if caller != s.admin then (s, Abort(Unauthorized))
      else if !ValidSettings(settings) then (s, Abort(InvalidSettings))
      else (s.(settings := settings), Ok(Done))
  }

  // ----- what one distribution hands out -----

  /** The sum of the floored shares of one address; it may be listed several times. */
  function Entitlement(total: nat, recipients: seq<Recipient>, a: Address): int {
    if recipients == [] then 0
    else
      var r := recipients[|recipients| - 1];
      Entitlement(total, recipients[..|recipients| - 1], a) + if r.address == a then total * r.share / 10_000 else 0
  }

  lemma {:induction false} PayOutByAddress(total: nat, recipients: seq<Recipient>, accounts: map<Address, I128>)
    requires PayOut(total, recipients, accounts).Some?
    ensures var p := PayOut(total, recipients, accounts).value;
      forall a :: Get(p.accounts, a) == Get(accounts, a) + Entitlement(total, recipients, a)
  {
    if recipients != [] {
      PayOutByAddress(total, recipients[..|recipients| - 1], accounts);
    }
  }

  lemma {:induction false} PayOutTotal(total: nat, recipients: seq<Recipient>, accounts: map<Address, I128>)
    requires PayOut(total, recipients, accounts).Some?
    ensures var p := PayOut(total, recipients, accounts).value;
      Sum(p.accounts) == Sum(accounts) + p.paid && p.paid == SharesPaid(total, recipients)
  {
    if recipients != [] {
      var init, r := recipients[..|recipients| - 1], recipients[|recipients| - 1];
      PayOutTotal(total, init, accounts);
      var before := PayOut(total, init, accounts).value;
      SumUpdate(before.accounts, r.address, Get(before.accounts, r.address) + ShareOf(total, r));
    }
  }

  function SharesPaid(total: nat, recipients: seq<Recipient>): nat {
    if recipients == [] then 0
    else SharesPaid(total, recipients[..|recipients| - 1]) + ShareOf(total, recipients[|recipients| - 1])
  }

  lemma {:induction false} SharesPaidBounds(total: nat, recipients: seq<Recipient>)
    ensures BPS * SharesPaid(total, recipients) <= total * SharesTotal(recipients)
    ensures total * SharesTotal(recipients) <= BPS * SharesPaid(total, recipients) + 9_999 * |recipients|
  {
    if recipients != [] {
      var init, r := recipients[..|recipients| - 1], recipients[|recipients| - 1];
      SharesPaidBounds(total, init);
      MulNonNegative(total, r.share);
      assert total * SharesTotal(recipients) == total * SharesTotal(init) + total * r.share;
    }
  }

  /** A distribution of a positive total to n entries, duplicates included: what is handed out, to whom, and the dust. */
  lemma DistributionBound(s: State)
    requires s.distribution != [] && SharesTotal(s.distribution) == BPS && s.totalCollected > 0
    requires DistributeStep(s).1.Ok?
    ensures var (after, r) := DistributeStep(s);
      && r.value.Amount?
      && s.totalCollected - (|s.distribution| - 1) <= r.value.amount <= s.totalCollected
      && r.value.amount == Sum(after.recipientFees) - Sum(s.recipientFees)
      && after.totalCollected == 0
      && forall a :: Get(after.recipientFees, a) ==
                     Get(s.recipientFees, a) + Entitlement(s.totalCollected, s.distribution, a)
  {
    PayOutByAddress(s.totalCollected, s.distribution, s.recipientFees);
    PayOutTotal(s.totalCollected, s.distribution, s.recipientFees);
    SharesPaidBounds(s.totalCollected, s.distribution);
  }

  /** The products and the accounts of a distribution stay within i128. */
  ghost predicate Payable(total: nat, recipients: seq<Recipient>, accounts: map<Address, I128>) {
    && (forall r <- recipients :: total * r.share <= I128_MAX)
    && (forall a :: Get(accounts, a) + Entitlement(total, recipients, a) <= I128_MAX)
  }

  lemma PayableSplit(total: nat, recipients: seq<Recipient>, accounts: map<Address, I128>)
    requires recipients != []
    ensures var init, r := recipients[..|recipients| - 1], recipients[|recipients| - 1];
      Payable(total, recipients, accounts) <==>
        && Payable(total, init, accounts) && total * r.share <= I128_MAX
        && Get(accounts, r.address) + Entitlement(total, init, r.address) + ShareOf(total, r) <= I128_MAX
  {
    var init, r := recipients[..|recipients| - 1], recipients[|recipients| - 1];
    assert forall x :: x in recipients <==> x in init || x == r;
    assert Entitlement(total, recipients, r.address) == Entitlement(total, init, r.address) + ShareOf(total, r);
    forall a
      ensures Entitlement(total, init, a) <= Entitlement(total, recipients, a)
      ensures a != r.address ==> Entitlement(total, init, a) == Entitlement(total, recipients, a)
    {
    }
    if Payable(total, recipients, accounts) {
      forall a
        ensures Get(accounts, a) + Entitlement(total, init, a) <= I128_MAX
      {
        assert Get(accounts, a) + Entitlement(total, recipients, a) <= I128_MAX;
      }
    }
  }

  lemma {:induction false} PaidExactly(total: nat, recipients: seq<Recipient>, accounts: map<Address, I128>)
    requires total <= I128_MAX && SharesTotal(recipients) <= BPS
    ensures PayOut(total, recipients, accounts).Some? <==> Payable(total, recipients, accounts)
  {
    if recipients != [] {
      var init, r := recipients[..|recipients| - 1], recipients[|recipients| - 1];
      PaidExactly(total, init, accounts);
      PayableSplit(total, recipients, accounts);
      if PayOut(total, init, accounts).Some? {
        PayOutByAddress(total, init, accounts);
        PayOutTotal(total, init, accounts);
        SharesPaidBounds(total, recipients);
        MulMonotone(SharesTotal(recipients), BPS, total, total);
      }
    } else {
      assert forall a :: Get(accounts, a) <= I128_MAX;
    }
  }

  /** A distribution is accepted exactly from the admin once one is configured, when there is nothing to pay or every product
      and every resulting account fits; with nothing to pay it changes nothing. */
  lemma DistributesExactly(s: State, caller: Address)
    requires s.distribution == [] || SharesTotal(s.distribution) == BPS
    ensures Step(s, Distribute(caller)).1.Ok? <==>
              && caller == s.admin && s.distribution != []
              && (s.totalCollected <= 0 || Payable(s.totalCollected, s.distribution, s.recipientFees))
    ensures Step(s, Distribute(caller)).1.Ok? && s.totalCollected <= 0 ==> Step(s, Distribute(caller)) == (s, Ok(Amount(0)))
    ensures Step(s, Distribute(caller)).1.Abort? ==>
              Step(s, Distribute(caller)) ==
                (s, Abort(if caller != s.admin then Unauthorized
                          else if s.distribution == [] then NoDistributionConfigured else Overflow))
  {
    if s.totalCollected > 0 {
      PaidExactly(s.totalCollected, s.distribution, s.recipientFees);
    }
  }

  // ----- conservation over runs -----

  /** Running totals of what the calls reported. */
  datatype Tally = Tally(charged: int, direct: int, refunded: int, dust: int)

  function Tallied(t: Tally, s: State, op: Op): Tally {
    var r := Step(s, op).1;
    if r.Abort? then t
    else
      match op
      case Deduct(_, _) =>
        if r.value.Charged? then t.(charged := t.charged + r.value.charge.fee, direct := t.direct + r.value.charge.fee) else t
      case DeductWithPriority(_, _, _) =>
        if r.value.Charged? then t.(charged := t.charged + r.value.charge.fee, direct := t.direct + r.value.charge.fee) else t
      case DeductToEscrow(_, _) => if r.value.Charged? then t.(charged := t.charged + r.value.charge.fee) else t
      case Refund(_, _, amount) => t.(refunded := t.refunded + amount)
      case Distribute(_) =>
        if r.value.Amount? && s.totalCollected > 0 then t.(dust := t.dust + s.totalCollected - r.value.amount) else t
      case _ => t
  }

  function Run(s: State, ops: seq<Op>): State {
    if ops == [] then s else Step(Run(s, ops[..|ops| - 1]), ops[|ops| - 1]).0
  }

  function RunTally(s: State, ops: seq<Op>): Tally {
    if ops == [] then Tally(0, 0, 0, 0)
    else Tallied(RunTally(s, ops[..|ops| - 1]), Run(s, ops[..|ops| - 1]), ops[|ops| - 1])
  }

  function Deployed(admin: Address, settings: Settings): State {
    State(admin, settings, [], 0, 0, map[], map[], map[], map[])
  }

  predicate NonNegativeMap<K>(m: map<K, I128>) {
    forall k <- m.Keys :: m[k] >= 0
  }

  /** Every fee charged is in exactly one of: the total, the treasury, an escrow, a recipient's account, a refund, or the
      dust of a distribution. Fees charged outside escrow are booked twice more, by user and by category. */
  ghost predicate Conserved(s: State, t: Tally) {
    && ValidSettings(s.settings)
    && (s.distribution == [] || SharesTotal(s.distribution) == BPS)
    && s.totalCollected + s.treasury + Sum(s.escrowed) + Sum(s.recipientFees) + t.refunded + t.dust == t.charged
    && Sum(s.userAccrued) + t.refunded == t.direct == Sum(s.categoryFees)
    && s.treasury >= 0 && t.refunded >= 0 && t.dust >= 0
    && NonNegativeMap(s.userAccrued) && NonNegativeMap(s.escrowed) && NonNegativeMap(s.categoryFees)
  }

  lemma FeeInBounds(amount: I128, rate: U32, schedule: Schedule)
    requires ValidBounds(schedule) && Fee(amount, rate, schedule).Ok?
    ensures schedule.minFee <= Fee(amount, rate, schedule).value <= schedule.maxFee
  {
  }

  lemma ConservedByDeduct(s: State, t: Tally, payer: Address, fee: I128)
    requires Conserved(s, t) && 0 <= fee && BookingFits(s, payer, fee)
    ensures Conserved(Booked(s, payer, fee), t.(charged := t.charged + fee, direct := t.direct + fee))
  {
    TreasuryPartBounds(fee, s.settings.treasuryPercentage);
    var category := CategoryOf(s.settings, payer);
    SumUpdate(s.categoryFees, category, Get(s.categoryFees, category) + fee);
    SumUpdate(s.userAccrued, payer, Get(s.userAccrued, payer) + fee);
  }

  /** The treasury receives the whole part of its percentage and the total the rest; the payer's balance and the payer's
      category each grow by the whole fee; nobody else's do. */
  lemma DeductSplits(s: State, payer: Address, amount: I128, rate: U32)
    requires ValidSettings(s.settings) && DeductStep(s, payer, amount, rate).1.Ok?
    ensures var (s', r) := DeductStep(s, payer, amount, rate);
      && r.value.Charged?
      && var fee, part := r.value.charge.fee, s'.treasury - s.treasury;
         && BPS * part <= fee * s.settings.treasuryPercentage < BPS * (part + 1)
         && 0 <= part <= fee && s'.totalCollected - s.totalCollected == fee - part
         && (forall u :: Get(s'.userAccrued, u) - Get(s.userAccrued, u) == if u == payer then fee else 0)
         && (forall k :: Get(s'.categoryFees, k) - Get(s.categoryFees, k) ==
                         if k == (if payer in s.settings.categoryOf then s.settings.categoryOf[payer] else Transaction)
                         then fee else 0)
         && s'.escrowed == s.escrowed && s'.recipientFees == s.recipientFees
  {
    FeeInBounds(amount, rate, s.settings.schedule);
    TreasuryPartBounds(Fee(amount, rate, s.settings.schedule).value, s.settings.treasuryPercentage);
  }

  lemma ConservedByDeductStep(s: State, t: Tally, payer: Address, amount: I128, rate: U32)
    requires Conserved(s, t) && DeductStep(s, payer, amount, rate).1.Ok?
    ensures var (s', r) := DeductStep(s, payer, amount, rate);
      r.value.Charged? && r.value.charge.net + r.value.charge.fee == amount &&
      Conserved(s', t.(charged := t.charged + r.value.charge.fee, direct := t.direct + r.value.charge.fee))
  {
    FeeInBounds(amount, rate, s.settings.schedule);
    ConservedByDeduct(s, t, payer, Fee(amount, rate, s.settings.schedule).value);
  }

  lemma ConservedByEscrow(s: State, t: Tally, payer: Address, amount: I128)
    requires Conserved(s, t) && EscrowStep(s, payer, amount).1.Ok?
    ensures var (s', r) := EscrowStep(s, payer, amount);
      r.value.Charged? && Conserved(s', t.(charged := t.charged + r.value.charge.fee))
  {
    FeeInBounds(amount, s.settings.percentage, s.settings.schedule);
    var f := Fee(amount, s.settings.percentage, s.settings.schedule).value;
    SumUpdate(s.escrowed, payer, Get(s.escrowed, payer) + f);
  }

  lemma ConservedByRefund(s: State, t: Tally, user: Address, amount: I128)
    requires Conserved(s, t) && RefundStep(s, user, amount).1.Ok?
    ensures Conserved(RefundStep(s, user, amount).0, t.(refunded := t.refunded + amount))
  {
    SumUpdate(s.userAccrued, user, Get(s.userAccrued, user) - amount);
  }

  lemma ConservedByRelease(s: State, t: Tally, user: Address)
    requires Conserved(s, t)
    ensures Conserved(ReleaseStep(s, user).0, t)
  {
    if user in s.escrowed {
      SumRemove(s.escrowed, user);
    }
  }

  lemma ConservedByDistribute(s: State, t: Tally)
    requires Conserved(s, t) && s.totalCollected > 0 && DistributeStep(s).1.Ok?
    ensures var (s', r) := DistributeStep(s);
      r.value.Amount? && Conserved(s', t.(dust := t.dust + s.totalCollected - r.value.amount))
  {
    DistributionBound(s);
  }

  lemma ConservedStep(s: State, t: Tally, op: Op)
    requires Conserved(s, t)
    ensures Conserved(Step(s, op).0, Tallied(t, s, op))
  {
    if Step(s, op).1.Ok? {
      match op
      case Deduct(payer, amount) => ConservedByDeductStep(s, t, payer, amount, s.settings.percentage);
      case DeductWithPriority(payer, amount, p) =>
        ConservedByDeductStep(s, t, payer, amount, AdjustedRate(s.settings.percentage, Multiplier(s.settings.multipliers, p)));
      case DeductToEscrow(payer, amount) => ConservedByEscrow(s, t, payer, amount);
      case ReleaseEscrow(_, user) => ConservedByRelease(s, t, user);
      case Refund(_, user, amount) => ConservedByRefund(s, t, user, amount);
      case Distribute(_) =>
        if s.totalCollected > 0 {
          ConservedByDistribute(s, t);
        }
      case SetDistribution(_, _) =>
      case Configure(_, _) =>
    }
  }

  /** Conservation over every run of a freshly deployed contract. */
  lemma {:induction false} ConservedRun(admin: Address, settings: Settings, ops: seq<Op>)
    requires ValidSettings(settings)
    ensures var s := Deployed(admin, settings); Conserved(Run(s, ops), RunTally(s, ops))
  {
    var s := Deployed(admin, settings);
    if ops != [] {
      var init := ops[..|ops| - 1];
      ConservedRun(admin, settings, init);
      ConservedStep(Run(s, init), RunTally(s, init), ops[|ops| - 1]);
    }
  }

  /** A held fee is the payer's alone, and a release pays exactly what all holds of the user have accumulated into the total. */
  lemma HoldThenRelease(s: State, payer: Address, amount: I128)
    requires ValidSettings(s.settings) && EscrowStep(s, payer, amount).1.Ok?
    ensures var (held, r) := EscrowStep(s, payer, amount);
      && r.value.Charged? && r.value.charge.net + r.value.charge.fee == amount
      && held.(escrowed := s.escrowed) == s
      && (forall u :: Get(held.escrowed, u) - Get(s.escrowed, u) == if u == payer then r.value.charge.fee else 0)
      && var (freed, done) := ReleaseStep(held, payer);
         done.Ok? ==>
           && freed.totalCollected == s.totalCollected + Get(s.escrowed, payer) + r.value.charge.fee
           && freed.(totalCollected := s.totalCollected, escrowed := s.escrowed) == s
           && (forall u :: Get(freed.escrowed, u) == if u == payer then 0 else Get(s.escrowed, u))
           && ReleaseStep(freed, payer).1 == Abort(NoEscrowedFees)
  {
    FeeInBounds(amount, s.settings.percentage, s.settings.schedule);
  }

  /** Refunds of one user, one after another, succeed as long as they add up to no more than the user's balance. */
  lemma RefundsUpToBalance(s: State, user: Address, first: I128, second: I128)
    requires first > 0 && second > 0 && FitsI128(s.totalCollected - first - second)
    ensures var (s1, r1) := RefundStep(s, user, first);
      && (r1.Ok? <==> first <= Get(s.userAccrued, user))
      && (r1.Ok? ==> r1.value == Amount(first))
      && (r1.Ok? ==>
            var (s2, r2) := RefundStep(s1, user, second);
            && (r2.Ok? <==> first + second <= Get(s.userAccrued, user))
            && (r2.Ok? ==> s2 == RefundStep(s, user, first + second).0))
  {
    if first + second <= Get(s.userAccrued, user) {
      var s2 := RefundStep(RefundStep(s, user, first).0, user, second).0;
      assert s2.userAccrued == RefundStep(s, user, first + second).0.userAccrued;
    }
  }

  lemma {:induction false} SharesWithin(recipients: seq<Recipient>)
    requires SharesTotal(recipients) <= BPS
    ensures ShareFault(recipients) == None
  {
    if recipients != [] {
      SharesWithin(recipients[..|recipients| - 1]);
    }
  }

  /** Entry i has a share above 100%, or takes the running sum beyond u32. */
  predicate IsFault(recipients: seq<Recipient>, i: nat)
    requires i < |recipients|
  {
    recipients[i].share > 10_000 || SharesTotal(recipients[..i + 1]) > U32_MAX
  }

  predicate FaultlessTo(recipients: seq<Recipient>, n: nat)
    requires n <= |recipients|
  {
    forall i: nat :: i < n ==> !IsFault(recipients, i)
  }

  predicate IsFirstFault(recipients: seq<Recipient>, i: nat)
    requires i < |recipients|
  {
    FaultlessTo(recipients, i) && IsFault(recipients, i)
  }

  lemma {:induction false} NoFaultBefore(recipients: seq<Recipient>, i: nat)
    requires i <= |recipients| && FaultlessTo(recipients, i)
    ensures ShareFault(recipients[..i]) == None
  {
    if i > 0 {
      NoFaultBefore(recipients, i - 1);
      assert !IsFault(recipients, i - 1);
      assert recipients[..i][..i - 1] == recipients[..i - 1];
    }
  }

  lemma FirstFaultExactly(recipients: seq<Recipient>, i: nat)
    requires i < |recipients| && IsFirstFault(recipients, i)
    ensures ShareFault(recipients) == Some(if recipients[i].share > 10_000 then InvalidDistribution else Overflow)
  {
    NoFaultBefore(recipients, i);
    assert recipients[..i + 1][..i] == recipients[..i];
    FaultStays(recipients, i + 1);
  }

  /** The admin's distribution is accepted exactly when its shares sum to 100%; every accepted share is then within 100%. An
      empty list is refused as invalid, and any other for its first fault, or for its sum if it has none. */
  lemma AcceptedExactly(s: State, recipients: seq<Recipient>, i: nat)
    ensures SetDistributionStep(s, recipients).1.Ok? <==> SharesTotal(recipients) == 10_000
    ensures SetDistributionStep(s, recipients).1.Ok? ==> SetDistributionStep(s, recipients).0 == s.(distribution := recipients)
    ensures recipients == [] ==> SetDistributionStep(s, recipients) == (s, Abort(InvalidDistribution))
    ensures i < |recipients| && IsFirstFault(recipients, i) ==>
              SetDistributionStep(s, recipients) ==
                (s, Abort(if recipients[i].share > 10_000 then InvalidDistribution else Overflow))
    ensures recipients != [] && SharesTotal(recipients) != 10_000
            && FaultlessTo(recipients, |recipients|) ==>
              SetDistributionStep(s, recipients) == (s, Abort(DistributionSumsToWrong))
  {
    if SharesTotal(recipients) == BPS {
      SharesWithin(recipients);
    }
    if i < |recipients| && IsFirstFault(recipients, i) {
      FirstFaultExactly(recipients, i);
    }
    if FaultlessTo(recipients, |recipients|) {
      NoFaultBefore(recipients, |recipients|);
      assert recipients[..|recipients|] == recipients;
    }
  }

  // ----- the charging calls, in plain terms -----

  predicate IsCharge(op: Op) {
    op.Deduct? || op.DeductWithPriority? || op.DeductToEscrow?
  }

  /** The percentage, times the priority's own multiplier over 10_000 in the priority call. */
  predicate IsRate(rate: int, s: Settings, op: Op) {
    if op.DeductWithPriority? then IsPriorityRate(rate, s.percentage, s.multipliers, op.priority) else rate == s.percentage
  }

  predicate IsPart(part: int, fee: int, percentage: int) {
    10_000 * part <= fee * percentage < 10_000 * (part + 1)
  }

  /** The sums a charge makes stay within i128. */
  predicate HasRoom(s: State, op: Op, fee: int, part: int)
    requires IsCharge(op)
  {
    && op.amount - fee >= I128_MIN
    && if op.DeductToEscrow? then Get(s.escrowed, op.payer) + fee <= I128_MAX
       else
         var category := if op.payer in s.settings.categoryOf then s.settings.categoryOf[op.payer] else Transaction;
         && fee * s.settings.treasuryPercentage <= I128_MAX
         && s.treasury + part <= I128_MAX && s.totalCollected + fee - part <= I128_MAX
         && Get(s.categoryFees, category) + fee <= I128_MAX && Get(s.userAccrued, op.payer) + fee <= I128_MAX
  }

  /** A fee is booked to the payer's escrow alone, or to treasury and total, to the payer and to the payer's category. */
  ghost predicate Books(s: State, after: State, op: Op, fee: int, part: int)
    requires IsCharge(op)
  {
    if op.DeductToEscrow? then Grows(s.escrowed, after.escrowed, op.payer, fee) && after.(escrowed := s.escrowed) == s
    else
      var category := if op.payer in s.settings.categoryOf then s.settings.categoryOf[op.payer] else Transaction;
      && after.treasury == s.treasury + part && after.totalCollected == s.totalCollected + fee - part
      && Grows(s.userAccrued, after.userAccrued, op.payer, fee) && Grows(s.categoryFees, after.categoryFees, category, fee)
      && after.(treasury := s.treasury, totalCollected := s.totalCollected, userAccrued := s.userAccrued,
                categoryFees := s.categoryFees) == s
  }

  /** The whole law of the three charging calls. Let rate be the call's rate, fee the amount's share at that rate rounded as
      configured and cut to the bounds, and part the treasury's share of it: the call is accepted exactly when the amount is
      positive and all sums fit, answers that fee and the rest, and books it. */
  lemma ChargeLaw(s: State, op: Op, rate: int, u: int, fee: int, part: int)
    requires ValidSettings(s.settings) && IsCharge(op) && IsRate(rate, s.settings, op)
    requires IsFee(fee, op.amount, rate, s.settings.schedule, u) && IsPart(part, fee, s.settings.treasuryPercentage)
    ensures Step(s, op).1.Ok? <==>
              && op.amount > 0 && HasRoom(s, op, fee, part)
              && op.amount * rate + (if s.settings.schedule.rounding == Round then 5_000 else 0) <= I128_MAX
    ensures Step(s, op).1.Ok? ==>
              Step(s, op).1 == Ok(Charged(Charge(op.amount - fee, fee))) && Books(s, Step(s, op).0, op, fee, part)
    ensures Step(s, op).1.Abort? ==> Step(s, op) == (s, Abort(if op.amount <= 0 then BadAmount else Overflow))
  {
    if op.amount > 0 {
      ChargeRate(s.settings, op, rate);
      MulNonNegative(op.amount, rate);
      if op.amount * rate + (if s.settings.schedule.rounding == Round then 5_000 else 0) <= I128_MAX {
        FeeValue(op.amount, rate, s.settings.schedule, fee, u);
        FeeInBounds(op.amount, rate, s.settings.schedule);
        TreasuryPartBounds(fee, s.settings.treasuryPercentage);
        assert part == TreasuryPart(fee, s.settings.treasuryPercentage);
        if op.DeductToEscrow? {
          EscrowLaw(s, op.payer, op.amount, fee);
        } else {
          DeductLaw(s, op, rate, fee, part);
        }
      }
    }
  }

  function RateOf(s: Settings, op: Op): U32 {
    if op.DeductWithPriority? then AdjustedRate(s.percentage, Multiplier(s.multipliers, op.priority)) else s.percentage
  }

  lemma ChargeRate(s: Settings, op: Op, rate: int)
    requires s.percentage <= BPS && IsRate(rate, s, op)
    ensures rate == RateOf(s, op)
  {
    if op.DeductWithPriority? {
      PriorityRateExactly(s.percentage, s.multipliers, op.priority);
    }
  }

  lemma FeeValue(amount: I128, rate: U32, s: Schedule, fee: int, u: int)
    requires amount > 0 && amount * rate + (if s.rounding == Round then 5_000 else 0) <= I128_MAX
    requires IsFee(fee, amount, rate, s, u)
    ensures Fee(amount, rate, s) == Ok(fee)
  {
    MulNonNegative(amount, rate);
    RoundedExactly(amount * rate, s.rounding);
  }

  lemma EscrowLaw(s: State, payer: Address, amount: I128, fee: int)
    requires Fee(amount, s.settings.percentage, s.settings.schedule) == Ok(fee) && 0 <= fee
    ensures var op, (s', r) := DeductToEscrow(payer, amount), EscrowStep(s, payer, amount);
      && (r.Ok? <==> HasRoom(s, op, fee, 0)) && r != Abort(BadAmount)
      && (r.Ok? ==> r.value == Charged(Charge(amount - fee, fee)) && Books(s, s', op, fee, 0))
  {
  }

  lemma RoomExactly(s: State, op: Op, fee: I128, part: int)
    requires (op.Deduct? || op.DeductWithPriority?) && FitsI128(op.amount - fee)
    requires part == TreasuryPart(fee, s.settings.treasuryPercentage) && 0 <= part <= fee
    ensures BookingFits(s, op.payer, fee) <==> HasRoom(s, op, fee, part)
  {
    MulNonNegative(fee, s.settings.treasuryPercentage);
  }

  lemma BookedExactly(s: State, op: Op, fee: I128)
    requires (op.Deduct? || op.DeductWithPriority?) && BookingFits(s, op.payer, fee)
    ensures Books(s, Booked(s, op.payer, fee), op, fee, TreasuryPart(fee, s.settings.treasuryPercentage))
  {
  }

  lemma DeductLaw(s: State, op: Op, rate: U32, fee: I128, part: int)
    requires op.Deduct? || op.DeductWithPriority?
    requires Fee(op.amount, rate, s.settings.schedule) == Ok(fee)
    requires part == TreasuryPart(fee, s.settings.treasuryPercentage) && 0 <= part <= fee
    ensures var (s', r) := DeductStep(s, op.payer, op.amount, rate);
      && (r.Ok? <==> HasRoom(s, op, fee, part)) && r != Abort(BadAmount)
      && (r.Ok? ==> r.value == Charged(Charge(op.amount - fee, fee)) && Books(s, s', op, fee, part))
  {
    if FitsI128(op.amount - fee) {
      RoomExactly(s, op, fee, part);
      if BookingFits(s, op.payer, fee) {
        BookedExactly(s, op, fee);
      }
    }
  }

  /** So every accepted charging call takes a fee that is the amount's share rounded as configured, at the percentage or at the
      percentage times the priority's multiplier, cut to the bounds. */
  lemma ChargesRounded(s: State, op: Op)
    requires ValidSettings(s.settings) && IsCharge(op) && Step(s, op).1.Ok?
    ensures Step(s, op).1.value.Charged?
    ensures var charge := Step(s, op).1.value.charge;
      exists rate, u :: IsRate(rate, s.settings, op) && IsFee(charge.fee, op.amount, rate, s.settings.schedule, u)
  {
    var rate := RateOf(s.settings, op);
    if op.DeductWithPriority? {
      PriorityRateExactly(s.settings.percentage, s.settings.multipliers, op.priority);
    }
    var u := FeeIsRounded(op.amount, rate, s.settings.schedule);
    assert IsRate(rate, s.settings, op);
  }

  /** A release is accepted exactly from the admin, for a user with something held, when the total can take it. */
  lemma ReleaseExactly(s: State, caller: Address, user: Address)
    ensures Step(s, ReleaseEscrow(caller, user)).1.Ok? <==>
              && caller == s.admin && Get(s.escrowed, user) != 0
              && I128_MIN <= s.totalCollected + Get(s.escrowed, user) <= I128_MAX
    ensures Step(s, ReleaseEscrow(caller, user)).1.Abort? ==>
              Step(s, ReleaseEscrow(caller, user)) ==
                (s, Abort(if caller != s.admin then Unauthorized
                          else if Get(s.escrowed, user) == 0 then NoEscrowedFees else Overflow))
  {
  }

  /** A refund is accepted exactly from the admin, of a positive amount within the user's balance, while the total can drop by
      it; it lowers both. */
  lemma RefundsExactly(s: State, caller: Address, user: Address, amount: I128)
    ensures var (after, r) := Step(s, Refund(caller, user, amount));
      && (r.Ok? <==> caller == s.admin && 0 < amount <= Get(s.userAccrued, user) && s.totalCollected - amount >= I128_MIN)
      && (r.Ok? ==>
            && r.value == Amount(amount) && after.totalCollected == s.totalCollected - amount
            && Grows(s.userAccrued, after.userAccrued, user, -amount)
            && after.(totalCollected := s.totalCollected, userAccrued := s.userAccrued) == s)
      && (r.Abort? ==>
            && after == s
            && r.error == if caller != s.admin then Unauthorized
                          else if amount <= 0 then InvalidRefundAmount
                          else if amount > Get(s.userAccrued, user) then InsufficientFeeBalance else Overflow)
  {
  }

  /** Settings are accepted exactly from the admin, with percentages up to 100%, ordered bounds and ascending multipliers. */
  lemma ConfiguresExactly(s: State, caller: Address, settings: Settings)
    ensures Step(s, Configure(caller, settings)).1.Ok? <==>
              && caller == s.admin && settings.percentage <= 10_000 && settings.treasuryPercentage <= 10_000
              && 0 <= settings.schedule.minFee <= settings.schedule.maxFee
              && settings.multipliers.low <= settings.multipliers.medium <= settings.multipliers.high
              && settings.multipliers.high <= settings.multipliers.urgent
    ensures Step(s, Configure(caller, settings)).1.Ok? ==> Step(s, Configure(caller, settings)).0 == s.(settings := settings)
    ensures Step(s, Configure(caller, settings)).1.Abort? ==>
              Step(s, Configure(caller, settings)) ==
                (s, Abort(if caller != s.admin then Unauthorized else InvalidSettings))
  {
  }

  // ----- when a refund overdraws the total -----

  /** An accepted refund leaves the total non-negative exactly when it is at most the total read before the call. */
  lemma RefundKeepsTotal(s: State, caller: Address, user: Address, amount: I128)
    requires s.totalCollected >= 0 && Step(s, Refund(caller, user, amount)).1.Ok?
    ensures Step(s, Refund(caller, user, amount)).0.totalCollected >= 0 <==> amount <= s.totalCollected
  {
  }

  predicate Overdraws(s: State, op: Op) {
    op.Refund? && Step(s, op).1.Ok? && op.amount > s.totalCollected
  }

  /** The total is negative after some prefix of the run. */
  predicate EverNegative(s: State, ops: seq<Op>) {
    Run(s, ops).totalCollected < 0 || (ops != [] && EverNegative(s, ops[..|ops| - 1]))
  }

  /** Some refund of the run was accepted although it was larger than the total before it. */
  predicate EverOverdrawn(s: State, ops: seq<Op>) {
    ops != [] &&
    (Overdraws(Run(s, ops[..|ops| - 1]), ops[|ops| - 1]) || EverOverdrawn(s, ops[..|ops| - 1]))
  }

  /** Only an overdrawing refund takes a non-negative total below zero. */
  lemma TurnsNegativeExactly(s: State, t: Tally, op: Op)
    requires Conserved(s, t) && s.totalCollected >= 0
    ensures Step(s, op).0.totalCollected < 0 <==> Overdraws(s, op)
  {
    if Step(s, op).1.Ok? {
      match op
      case Deduct(payer, amount) => DeductSplits(s, payer, amount, s.settings.percentage);
      case DeductWithPriority(payer, amount, p) =>
        DeductSplits(s, payer, amount, AdjustedRate(s.settings.percentage, Multiplier(s.settings.multipliers, p)));
      case Refund(caller, user, amount) => RefundKeepsTotal(s, caller, user, amount);
      case _ =>
    }
  }

  /** Over every run, the total is negative at some point exactly when some accepted refund was larger than the total stored
      before it. */
  lemma {:induction false} NegativeExactly(admin: Address, settings: Settings, ops: seq<Op>)
    requires ValidSettings(settings)
    ensures EverNegative(Deployed(admin, settings), ops) <==> EverOverdrawn(Deployed(admin, settings), ops)
  {
    var s := Deployed(admin, settings);
    if ops != [] {
      var init := ops[..|ops| - 1];
      NegativeExactly(admin, settings, init);
      ConservedRun(admin, settings, init);
      if !EverNegative(s, init) {
        TurnsNegativeExactly(Run(s, init), RunTally(s, init), ops[|ops| - 1]);
      }
    }
  }

  /** Over every run, the user balances are backed: the total, and what left it for the treasury, for recipients and as dust,
      add up to at least the sum of all user balances. */
  lemma {:induction false} BackedRun(admin: Address, settings: Settings, ops: seq<Op>)
    requires ValidSettings(settings)
    ensures var s, t := Run(Deployed(admin, settings), ops), RunTally(Deployed(admin, settings), ops);
      && t.charged - t.direct >= Sum(s.escrowed)
      && s.totalCollected + s.treasury + Sum(s.recipientFees) + t.dust >= Sum(s.userAccrued) >= 0
  {
    var s := Deployed(admin, settings);
    ConservedRun(admin, settings, ops);
    SumNonNegative(Run(s, ops).userAccrued);
    if ops != [] {
      var init := ops[..|ops| - 1];
      BackedRun(admin, settings, init);
      ConservedRun(admin, settings, init);
      HeldWithinCharged(Run(s, init), RunTally(s, init), ops[|ops| - 1]);
    }
  }

  lemma HeldByEscrow(s: State, payer: Address, amount: I128)
    requires EscrowStep(s, payer, amount).1.Ok?
    ensures var (s', r) := EscrowStep(s, payer, amount);
      r.value.Charged? && Sum(s'.escrowed) == Sum(s.escrowed) + r.value.charge.fee
  {
    var f := Fee(amount, s.settings.percentage, s.settings.schedule).value;
    SumUpdate(s.escrowed, payer, Get(s.escrowed, payer) + f);
  }

  lemma HeldByRelease(s: State, user: Address)
    requires NonNegativeMap(s.escrowed)
    ensures Sum(ReleaseStep(s, user).0.escrowed) <= Sum(s.escrowed)
  {
    if user in s.escrowed {
      SumRemove(s.escrowed, user);
    }
  }

  lemma HeldWithinCharged(s: State, t: Tally, op: Op)
    requires Conserved(s, t) && t.charged - t.direct >= Sum(s.escrowed)
    ensures var t' := Tallied(t, s, op); t'.charged - t'.direct >= Sum(Step(s, op).0.escrowed)
  {
    if Step(s, op).1.Ok? {
      match op
      case DeductToEscrow(payer, amount) => HeldByEscrow(s, payer, amount);
      case ReleaseEscrow(_, user) => HeldByRelease(s, user);
      case Deduct(payer, amount) => DeductSplits(s, payer, amount, s.settings.percentage);
      case DeductWithPriority(payer, amount, p) =>
        DeductSplits(s, payer, amount, AdjustedRate(s.settings.percentage, Multiplier(s.settings.multipliers, p)));
      case _ =>
    }
  }

  /** Calls that take nothing out of the total except by a refund, as long as deductions credit no treasury. */
  predicate KeepsFees(op: Op) {
    !op.Distribute? && (op.Configure? ==> op.settings.treasuryPercentage == 0)
  }

  ghost predicate Undistributed(s: State, t: Tally) {
    s.treasury == 0 && s.recipientFees == map[] && t.dust == 0
  }

  /** While nothing has left the total for the treasury or by distribution, it covers every user balance, so it is not
      negative and no refund can overdraw it. */
  lemma CoveredWhileUndistributed(admin: Address, settings: Settings, ops: seq<Op>, op: Op)
    requires ValidSettings(settings)
    requires Undistributed(Run(Deployed(admin, settings), ops), RunTally(Deployed(admin, settings), ops))
    ensures var s := Run(Deployed(admin, settings), ops);
      s.totalCollected >= Sum(s.userAccrued) >= 0 && !Overdraws(s, op)
  {
    BackedRun(admin, settings, ops);
    ConservedRun(admin, settings, ops);
    var s := Run(Deployed(admin, settings), ops);
    if op.Refund? && op.user in s.userAccrued {
      SumNonNegative(s.userAccrued);
    }
  }

  lemma FeesKept(s: State, op: Op)
    requires KeepsFees(op) && s.settings.treasuryPercentage == 0
    ensures var s' := Step(s, op).0;
      s'.settings.treasuryPercentage == 0 && s'.treasury == s.treasury && s'.recipientFees == s.recipientFees
  {
  }

  /** Without a treasury percentage and without distributions the total covers the sum of all user balances after every run,
      and is never negative on the way. */
  lemma {:induction false} NoTreasuryNeverNegative(admin: Address, settings: Settings, ops: seq<Op>)
    requires ValidSettings(settings) && settings.treasuryPercentage == 0
    requires forall i :: 0 <= i < |ops| ==> KeepsFees(ops[i])
    ensures var s := Run(Deployed(admin, settings), ops);
      && s.settings.treasuryPercentage == 0 && Undistributed(s, RunTally(Deployed(admin, settings), ops))
      && s.totalCollected >= Sum(s.userAccrued) >= 0
      && !EverNegative(Deployed(admin, settings), ops)
  {
    var s := Deployed(admin, settings);
    if ops != [] {
      var init := ops[..|ops| - 1];
      NoTreasuryNeverNegative(admin, settings, init);
      FeesKept(Run(s, init), ops[|ops| - 1]);
    }
    CoveredWhileUndistributed(admin, settings, ops, Deduct(0, 0));
  }

  predicate IsDeduction(op: Op) {
    op.Deduct? || op.DeductWithPriority?
  }

  /** Some single deduction on a fresh contract credits the treasury. */
  ghost predicate CreditsTreasury(admin: Address, settings: Settings) {
    exists op :: IsDeduction(op) && Step(Deployed(admin, settings), op).0.treasury > 0
  }

  /** Neither the settings change nor is anything distributed. */
  ghost predicate Fixed(ops: seq<Op>) {
    forall i :: 0 <= i < |ops| ==> !ops[i].Distribute? && !ops[i].Configure?
  }

  lemma TreasuryStays(s: State, admin: Address, op: Op)
    requires ValidSettings(s.settings) && !CreditsTreasury(admin, s.settings) && !op.Distribute? && !op.Configure?
    ensures Step(s, op).0.treasury == s.treasury && Step(s, op).0.settings == s.settings
    ensures Step(s, op).0.recipientFees == s.recipientFees
  {
    if IsDeduction(op) && Step(s, op).1.Ok? {
      var rate := if op.Deduct? then s.settings.percentage
                  else AdjustedRate(s.settings.percentage, Multiplier(s.settings.multipliers, op.priority));
      FeeInBounds(op.amount, rate, s.settings.schedule);
      var fee := Fee(op.amount, rate, s.settings.schedule).value;
      TreasuryPartBounds(fee, s.settings.treasuryPercentage);
      assert Step(Deployed(admin, s.settings), op).0.treasury == TreasuryPart(fee, s.settings.treasuryPercentage);
    }
  }

  lemma {:induction false} FixedRun(admin: Address, settings: Settings, ops: seq<Op>)
    requires ValidSettings(settings) && !CreditsTreasury(admin, settings) && Fixed(ops)
    ensures var s := Run(Deployed(admin, settings), ops);
      && s.settings == settings && Undistributed(s, RunTally(Deployed(admin, settings), ops))
      && !EverNegative(Deployed(admin, settings), ops)
  {
    var s := Deployed(admin, settings);
    if ops != [] {
      var init := ops[..|ops| - 1];
      FixedRun(admin, settings, init);
      TreasuryStays(Run(s, init), admin, ops[|ops| - 1]);
    }
    CoveredWhileUndistributed(admin, settings, ops, Deduct(0, 0));
  }

  /** Under fixed settings and without distributions, no run ever has a negative total exactly when no deduction credits the
      treasury: one that does is followed by a refund of its whole fee. */
  lemma NeverNegativeExactly(admin: Address, settings: Settings)
    requires ValidSettings(settings)
    ensures (forall ops :: Fixed(ops) ==> !EverNegative(Deployed(admin, settings), ops)) <==> !CreditsTreasury(admin, settings)
  {
    var s := Deployed(admin, settings);
    if CreditsTreasury(admin, settings) {
      var op :| IsDeduction(op) && Step(s, op).0.treasury > 0;
      var ops := RefundOfWholeFee(admin, settings, op);
      assert Fixed(ops) && EverNegative(s, ops);
    } else {
      forall ops | Fixed(ops)
        ensures !EverNegative(s, ops)
      {
        FixedRun(admin, settings, ops);
      }
    }
  }

  lemma RefundOfWholeFee(admin: Address, settings: Settings, op: Op) returns (ops: seq<Op>)
    requires ValidSettings(settings) && IsDeduction(op) && Step(Deployed(admin, settings), op).0.treasury > 0
    ensures Fixed(ops) && EverNegative(Deployed(admin, settings), ops)
  {
    var s := Deployed(admin, settings);
    var rate := if op.Deduct? then settings.percentage
                else AdjustedRate(settings.percentage, Multiplier(settings.multipliers, op.priority));
    DeductSplits(s, op.payer, op.amount, rate);
    var s1 := Step(s, op).0;
    ops := [op, Refund(admin, op.payer, Get(s1.userAccrued, op.payer))];
    assert ops[..1] == [op] && ops[..1][..0] == [] && ops[..2] == ops;
    assert Run(s, ops[..1]) == s1;
    assert Run(s, ops[..2]) == Step(s1, ops[1]).0;
  }

  /** The guard of a refund reads the user's balance alone, so a total already routed to the treasury can be overdrawn. */
  lemma RefundOverdrawsTotal(admin: Address, payer: Address)
    ensures var settings := Settings(BPS, Schedule(Floor, 0, I128_MAX), Multipliers(1, 1, 1, 1), BPS, map[]);
      var ops := [Deduct(payer, 100), Refund(admin, payer, 40)];
      var s := Run(Deployed(admin, settings), ops);
      ValidSettings(settings) && s.totalCollected == -40 && Get(s.userAccrued, payer) == 60
  {
    var settings := Settings(BPS, Schedule(Floor, 0, I128_MAX), Multipliers(1, 1, 1, 1), BPS, map[]);
    var ops := [Deduct(payer, 100), Refund(admin, payer, 40)];
    assert ops[..1] == [Deduct(payer, 100)] && ops[..1][..0] == [];
    var s1 := Step(Deployed(admin, settings), ops[0]).0;
    assert s1 == Run(Deployed(admin, settings), ops[..1]);
    assert s1.totalCollected == 0 && Get(s1.userAccrued, payer) == 100;
  }

  /** Every call that is not a deduction is the admin's alone: by anybody else it is refused and changes nothing. */
  lemma AdminOnly(s: State, op: Op)
    requires op.ReleaseEscrow? || op.Refund? || op.SetDistribution? || op.Distribute? || op.Configure?
    ensures op.caller != s.admin ==> Step(s, op) == (s, Abort(Unauthorized))
    ensures op.caller == s.admin && !op.SetDistribution? ==> Step(s, op).1 != Abort(Unauthorized)
  {
  }

  // ----- the contract -----

  class FeesContract {
    var admin: Address
    var settings: Settings
    var distribution: seq<Recipient>
    var totalCollected: I128
    var treasury: I128
    var userAccrued: map<Address, I128>
    var categoryFees: map<Category, I128>
    var escrowed: map<Address, I128>
    var recipientFees: map<Address, I128>

    ghost function View(): State
      reads this
    {
      State(admin, settings, distribution, totalCollected, treasury, userAccrued, categoryFees, escrowed, recipientFees)
    }

    constructor (admin: Address, settings: Settings)
      requires ValidSettings(settings)
      ensures View() == Deployed(admin, settings) && Conserved(View(), Tally(0, 0, 0, 0))
    {
      this.admin, this.settings := admin, settings;
      distribution, totalCollected, treasury := [], 0, 0;
      userAccrued, categoryFees, escrowed, recipientFees := map[], map[], map[], map[];
    }

    method DeductFee(payer: Address, amount: I128) returns (r: Result<Reply, Error>)
      modifies this
      ensures (View(), r) == Step(old(View()), Deduct(payer, amount))
    {
      r := DeductAt(payer, amount, settings.percentage);
    }

    method DeductFeeWithPriority(payer: Address, amount: I128, p: Priority) returns (r: Result<Reply, Error>)
      modifies this
      ensures (View(), r) == Step(old(View()), DeductWithPriority(payer, amount, p))
    {
      r := DeductAt(payer, amount, AdjustedRate(settings.percentage, Multiplier(settings.multipliers, p)));
    }

    /** The body both deductions share. */
    method DeductAt(payer: Address, amount: I128, rate: U32) returns (r: Result<Reply, Error>)
      modifies this
      ensures (View(), r) == DeductStep(old(View()), payer, amount, rate)
    {
      var charged := Fee(amount, rate, settings.schedule);
      if charged.Abort? {
        return Abort(AsError(charged.error));
      }
      var fee := charged.value;
      var net := amount - fee;
      if !FitsI128(net) {
        return Abort(Overflow);
      }
      var treasuryAmount, remaining := 0, fee;
      if settings.treasuryPercentage != 0 {
        if !FitsI128(fee * settings.treasuryPercentage) {
          return Abort(Overflow);
        }
        treasuryAmount := fee * settings.treasuryPercentage / BPS;
        remaining := fee - treasuryAmount;
      }
      var category := CategoryOf(settings, payer);
      var categoryTotal := Get(categoryFees, category) + fee;
      var userTotal := Get(userAccrued, payer) + fee;
      if !FitsI128(treasuryAmount) || !FitsI128(remaining) || !FitsI128(treasury + treasuryAmount)
         || !FitsI128(categoryTotal) || !FitsI128(totalCollected + remaining) || !FitsI128(userTotal) {
        return Abort(Overflow);
      }
      treasury := treasury + treasuryAmount;
      categoryFees := categoryFees[category := categoryTotal];
      totalCollected := totalCollected + remaining;
      userAccrued := userAccrued[payer := userTotal];
      return Ok(Charged(Charge(net, fee)));
    }

    method DeductFeeToEscrow(payer: Address, amount: I128) returns (r: Result<Reply, Error>)
      modifies this`escrowed
      ensures (View(), r) == Step(old(View()), DeductToEscrow(payer, amount))
    {
      var charged := Fee(amount, settings.percentage, settings.schedule);
      if charged.Abort? {
        return Abort(AsError(charged.error));
      }
      var held := Get(escrowed, payer) + charged.value;
      if !FitsI128(amount - charged.value) || !FitsI128(held) {
        return Abort(Overflow);
      }
      escrowed := escrowed[payer := held];
      return Ok(Charged(Charge(amount - charged.value, charged.value)));
    }

    method ReleaseEscrowOf(caller: Address, user: Address) returns (r: Result<Reply, Error>)
      modifies this`escrowed, this`totalCollected
      ensures (View(), r) == Step(old(View()), ReleaseEscrow(caller, user))
    {
      if caller != admin {
        return Abort(Unauthorized);
      }
      if user !in escrowed || escrowed[user] == 0 {
        return Abort(NoEscrowedFees);
      }
      if !FitsI128(totalCollected + escrowed[user]) {
        return Abort(Overflow);
      }
      totalCollected := totalCollected + escrowed[user];
      escrowed := escrowed - {user};
      return Ok(Done);
    }

    method RefundFee(caller: Address, user: Address, amount: I128) returns (r: Result<Reply, Error>)
      modifies this`userAccrued, this`totalCollected
      ensures (View(), r) == Step(old(View()), Refund(caller, user, amount))
    {
      if caller != admin {
        return Abort(Unauthorized);
      }
      if amount <= 0 {
        return Abort(InvalidRefundAmount);
      }
      var userFees := Get(userAccrued, user);
      if userFees < amount {
        return Abort(InsufficientFeeBalance);
      }
      if !FitsI128(totalCollected - amount) {
        return Abort(Overflow);
      }
      totalCollected := totalCollected - amount;
      userAccrued := userAccrued[user := userFees - amount];
      return Ok(Amount(amount));
    }

    method SetFeeDistribution(caller: Address, recipients: seq<Recipient>) returns (r: Result<Reply, Error>)
      modifies this`distribution
      ensures (View(), r) == Step(old(View()), SetDistribution(caller, recipients))
    {
      if caller != admin {
        return Abort(Unauthorized);
      }
      if |recipients| == 0 {
        return Abort(InvalidDistribution);
      }
      var totalBps := 0;
      for i := 0 to |recipients|
        invariant totalBps == SharesTotal(recipients[..i]) && ShareFault(recipients[..i]) == None
      {
        assert recipients[..i + 1][..i] == recipients[..i];
        if recipients[i].share > BPS {
          FaultStays(recipients, i + 1);
          return Abort(InvalidDistribution);
        }
        if totalBps + recipients[i].share > U32_MAX {
          FaultStays(recipients, i + 1);
          return Abort(Overflow);
        }
        totalBps := totalBps + recipients[i].share;
      }
      assert recipients[..|recipients|] == recipients;
      if totalBps != BPS {
        return Abort(DistributionSumsToWrong);
      }
      distribution := recipients;
      return Ok(Done);
    }

    method DistributeFees(caller: Address) returns (r: Result<Reply, Error>)
      modifies this`recipientFees, this`totalCollected
      ensures (View(), r) == Step(old(View()), Distribute(caller))
    {
      if caller != admin {
        return Abort(Unauthorized);
      }
      if |distribution| == 0 {
        return Abort(NoDistributionConfigured);
      }
      if totalCollected <= 0 {
        return Ok(Amount(0));
      }
      var p := PayRecipients(totalCollected, distribution, recipientFees);
      if p.None? {
        return Abort(Overflow);
      }
      recipientFees, totalCollected := p.value.accounts, 0;
      return Ok(Amount(p.value.paid));
    }

    /** The distribution loop. */
    static method PayRecipients(total: nat, recipients: seq<Recipient>, accounts: map<Address, I128>)
      returns (p: Option<Payout>)
      ensures p == PayOut(total, recipients, accounts)
    {
      var paid := Payout(accounts, 0);
      for i := 0 to |recipients|
        invariant PayOut(total, recipients[..i], accounts) == Some(paid)
      {
        assert recipients[..i + 1][..i] == recipients[..i];
        var entry := recipients[i];
        var share := ShareOf(total, entry);
        var credited := Get(paid.accounts, entry.address) + share;
        if !FitsI128(total * entry.share) || !FitsI128(credited) || !FitsI128(paid.paid + share) {
          OverflowStays(total, recipients, accounts, i + 1);
          return None;
        }
        paid := Payout(paid.accounts[entry.address := credited], paid.paid + share);
      }
      assert recipients[..|recipients|] == recipients;
      return Some(paid);
    }

    method ConfigureFees(caller: Address, s: Settings) returns (r: Result<Reply, Error>)
      modifies this`settings
      ensures (View(), r) == Step(old(View()), Configure(caller, s))
    {
      if caller != admin {
        return Abort(Unauthorized);
      }
      if !ValidSettings(s) {
        return Abort(InvalidSettings);
      }
      settings := s;
      return Ok(Done);
    }
  }

  lemma {:induction false} FaultStays(recipients: seq<Recipient>, i: nat)
    requires i <= |recipients| && ShareFault(recipients[..i]).Some?
    ensures ShareFault(recipients) == ShareFault(recipients[..i])
  {
    if i < |recipients| {
      var init := recipients[..|recipients| - 1];
      assert init[..i] == recipients[..i];
      FaultStays(init, i);
    } else {
      assert recipients[..i] == recipients;
    }
  }

  lemma {:induction false} OverflowStays(total: nat, recipients: seq<Recipient>, accounts: map<Address, I128>, i: nat)
    requires i <= |recipients| && PayOut(total, recipients[..i], accounts) == None
    ensures PayOut(total, recipients, accounts) == None
  {
    if i < |recipients| {
      var init := recipients[..|recipients| - 1];
      assert init[..i] == recipients[..i];
      OverflowStays(total, init, accounts, i);
    } else {
      assert recipients[..i] == recipients;
    }
  }
}
