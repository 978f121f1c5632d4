/** Daily deposit streaks and the milestone rewards claimed for them. */
module StreakRewards {
  import opened Arithmetic
  import opened Base
  import opened MapSums

  const SECONDS_PER_DAY := 86_400
  const WEEK: U32 := 7
  const MONTH: U32 := 30
  const CENTURY: U32 := 100

  datatype Rewards = Rewards(week: I128, month: I128, century: I128)

  datatype Record = Record(streak: U32, lastDay: U64, deposits: U32, claimed: I128)

  datatype Stamp = Stamp(user: Address, tier: U32, epoch: U32)

  datatype Error =
    | Unauthorized | AlreadyDepositedToday | NoRewardAvailable | AlreadyClaimed | InvalidRewardAmount | Overflow | TransferFailed
    | DivisionByZero

  /** pool is the contract's balance of the reward token. */
  datatype State = State(admin: Address, rewards: Rewards, records: map<Address, Record>, stamps: set<Stamp>, pool: nat)

  datatype Reply = Streak(days: U32) | Reward(amount: I128) | Done

  datatype Op =
    | Deposit(user: Address)
    | Claim(user: Address, tier: U32)
    | UpdateRewards(caller: Address, rewards: Rewards)
    | Fund(amount: nat)

  datatype Event = Event(now: U64, op: Op)

  predicate ValidRewards(r: Rewards) {
    r.week > 0 && r.month > 0 && r.century > 0
  }

  function DayNumber(t: U64): U64 {
    t / SECONDS_PER_DAY
  }

  function Load(records: map<Address, Record>, user: Address): Record {
    if user in records then records[user] else Record(0, 0, 0, 0)
  }

  function RewardForTier(r: Rewards, tier: U32): Option<I128> {
    if tier == WEEK then Some(r.week)
    else if tier == MONTH then Some(r.month)
    else if tier == CENTURY then Some(r.century)
    else None
  }

  function DepositStep(s: State, user: Address, today: U64): (State, Result<Reply, Error>) {
    var rec := Load(s.records, user);
    if rec.streak > 0 && today <= rec.lastDay then (s, Abort(AlreadyDepositedToday))
    else
      var streak := if rec.streak > 0 && today == rec.lastDay + 1 then rec.streak + 1 else 1;
      if streak > U32_MAX || rec.deposits == U32_MAX then (s, Abort(Overflow))
      else
        (s.(records := s.records[user := Record(streak, today, rec.deposits + 1, rec.claimed)]), Ok(Streak(streak)))
  }

  /** A claim needs a streak that is a positive multiple of the tier, and its epoch not yet stamped. */
  function ClaimStep(s: State, user: Address, tier: U32): (State, Result<Reply, Error>) {
    var rec, reward := Load(s.records, user), RewardForTier(s.rewards, tier);
    if reward.None? then (s, Abort(NoRewardAvailable))
    else if rec.streak == 0 || rec.streak % tier != 0 then (s, Abort(NoRewardAvailable))
    else
      var stamp := Stamp(user, tier, rec.streak / tier);
      if stamp in s.stamps then (s, Abort(AlreadyClaimed))
      else if !FitsI128(rec.claimed + reward.value) then (s, Abort(Overflow))
      else if !(0 <= reward.value <= s.pool) then (s, Abort(TransferFailed))
      else
        (s.(stamps := s.stamps + {stamp},
            records := s.records[user := rec.(claimed := rec.claimed + reward.value)],
            pool := s.pool - reward.value),
         Ok(Reward(reward.value)))
  }

  function Step(s: State, e: Event): (State, Result<Reply, Error>) {
    match e.op
    case Deposit(user) => DepositStep(s, user, DayNumber(e.now))
    case Claim(user, tier) => ClaimStep(s, user, tier)
    case UpdateRewards(caller, r) =>
      if caller != s.admin then (s, Abort(Unauthorized))
      else if !ValidRewards(r) then (s, Abort(InvalidRewardAmount))
      else (s.(rewards := r), Ok(Done))
    case Fund(amount) => (s.(pool := s.pool + amount), Ok(Done))
  }

  function Run(s: State, events: seq<Event>): State {
    if events == [] then s else Step(Run(s, events[..|events| - 1]), events[|events| - 1]).0
  }

  function Deployed(admin: Address, rewards: Rewards): State {
    State(admin, rewards, map[], {}, 0)
  }

  // ----- the streak against the whole deposit history -----

  /** The day numbers on which the user's deposits were accepted. */
  function DepositDays(s: State, events: seq<Event>, user: Address): set<int> {
    if events == [] then {}
    else
      var init, e := events[..|events| - 1], events[|events| - 1];
      DepositDays(s, init, user) +
      if e.op == Deposit(user) && Step(Run(s, init), e).1.Ok? then {e.now / 86_400} else {}
  }

  /** n is the length of the longest run of consecutive days in the set that ends at its last day. */
  ghost predicate IsTrailingRun(days: set<int>, last: int, n: int) {
    && last in days && (forall d <- days :: d <= last)
    && n >= 1 && (forall d :: last - n < d <= last ==> d in days)
    && last - n !in days
  }

  ghost predicate Matches(rec: Record, days: set<int>) {
    && rec.deposits == |days|
    && (rec.streak == 0 <==> days == {})
    && (days != {} ==> IsTrailingRun(days, rec.lastDay, rec.streak))
  }

  /** Over every run the compact record agrees with the full history: the stored streak is the longest run of consecutive
      days ending at the last deposit, and the deposit counter is the number of days deposited on. */
  lemma {:induction false} StreakMatchesHistory(admin: Address, rewards: Rewards, events: seq<Event>, user: Address)
    ensures var s := Deployed(admin, rewards);
      Matches(Load(Run(s, events).records, user), DepositDays(s, events, user))
  {
    if events != [] {
      var s, init := Deployed(admin, rewards), events[..|events| - 1];
      StreakMatchesHistory(admin, rewards, init, user);
      MatchesStep(Run(s, init), events[|events| - 1], user, DepositDays(s, init, user));
    }
  }

  lemma MatchesStep(s: State, e: Event, user: Address, days: set<int>)
    requires Matches(Load(s.records, user), days)
    ensures Matches(Load(Step(s, e).0.records, user),
              days + if e.op == Deposit(user) && Step(s, e).1.Ok? then {DayNumber(e.now)} else {})
  {
    if e.op == Deposit(user) && Step(s, e).1.Ok? {
      DayAppended(days, Load(s.records, user), DayNumber(e.now));
    } else {
      RecordKept(s, e, user);
      assert days + {} == days;
    }
  }

  /** Only an accepted deposit of the user changes the user's streak, last day or deposit count. */
  lemma RecordKept(s: State, e: Event, user: Address)
    requires e.op != Deposit(user) || Step(s, e).1.Abort?
    ensures Load(Step(s, e).0.records, user).(claimed := 0) == Load(s.records, user).(claimed := 0)
  {
  }

  lemma DayAppended(days: set<int>, rec: Record, today: int)
    requires rec.streak == 0 <==> days == {}
    requires days != {} ==> IsTrailingRun(days, rec.lastDay, rec.streak) && rec.lastDay < today
    ensures |days + {today}| == |days| + 1
    ensures IsTrailingRun(days + {today}, today, if rec.streak > 0 && today == rec.lastDay + 1 then rec.streak + 1 else 1)
  {
    assert today !in days;
  }

  ghost predicate AllBefore(days: set<int>, day: int) {
    forall d <- days :: d < day
  }

  /** In every run a deposit is accepted exactly on a day later than all days deposited on, while the counters fit u32, and
      answers the length of the run of consecutive days that ends with it. */
  lemma DepositExactly(admin: Address, rewards: Rewards, events: seq<Event>, user: Address, now: U64)
    ensures var s := Deployed(admin, rewards);
      var days, r := DepositDays(s, events, user), Step(Run(s, events), Event(now, Deposit(user))).1;
      && (r.Ok? ==> r.value.Streak? && IsTrailingRun(days + {now / 86_400}, now / 86_400, r.value.days))
      && (r == Abort(AlreadyDepositedToday) <==> !AllBefore(days, now / 86_400))
      && (r.Abort? && r != Abort(AlreadyDepositedToday) ==> |days| == U32_MAX && r == Abort(Overflow))
  {
    var s := Deployed(admin, rewards);
    StreakMatchesHistory(admin, rewards, events, user);
    var days, rec := DepositDays(s, events, user), Load(Run(s, events).records, user);
    if days != {} {
      TrailingRunFits(days, rec.lastDay, rec.streak);
    }
    if days == {} || rec.lastDay < DayNumber(now) {
      DayAppended(days, rec, DayNumber(now));
    } else {
      assert rec.lastDay in days && DayNumber(now) <= rec.lastDay;
    }
  }

  /** A run of n days within the set takes n of its members. */
  lemma {:induction false} TrailingRunFits(days: set<int>, last: int, n: nat)
    requires forall d :: last - n < d <= last ==> d in days
    ensures n <= |days|
  {
    if n > 0 {
      TrailingRunFits(days - {last}, last - 1, n - 1);
    }
  }

  // ----- claims against the longest streak -----

  function Max(a: int, b: int): int {
    if a < b then b else a
  }

  /** The longest streak the user ever had. */
  function Longest(s: State, events: seq<Event>, user: Address): int {
    var streak := Load(Run(s, events).records, user).streak;
    if events == [] then streak else Max(Longest(s, events[..|events| - 1], user), streak)
  }

  /** How many claims of a tier were paid to the user. */
  function Claims(s: State, events: seq<Event>, user: Address, tier: U32): nat {
    if events == [] then 0
    else
      var init, e := events[..|events| - 1], events[|events| - 1];
      Claims(s, init, user, tier) + if e.op == Claim(user, tier) && Step(Run(s, init), e).1.Ok? then 1 else 0
  }

  function EpochsClaimed(s: State, user: Address, tier: U32): set<int> {
    set st <- s.stamps | st.user == user && st.tier == tier :: st.epoch as int
  }

  predicate IsTier(tier: U32) {
    tier == 7 || tier == 30 || tier == 100
  }

  ghost predicate EpochsBounded(s: State, user: Address, tier: U32, paid: nat, longest: int)
    requires IsTier(tier)
  {
    && |EpochsClaimed(s, user, tier)| == paid
    && (forall k <- EpochsClaimed(s, user, tier) :: 1 <= k && k * tier <= longest)
  }

  lemma {:induction false} ClaimsAreEpochs(admin: Address, rewards: Rewards, events: seq<Event>, user: Address, tier: U32)
    requires IsTier(tier)
    ensures var s := Deployed(admin, rewards);
      EpochsBounded(Run(s, events), user, tier, Claims(s, events, user, tier), Longest(s, events, user))
  {
    if events != [] {
      var s, init, e := Deployed(admin, rewards), events[..|events| - 1], events[|events| - 1];
      ClaimsAreEpochs(admin, rewards, init, user, tier);
      LongestCovers(s, init, user);
      if e.op == Claim(user, tier) && Step(Run(s, init), e).1.Ok? {
        ClaimAddsEpoch(Run(s, init), user, tier);
      } else {
        EpochsKept(Run(s, init), e, user, tier);
      }
    }
  }

  lemma LongestCovers(s: State, events: seq<Event>, user: Address)
    ensures Longest(s, events, user) >= Load(Run(s, events).records, user).streak
  {
  }

  lemma ClaimAddsEpoch(s: State, user: Address, tier: U32)
    requires IsTier(tier) && ClaimStep(s, user, tier).1.Ok?
    ensures var epochs, k := EpochsClaimed(s, user, tier), Load(s.records, user).streak / tier;
      && EpochsClaimed(ClaimStep(s, user, tier).0, user, tier) == epochs + {k}
      && k !in epochs && 1 <= k && k * tier == Load(s.records, user).streak
  {
    var k := Load(s.records, user).streak / tier;
    var after := ClaimStep(s, user, tier).0;
    assert after.stamps == s.stamps + {Stamp(user, tier, k)};
    assert Stamp(user, tier, k) !in s.stamps;
    assert EpochsClaimed(after, user, tier) == EpochsClaimed(s, user, tier) + {k};
  }

  lemma EpochsKept(s: State, e: Event, user: Address, tier: U32)
    requires e.op != Claim(user, tier) || Step(s, e).1.Abort?
    ensures EpochsClaimed(Step(s, e).0, user, tier) == EpochsClaimed(s, user, tier)
  {
    if e.op.Claim? && Step(s, e).1.Ok? {
      assert Step(s, e).0.stamps == s.stamps + {Stamp(e.op.user, e.op.tier, Load(s.records, e.op.user).streak / e.op.tier)};
    } else {
      assert Step(s, e).0.stamps == s.stamps;
    }
  }

  lemma {:induction false} UpTo(s: set<int>, n: nat)
    requires forall k <- s :: 1 <= k <= n
    ensures |s| <= n
  {
    if n == 0 {
      assert forall k :: k !in s;
      assert s == {};
    } else {
      UpTo(s - {n}, n - 1);
    }
  }

  /** Over every run, with any number of streak resets and reward changes, the claims of a tier paid to a user are at most
      the longest streak ever reached divided by the tier. */
  lemma ClaimsBound(admin: Address, rewards: Rewards, events: seq<Event>, user: Address, tier: U32)
    requires IsTier(tier)
    ensures var s := Deployed(admin, rewards);
      Claims(s, events, user, tier) <= Longest(s, events, user) / tier
  {
    var s := Deployed(admin, rewards);
    ClaimsAreEpochs(admin, rewards, events, user, tier);
    LongestCovers(s, events, user);
    UpTo(EpochsClaimed(Run(s, events), user, tier), Longest(s, events, user) / tier);
  }

  lemma {:induction false} RewardsStayPositive(admin: Address, rewards: Rewards, events: seq<Event>)
    requires ValidRewards(rewards)
    ensures ValidRewards(Run(Deployed(admin, rewards), events).rewards)
  {
    if events != [] {
      RewardsStayPositive(admin, rewards, events[..|events| - 1]);
    }
  }

  /** The reward of 7, 30 and 100 days. */
  function RewardOf(r: Rewards, tier: int): int {
    if tier == 7 then r.week else if tier == 30 then r.month else r.century
  }

  /** The reward left the pool for the user, whose streak is untouched. */
  ghost predicate PaysReward(s: State, after: State, r: Result<Reply, Error>, user: Address, reward: int) {
    && r.Ok? && r.value.Reward? && r.value.amount == reward
    && after.pool == s.pool - reward && after.rewards == s.rewards && after.admin == s.admin
    && user in after.records && after.records[user].claimed == Load(s.records, user).claimed + reward
    && after.records == s.records[user := after.records[user]]
    && after.records[user].(claimed := 0) == Load(s.records, user).(claimed := 0)
  }

  /** Rewards are accepted exactly from the admin and all positive. */
  lemma RewardsExactly(s: State, now: U64, caller: Address, rewards: Rewards)
    ensures var (after, r) := Step(s, Event(now, UpdateRewards(caller, rewards)));
      && (r.Ok? <==> caller == s.admin && rewards.week > 0 && rewards.month > 0 && rewards.century > 0)
      && after == (if r.Ok? then s.(rewards := rewards) else s)
      && (r.Abort? ==> r.error == if caller != s.admin then Unauthorized else InvalidRewardAmount)
  {
  }

  /** In every run a claim succeeds exactly for a known tier that divides a live streak, at an epoch not paid before, when
      the pool covers the tier's current reward and the user's total fits; a second claim at that streak is refused. */
  lemma ClaimExactly(admin: Address, rewards: Rewards, events: seq<Event>, user: Address, tier: U32)
    requires ValidRewards(rewards)
    ensures var s := Run(Deployed(admin, rewards), events);
      var rec := Load(s.records, user);
      && (ClaimStep(s, user, tier).1.Ok? <==>
            && tier in {7, 30, 100} && rec.streak > 0 && rec.streak % tier == 0
            && rec.streak / tier !in EpochsClaimed(s, user, tier)
            && RewardOf(s.rewards, tier) <= s.pool && rec.claimed + RewardOf(s.rewards, tier) <= I128_MAX)
      && (ClaimStep(s, user, tier).1.Ok? ==>
            && ClaimStep(ClaimStep(s, user, tier).0, user, tier).1 == Abort(AlreadyClaimed)
            && PaysReward(s, ClaimStep(s, user, tier).0, ClaimStep(s, user, tier).1, user, RewardOf(s.rewards, tier)))
    ensures var s := Run(Deployed(admin, rewards), events);
      var rec, (after, r) := Load(s.records, user), Step(s, Event(0, Claim(user, tier)));
      r.Abort? ==>
        && after == s
        && r.error == if tier !in {7, 30, 100} || rec.streak == 0 || rec.streak % tier != 0 then NoRewardAvailable
                      else if rec.streak / tier in EpochsClaimed(s, user, tier) then AlreadyClaimed
                      else if rec.claimed + RewardOf(s.rewards, tier) > I128_MAX then Overflow
                      else TransferFailed
  {
    RewardsStayPositive(admin, rewards, events);
    var s := Run(Deployed(admin, rewards), events);
    if IsTier(tier) {
      EpochStamped(s, user, tier, Load(s.records, user).streak / tier);
    }
  }

  lemma EpochStamped(s: State, user: Address, tier: U32, epoch: U32)
    ensures epoch in EpochsClaimed(s, user, tier) <==> Stamp(user, tier, epoch) in s.stamps
  {
    if epoch in EpochsClaimed(s, user, tier) {
      var st :| st in s.stamps && st.user == user && st.tier == tier && st.epoch == epoch;
    }
  }

  /** While the rewards stay as configured, the recorded lifetime reward is the paid claims at their tiers' rewards, so it
      is bounded by the longest streak. */
  lemma RewardBound(admin: Address, rewards: Rewards, events: seq<Event>, user: Address)
    requires ValidRewards(rewards) && forall i :: 0 <= i < |events| ==> !events[i].op.UpdateRewards?
    ensures var s := Deployed(admin, rewards);
      var longest := Longest(s, events, user);
      longest >= 0 && Load(Run(s, events).records, user).claimed <=
                        RewardFor(rewards, longest / 7, longest / 30, longest / 100)
  {
    var s := Deployed(admin, rewards);
    ClaimsBound(admin, rewards, events, user, WEEK);
    ClaimsBound(admin, rewards, events, user, MONTH);
    ClaimsBound(admin, rewards, events, user, CENTURY);
    ClaimedIsSum(admin, rewards, events, user);
    LongestCovers(s, events, user);
    var longest := Longest(s, events, user);
    MulMonotone(Claims(s, events, user, WEEK), longest / WEEK, rewards.week, rewards.week);
    MulMonotone(Claims(s, events, user, MONTH), longest / MONTH, rewards.month, rewards.month);
    MulMonotone(Claims(s, events, user, CENTURY), longest / CENTURY, rewards.century, rewards.century);
  }

  /** The reward of so many claims per tier. */
  function RewardFor(r: Rewards, weeks: nat, months: nat, centuries: nat): int {
    r.week * weeks + r.month * months + r.century * centuries
  }

  lemma {:induction false} ClaimedIsSum(admin: Address, rewards: Rewards, events: seq<Event>, user: Address)
    requires forall i :: 0 <= i < |events| ==> !events[i].op.UpdateRewards?
    ensures var s := Deployed(admin, rewards);
      && Run(s, events).rewards == rewards
      && Load(Run(s, events).records, user).claimed ==
           RewardFor(rewards, Claims(s, events, user, WEEK), Claims(s, events, user, MONTH), Claims(s, events, user, CENTURY))
  {
    if events != [] {
      var s, init, e := Deployed(admin, rewards), events[..|events| - 1], events[|events| - 1];
      ClaimedIsSum(admin, rewards, init, user);
      ClaimedStep(Run(s, init), e, user, Claims(s, init, user, WEEK), Claims(s, init, user, MONTH),
                  Claims(s, init, user, CENTURY));
    }
  }

  predicate Claimed(s: State, e: Event, user: Address, tier: U32) {
    e.op == Claim(user, tier) && Step(s, e).1.Ok?
  }

  lemma OneMoreClaim(r: Rewards, weeks: nat, months: nat, centuries: nat)
    ensures RewardFor(r, weeks + 1, months, centuries) == RewardFor(r, weeks, months, centuries) + r.week
    ensures RewardFor(r, weeks, months + 1, centuries) == RewardFor(r, weeks, months, centuries) + r.month
    ensures RewardFor(r, weeks, months, centuries + 1) == RewardFor(r, weeks, months, centuries) + r.century
  {
    MulDistributes(weeks, 1, r.week);
    MulDistributes(months, 1, r.month);
    MulDistributes(centuries, 1, r.century);
  }

  lemma ClaimedStep(s: State, e: Event, user: Address, weeks: nat, months: nat, centuries: nat)
    requires !e.op.UpdateRewards? && Load(s.records, user).claimed == RewardFor(s.rewards, weeks, months, centuries)
    ensures Step(s, e).0.rewards == s.rewards
    ensures Load(Step(s, e).0.records, user).claimed ==
            RewardFor(s.rewards, weeks + (if Claimed(s, e, user, WEEK) then 1 else 0),
                                 months + (if Claimed(s, e, user, MONTH) then 1 else 0),
                                 centuries + (if Claimed(s, e, user, CENTURY) then 1 else 0))
  {
    OneMoreClaim(s.rewards, weeks, months, centuries);
  }

  // ----- the reward pool -----

  ghost function ClaimedBy(records: map<Address, Record>): map<Address, int> {
    map u | u in records :: records[u].claimed
  }

  /** What the contract was funded with so far. */
  function Funded(events: seq<Event>): nat {
    if events == [] then 0
    else Funded(events[..|events| - 1]) + if events[|events| - 1].op.Fund? then events[|events| - 1].op.amount else 0
  }

  lemma ClaimedByUpdate(records: map<Address, Record>, u: Address, rec: Record)
    ensures Sum(ClaimedBy(records[u := rec])) == Sum(ClaimedBy(records)) - Load(records, u).claimed + rec.claimed
  {
    assert ClaimedBy(records[u := rec]) == ClaimedBy(records)[u := rec.claimed];
    SumUpdate(ClaimedBy(records), u, rec.claimed);
  }

  lemma PoolStep(s: State, e: Event)
    ensures Step(s, e).0.pool + Sum(ClaimedBy(Step(s, e).0.records)) ==
            s.pool + Sum(ClaimedBy(s.records)) + if e.op.Fund? then e.op.amount else 0
  {
    match e.op
    case Deposit(u) =>
      if Step(s, e).1.Ok? {
        ClaimedByUpdate(s.records, u, Step(s, e).0.records[u]);
      }
    case Claim(u, _) =>
      if Step(s, e).1.Ok? {
        ClaimedByUpdate(s.records, u, Step(s, e).0.records[u]);
      }
    case _ =>
  }

  /** Over every run, funding not still in the pool is exactly the rewards recorded as claimed by all users. */
  lemma {:induction false} PoolRun(admin: Address, rewards: Rewards, events: seq<Event>)
    ensures var s := Run(Deployed(admin, rewards), events);
      s.pool + Sum(ClaimedBy(s.records)) == Funded(events)
  {
    if events == [] {
      assert ClaimedBy(map[]) == map[];
    } else {
      PoolRun(admin, rewards, events[..|events| - 1]);
      PoolStep(Run(Deployed(admin, rewards), events[..|events| - 1]), events[|events| - 1]);
    }
  }

  // ----- the contract -----

  class StreakRewardsContract {
    var admin: Address
    var rewards: Rewards
    var records: map<Address, Record>
    var stamps: set<Stamp>
    var pool: nat

    ghost function View(): State
      reads this
    {
      State(admin, rewards, records, stamps, pool)
    }

    constructor (admin: Address, rewards: Rewards)
      requires ValidRewards(rewards)
      ensures View() == Deployed(admin, rewards)
    {
      this.admin, this.rewards, records, stamps, pool := admin, rewards, map[], {}, 0;
    }

    method RecordDeposit(user: Address, now: U64) returns (r: Result<Reply, Error>)
      modifies this`records
      ensures (View(), r) == Step(old(View()), Event(now, Deposit(user)))
    {
      var today, rec := DayNumber(now), Load(records, user);
      if rec.lastDay == today && rec.streak > 0 {
        return Abort(AlreadyDepositedToday);
      }
      if rec.streak == 0 {
        rec := rec.(streak := 1);
      } else {
        var elapsed := if today < rec.lastDay then 0 else today - rec.lastDay;
        if elapsed == 1 {
          if rec.streak == U32_MAX {
            return Abort(Overflow);
          }
          rec := rec.(streak := rec.streak + 1);
        } else if elapsed == 0 {
          return Abort(AlreadyDepositedToday);
        } else {
          rec := rec.(streak := 1);
        }
      }
      if rec.deposits == U32_MAX {
        return Abort(Overflow);
      }
      records := records[user := rec.(lastDay := today, deposits := rec.deposits + 1)];
      return Ok(Streak(rec.streak));
    }

    method ClaimReward(user: Address, tier: U32, now: U64) returns (r: Result<Reply, Error>)
      modifies this`records, this`stamps, this`pool
      ensures (View(), r) == Step(old(View()), Event(now, Claim(user, tier)))
    {
      var reward := RewardForTier(rewards, tier);
      if reward.None? {
        return Abort(NoRewardAvailable);
      }
      var rec := Load(records, user);
      if rec.streak == 0 || rec.streak % tier != 0 {
        return Abort(NoRewardAvailable);
      }
      var stamp := Stamp(user, tier, rec.streak / tier);
      if stamp in stamps {
        return Abort(AlreadyClaimed);
      }
      if !FitsI128(rec.claimed + reward.value) {
        return Abort(Overflow);
      }
      if reward.value < 0 || pool < reward.value {
        return Abort(TransferFailed);
      }
      stamps := stamps + {stamp};
      records := records[user := rec.(claimed := rec.claimed + reward.value)];
      pool := pool - reward.value;
      return Ok(Reward(reward.value));
    }

    method SetRewards(caller: Address, r: Rewards, now: U64) returns (result: Result<Reply, Error>)
      modifies this`rewards
      ensures (View(), result) == Step(old(View()), Event(now, UpdateRewards(caller, r)))
    {
      if caller != admin {
        return Abort(Unauthorized);
      }
      if r.week <= 0 || r.month <= 0 || r.century <= 0 {
        return Abort(InvalidRewardAmount);
      }
      rewards := r;
      return Ok(Done);
    }

    /** A milestone is reported as claimed exactly when a further claim would be refused as already claimed. */
    method IsClaimed(user: Address, tier: U32) returns (r: Result<bool, Error>)
      ensures IsTier(tier) ==> r.Ok? && (r.value <==> Step(View(), Event(0, Claim(user, tier))).1 == Abort(AlreadyClaimed))
      ensures r.Abort? <==> tier == 0 && Load(records, user).streak != 0
    {
      var rec := Load(records, user);
      if rec.streak == 0 {
        return Ok(false);
      }
      if tier == 0 {
        return Abort(DivisionByZero);
      }
      if rec.streak % tier != 0 {
        return Ok(false);
      }
      return Ok(Stamp(user, tier, rec.streak / tier) in stamps);
    }
  }
}
