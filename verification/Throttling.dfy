/** The per-wallet rate limiter: a counting window with a penalty block. */
module Throttling {
  import opened Arithmetic
  import opened Base

  datatype Config = Config(
    maxPerWindow: U32,
    windowSize: U64,
    blockDuration: U64,
    cleanupInterval: U64,
    enabled: bool,
    exempt: seq<Address>)

  datatype WalletState = WalletState(
    count: U32,
    windowStart: U64,
    lastTransaction: U64,
    throttled: bool,
    throttleStart: U64,
    violations: U32,
    allTime: U64)

  datatype Reason = Allowed | ExceededFrequency | CurrentlyThrottled | WalletExempt | SystemDisabled

  datatype Verdict = Verdict(allowed: bool, reason: Reason, remaining: U32, windowReset: U64, throttleEnd: Option<U64>)

  datatype Error = Unauthorized | InvalidConfig | Overflow

  /** What a call hands back: a verdict for a check, nothing for the admin calls. */
  datatype Reply = Checked(verdict: Verdict) | Done

  datatype State = State(
    admin: Address,
    config: Config,
    wallets: map<Address, WalletState>,
    throttledList: seq<Address>)

  datatype Op =
    | Check(wallet: Address)
    | UpdateConfig(caller: Address, config: Config)
    | AddExempt(caller: Address, wallet: Address)
    | RemoveExempt(caller: Address, wallet: Address)
    | Reset(caller: Address, wallet: Address)

  datatype Event = Event(now: U64, op: Op)

  predicate ValidConfig(c: Config) {
    c.maxPerWindow != 0 && c.windowSize != 0 && c.blockDuration != 0 && c.cleanupInterval != 0
  }

  // ----- specification of one check -----

  function FreshWallet(now: U64): WalletState {
    WalletState(0, now, 0, false, 0, 0, 0)
  }

  function Load(wallets: map<Address, WalletState>, w: Address, now: U64): WalletState {
    if w in wallets then wallets[w] else FreshWallet(now)
  }

  predicate BlockOver(c: Config, st: WalletState, now: U64) {
    st.throttled && now >= st.throttleStart + c.blockDuration
  }

  /** The state after an elapsed block was lifted and an elapsed window restarted. */
  function Refreshed(c: Config, st: WalletState, now: U64): WalletState {
    var lifted :=
      if BlockOver(c, st, now) then st.(throttled := false, count := 0, windowStart := now, violations := 0) else st;
    if now >= lifted.windowStart + c.windowSize then lifted.(count := 0, windowStart := now) else lifted
  }

  predicate StillBlocked(c: Config, st: WalletState, now: U64) {
    st.throttled && now < st.throttleStart + c.blockDuration
  }

  /** Some u64 or u32 sum of the check leaves its type, which aborts the call. */
  predicate CheckOverflows(c: Config, st: WalletState, now: U64) {
    var r := Refreshed(c, st, now);
    || (st.throttled && st.throttleStart + c.blockDuration > U64_MAX)
    || (if StillBlocked(c, st, now) then st.windowStart + c.windowSize > U64_MAX
        else if (if BlockOver(c, st, now) then now else st.windowStart) + c.windowSize > U64_MAX
              || r.windowStart + c.windowSize > U64_MAX then true
        else if r.count >= c.maxPerWindow then
          r.violations == U32_MAX || r.count == U32_MAX || now + c.blockDuration > U64_MAX
        else r.allTime == U64_MAX)
  }

  function CheckWallet(c: Config, st: WalletState, now: U64): (WalletState, Result<Verdict, Error>) {
    if CheckOverflows(c, st, now) then (st, Abort(Overflow))
    else if StillBlocked(c, st, now) then
      (st, Ok(Verdict(false, CurrentlyThrottled, 0, st.windowStart + c.windowSize,
                      Some(st.throttleStart + c.blockDuration))))
    else
      var r := Refreshed(c, st, now);
      if r.count >= c.maxPerWindow then
        (r.(throttled := true, throttleStart := now, violations := r.violations + 1),
         Ok(Verdict(false, ExceededFrequency, 0, r.windowStart + c.windowSize, Some(now + c.blockDuration))))
      else
        (r.(count := r.count + 1, lastTransaction := now, allTime := r.allTime + 1),
         Ok(Verdict(true, Allowed, c.maxPerWindow - (r.count + 1), r.windowStart + c.windowSize, None)))
  }

  function CheckStep(s: State, w: Address, now: U64): (State, Result<Reply, Error>) {
    if !s.config.enabled then (s, Ok(Checked(Verdict(true, SystemDisabled, U32_MAX, 0, None))))
    else if w in s.config.exempt then (s, Ok(Checked(Verdict(true, WalletExempt, U32_MAX, 0, None))))
    else
      var before := Load(s.wallets, w, now);
      var (after, r) := CheckWallet(s.config, before, now);
      if r.Abort? then (s, Abort(r.error))
      else if StillBlocked(s.config, before, now) then (s, Ok(Checked(r.value)))
      else
        var lifted := if before.throttled then Without(s.throttledList, w) else s.throttledList;
        var list := if after.throttled && w !in lifted then lifted + [w] else lifted;
        (s.(wallets := s.wallets[w := after], throttledList := list), Ok(Checked(r.value)))
  }

  function Step(s: State, e: Event): (State, Result<Reply, Error>) {
    match e.op
    case Check(w) => CheckStep(s, w, e.now)
    case UpdateConfig(caller, c) =>
      if caller != s.admin then (s, Abort(Unauthorized))
      else if !ValidConfig(c) then (s, Abort(InvalidConfig))
      else (s.(config := c), Ok(Done))
    case AddExempt(caller, w) =>
      if caller != s.admin then (s, Abort(Unauthorized))
      else if w in s.config.exempt then (s, Ok(Done))
      else (s.(config := s.config.(exempt := s.config.exempt + [w])), Ok(Done))
    case RemoveExempt(caller, w) =>
      if caller != s.admin then (s, Abort(Unauthorized))
      else (s.(config := s.config.(exempt := Without(s.config.exempt, w))), Ok(Done))
    case Reset(caller, w) =>
      if caller != s.admin then (s, Abort(Unauthorized))
      else (s.(wallets := s.wallets[w := FreshWallet(e.now)], throttledList := Without(s.throttledList, w)), Ok(Done))
  }

  // ----- runs -----

  function Run(s: State, events: seq<Event>): State {
    if events == [] then s
    else Step(Run(s, events[..|events| - 1]), events[|events| - 1]).0
  }

  ghost predicate Chronological(events: seq<Event>) {
    forall i, j :: 0 <= i < j < |events| ==> events[i].now <= events[j].now
  }

  /** Step e, taken from s, lets wallet w through at a time in [from, to). */
  predicate LetsThrough(s: State, e: Event, w: Address, from: int, to: int) {
    var r := Step(s, e).1;
    e.op == Check(w) && from <= e.now < to && r.Ok? && r.value.Checked? && r.value.verdict.allowed
  }

  /** How many calls of wallet w the run allows at times in [from, to). */
  function AllowedIn(s: State, events: seq<Event>, w: Address, from: int, to: int): nat {
    if events == [] then 0
    else
      var before := events[..|events| - 1];
      var e := events[|events| - 1];
      AllowedIn(s, before, w, from, to) + if LetsThrough(Run(s, before), e, w, from, to) then 1 else 0
  }

  /** The event leaves w's limits alone: no new configuration, no exemption and no reset of w. */
  predicate LeavesLimits(e: Event, w: Address) {
    match e.op
    case Check(_) => true
    case UpdateConfig(_, _) => false
    case AddExempt(_, x) => x != w
    case RemoveExempt(_, _) => true
    case Reset(_, x) => x != w
  }

  /** The limiter is on, w is not exempt, and w has not been seen. */
  predicate StartsLimited(s: State, w: Address) {
    s.config.enabled && ValidConfig(s.config) && w !in s.config.exempt && w !in s.wallets
  }

  ghost predicate LimitedRun(s: State, events: seq<Event>, w: Address) {
    StartsLimited(s, w) && Chronological(events) && forall i :: 0 <= i < |events| ==> LeavesLimits(events[i], w)
  }

  /** The penalty outlasts the window; or lifting it would leave u64; or, at the largest limit, the violation record's
      count + 1 leaves u32, so no penalty ever starts. */
  predicate PenaltyCoversWindow(c: Config) {
    c.blockDuration >= c.windowSize || c.blockDuration + c.windowSize > U64_MAX || c.maxPerWindow == U32_MAX
  }

  predicate SameLimits(c: Config, d: Config) {
    c.(exempt := []) == d.(exempt := [])
  }

  /** What a limited run keeps about w; n is the number of its calls allowed so far in [from, from + window). */
  ghost predicate WindowInvariant(c: Config, s: State, w: Address, from: int, n: nat, now: int) {
    && SameLimits(c, s.config) && w !in s.config.exempt
    && (w !in s.wallets || now < from ==> n == 0)
    && (w in s.wallets ==>
          var st := s.wallets[w];
          && 1 <= st.count <= c.maxPerWindow
          && st.windowStart <= now
          && (st.throttled ==> st.windowStart <= st.throttleStart && c.maxPerWindow != U32_MAX)
          && (if st.windowStart < from then n <= st.count - 1
              else if st.windowStart < from + c.windowSize then n <= c.maxPerWindow - 1 + st.count
              else n <= 2 * c.maxPerWindow - 1))
  }

  lemma WindowStep(c: Config, s: State, w: Address, from: int, n: nat, last: int, e: Event)
    requires ValidConfig(c) && c.enabled && PenaltyCoversWindow(c)
    requires WindowInvariant(c, s, w, from, n, last) && last <= e.now && LeavesLimits(e, w)
    ensures WindowInvariant(c, Step(s, e).0, w, from,
              n + if LetsThrough(s, e, w, from, from + c.windowSize) then 1 else 0, e.now)
  {
    if e.op == Check(w) {
      WindowCheck(c, s, w, from, n, last, e);
    }
  }

  lemma WindowCheck(c: Config, s: State, w: Address, from: int, n: nat, last: int, e: Event)
    requires ValidConfig(c) && c.enabled && PenaltyCoversWindow(c)
    requires WindowInvariant(c, s, w, from, n, last) && last <= e.now && e.op == Check(w)
    ensures WindowInvariant(c, Step(s, e).0, w, from,
              n + if LetsThrough(s, e, w, from, from + c.windowSize) then 1 else 0, e.now)
  {
  }

  lemma {:induction false} WindowRun(s: State, events: seq<Event>, w: Address, from: int)
    requires LimitedRun(s, events, w) && PenaltyCoversWindow(s.config)
    ensures WindowInvariant(s.config, Run(s, events), w, from,
              AllowedIn(s, events, w, from, from + s.config.windowSize),
              if events == [] then 0 else events[|events| - 1].now)
  {
    if events != [] {
      var before := events[..|events| - 1];
      WindowRun(s, before, w, from);
      WindowStep(s.config, Run(s, before), w, from, AllowedIn(s, before, w, from, from + s.config.windowSize),
                 if before == [] then 0 else before[|before| - 1].now, events[|events| - 1]);
    }
  }

  // ----- the bound on allowed calls, and exactly when it holds -----

  ghost predicate WithinBound(c: Config, s: State, events: seq<Event>, w: Address, from: int) {
    s.config == c && LimitedRun(s, events, w) ==>
      AllowedIn(s, events, w, from, from + c.windowSize) <= 2 * c.maxPerWindow - 1
  }

  lemma WindowBound(s: State, events: seq<Event>, w: Address, from: int)
    requires LimitedRun(s, events, w) && PenaltyCoversWindow(s.config)
    ensures AllowedIn(s, events, w, from, from + s.config.windowSize) <= 2 * s.config.maxPerWindow - 1
  {
    WindowRun(s, events, w, from);
  }

  lemma {:induction false} RunConcat(s: State, a: seq<Event>, b: seq<Event>, w: Address, from: int, to: int)
    ensures Run(s, a + b) == Run(Run(s, a), b)
    ensures AllowedIn(s, a + b, w, from, to) == AllowedIn(s, a, w, from, to) + AllowedIn(Run(s, a), b, w, from, to)
  {
    if b == [] {
      assert a + b == a;
    } else {
      var init := b[..|b| - 1];
      RunConcat(s, a, init, w, from, to);
      assert (a + b)[..|a + b| - 1] == a + init;
    }
  }

  function Burst(w: Address, n: nat, t: U64): seq<Event> {
    seq(n, _ => Event(t, Check(w)))
  }

  /** w is limited and its window at time t is open with room for n more calls. */
  ghost predicate HasRoom(s: State, w: Address, n: nat, t: U64) {
    s.config.enabled && w !in s.config.exempt &&
    var st := Load(s.wallets, w, t);
    && !st.throttled && t < st.windowStart + s.config.windowSize <= U64_MAX
    && st.count + n <= s.config.maxPerWindow && st.allTime + n <= U64_MAX
  }

  function AfterPasses(st: WalletState, n: nat, t: U64): WalletState
    requires st.count + n <= U32_MAX && st.allTime + n <= U64_MAX
  {
    if n == 0 then st else st.(count := st.count + n, allTime := st.allTime + n, lastTransaction := t)
  }

  lemma OnePasses(s: State, w: Address, t: U64)
    requires HasRoom(s, w, 1, t)
    ensures forall from, to :: LetsThrough(s, Event(t, Check(w)), w, from, to) == (from <= t < to)
    ensures var s' := Step(s, Event(t, Check(w))).0;
      s'.config == s.config && w in s'.wallets && s'.wallets[w] == AfterPasses(Load(s.wallets, w, t), 1, t)
  {
  }

  lemma OneEvent(s: State, e: Event, w: Address, from: int, to: int)
    ensures Run(s, [e]) == Step(s, e).0
    ensures AllowedIn(s, [e], w, from, to) == if LetsThrough(s, e, w, from, to) then 1 else 0
  {
    assert [e][..0] == [];
  }

  /** n checks at one time, inside an open window with room for them, all pass. */
  lemma {:induction false} BurstPasses(s: State, w: Address, n: nat, t: U64, from: int, to: int)
    requires HasRoom(s, w, n, t) && from <= t < to
    ensures AllowedIn(s, Burst(w, n, t), w, from, to) == n
    ensures var r := Run(s, Burst(w, n, t));
      && r.config == s.config && (n > 0 ==> w in r.wallets)
      && Load(r.wallets, w, t) == AfterPasses(Load(s.wallets, w, t), n, t)
  {
    if n > 0 {
      BurstPasses(s, w, n - 1, t, from, to);
      var init := Burst(w, n - 1, t);
      assert Burst(w, n, t) == init + [Event(t, Check(w))];
      RunConcat(s, init, [Event(t, Check(w))], w, from, to);
      OneEvent(Run(s, init), Event(t, Check(w)), w, from, to);
      OnePasses(Run(s, init), w, t);
    }
  }

  lemma ChecksAreLimited(events: seq<Event>, w: Address)
    requires forall i :: 0 <= i < |events| ==> events[i].op == Check(w)
    ensures forall i :: 0 <= i < |events| ==> LeavesLimits(events[i], w)
  {
  }

  /** After a spent window at time 0, a refused call starts the penalty, and the call at its end opens a new window. */
  lemma PenaltyThenReopening(s: State, w: Address)
    requires s.config.enabled && ValidConfig(s.config) && w !in s.config.exempt && !PenaltyCoversWindow(s.config)
    requires w in s.wallets
    requires s.wallets[w] == AfterPasses(FreshWallet(0), s.config.maxPerWindow, 0)
    ensures var c, mid := s.config, Step(s, Event(0, Check(w))).0;
      var end := Step(mid, Event(c.blockDuration, Check(w))).0;
      && !LetsThrough(s, Event(0, Check(w)), w, 0, c.windowSize)
      && LetsThrough(mid, Event(c.blockDuration, Check(w)), w, 0, c.windowSize)
      && end.config == c && w in end.wallets
      && end.wallets[w] == WalletState(1, c.blockDuration, c.blockDuration, false, 0, 0, c.maxPerWindow + 1)
  {
  }

  /** With a shorter penalty, a spent window, one refused call and the next window all fit into one window length. */
  lemma ShortPenaltyRun(s: State, w: Address) returns (events: seq<Event>)
    requires StartsLimited(s, w) && !PenaltyCoversWindow(s.config)
    ensures LimitedRun(s, events, w)
    ensures AllowedIn(s, events, w, 0, s.config.windowSize) == 2 * s.config.maxPerWindow
  {
    var c := s.config;
    var a, b := Burst(w, c.maxPerWindow, 0), Burst(w, c.maxPerWindow - 1, c.blockDuration);
    var refused, reopened := Event(0, Check(w)), Event(c.blockDuration, Check(w));
    events := a + [refused] + [reopened] + b;
    ChecksAreLimited(events, w);
    assert Chronological(events);
    RunConcat(s, a, [refused], w, 0, c.windowSize);
    RunConcat(s, a + [refused], [reopened], w, 0, c.windowSize);
    RunConcat(s, a + [refused] + [reopened], b, w, 0, c.windowSize);
    BurstPasses(s, w, c.maxPerWindow, 0, 0, c.windowSize);
    var s1 := Run(s, a);
    PenaltyThenReopening(s1, w);
    OneEvent(s1, refused, w, 0, c.windowSize);
    var s2 := Run(s1, [refused]);
    OneEvent(s2, reopened, w, 0, c.windowSize);
    BurstPasses(Run(s2, [reopened]), w, c.maxPerWindow - 1, c.blockDuration, 0, c.windowSize);
  }

  /** Every limited run keeps every interval of one window length to 2 * max - 1 allowed calls exactly when the penalty
      covers the window. */
  lemma WindowBoundExact(s: State, w: Address)
    requires StartsLimited(s, w)
    ensures PenaltyCoversWindow(s.config) <==>
            forall events, from :: WithinBound(s.config, s, events, w, from)
  {
    if PenaltyCoversWindow(s.config) {
      forall events, from
        ensures WithinBound(s.config, s, events, w, from)
      {
        if LimitedRun(s, events, w) {
          WindowBound(s, events, w, from);
        }
      }
    } else {
      var events := ShortPenaltyRun(s, w);
      assert !WithinBound(s.config, s, events, w, 0);
    }
  }

  /** w is limited and in the window that began at 0, with room below u64 for a whole further window. */
  ghost predicate InFirstWindow(s: State, w: Address) {
    && s.config.enabled && ValidConfig(s.config) && w !in s.config.exempt
    && 2 <= s.config.windowSize && 2 * s.config.windowSize <= U64_MAX
    && w in s.wallets && !s.wallets[w].throttled && s.wallets[w].windowStart == 0
    && s.wallets[w].allTime == s.wallets[w].count
  }

  lemma WindowRestarts(s: State, w: Address)
    requires InFirstWindow(s, w)
    ensures var e := Event(s.config.windowSize, Check(w));
      var s' := Step(s, e).0;
      && (forall from, to :: LetsThrough(s, e, w, from, to) == (from <= s.config.windowSize < to))
      && s'.config == s.config && w in s'.wallets
      && s'.wallets[w] == s.wallets[w].(count := 1, windowStart := e.now, lastTransaction := e.now,
                                        allTime := s.wallets[w].allTime + 1)
  {
  }

  function SecondWindowEvents(c: Config, w: Address): seq<Event>
    requires ValidConfig(c)
  {
    [Event(c.windowSize, Check(w))] + Burst(w, c.maxPerWindow - 1, c.windowSize)
  }

  function RestOfTight(c: Config, w: Address): seq<Event>
    requires ValidConfig(c)
  {
    Burst(w, c.maxPerWindow - 1, c.windowSize - 1) + SecondWindowEvents(c, w)
  }

  function TightEvents(c: Config, w: Address): seq<Event>
    requires ValidConfig(c)
  {
    [Event(0, Check(w))] + RestOfTight(c, w)
  }

  /** The bound is reached: one call opens a window, the rest of it and the whole next window fall together. */
  lemma WindowBoundReached(s: State, w: Address, from: int, to: int)
    requires StartsLimited(s, w) && 2 <= s.config.windowSize && 2 * s.config.windowSize <= U64_MAX
    requires from == s.config.windowSize - 1 && to == from + s.config.windowSize
    ensures LimitedRun(s, TightEvents(s.config, w), w)
    ensures AllowedIn(s, TightEvents(s.config, w), w, from, to) == 2 * s.config.maxPerWindow - 1
  {
    ChecksAreLimited(TightEvents(s.config, w), w);
    TightCount(s, w, from, to);
  }

  lemma TightCount(s: State, w: Address, from: int, to: int)
    requires StartsLimited(s, w) && 2 <= s.config.windowSize && 2 * s.config.windowSize <= U64_MAX
    requires from == s.config.windowSize - 1 && to == from + s.config.windowSize
    ensures AllowedIn(s, TightEvents(s.config, w), w, from, to) == 2 * s.config.maxPerWindow - 1
  {
    RunConcat(s, [Event(0, Check(w))], RestOfTight(s.config, w), w, from, to);
    var s1 := FirstCall(s, w, from, to);
    TightRest(s1, w, from, to);
  }

  lemma TightRest(s: State, w: Address, from: int, to: int)
    requires InFirstWindow(s, w) && s.wallets[w].count == 1
    requires from == s.config.windowSize - 1 && to == from + s.config.windowSize
    ensures AllowedIn(s, RestOfTight(s.config, w), w, from, to) == 2 * s.config.maxPerWindow - 1
  {
    var c, a, b := s.config, Burst(w, s.config.maxPerWindow - 1, s.config.windowSize - 1), SecondWindowEvents(s.config, w);
    assert RestOfTight(c, w) == a + b;
    FillFirstWindow(s, w, from, to);
    SecondWindow(Run(s, a), w, from, to);
    CountsAdd(s, a, b, w, from, to, c.maxPerWindow - 1, c.maxPerWindow);
  }

  lemma CountsAdd(s: State, a: seq<Event>, b: seq<Event>, w: Address, from: int, to: int, m: int, n: int)
    requires AllowedIn(s, a, w, from, to) == m && AllowedIn(Run(s, a), b, w, from, to) == n
    ensures AllowedIn(s, a + b, w, from, to) == m + n
  {
    RunConcat(s, a, b, w, from, to);
  }

  lemma FillFirstWindow(s: State, w: Address, from: int, to: int)
    requires InFirstWindow(s, w) && s.wallets[w].count == 1 && from == s.config.windowSize - 1 && from < to
    ensures var a := Burst(w, s.config.maxPerWindow - 1, from);
      AllowedIn(s, a, w, from, to) == s.config.maxPerWindow - 1 && Run(s, a).config == s.config && InFirstWindow(Run(s, a), w)
  {
    BurstPasses(s, w, s.config.maxPerWindow - 1, from, from, to);
  }

  lemma SecondWindow(s: State, w: Address, from: int, to: int)
    requires InFirstWindow(s, w) && from <= s.config.windowSize < to
    ensures AllowedIn(s, SecondWindowEvents(s.config, w), w, from, to) == s.config.maxPerWindow
  {
    var c := s.config;
    var next := Event(c.windowSize, Check(w));
    RunConcat(s, [next], Burst(w, c.maxPerWindow - 1, c.windowSize), w, from, to);
    WindowRestarts(s, w);
    OneEvent(s, next, w, from, to);
    BurstPasses(Run(s, [next]), w, c.maxPerWindow - 1, c.windowSize, from, to);
  }

  lemma FirstCall(s: State, w: Address, from: int, to: int) returns (s1: State)
    requires StartsLimited(s, w) && 0 < from
    ensures s1 == Run(s, [Event(0, Check(w))]) && AllowedIn(s, [Event(0, Check(w))], w, from, to) == 0
    ensures s1.config == s.config && w in s1.wallets && s1.wallets[w] == WalletState(1, 0, 0, false, 0, 0, 1)
  {
    OneEvent(s, Event(0, Check(w)), w, from, to);
    OnePasses(s, w, 0);
    s1 := Run(s, [Event(0, Check(w))]);
  }

  // ----- a bound for every penalty -----

  /** Full windows that fit between an interval's start and a window's start when windows open a penalty apart. */
  function FullWindows(c: Config, from: int, start: int): int
    requires c.blockDuration != 0
  {
    c.maxPerWindow * ((start - from) / c.blockDuration)
  }

  function GeneralBound(c: Config): int
    requires ValidConfig(c)
  {
    c.maxPerWindow * ((c.windowSize - 1) / c.blockDuration + 2) - 1
  }

  lemma NextWindowCosts(c: Config, from: int, start: int, next: int)
    requires ValidConfig(c) && from <= start && start + c.blockDuration <= next
    ensures FullWindows(c, from, start) + c.maxPerWindow <= FullWindows(c, from, next)
  {
    var k := (start - from) / c.blockDuration;
    DivMonotone(start + c.blockDuration - from, next - from, c.blockDuration);
    DivShift(start + c.blockDuration - from, c.blockDuration);
    DivMonotone(0, start - from, c.blockDuration);
    MulDistributes(k, 1, c.maxPerWindow);
    MulMonotone(k + 1, (next - from) / c.blockDuration, c.maxPerWindow, c.maxPerWindow);
  }

  lemma WindowsWithinInterval(c: Config, from: int, start: int)
    requires ValidConfig(c) && from <= start < from + c.windowSize
    ensures 0 <= FullWindows(c, from, start)
    ensures c.maxPerWindow - 1 + FullWindows(c, from, start) + c.maxPerWindow <= GeneralBound(c)
  {
    var k, top := (start - from) / c.blockDuration, (c.windowSize - 1) / c.blockDuration;
    DivMonotone(start - from, c.windowSize - 1, c.blockDuration);
    DivMonotone(0, start - from, c.blockDuration);
    MulMonotone(k, top, c.maxPerWindow, c.maxPerWindow);
    MulNonNegative(c.maxPerWindow, k);
    MulDistributes(top, 2, c.maxPerWindow);
  }

  /** n calls so far in the interval, seen from a current window with this start and count. */
  ghost predicate CallsBounded(c: Config, from: int, start: int, count: int, n: int)
    requires ValidConfig(c)
  {
    if start < from then n <= count - 1
    else if start < from + c.windowSize then n <= c.maxPerWindow - 1 + FullWindows(c, from, start) + count
    else n <= GeneralBound(c)
  }

  lemma OneMoreInWindow(c: Config, from: int, start: int, count: int, n: int, now: int)
    requires ValidConfig(c) && CallsBounded(c, from, start, count, n) && start <= now
    ensures CallsBounded(c, from, start, count + 1, n + if from <= now < from + c.windowSize then 1 else 0)
  {
  }

  lemma OneInNewWindow(c: Config, from: int, start: int, count: int, n: int, now: int)
    requires ValidConfig(c) && CallsBounded(c, from, start, count, n) && count <= c.maxPerWindow && start <= now
    requires now >= start + c.windowSize || now >= start + c.blockDuration
    requires now < from ==> n == 0
    ensures CallsBounded(c, from, now, 1, n + if from <= now < from + c.windowSize then 1 else 0)
  {
    WindowsWithinInterval(c, from, from);
    if from <= start < from + c.windowSize {
      WindowsWithinInterval(c, from, start);
      if start + c.blockDuration <= now {
        NextWindowCosts(c, from, start, now);
      }
    } else if start < from <= now < from + c.windowSize {
      WindowsWithinInterval(c, from, now);
    }
  }

  ghost predicate GeneralInvariant(c: Config, s: State, w: Address, from: int, n: nat, now: int)
    requires ValidConfig(c)
  {
    && SameLimits(c, s.config) && w !in s.config.exempt
    && (w !in s.wallets || now < from ==> n == 0)
    && (w in s.wallets ==>
          WellKept(c, s.wallets[w], now) && CallsBounded(c, from, s.wallets[w].windowStart, s.wallets[w].count, n))
  }

  ghost predicate WellKept(c: Config, st: WalletState, now: int) {
    1 <= st.count <= c.maxPerWindow && st.windowStart <= now && (st.throttled ==> st.windowStart <= st.throttleStart)
  }

  /** What one check of a limited wallet can do: refuse and keep the window, count one more in it, or open a new window no
      sooner than a window length or a penalty after the old one. */
  ghost predicate OneCheck(c: Config, s: State, s': State, w: Address, now: int, passed: bool) {
    && s'.config == s.config && (w in s'.wallets ==> WellKept(c, s'.wallets[w], now))
    && (!passed ==>
          && (w in s'.wallets <==> w in s.wallets)
          && (w in s.wallets ==> s'.wallets[w].windowStart == s.wallets[w].windowStart
                                 && s'.wallets[w].count == s.wallets[w].count))
    && (passed ==>
          && w in s'.wallets
          && ((w in s.wallets && s'.wallets[w].windowStart == s.wallets[w].windowStart
               && s'.wallets[w].count == s.wallets[w].count + 1)
              || (s'.wallets[w].windowStart == now && s'.wallets[w].count == 1
                  && (w in s.wallets ==> now >= s.wallets[w].windowStart + c.windowSize
                                         || now >= s.wallets[w].windowStart + c.blockDuration))))
  }

  lemma CheckEffect(c: Config, s: State, w: Address, e: Event)
    requires ValidConfig(c) && c.enabled && SameLimits(c, s.config) && w !in s.config.exempt && e.op == Check(w)
    requires w in s.wallets ==> WellKept(c, s.wallets[w], e.now)
    ensures OneCheck(c, s, Step(s, e).0, w, e.now, LetsThrough(s, e, w, e.now, e.now + 1))
  {
  }

  lemma GeneralEffect(c: Config, s: State, s': State, w: Address, from: int, n: nat, last: int, now: int, passed: bool)
    requires ValidConfig(c) && GeneralInvariant(c, s, w, from, n, last) && last <= now
    requires OneCheck(c, s, s', w, now, passed)
    ensures GeneralInvariant(c, s', w, from, n + if passed && from <= now < from + c.windowSize then 1 else 0, now)
  {
    if w in s.wallets {
      var st := s.wallets[w];
      OneMoreInWindow(c, from, st.windowStart, st.count, n, now);
      if now >= st.windowStart + c.windowSize || now >= st.windowStart + c.blockDuration {
        OneInNewWindow(c, from, st.windowStart, st.count, n, now);
      }
    } else if passed {
      WindowsWithinInterval(c, from, from);
      if from <= now < from + c.windowSize {
        WindowsWithinInterval(c, from, now);
      }
    }
  }

  lemma GeneralCheck(c: Config, s: State, w: Address, from: int, n: nat, last: int, e: Event)
    requires ValidConfig(c) && c.enabled
    requires GeneralInvariant(c, s, w, from, n, last) && last <= e.now && e.op == Check(w)
    ensures GeneralInvariant(c, Step(s, e).0, w, from,
              n + if LetsThrough(s, e, w, from, from + c.windowSize) then 1 else 0, e.now)
  {
    CheckEffect(c, s, w, e);
    PassedWhen(s, w, e, from, from + c.windowSize);
    GeneralEffect(c, s, Step(s, e).0, w, from, n, last, e.now, LetsThrough(s, e, w, e.now, e.now + 1));
  }

  lemma PassedWhen(s: State, w: Address, e: Event, from: int, to: int)
    ensures LetsThrough(s, e, w, from, to) <==> LetsThrough(s, e, w, e.now, e.now + 1) && from <= e.now < to
  {
  }

  lemma {:induction false} GeneralRun(s: State, events: seq<Event>, w: Address, from: int)
    requires LimitedRun(s, events, w)
    ensures GeneralInvariant(s.config, Run(s, events), w, from,
              AllowedIn(s, events, w, from, from + s.config.windowSize),
              if events == [] then 0 else events[|events| - 1].now)
  {
    if events != [] {
      var before, e := events[..|events| - 1], events[|events| - 1];
      GeneralRun(s, before, w, from);
      var n := AllowedIn(s, before, w, from, from + s.config.windowSize);
      var last := if before == [] then 0 else before[|before| - 1].now;
      if e.op == Check(w) {
        GeneralCheck(s.config, Run(s, before), w, from, n, last, e);
      } else {
        OtherWalletsApart(s.config, Run(s, before), w, from, n, last, e);
      }
    }
  }

  lemma OtherWalletsApart(c: Config, s: State, w: Address, from: int, n: nat, last: int, e: Event)
    requires ValidConfig(c) && GeneralInvariant(c, s, w, from, n, last) && last <= e.now
    requires LeavesLimits(e, w) && e.op != Check(w)
    ensures GeneralInvariant(c, Step(s, e).0, w, from, n, e.now)
  {
  }

  /** For every valid configuration, however short the penalty, an interval of one window length never holds more allowed
      calls of a limited wallet than one window less a call plus the windows a penalty apart that can begin in it. */
  lemma WindowBoundAnyPenalty(s: State, events: seq<Event>, w: Address, from: int)
    requires LimitedRun(s, events, w)
    ensures AllowedIn(s, events, w, from, from + s.config.windowSize) <= GeneralBound(s.config)
  {
    GeneralRun(s, events, w, from);
    var c, end := s.config, Run(s, events);
    WindowsWithinInterval(c, from, from);
    if w in end.wallets && from <= end.wallets[w].windowStart < from + c.windowSize {
      WindowsWithinInterval(c, from, end.wallets[w].windowStart);
    }
  }

  // ----- what a verdict promises -----

  /** The remaining number of an allowed check is exact: that many more calls pass at the same time, and the next does not. */
  lemma RemainingIsExact(s: State, w: Address, t: U64, k: nat)
    requires s.config.enabled && ValidConfig(s.config) && w !in s.config.exempt
    requires var r := Step(s, Event(t, Check(w))).1; r.Ok? && r.value.Checked? && r.value.verdict.allowed
                                                     && r.value.verdict.remaining == k
    requires Step(s, Event(t, Check(w))).0.wallets[w].allTime + k <= U64_MAX
    ensures var s' := Step(s, Event(t, Check(w))).0;
      && AllowedIn(s', Burst(w, k, t), w, t, t + 1) == k
      && !LetsThrough(Run(s', Burst(w, k, t)), Event(t, Check(w)), w, t, t + 1)
  {
    var s' := Step(s, Event(t, Check(w))).0;
    AllowedLeavesRoom(s, w, t, k);
    BurstPasses(s', w, k, t, t, t + 1);
    SpentRefuses(Run(s', Burst(w, k, t)), w, t);
  }

  lemma AllowedLeavesRoom(s: State, w: Address, t: U64, k: nat)
    requires s.config.enabled && ValidConfig(s.config) && w !in s.config.exempt
    requires var r := Step(s, Event(t, Check(w))).1; r.Ok? && r.value.Checked? && r.value.verdict.allowed
                                                     && r.value.verdict.remaining == k
    requires Step(s, Event(t, Check(w))).0.wallets[w].allTime + k <= U64_MAX
    ensures var s' := Step(s, Event(t, Check(w))).0;
      s'.config == s.config && w in s'.wallets && s'.wallets[w].count + k == s.config.maxPerWindow
      && HasRoom(s', w, k, t)
  {
  }

  lemma SpentRefuses(s: State, w: Address, t: U64)
    requires s.config.enabled && w !in s.config.exempt && w in s.wallets && !s.wallets[w].throttled
    requires s.wallets[w].count >= s.config.maxPerWindow && t < s.wallets[w].windowStart + s.config.windowSize
    ensures !LetsThrough(s, Event(t, Check(w)), w, t, t + 1)
  {
  }

  /** The penalty end of a refusal is exact: until then every check is refused as throttled, and from then on the next check
      passes, unless opening its window leaves u64. */
  lemma PenaltyEndIsExact(s: State, e: Event, w: Address, t: U64)
    requires e.op == Check(w) && s.config.enabled && ValidConfig(s.config) && w !in s.config.exempt && e.now <= t
    requires var r := Step(s, e).1; r.Ok? && r.value.Checked? && !r.value.verdict.allowed
    requires w in Step(s, e).0.wallets && Step(s, e).0.wallets[w].allTime < U64_MAX
    ensures var s', end := Step(s, e).0, Step(s, e).1.value.verdict.throttleEnd;
      && end.Some?
      && var again := Step(s', Event(t, Check(w))).1;
         if t < end.value then
           && again.Ok? && again.value.Checked? && again.value.verdict.reason == CurrentlyThrottled
           && again.value.verdict.windowReset == Step(s, e).1.value.verdict.windowReset
         else if t + s.config.windowSize <= U64_MAX then again.Ok? && again.value.Checked? && again.value.verdict.allowed
         else again == Abort(Overflow)
  {
  }

  /** The window end of an allowed check is exact: it lies ahead by at most one window; a check before it is still counted
      in the same window, and one from then on opens a fresh window. */
  lemma WindowResetIsExact(s: State, e: Event, w: Address, t: U64)
    requires e.op == Check(w) && s.config.enabled && ValidConfig(s.config) && w !in s.config.exempt && e.now <= t
    requires w in s.wallets ==> s.wallets[w].windowStart <= e.now
    requires var r := Step(s, e).1; r.Ok? && r.value.Checked? && r.value.verdict.allowed
    requires Step(s, e).0.wallets[w].allTime < U64_MAX && t + s.config.windowSize <= U64_MAX
    ensures var s', first := Step(s, e).0, Step(s, e).1.value.verdict;
      && e.now < first.windowReset <= e.now + s.config.windowSize
      && var again := Step(s', Event(t, Check(w))).1;
         if t >= first.windowReset then
           again == Ok(Checked(Verdict(true, Allowed, s.config.maxPerWindow - 1, t + s.config.windowSize, None)))
         else
           && (first.remaining > 0 ==>
                 again == Ok(Checked(Verdict(true, Allowed, first.remaining - 1, first.windowReset, None))))
           && (first.remaining == 0 && again.Ok? ==>
                 again.value.Checked? && again.value.verdict.reason == ExceededFrequency
                 && again.value.verdict.windowReset == first.windowReset)
  {
  }

  // ----- the throttled list -----

  /** The list names exactly the wallets whose stored flag is set, each once. */
  ghost predicate ListMirrorsFlags(s: State) {
    && NoDuplicates(s.throttledList)
    && forall w :: w in s.throttledList <==> w in s.wallets && s.wallets[w].throttled
  }

  lemma MirrorStep(s: State, e: Event)
    requires ListMirrorsFlags(s)
    ensures ListMirrorsFlags(Step(s, e).0)
  {
    match e.op
    case Check(w) => WithoutKeepsDistinct(s.throttledList, w);
    case Reset(_, w) => WithoutKeepsDistinct(s.throttledList, w);
    case _ =>
  }

  /** Over every run of checks, resets and configuration changes. */
  lemma {:induction false} MirrorRun(s: State, events: seq<Event>)
    requires ListMirrorsFlags(s)
    ensures ListMirrorsFlags(Run(s, events))
  {
    if events != [] {
      MirrorRun(s, events[..|events| - 1]);
      MirrorStep(Run(s, events[..|events| - 1]), events[|events| - 1]);
    }
  }

  // ----- a check and a reset, in plain terms -----

  /** The window of a wallet that is still open: not stored as throttled, and not at its end yet. */
  predicate WindowOpen(s: State, w: Address, now: U64) {
    && w in s.wallets && !s.wallets[w].throttled && now < s.wallets[w].windowStart + s.config.windowSize
  }

  predicate InPenalty(s: State, w: Address, now: U64) {
    w in s.wallets && s.wallets[w].throttled && now < s.wallets[w].throttleStart + s.config.blockDuration
  }

  /** Which verdict a check gives, for every state and wallet, and what it stores. Off or exempt: passed, uncounted. In a
      penalty: refused until its end, nothing stored. Otherwise the call counts in the open window, or in a fresh one from now
      if there is none; once that window has spent the maximum it is refused and a penalty starts now. */
  lemma CheckLaw(s: State, w: Address, now: U64)
    ensures var (after, r) := Step(s, Event(now, Check(w)));
      var c := s.config;
      var spent := if WindowOpen(s, w, now) then s.wallets[w].count else 0;
      var start := if WindowOpen(s, w, now) then s.wallets[w].windowStart else now;
      && (r.Abort? ==> r == Abort(Overflow) && after == s && c.enabled && w !in c.exempt)
      && (r.Ok? ==>
            && r.value.Checked?
            && var v := r.value.verdict;
               if !c.enabled then v == Verdict(true, SystemDisabled, 0xFFFF_FFFF, 0, None) && after == s
               else if w in c.exempt then v == Verdict(true, WalletExempt, 0xFFFF_FFFF, 0, None) && after == s
               else if InPenalty(s, w, now) then
                 && Refuses(v, CurrentlyThrottled, s.wallets[w].windowStart + c.windowSize,
                            s.wallets[w].throttleStart + c.blockDuration)
                 && after == s
               else if spent >= c.maxPerWindow then
                 && Refuses(v, ExceededFrequency, start + c.windowSize, now + c.blockDuration)
                 && StoresOnly(s, after, w)
                 && after.wallets[w].throttled && after.wallets[w].throttleStart == now
                 && after.wallets[w].count == spent && after.wallets[w].windowStart == start
               else
                 && v.allowed && v.reason == Allowed && v.remaining == c.maxPerWindow - spent - 1
                 && v.windowReset == start + c.windowSize && v.throttleEnd == None
                 && StoresOnly(s, after, w)
                 && !after.wallets[w].throttled && after.wallets[w].lastTransaction == now
                 && after.wallets[w].count == spent + 1 && after.wallets[w].windowStart == start
                 && after.wallets[w].allTime == (if w in s.wallets then s.wallets[w].allTime else 0) + 1)
  {
  }

  predicate Refuses(v: Verdict, reason: Reason, reset: int, end: int) {
    && !v.allowed && v.reason == reason && v.remaining == 0 && v.windowReset == reset
    && v.throttleEnd.Some? && v.throttleEnd.value == end
  }

  /** Nothing but the record of w, and the list of throttled wallets, has changed. */
  ghost predicate StoresOnly(s: State, after: State, w: Address) {
    && after.admin == s.admin && after.config == s.config && w in after.wallets
    && after.wallets == s.wallets[w := after.wallets[w]]
  }

  /** Every stored window and penalty has begun by now. */
  ghost predicate Timely(s: State, now: int) {
    forall w <- s.wallets.Keys :: s.wallets[w].windowStart <= now && s.wallets[w].throttleStart <= now
  }

  lemma {:induction false} TimelyRun(s: State, events: seq<Event>)
    requires Timely(s, 0) && Chronological(events)
    ensures Timely(Run(s, events), if events == [] then 0 else events[|events| - 1].now)
  {
    if events != [] {
      TimelyRun(s, events[..|events| - 1]);
      TimelyStep(Run(s, events[..|events| - 1]), events[|events| - 1]);
    }
  }

  lemma TimelyStep(s: State, e: Event)
    requires Timely(s, e.now)
    ensures Timely(Step(s, e).0, e.now)
  {
  }

  /** In every chronological run a check answers, whatever was configured, exempted or reset before, as long as a window and a
      penalty from now end within u64 and the wallet's own counters are not exhausted. */
  lemma CheckAnswers(s: State, events: seq<Event>, w: Address, now: U64)
    requires Timely(s, 0) && ViolationsMirrorFlags(s) && Chronological(events)
    requires events != [] ==> events[|events| - 1].now <= now
    ensures var end := Run(s, events);
      && now + end.config.windowSize <= U64_MAX && now + end.config.blockDuration <= U64_MAX
      && (w in end.wallets ==> end.wallets[w].count < U32_MAX && end.wallets[w].allTime < U64_MAX) ==>
           Step(end, Event(now, Check(w))).1.Ok?
  {
    TimelyRun(s, events);
    ViolationsRun(s, events);
  }

  /** After the admin's reset of a wallet at t, a check at any later time passes with one call spent: in the window from t if
      that is still open, and else in a fresh one. Its total starts over, and no other wallet is touched. */
  lemma ResetExactly(s: State, w: Address, t: U64, t2: U64)
    requires s.config.enabled && ValidConfig(s.config) && w !in s.config.exempt && t <= t2
    requires t2 + s.config.windowSize <= U64_MAX
    ensures var (after, r) := Step(s, Event(t, Reset(s.admin, w)));
      && r == Ok(Done) && after.config == s.config && after.admin == s.admin
      && after.wallets.Keys == s.wallets.Keys + {w}
      && (forall x <- s.wallets.Keys :: x != w ==> after.wallets[x] == s.wallets[x])
      && (forall x :: x in after.throttledList <==> x in s.throttledList && x != w)
      && var (later, checked) := Step(after, Event(t2, Check(w)));
         && checked == Ok(Checked(Verdict(true, Allowed, s.config.maxPerWindow - 1,
                                          (if t2 < t + s.config.windowSize then t else t2) + s.config.windowSize, None)))
         && w in later.wallets && later.wallets[w].allTime == 1 && later.wallets[w].violations == 0
  {
  }

  // ----- totals over runs -----

  /** The step counts a call of w. */
  predicate Counts(s: State, e: Event, w: Address) {
    var r := Step(s, e).1;
    e.op == Check(w) && r.Ok? && r.value.Checked? && r.value.verdict.reason == Allowed
  }

  /** How many calls of w were counted since the admin last reset it. */
  function CountedSinceReset(s: State, events: seq<Event>, w: Address): nat {
    if events == [] then 0
    else
      var before, e := events[..|events| - 1], events[|events| - 1];
      if e.op == Reset(s.admin, w) then 0
      else CountedSinceReset(s, before, w) + if Counts(Run(s, before), e, w) then 1 else 0
  }

  /** When the last of them was; zero if there is none. */
  function LastCounted(s: State, events: seq<Event>, w: Address): int {
    if events == [] then 0
    else
      var before, e := events[..|events| - 1], events[|events| - 1];
      if e.op == Reset(s.admin, w) then 0
      else if Counts(Run(s, before), e, w) then e.now
      else LastCounted(s, before, w)
  }

  /** Over every run the record of a wallet tells how many of its calls were counted since its last reset, and the last one's
      time; a wallet without a record has had none. */
  lemma {:induction false} TotalsRun(s: State, events: seq<Event>, w: Address)
    requires ValidConfig(s.config) && w !in s.wallets
    ensures var end := Run(s, events);
      if w in end.wallets then
        && end.wallets[w].allTime == CountedSinceReset(s, events, w)
        && end.wallets[w].lastTransaction == LastCounted(s, events, w)
      else CountedSinceReset(s, events, w) == 0
  {
    if events != [] {
      var before := events[..|events| - 1];
      TotalsRun(s, before, w);
      ConfigRun(s, before, w);
      TotalsStep(Run(s, before), events[|events| - 1], w);
    }
  }

  lemma TotalsStep(s: State, e: Event, w: Address)
    requires ValidConfig(s.config)
    ensures var after := Step(s, e).0;
      if e.op == Reset(s.admin, w) then
        w in after.wallets && after.wallets[w].allTime == 0 && after.wallets[w].lastTransaction == 0
      else if Counts(s, e, w) then
        && w in after.wallets && after.wallets[w].lastTransaction == e.now
        && after.wallets[w].allTime == (if w in s.wallets then s.wallets[w].allTime else 0) + 1
      else
        && (w in after.wallets <==> w in s.wallets)
        && (w in s.wallets ==> after.wallets[w].allTime == s.wallets[w].allTime
                               && after.wallets[w].lastTransaction == s.wallets[w].lastTransaction)
  {
  }

  // ----- violations, exemptions and the configuration over runs -----

  /** A wallet has one violation on record while its penalty stands, and none otherwise. */
  ghost predicate ViolationsMirrorFlags(s: State) {
    forall w <- s.wallets.Keys :: s.wallets[w].violations == if s.wallets[w].throttled then 1 else 0
  }

  /** Over every run the violation counter never exceeds one, whatever the configuration, because a penalty is lifted before
      the next can start; so the counter cannot overflow. */
  lemma {:induction false} ViolationsRun(s: State, events: seq<Event>)
    requires ViolationsMirrorFlags(s)
    ensures ViolationsMirrorFlags(Run(s, events))
  {
    if events != [] {
      ViolationsRun(s, events[..|events| - 1]);
      ViolationsStep(Run(s, events[..|events| - 1]), events[|events| - 1]);
    }
  }

  lemma ViolationsStep(s: State, e: Event)
    requires ViolationsMirrorFlags(s)
    ensures ViolationsMirrorFlags(Step(s, e).0)
  {
  }

  /** Whether w is exempt after the run, read off the calls alone: the last admin call concerning w decides. */
  predicate ExemptAfter(s: State, events: seq<Event>, w: Address) {
    if events == [] then w in s.config.exempt
    else
      var before := ExemptAfter(s, events[..|events| - 1], w);
      match events[|events| - 1].op
      case UpdateConfig(caller, c) => if caller == s.admin && ValidConfig(c) then w in c.exempt else before
      case AddExempt(caller, x) => before || (caller == s.admin && x == w)
      case RemoveExempt(caller, x) => before && !(caller == s.admin && x == w)
      case _ => before
  }

  /** The configuration of the admin's last valid update, exemptions aside. */
  function LimitsAfter(s: State, events: seq<Event>): Config {
    if events == [] then s.config
    else
      var op := events[|events| - 1].op;
      if op.UpdateConfig? && op.caller == s.admin && op.config.maxPerWindow > 0 && op.config.windowSize > 0
         && op.config.blockDuration > 0 && op.config.cleanupInterval > 0
      then op.config else LimitsAfter(s, events[..|events| - 1])
  }

  /** Over every run the configuration stays valid, the admin stays the same, the limits are those of the admin's last valid
      update, and the exemptions are what the admin's calls say. */
  lemma {:induction false} ConfigRun(s: State, events: seq<Event>, w: Address)
    requires ValidConfig(s.config)
    ensures ValidConfig(Run(s, events).config) && Run(s, events).admin == s.admin
    ensures Run(s, events).config.(exempt := []) == LimitsAfter(s, events).(exempt := [])
    ensures w in Run(s, events).config.exempt <==> ExemptAfter(s, events, w)
  {
    if events != [] {
      ConfigRun(s, events[..|events| - 1], w);
    }
  }

  /** An admin call by anybody else is refused and changes nothing; by the admin it is refused only for an invalid
      configuration. */
  lemma AdminOnly(s: State, e: Event)
    requires !e.op.Check?
    ensures e.op.caller != s.admin ==> Step(s, e) == (s, Abort(Unauthorized))
    ensures e.op.caller == s.admin ==>
              match e.op
              case UpdateConfig(_, c) =>
                if c.maxPerWindow > 0 && c.windowSize > 0 && c.blockDuration > 0 && c.cleanupInterval > 0
                then Step(s, e) == (s.(config := c), Ok(Done)) else Step(s, e) == (s, Abort(InvalidConfig))
              case AddExempt(_, w) =>
                && Step(s, e).1 == Ok(Done)
                && Step(s, e).0.config.exempt == s.config.exempt + if w in s.config.exempt then [] else [w]
              case _ => Step(s, e).1 == Ok(Done)
  {
  }

  /** Limits are left out exactly while the limiter is off or the wallet exempt: such a check passes and stores nothing, and
      every other check that passes is counted. */
  lemma BypassExactly(s: State, w: Address, now: U64)
    requires LetsThrough(s, Event(now, Check(w)), w, now, now + 1) || !s.config.enabled || w in s.config.exempt
    ensures var s' := Step(s, Event(now, Check(w))).0;
      && LetsThrough(s, Event(now, Check(w)), w, now, now + 1)
      && (s' == s <==> !s.config.enabled || w in s.config.exempt)
  {
    if s.config.enabled && w !in s.config.exempt && w in s.wallets {
      assert Step(s, Event(now, Check(w))).0.wallets[w].allTime == s.wallets[w].allTime + 1;
    }
  }

  // ----- the contract -----

  class ThrottleContract {
    var admin: Address
    var config: Config
    var wallets: map<Address, WalletState>
    var throttledList: seq<Address>

    ghost function View(): State
      reads this
    {
      State(admin, config, wallets, throttledList)
    }

    constructor (admin: Address, config: Config)
      requires ValidConfig(config)
      ensures View() == State(admin, config, map[], []) && ListMirrorsFlags(View())
    {
      this.admin, this.config, wallets, throttledList := admin, config, map[], [];
    }

    method CheckTransactionThrottle(w: Address, now: U64) returns (r: Result<Reply, Error>)
      modifies this`wallets, this`throttledList
      ensures (View(), r) == Step(old(View()), Event(now, Check(w)))
    {
      if !config.enabled {
        return Ok(Checked(Verdict(true, SystemDisabled, U32_MAX, 0, None)));
      }
      if w in config.exempt {
        return Ok(Checked(Verdict(true, WalletExempt, U32_MAX, 0, None)));
      }
      var st := Load(wallets, w, now);
      var list := throttledList;
      if st.throttled {
        if st.throttleStart + config.blockDuration > U64_MAX {
          return Abort(Overflow);
        }
        if now < st.throttleStart + config.blockDuration {
          if st.windowStart + config.windowSize > U64_MAX {
            return Abort(Overflow);
          }
          return Ok(Checked(Verdict(false, CurrentlyThrottled, 0, st.windowStart + config.windowSize,
                                    Some(st.throttleStart + config.blockDuration))));
        }
        st := st.(throttled := false, count := 0, windowStart := now, violations := 0);
        var listed;
        list, listed := RebuildWithout(list, w);
      }
      if st.windowStart + config.windowSize > U64_MAX {
        return Abort(Overflow);
      }
      if now >= st.windowStart + config.windowSize {
        st := st.(count := 0, windowStart := now);
        if now + config.windowSize > U64_MAX {
          return Abort(Overflow);
        }
      }
      assert st == Refreshed(config, Load(wallets, w, now), now);
      if st.count >= config.maxPerWindow {
        if st.violations == U32_MAX || st.count == U32_MAX || now + config.blockDuration > U64_MAX {
          return Abort(Overflow);
        }
        st := st.(throttled := true, throttleStart := now, violations := st.violations + 1);
        if w !in list {
          list := list + [w];
        }
        wallets, throttledList := wallets[w := st], list;
        return Ok(Checked(Verdict(false, ExceededFrequency, 0, st.windowStart + config.windowSize,
                                  Some(now + config.blockDuration))));
      }
      if st.allTime == U64_MAX {
        return Abort(Overflow);
      }
      st := st.(count := st.count + 1, lastTransaction := now, allTime := st.allTime + 1);
      wallets, throttledList := wallets[w := st], list;
      return Ok(Checked(Verdict(true, Allowed, config.maxPerWindow - st.count, st.windowStart + config.windowSize, None)));
    }

    method UpdateThrottleConfig(caller: Address, c: Config, now: U64) returns (r: Result<Reply, Error>)
      modifies this`config
      ensures (View(), r) == Step(old(View()), Event(now, UpdateConfig(caller, c)))
    {
      if caller != admin {
        return Abort(Unauthorized);
      }
      if c.maxPerWindow == 0 || c.windowSize == 0 || c.blockDuration == 0 || c.cleanupInterval == 0 {
        return Abort(InvalidConfig);
      }
      config := c;
      return Ok(Done);
    }

    method AddExemptAddress(caller: Address, w: Address, now: U64) returns (r: Result<Reply, Error>)
      modifies this`config
      ensures (View(), r) == Step(old(View()), Event(now, AddExempt(caller, w)))
    {
      if caller != admin {
        return Abort(Unauthorized);
      }
      if w !in config.exempt {
        config := config.(exempt := config.exempt + [w]);
      }
      return Ok(Done);
    }

    method RemoveExemptAddress(caller: Address, w: Address, now: U64) returns (r: Result<Reply, Error>)
      modifies this`config
      ensures (View(), r) == Step(old(View()), Event(now, RemoveExempt(caller, w)))
    {
      if caller != admin {
        return Abort(Unauthorized);
      }
      var kept, found := RebuildWithout(config.exempt, w);
      if found {
        config := config.(exempt := kept);
      }
      return Ok(Done);
    }

    method ResetWalletThrottleState(caller: Address, w: Address, now: U64) returns (r: Result<Reply, Error>)
      modifies this
      ensures (View(), r) == Step(old(View()), Event(now, Reset(caller, w)))
    {
      if caller != admin {
        return Abort(Unauthorized);
      }
      wallets := wallets[w := FreshWallet(now)];
      var listed;
      throttledList, listed := RebuildWithout(throttledList, w);
      return Ok(Done);
    }
  }
}
