/** Recurring contributions on a fixed cadence, with an optional cap on their number. */
module RecurringSavings {
  import opened Arithmetic
  import opened Base
  import opened MapSums
  import opened Tokens

  const MIN_INTERVAL: int := 3_600

  datatype Status = Active | Cancelled | Exhausted

  datatype Schedule = Schedule(
    owner: Address,
    token: Address,
    goal: Address,
    amount: I128,
    interval: U64,
    next: U64,
    completed: U32,
    max: U32,
    status: Status,
    createdAt: U64)

  datatype Error =
    | Unauthorized | InvalidAmount | InvalidInterval | ScheduleNotFound | ScheduleInactive | NotDueYet | Overflow
    | InvalidGoalAddress | TransferFailed

  datatype State = State(nextId: U64, schedules: map<U64, Schedule>, balances: Balances)

  datatype Reply = Created(id: U64) | Contributed(amount: I128) | Done

  datatype Op =
    | Create(owner: Address, token: Address, goal: Address, amount: I128, interval: U64, max: U32)
    | Execute(id: U64)
    | Cancel(caller: Address, id: U64)

  datatype Event = Event(now: U64, op: Op)

  function CreateStep(s: State, now: U64, owner: Address, token: Address, goal: Address, amount: I128, interval: U64,
                      max: U32): (State, Result<Reply, Error>)
  {
    if amount <= 0 then (s, Abort(InvalidAmount))
    else if interval < MIN_INTERVAL then (s, Abort(InvalidInterval))
    else if goal == owner then (s, Abort(InvalidGoalAddress))
    else if now + interval > U64_MAX || s.nextId == U64_MAX then (s, Abort(Overflow))
    else
      (s.(nextId := s.nextId + 1,
          schedules := s.schedules[s.nextId :=
            Schedule(owner, token, goal, amount, interval, now + interval, 0, max, Active, now)]),
       Ok(Created(s.nextId)))
  }

  function Advanced(c: Schedule): Schedule
    requires c.completed < U32_MAX && c.next + c.interval <= U64_MAX
  {
    c.(completed := c.completed + 1,
       next := c.next + c.interval,
       status := if c.max > 0 && c.completed + 1 >= c.max then Exhausted else c.status)
  }

  function ExecuteStep(s: State, now: U64, id: U64): (State, Result<Reply, Error>) {
    if id !in s.schedules then (s, Abort(ScheduleNotFound))
    else
      var c := s.schedules[id];
      if c.status != Active then (s, Abort(ScheduleInactive))
      else if now < c.next then (s, Abort(NotDueYet))
      else if c.completed == U32_MAX || c.next + c.interval > U64_MAX then (s, Abort(Overflow))
      else if !CanMove(s.balances, c.token, c.owner, c.amount) then (s, Abort(TransferFailed))
      else
        (s.(schedules := s.schedules[id := Advanced(c)],
            balances := Moved(s.balances, c.token, c.owner, c.goal, c.amount)),
         Ok(Contributed(c.amount)))
  }

  function CancelStep(s: State, caller: Address, id: U64): (State, Result<Reply, Error>) {
    if id !in s.schedules then (s, Abort(ScheduleNotFound))
    else if caller != s.schedules[id].owner then (s, Abort(Unauthorized))
    else if s.schedules[id].status != Active then (s, Abort(ScheduleInactive))
    else (s.(schedules := s.schedules[id := s.schedules[id].(status := Cancelled)]), Ok(Done))
  }

  function Step(s: State, e: Event): (State, Result<Reply, Error>) {
    match e.op
    case Create(owner, token, goal, amount, interval, max) =>
      CreateStep(s, e.now, owner, token, goal, amount, interval, max)
    case Execute(id) => ExecuteStep(s, e.now, id)
    case Cancel(caller, id) => CancelStep(s, caller, id)
  }

  function Deployed(balances: Balances): State {
    State(0, map[], balances)
  }

  function Run(s: State, events: seq<Event>): State {
    if events == [] then s else Step(Run(s, events[..|events| - 1]), events[|events| - 1]).0
  }

  /** The total the contract has moved under one schedule. */
  function MovedUnder(s: State, events: seq<Event>, id: U64): int {
    if events == [] then 0
    else
      var init, e := events[..|events| - 1], events[|events| - 1];
      var r := Step(Run(s, init), e).1;
      MovedUnder(s, init, id) + if e.op == Execute(id) && r.Ok? && r.value.Contributed? then r.value.amount else 0
  }

  // ----- cadence -----

  /** The next execution is always created + (completed + 1) intervals, and exhaustion is reaching the cap. */
  predicate OnCadence(c: Schedule) {
    && c.amount > 0 && c.interval >= 3_600 && c.goal != c.owner
    && c.next == c.createdAt + (c.completed + 1) * c.interval
    && (c.max > 0 ==> c.completed <= c.max)
    && (c.status == Exhausted <==> c.max > 0 && c.completed == c.max)
  }

  lemma AdvancedOnCadence(c: Schedule)
    requires OnCadence(c) && c.status == Active && c.completed < U32_MAX && c.next + c.interval <= U64_MAX
    ensures OnCadence(Advanced(c))
  {
    MulDistributes(c.completed + 1, 1, c.interval);
  }

  ghost predicate ScheduleInvariant(s: State, id: U64, moved: int) {
    if id in s.schedules then id < s.nextId && OnCadence(s.schedules[id])
      && moved == s.schedules[id].amount * s.schedules[id].completed
    else moved == 0
  }

  lemma InvariantStep(s: State, e: Event, id: U64, moved: int)
    requires ScheduleInvariant(s, id, moved)
    ensures var r := Step(s, e).1;
      ScheduleInvariant(Step(s, e).0, id, moved + if e.op == Execute(id) && r.Ok? && r.value.Contributed? then r.value.amount else 0)
  {
    if e.op == Execute(id) {
      InvariantByExecute(s, e.now, id, moved);
    }
  }

  lemma InvariantByExecute(s: State, now: U64, id: U64, moved: int)
    requires ScheduleInvariant(s, id, moved)
    ensures var (s', r) := ExecuteStep(s, now, id);
      ScheduleInvariant(s', id, moved + if r.Ok? && r.value.Contributed? then r.value.amount else 0)
  {
    if ExecuteStep(s, now, id).1.Ok? {
      var c := s.schedules[id];
      AdvancedOnCadence(c);
      MulDistributes(c.completed, 1, c.amount);
    }
  }

  /** In every run each schedule is on cadence, exhausted exactly at its cap, and has moved its amount once per completed
      execution. */
  lemma {:induction false} ScheduleRun(balances: Balances, events: seq<Event>, id: U64)
    ensures var s := Deployed(balances); ScheduleInvariant(Run(s, events), id, MovedUnder(s, events, id))
  {
    if events != [] {
      var s, init := Deployed(balances), events[..|events| - 1];
      ScheduleRun(balances, init, id);
      InvariantStep(Run(s, init), events[|events| - 1], id, MovedUnder(s, init, id));
    }
  }

  /** Each reported contribution is a transfer of the amount from the owner to the goal. */
  lemma ContributionPays(s: State, now: U64, id: U64)
    requires ExecuteStep(s, now, id).1.Ok?
    ensures var c, (s', r) := s.schedules[id], ExecuteStep(s, now, id);
      r.value == Contributed(c.amount) && PaidTo(s.balances, s'.balances, c.token, c.owner, c.goal, c.amount)
  {
    var c := s.schedules[id];
    MovedExactly(s.balances, c.token, c.owner, c.goal, c.amount);
  }

  /** A refused execution changes nothing and answers what stands first against it. */
  lemma ExecuteRefusals(s: State, now: U64, id: U64)
    requires ExecuteStep(s, now, id).1.Abort?
    ensures ExecuteStep(s, now, id).0 == s
    ensures ExecuteStep(s, now, id).1.error ==
              if id !in s.schedules then ScheduleNotFound
              else if s.schedules[id].status != Active then ScheduleInactive
              else if now < s.schedules[id].next then NotDueYet
              else if s.schedules[id].completed == U32_MAX || s.schedules[id].next + s.schedules[id].interval > U64_MAX
              then Overflow
              else TransferFailed
  {
  }

  // ----- catch-up at one time -----

  /** n executions of one schedule in a row at one time. */
  function Repeat(s: State, now: U64, id: U64, n: nat): State {
    if n == 0 then s else ExecuteStep(Repeat(s, now, id, n - 1), now, id).0
  }

  /** How many more calls of an uncapped schedule are due at a time. */
  function DueCalls(c: Schedule, now: U64): int
    requires c.interval > 0
  {
    (now - c.createdAt) / c.interval - c.completed
  }

  /** A call is due exactly while some interval since creation is not yet paid for. */
  lemma DueExactly(c: Schedule, now: U64)
    requires OnCadence(c)
    ensures now >= c.next <==> DueCalls(c, now) > 0
  {
    var q := (now - c.createdAt) / c.interval;
    if now >= c.next {
      QuotientUnique((c.completed + 1) * c.interval, c.interval, c.completed + 1, 0);
      DivMonotone((c.completed + 1) * c.interval, now - c.createdAt, c.interval);
    } else {
      MulDistributes(c.completed, 1, c.interval);
      QuotientUnique((c.completed + 1) * c.interval - 1, c.interval, c.completed, c.interval - 1);
      DivMonotone(now - c.createdAt, (c.completed + 1) * c.interval - 1, c.interval);
    }
  }

  /** n executions in a row at one time are all accepted. */
  predicate AllAccepted(s: State, now: U64, id: U64, n: nat) {
    n == 0 || (AllAccepted(s, now, id, n - 1) && ExecuteStep(Repeat(s, now, id, n - 1), now, id).1.Ok?)
  }

  /** What n more contributions need: that many due, room below the cap, the money, and counters that can still grow. */
  predicate CanCatchUp(c: Schedule, balance: int, now: U64, n: nat)
    requires c.interval > 0
  {
    && n <= DueCalls(c, now) && (c.max > 0 ==> n <= c.max - c.completed)
    && n * c.amount <= balance
    && c.completed + n <= U32_MAX && c.next + n * c.interval <= U64_MAX
  }

  function OwnerBalance(s: State, id: U64): int
    requires id in s.schedules
  {
    Get(s.balances, Account(s.schedules[id].token, s.schedules[id].owner))
  }

  /** The record after n accepted executions. */
  ghost predicate Progressed(s: State, r: State, id: U64, n: nat)
    requires id in s.schedules
  {
    && id in r.schedules && OnCadence(r.schedules[id])
    && var c, d := s.schedules[id], r.schedules[id];
       && d.(completed := c.completed, next := c.next, status := c.status) == c
       && d.completed == c.completed + n && d.next == c.next + n * c.interval
       && d.status == (if c.max > 0 && d.completed == c.max then Exhausted else Active)
       && OwnerBalance(r, id) == OwnerBalance(s, id) - n * c.amount
  }

  lemma ProgressOne(s: State, r: State, now: U64, id: U64, n: nat)
    requires id in s.schedules && Progressed(s, r, id, n) && ExecuteStep(r, now, id).1.Ok?
    ensures Progressed(s, ExecuteStep(r, now, id).0, id, n + 1)
  {
    var c := s.schedules[id];
    AdvancedOnCadence(r.schedules[id]);
    MulDistributes(n, 1, c.interval);
    MulDistributes(n, 1, c.amount);
  }

  lemma {:induction false} Progress(s: State, now: U64, id: U64, n: nat)
    requires id in s.schedules && OnCadence(s.schedules[id]) && s.schedules[id].status == Active
    requires AllAccepted(s, now, id, n)
    ensures Progressed(s, Repeat(s, now, id, n), id, n)
  {
    if n > 0 {
      Progress(s, now, id, n - 1);
      ProgressOne(s, Repeat(s, now, id, n - 1), now, id, n - 1);
    }
  }

  /** One more execution is accepted exactly when one more is possible in all. */
  lemma NextAcceptedExactly(s: State, r: State, now: U64, id: U64, n: nat)
    requires id in s.schedules && OnCadence(s.schedules[id]) && Progressed(s, r, id, n)
    ensures ExecuteStep(r, now, id).1.Ok? <==> CanCatchUp(s.schedules[id], OwnerBalance(s, id), now, n + 1)
  {
    var c, d := s.schedules[id], r.schedules[id];
    DueExactly(d, now);
    assert DueCalls(d, now) == DueCalls(c, now) - n;
    MulDistributes(n, 1, c.interval);
    MulDistributes(n, 1, c.amount);
  }

  /** Why the next execution is refused: at the cap as inactive, and short of it as not due once all due calls were made. */
  ghost predicate RefusedFor(s: State, r: State, now: U64, id: U64, n: nat)
    requires id in s.schedules && s.schedules[id].interval > 0
  {
    var c, next := s.schedules[id], ExecuteStep(r, now, id).1;
    && (next == Abort(ScheduleInactive) <==> c.max > 0 && n == c.max - c.completed)
    && (next == Abort(NotDueYet) <==> n >= DueCalls(c, now) && !(c.max > 0 && n == c.max - c.completed))
  }

  lemma RefusedExactly(s: State, r: State, now: U64, id: U64, n: nat)
    requires id in s.schedules && OnCadence(s.schedules[id]) && Progressed(s, r, id, n)
    ensures RefusedFor(s, r, now, id, n)
  {
    DueExactly(r.schedules[id], now);
    assert DueCalls(r.schedules[id], now) == DueCalls(s.schedules[id], now) - n;
  }

  lemma CanStopEarlier(c: Schedule, balance: int, now: U64, n: nat)
    requires OnCadence(c) && n > 0 && CanCatchUp(c, balance, now, n)
    ensures CanCatchUp(c, balance, now, n - 1)
  {
    MulDistributes(n - 1, 1, c.interval);
    MulDistributes(n - 1, 1, c.amount);
  }

  lemma {:induction false} AcceptedExactly(s: State, now: U64, id: U64, n: nat)
    requires id in s.schedules && OnCadence(s.schedules[id]) && s.schedules[id].status == Active && n > 0
    ensures AllAccepted(s, now, id, n) <==> CanCatchUp(s.schedules[id], OwnerBalance(s, id), now, n)
  {
    if n > 1 {
      AcceptedExactly(s, now, id, n - 1);
      if CanCatchUp(s.schedules[id], OwnerBalance(s, id), now, n) {
        CanStopEarlier(s.schedules[id], OwnerBalance(s, id), now, n);
      }
    } else {
      assert n - 1 == 0 && AllAccepted(s, now, id, 0);
    }
    if AllAccepted(s, now, id, n - 1) {
      Progress(s, now, id, n - 1);
      NextAcceptedExactly(s, Repeat(s, now, id, n - 1), now, id, n - 1);
    }
  }

  /** In every run and at any fixed time, n > 0 executions in a row of an active schedule are all accepted exactly when n is at
      most the due calls, the calls left under the cap, what the owner can pay and what the counters hold. After n accepted
      ones the next is refused as inactive exactly when the cap is reached, and as not due exactly when all due calls were made
      short of it; so catching up always ends. */
  lemma CatchUp(balances: Balances, events: seq<Event>, now: U64, id: U64, n: nat)
    requires id in Run(Deployed(balances), events).schedules
    requires Run(Deployed(balances), events).schedules[id].status == Active
    ensures var s := Run(Deployed(balances), events);
      var c := s.schedules[id];
      && OnCadence(c)
      && (n > 0 ==> (AllAccepted(s, now, id, n) <==> CanCatchUp(c, OwnerBalance(s, id), now, n)))
      && (AllAccepted(s, now, id, n) ==>
            Progressed(s, Repeat(s, now, id, n), id, n) && RefusedFor(s, Repeat(s, now, id, n), now, id, n))
  {
    var s := Run(Deployed(balances), events);
    ScheduleRun(balances, events, id);
    if n > 0 {
      AcceptedExactly(s, now, id, n);
    }
    if AllAccepted(s, now, id, n) {
      Progress(s, now, id, n);
      RefusedExactly(s, Repeat(s, now, id, n), now, id, n);
    }
  }

  /** With money and counters to spare, the number accepted is the smaller of the due calls and the calls left under the cap. */
  lemma CatchUpCount(balances: Balances, events: seq<Event>, now: U64, id: U64, n: nat)
    requires id in Run(Deployed(balances), events).schedules
    requires Run(Deployed(balances), events).schedules[id].status == Active
    ensures var s := Run(Deployed(balances), events);
      var c := s.schedules[id];
      && OnCadence(c)
      && var due := Max(0, DueCalls(c, now));
         var all := if c.max > 0 && c.max - c.completed < due then c.max - c.completed else due;
         && 0 <= all
         && (all * c.amount <= OwnerBalance(s, id) && c.completed + all <= U32_MAX && now + c.interval <= U64_MAX ==>
               (AllAccepted(s, now, id, n) <==> n <= all))
  {
    CatchUp(balances, events, now, id, n);
    var s := Run(Deployed(balances), events);
    var c := s.schedules[id];
    var due := Max(0, DueCalls(c, now));
    var all := if c.max > 0 && c.max - c.completed < due then c.max - c.completed else due;
    if n <= all && n > 0 {
      MulMonotone(n, all, c.amount, c.amount);
      LastDueSlot(c, now, n);
    }
  }

  function Max(a: int, b: int): int {
    if a < b then b else a
  }

  lemma LastDueSlot(c: Schedule, now: U64, n: nat)
    requires OnCadence(c) && n <= DueCalls(c, now)
    ensures c.next + n * c.interval <= now + c.interval
  {
    var q := (now - c.createdAt) / c.interval;
    MulMonotone(c.completed + n, q, c.interval, c.interval);
    MulDistributes(c.completed + 1, n, c.interval);
    MulDistributes(c.completed + n, 1, c.interval);
  }

  /** A schedule that is cancelled or exhausted never changes again, in any later run; in particular it pays nothing more. */
  lemma {:induction false} EndedForGood(s: State, events: seq<Event>, id: U64)
    requires id in s.schedules && id < s.nextId && s.schedules[id].status != Active
    ensures id in Run(s, events).schedules && id < Run(s, events).nextId
    ensures Run(s, events).schedules[id] == s.schedules[id] && MovedUnder(s, events, id) == 0
  {
    if events != [] {
      EndedForGood(s, events[..|events| - 1], id);
    }
  }

  /** A schedule is created exactly for a positive amount, an interval of at least an hour and a goal other than the owner,
      while time and ids last; it is due one interval from now. */
  lemma CreatesExactly(s: State, now: U64, owner: Address, token: Address, goal: Address, amount: I128, interval: U64, max: U32)
    ensures var (after, r) := Step(s, Event(now, Create(owner, token, goal, amount, interval, max)));
      && (r.Ok? <==>
            && amount > 0 && interval >= 3_600 && goal != owner && now + interval <= U64_MAX && s.nextId < U64_MAX)
      && (r.Ok? ==>
            && r.value == Created(s.nextId) && after.nextId == s.nextId + 1 && after.balances == s.balances
            && after.schedules == s.schedules[s.nextId :=
                 Schedule(owner, token, goal, amount, interval, now + interval, 0, max, Active, now)])
      && (r.Abort? ==>
            && after == s
            && r.error == if amount <= 0 then InvalidAmount
                          else if interval < 3_600 then InvalidInterval
                          else if goal == owner then InvalidGoalAddress else Overflow)
  {
  }

  /** The step creates schedule id on these terms. */
  predicate Schedules(s: State, e: Event, id: U64, c: Schedule) {
    && e == Event(c.createdAt, Create(c.owner, c.token, c.goal, c.amount, c.interval, c.max))
    && Step(s, e).1 == Ok(Created(id))
  }

  /** Over every run each schedule still has the parties, token, amount, interval and cap of a creation in the run. */
  lemma {:induction false} ScheduledAsAsked(balances: Balances, events: seq<Event>, id: U64)
    requires id in Run(Deployed(balances), events).schedules
    ensures var s := Deployed(balances);
      exists i :: 0 <= i < |events| && Schedules(Run(s, events[..i]), events[i], id, Run(s, events).schedules[id])
  {
    var s, init, e := Deployed(balances), events[..|events| - 1], events[|events| - 1];
    assert events[..|init|] == init;
    ScheduleRun(balances, init, id);
    if id in Run(s, init).schedules {
      ScheduledAsAsked(balances, init, id);
      TermsKept(Run(s, init), e, id);
      var i :| 0 <= i < |init| && Schedules(Run(s, init[..i]), init[i], id, Run(s, init).schedules[id]);
      assert init[..i] == events[..i];
    } else {
      assert Schedules(Run(s, events[..|init|]), events[|init|], id, Run(s, events).schedules[id]);
    }
  }

  lemma TermsKept(s: State, e: Event, id: U64)
    requires id in s.schedules && id < s.nextId
    ensures id in Step(s, e).0.schedules
    ensures var c, d := s.schedules[id], Step(s, e).0.schedules[id];
      d.(next := c.next, completed := c.completed, status := c.status) == c
  {
  }

  /** A cancellation succeeds exactly for the owner of an active schedule, and ends it short of its cap. */
  lemma CancelExactly(balances: Balances, events: seq<Event>, caller: Address, id: U64)
    ensures var s := Run(Deployed(balances), events);
      var (s', r) := CancelStep(s, caller, id);
      && (r.Ok? <==> id in s.schedules && s.schedules[id].owner == caller && s.schedules[id].status == Active)
      && (r.Ok? ==> s'.schedules[id].status == Cancelled && s'.balances == s.balances
                    && (s.schedules[id].max > 0 ==> s'.schedules[id].completed < s.schedules[id].max))
      && (r.Abort? ==>
            && s' == s
            && r.error == if id !in s.schedules then ScheduleNotFound
                          else if s.schedules[id].owner != caller then Unauthorized else ScheduleInactive)
  {
    ScheduleRun(balances, events, id);
  }

  class RecurringSavingsContract {
    var nextId: U64
    var schedules: map<U64, Schedule>
    var balances: Balances

    ghost function View(): State
      reads this
    {
      State(nextId, schedules, balances)
    }

    constructor (balances: Balances)
      ensures View() == Deployed(balances)
    {
      nextId, schedules, this.balances := 0, map[], balances;
    }

    method CreateSchedule(owner: Address, token: Address, goal: Address, amount: I128, interval: U64, max: U32, now: U64)
      returns (r: Result<Reply, Error>)
      modifies this
      ensures (View(), r) == Step(old(View()), Event(now, Create(owner, token, goal, amount, interval, max)))
    {
      if amount <= 0 {
        return Abort(InvalidAmount);
      }
      if interval < MIN_INTERVAL {
        return Abort(InvalidInterval);
      }
      if goal == owner {
        return Abort(InvalidGoalAddress);
      }
      if now + interval > U64_MAX || nextId == U64_MAX {
        return Abort(Overflow);
      }
      var id := nextId;
      nextId := id + 1;
      schedules := schedules[id := Schedule(owner, token, goal, amount, interval, now + interval, 0, max, Active, now)];
      return Ok(Created(id));
    }

    method ExecuteContribution(id: U64, now: U64) returns (r: Result<Reply, Error>)
      modifies this
      ensures (View(), r) == Step(old(View()), Event(now, Execute(id)))
    {
      if id !in schedules {
        return Abort(ScheduleNotFound);
      }
      var c := schedules[id];
      if c.status != Active {
        return Abort(ScheduleInactive);
      }
      if now < c.next {
        return Abort(NotDueYet);
      }
      if c.completed == U32_MAX {
        return Abort(Overflow);
      }
      c := c.(completed := c.completed + 1);
      if c.next + c.interval > U64_MAX {
        return Abort(Overflow);
      }
      c := c.(next := c.next + c.interval);
      if c.max > 0 && c.completed >= c.max {
        c := c.(status := Exhausted);
      }
      if !CanMove(balances, c.token, c.owner, c.amount) {
        return Abort(TransferFailed);
      }
      schedules := schedules[id := c];
      balances := Moved(balances, c.token, c.owner, c.goal, c.amount);
      return Ok(Contributed(c.amount));
    }

    method CancelSchedule(caller: Address, id: U64, now: U64) returns (r: Result<Reply, Error>)
      modifies this`schedules
      ensures (View(), r) == Step(old(View()), Event(now, Cancel(caller, id)))
    {
      if id !in schedules {
        return Abort(ScheduleNotFound);
      }
      if caller != schedules[id].owner {
        return Abort(Unauthorized);
      }
      if schedules[id].status != Active {
        return Abort(ScheduleInactive);
      }
      schedules := schedules[id := schedules[id].(status := Cancelled)];
      return Ok(Done);
    }
  }
}
