/** Recurring spending allowances: catch-up arithmetic, payment slots, limits and the ownership index. */
module Allowances {
  import opened Arithmetic
  import opened Base
  import opened MapSums
  import opened Tokens

  datatype Frequency = Once | Daily | Weekly | Monthly

  datatype Allowance = Allowance(
    owner: Address,
    recipient: Address,
    token: Address,
    amount: I128,
    frequency: Frequency,
    next: U64,
    count: U64,
    active: bool,
    paused: bool,
    pending: bool,
    limit: I128,
    endDate: U64)

  datatype Payment = Payment(amount: I128, time: U64, recipient: Address)

  datatype Error =
    | NotFound | Unauthorized | InvalidAmount | AlreadyInactive | TooEarly | InsufficientBalance | AlreadyPaused | NotPaused
    | Paused | ApprovalRequired | NotPendingApproval | ApproverNotConfigured | SpendingLimitExceeded | InvalidLimit | Expired
    | InvalidExpiration | InvalidThreshold | Overflow

  datatype Approval = Approval(approver: Address, threshold: I128)

  datatype State = State(
    created: U64,
    allowances: map<U64, Allowance>,
    history: map<U64, seq<Payment>>,
    ownerIndex: map<Address, seq<U64>>,
    recipientIndex: map<Address, seq<U64>>,
    approval: Option<Approval>,
    balances: Balances)

  datatype Reply = Created(id: U64) | Done

  datatype Op =
    | Create(owner: Address, recipient: Address, token: Address, amount: I128, frequency: Frequency, start: U64)
    | Distribute(id: U64)
    | Pause(caller: Address, id: U64)
    | Resume(caller: Address, id: U64)
    | Cancel(caller: Address, id: U64)
    | UpdateBeneficiary(caller: Address, id: U64, recipient: Address)
    | SetApproval(caller: Address, approver: Address, threshold: I128)
    | Approve(caller: Address, id: U64)
    | SetLimit(caller: Address, id: U64, limit: I128)
    | SetExpiration(caller: Address, id: U64, endDate: U64)
    | Transfer(caller: Address, id: U64, newOwner: Address)

  datatype Event = Event(now: U64, op: Op)

  function Interval(f: Frequency): Option<U64> {
    match f
    case Once => None
    case Daily => Some(86_400)
    case Weekly => Some(604_800)
    case Monthly => Some(2_592_000)
  }

  // ----- catch-up -----

  /** The closed form: one interval, then all missed ones at once. */
  function Advance(next: nat, interval: nat, now: nat): int
    requires interval > 0
  {
    var once := next + interval;
    if once <= now then once + ((now - once) / interval + 1) * interval else once
  }

  /** The stepping loop: add the interval while the time is not in the future. */
  function StepPast(next: nat, interval: nat, now: nat): nat
    requires interval > 0
    decreases now - next
  {
    if next <= now then StepPast(next + interval, interval, now) else next
  }

  lemma {:induction false} StepPastClosed(next: nat, interval: nat, now: nat)
    requires interval > 0 && next <= now
    ensures StepPast(next, interval, now) == next + ((now - next) / interval + 1) * interval
    decreases now - next
  {
    if next + interval <= now {
      StepPastClosed(next + interval, interval, now);
      DivShift(now - next, interval);
      MulDistributes((now - next) / interval, 1, interval);
    } else {
      QuotientUnique(now - next, interval, 0, now - next);
      assert StepPast(next, interval, now) == StepPast(next + interval, interval, now);
    }
  }

  /** The closed form is the loop. It lands on the first slot boundary after now, at most one interval ahead. */
  lemma AdvanceIsLoop(next: nat, interval: nat, now: nat)
    requires interval > 0 && next <= now
    ensures Advance(next, interval, now) == StepPast(next, interval, now)
    ensures now < Advance(next, interval, now) <= now + interval
    ensures Advance(next, interval, now) == next + ((now - next) / interval + 1) * interval
  {
    StepPastClosed(next, interval, now);
    NextMultiple(now - next, interval);
    AdvanceIsStepPast(next, interval, now);
  }

  lemma AdvanceIsStepPast(next: nat, interval: nat, now: nat)
    requires interval > 0 && next <= now
    ensures Advance(next, interval, now) == StepPast(next, interval, now)
  {
    assert StepPast(next, interval, now) == StepPast(next + interval, interval, now);
    if next + interval <= now {
      StepPastClosed(next + interval, interval, now);
    }
  }

  // ----- steps -----

  function IdsOf(index: map<Address, seq<U64>>, a: Address): seq<U64> {
    if a in index then index[a] else []
  }

  function HistoryOf(s: State, id: U64): seq<Payment> {
    if id in s.history then s.history[id] else []
  }

  function CreateStep(s: State, owner: Address, recipient: Address, token: Address, amount: I128, f: Frequency,
                      start: U64): (State, Result<Reply, Error>)
  {
    if amount <= 0 then (s, Abort(InvalidAmount))
    else if s.created == U64_MAX then (s, Abort(Overflow))
    else
      var id, held := s.created + 1, s.approval.Some? && amount > s.approval.value.threshold;
      (s.(created := id,
          allowances := s.allowances[id := Allowance(owner, recipient, token, amount, f, start, 0, !held, false, held, 0, 0)],
          ownerIndex := s.ownerIndex[owner := IdsOf(s.ownerIndex, owner) + [id]],
          recipientIndex := s.recipientIndex[recipient := IdsOf(s.recipientIndex, recipient) + [id]]),
       Ok(Created(id)))
  }

  /** The first check of a distribution that fails, in the order the code makes them. */
  function DistributeFault(s: State, now: U64, a: Allowance): Option<Error> {
    if a.pending then Some(ApprovalRequired)
    else if !a.active then Some(AlreadyInactive)
    else if a.paused then Some(Paused)
    else if a.endDate != 0 && now >= a.endDate then Some(Expired)
    else if now < a.next then Some(TooEarly)
    else if a.limit > 0 && a.count == U64_MAX then Some(Overflow)
    else if a.limit > 0 && (!FitsI128(a.amount * (a.count + 1)) || a.amount * (a.count + 1) > a.limit) then
      Some(SpendingLimitExceeded)
    else if !CanMove(s.balances, a.token, a.owner, a.amount) then Some(InsufficientBalance)
    else if a.count == U64_MAX then Some(Overflow)
    else if Interval(a.frequency).Some? && Advance(a.next, Interval(a.frequency).value, now) > U64_MAX then Some(Overflow)
    else None
  }

  function Paid(s: State, now: U64, a: Allowance): Allowance
    requires DistributeFault(s, now, a).None?
  {
    match Interval(a.frequency)
    case None => a.(count := a.count + 1, active := false, next := 0)
    case Some(interval) =>
      AdvanceIsLoop(a.next, interval, now);
      a.(count := a.count + 1, next := Advance(a.next, interval, now))
  }

  function DistributeStep(s: State, now: U64, id: U64): (State, Result<Reply, Error>) {
    if id !in s.allowances then (s, Abort(NotFound))
    else
      var a := s.allowances[id];
      var fault := DistributeFault(s, now, a);
      if fault.Some? then (s, Abort(fault.value))
      else
        (s.(allowances := s.allowances[id := Paid(s, now, a)],
            history := s.history[id := HistoryOf(s, id) + [Payment(a.amount, now, a.recipient)]],
            balances := Moved(s.balances, a.token, a.owner, a.recipient, a.amount)),
         Ok(Done))
  }

  /** The owner's calls share their first checks. */
  function OwnerFault(s: State, caller: Address, id: U64): Option<Error> {
    if id !in s.allowances then Some(NotFound)
    else if caller != s.allowances[id].owner then Some(Unauthorized)
    else if !s.allowances[id].active then Some(AlreadyInactive)
    else None
  }

  function Updated(s: State, id: U64, a: Allowance): (State, Result<Reply, Error>) {
    (s.(allowances := s.allowances[id := a]), Ok(Done))
  }

  function TransferStep(s: State, caller: Address, id: U64, newOwner: Address): (State, Result<Reply, Error>) {
    var fault := OwnerFault(s, caller, id);
    if fault.Some? then (s, Abort(fault.value))
    else
      var a := s.allowances[id];
      var removed := s.ownerIndex[a.owner := Without(IdsOf(s.ownerIndex, a.owner), id)];
      (s.(ownerIndex := removed[newOwner := IdsOf(removed, newOwner) + [id]],
          allowances := s.allowances[id := a.(owner := newOwner)]),
       Ok(Done))
  }

  function Step(s: State, e: Event): (State, Result<Reply, Error>) {
    match e.op
    case Create(owner, recipient, token, amount, f, start) => CreateStep(s, owner, recipient, token, amount, f, start)
    case Distribute(id) => DistributeStep(s, e.now, id)
    case Pause(caller, id) =>
      var fault := OwnerFault(s, caller, id);
      if fault.Some? then (s, Abort(fault.value))
      else if s.allowances[id].paused then (s, Abort(AlreadyPaused))
      else Updated(s, id, s.allowances[id].(paused := true))
    case Resume(caller, id) =>
      var fault := OwnerFault(s, caller, id);
      if fault.Some? then (s, Abort(fault.value))
      else if !s.allowances[id].paused then (s, Abort(NotPaused))
      else Updated(s, id, s.allowances[id].(paused := false))
    case Cancel(caller, id) =>
      var fault := OwnerFault(s, caller, id);
      if fault.Some? then (s, Abort(fault.value))
      else Updated(s, id, s.allowances[id].(active := false))
    case UpdateBeneficiary(caller, id, r) =>
      var fault := OwnerFault(s, caller, id);
      if fault.Some? then (s, Abort(fault.value))
      else
        (s.(allowances := s.allowances[id := s.allowances[id].(recipient := r)],
            recipientIndex := s.recipientIndex[r := IdsOf(s.recipientIndex, r) + [id]]),
         Ok(Done))
    case SetApproval(caller, approver, threshold) =>
      if threshold <= 0 then (s, Abort(InvalidThreshold))
      else if caller != (if s.approval.Some? then s.approval.value.approver else approver) then (s, Abort(Unauthorized))
      else (s.(approval := Some(Approval(approver, threshold))), Ok(Done))
    case Approve(caller, id) =>
      if s.approval.None? then (s, Abort(ApproverNotConfigured))
      else if caller != s.approval.value.approver then (s, Abort(Unauthorized))
      else if id !in s.allowances then (s, Abort(NotFound))
      else if !s.allowances[id].pending then (s, Abort(NotPendingApproval))
      else Updated(s, id, s.allowances[id].(pending := false, active := true))
    case SetLimit(caller, id, limit) =>
      if id !in s.allowances then (s, Abort(NotFound))
      else if caller != s.allowances[id].owner then (s, Abort(Unauthorized))
      else if limit < 0 then (s, Abort(InvalidLimit))
      else if !s.allowances[id].active then (s, Abort(AlreadyInactive))
      else Updated(s, id, s.allowances[id].(limit := limit))
    case SetExpiration(caller, id, endDate) =>
      var fault := OwnerFault(s, caller, id);
      if fault.Some? then (s, Abort(fault.value))
      else if endDate != 0 && endDate <= e.now then (s, Abort(InvalidExpiration))
      else Updated(s, id, s.allowances[id].(endDate := endDate))
    case Transfer(caller, id, newOwner) => TransferStep(s, caller, id, newOwner)
  }

  function Run(s: State, events: seq<Event>): State {
    if events == [] then s else Step(Run(s, events[..|events| - 1]), events[|events| - 1]).0
  }

  function Deployed(balances: Balances): State {
    State(0, map[], map[], map[], map[], None, balances)
  }

  // ----- payments fall into slots -----

  function Slot(t: int, start: int, interval: int): int
    requires interval > 0
  {
    (t - start) / interval
  }

  /** What an allowance's record and its payment history agree on; start is its creation's start time. */
  ghost predicate Slotted(a: Allowance, h: seq<Payment>, start: int) {
    && a.count == |h|
    && (forall p <- h :: p.amount == a.amount)
    && match a.frequency
       case Once => |h| == 0 || (|h| == 1 && !a.active && !a.pending)
       case Daily => OnGrid(a, h, start, 86_400)
       case Weekly => OnGrid(a, h, start, 604_800)
       case Monthly => OnGrid(a, h, start, 2_592_000)
  }

  /** The next time is on the grid that the start and the interval span, and the payments are in increasing slots before it. */
  ghost predicate OnGrid(a: Allowance, h: seq<Payment>, start: int, interval: int)
    requires interval > 0
  {
    && start <= a.next && (a.next - start) % interval == 0 && |h| <= Slot(a.next, start, interval)
    && (forall p <- h :: start <= p.time < a.next)
    && (h != [] ==> a.next <= h[|h| - 1].time + interval)
    && (forall i, j :: 0 <= i < j < |h| ==> Slot(h[i].time, start, interval) < Slot(h[j].time, start, interval))
  }

  /** The boundary a late payment moves to is a slot boundary, beyond the payment's slot. */
  lemma SlotBoundary(start: int, next: nat, interval: nat, now: nat)
    requires interval > 0 && start <= next <= now && (next - start) % interval == 0
    ensures var after := Advance(next, interval, now);
      && (after - start) % interval == 0
      && Slot(after, start, interval) >= Slot(next, start, interval) + 1
      && Slot(now, start, interval) >= Slot(next, start, interval)
  {
    AdvanceIsLoop(next, interval, now);
    var m, k := (next - start) / interval, (now - next) / interval;
    MulDistributes(m, k + 1, interval);
    QuotientUnique(Advance(next, interval, now) - start, interval, m + k + 1, 0);
    DivMonotone(0, now - next, interval);
    DivMonotone(next - start, now - start, interval);
  }

  lemma EarlierSlot(t: int, start: int, next: int, interval: nat)
    requires interval > 0 && t < next && (next - start) % interval == 0
    ensures Slot(t, start, interval) < Slot(next, start, interval)
  {
    var m := (next - start) / interval;
    DivMonotone(t - start, next - start - 1, interval);
    MulDistributes(m, -1, interval);
    QuotientUnique(next - start - 1, interval, m - 1, interval - 1);
  }

  lemma GridByPayment(a: Allowance, b: Allowance, h: seq<Payment>, start: int, interval: nat, p: Payment)
    requires interval > 0 && OnGrid(a, h, start, interval) && a.next <= p.time && b.next == Advance(a.next, interval, p.time)
    ensures OnGrid(b, h + [p], start, interval)
  {
    AdvanceIsLoop(a.next, interval, p.time);
    SlotBoundary(start, a.next, interval, p.time);
    forall i | 0 <= i < |h|
      ensures Slot(h[i].time, start, interval) < Slot(p.time, start, interval)
    {
      assert h[i] in h;
      EarlierSlot(h[i].time, start, a.next, interval);
    }
  }

  lemma SlottedByPayment(s: State, now: U64, a: Allowance, h: seq<Payment>, start: int)
    requires Slotted(a, h, start) && DistributeFault(s, now, a).None?
    ensures Slotted(Paid(s, now, a), h + [Payment(a.amount, now, a.recipient)], start)
  {
    if Interval(a.frequency).Some? {
      GridByPayment(a, Paid(s, now, a), h, start, Interval(a.frequency).value, Payment(a.amount, now, a.recipient));
    }
  }

  /** The start time the allowance was created with in this run. */
  function StartOf(s: State, events: seq<Event>, id: U64): int {
    if events == [] then 0
    else
      var init, e := events[..|events| - 1], events[|events| - 1];
      if e.op.Create? && Step(Run(s, init), e).1 == Ok(Created(id)) then e.op.start else StartOf(s, init, id)
  }

  ghost predicate AllSlotted(s: State, id: U64, start: int) {
    && (id in s.allowances ==> id <= s.created && Slotted(s.allowances[id], HistoryOf(s, id), start))
    && (id !in s.allowances ==> HistoryOf(s, id) == [])
  }

  lemma SlottedStep(s: State, e: Event, id: U64, start: int)
    requires AllSlotted(s, id, start) && (id > s.created ==> id !in s.allowances)
    ensures AllSlotted(Step(s, e).0, id, if e.op.Create? && Step(s, e).1 == Ok(Created(id)) then e.op.start else start)
  {
    if e.op == Distribute(id) && Step(s, e).1.Ok? {
      SlottedByPayment(s, e.now, s.allowances[id], HistoryOf(s, id), start);
    } else if id in s.allowances {
      ScheduleKept(s, e, id);
    } else {
      NewRecord(s, e, id);
    }
  }

  /** The schedule is the same; what was neither active nor pending stays so, and nothing becomes pending. */
  ghost predicate KeepsSchedule(s: State, s': State, id: U64)
    requires id in s.allowances
  {
    && id in s'.allowances && id <= s'.created && HistoryOf(s', id) == HistoryOf(s, id)
    && var a, b := s.allowances[id], s'.allowances[id];
       && (a.token, a.amount, a.frequency, a.next, a.count) == (b.token, b.amount, b.frequency, b.next, b.count)
       && (a.limit >= 0 ==> b.limit >= 0)
       && (b.active || b.pending ==> a.active || a.pending) && (b.pending ==> a.pending && (b.active ==> a.active))
  }

  lemma CreateKeepsSchedules(s: State, e: Event, id: U64)
    requires id in s.allowances && id <= s.created && e.op.Create?
    ensures KeepsSchedule(s, Step(s, e).0, id) && Step(s, e).1 != Ok(Created(id))
  {
  }

  lemma PaymentKeepsOthers(s: State, e: Event, id: U64)
    requires id in s.allowances && id <= s.created && e.op.Distribute? && (e.op.id != id || Step(s, e).1.Abort?)
    ensures KeepsSchedule(s, Step(s, e).0, id)
  {
  }

  lemma OwnerCallsKeepSchedules(s: State, e: Event, id: U64)
    requires id in s.allowances && id <= s.created
    requires e.op.Pause? || e.op.Resume? || e.op.Cancel?
    ensures KeepsSchedule(s, Step(s, e).0, id)
  {
  }

  lemma BeneficiaryKeepsSchedules(s: State, e: Event, id: U64)
    requires id in s.allowances && id <= s.created && e.op.UpdateBeneficiary?
    ensures KeepsSchedule(s, Step(s, e).0, id)
  {
  }

  lemma ApprovalCallsKeepSchedules(s: State, e: Event, id: U64)
    requires id in s.allowances && id <= s.created && (e.op.SetApproval? || e.op.Approve?)
    ensures KeepsSchedule(s, Step(s, e).0, id)
  {
  }

  lemma LimitCallsKeepSchedules(s: State, e: Event, id: U64)
    requires id in s.allowances && id <= s.created && (e.op.SetLimit? || e.op.SetExpiration?)
    ensures KeepsSchedule(s, Step(s, e).0, id)
  {
  }

  lemma TransferKeepsSchedules(s: State, caller: Address, x: U64, newOwner: Address, id: U64)
    requires id in s.allowances && id <= s.created
    ensures KeepsSchedule(s, TransferStep(s, caller, x, newOwner).0, id)
  {
  }

  /** Only a payment moves an allowance's schedule, and nothing revives an allowance that is neither active nor pending. */
  lemma ScheduleKept(s: State, e: Event, id: U64)
    requires id in s.allowances && id <= s.created && (e.op != Distribute(id) || Step(s, e).1.Abort?)
    ensures KeepsSchedule(s, Step(s, e).0, id) && !(e.op.Create? && Step(s, e).1 == Ok(Created(id)))
  {
    if e.op.Create? {
      CreateKeepsSchedules(s, e, id);
    } else if e.op.Distribute? {
      PaymentKeepsOthers(s, e, id);
    } else if e.op.Transfer? {
      TransferKeepsSchedules(s, e.op.caller, e.op.id, e.op.newOwner, id);
    } else if e.op.Pause? || e.op.Resume? || e.op.Cancel? {
      OwnerCallsKeepSchedules(s, e, id);
    } else if e.op.UpdateBeneficiary? {
      BeneficiaryKeepsSchedules(s, e, id);
    } else if e.op.SetApproval? || e.op.Approve? {
      ApprovalCallsKeepSchedules(s, e, id);
    } else {
      LimitCallsKeepSchedules(s, e, id);
    }
  }

  lemma NewRecord(s: State, e: Event, id: U64)
    requires id !in s.allowances && HistoryOf(s, id) == []
    ensures var s' := Step(s, e).0;
      && HistoryOf(s', id) == []
      && (id in s'.allowances ==> e.op.Create? && Step(s, e).1 == Ok(Created(id)) && id <= s'.created
                                  && s'.allowances[id].next == e.op.start && s'.allowances[id].count == 0)
  {
    if !e.op.Create? {
      if !e.op.Transfer? {
        OtherCallsKeepOwners(s, e);
      }
      HistoryNeedsRecord(s, e, id);
    }
  }

  lemma HistoryNeedsRecord(s: State, e: Event, id: U64)
    requires id !in s.allowances
    ensures HistoryOf(Step(s, e).0, id) == HistoryOf(s, id)
  {
  }

  /** Over every run, an allowance's payments fall into strictly increasing slots of its schedule. */
  lemma {:induction false} SlottedRun(balances: Balances, events: seq<Event>, id: U64)
    ensures var s := Deployed(balances);
      AllSlotted(Run(s, events), id, StartOf(s, events, id)) &&
      (id > Run(s, events).created ==> id !in Run(s, events).allowances)
  {
    if events != [] {
      var s, init := Deployed(balances), events[..|events| - 1];
      SlottedRun(balances, init, id);
      SlottedStep(Run(s, init), events[|events| - 1], id, StartOf(s, init, id));
    }
  }

  /** One payment at most in each slot from the start to the last payment; one in all for a one-time allowance. */
  ghost predicate OnePerSlot(a: Allowance, h: seq<Payment>, start: int) {
    && |h| == a.count
    && (forall p <- h :: p.amount == a.amount)
    && (h != [] && a.frequency != Once ==> h[|h| - 1].time >= start)
    && match a.frequency
       case Once => |h| <= 1
       case Daily => h != [] ==> |h| <= (h[|h| - 1].time - start) / 86_400 + 1
       case Weekly => h != [] ==> |h| <= (h[|h| - 1].time - start) / 604_800 + 1
       case Monthly => h != [] ==> |h| <= (h[|h| - 1].time - start) / 2_592_000 + 1
  }

  lemma SlottedBound(a: Allowance, h: seq<Payment>, start: int)
    requires Slotted(a, h, start)
    ensures OnePerSlot(a, h, start)
  {
    if h != [] && Interval(a.frequency).Some? {
      var interval, last := Interval(a.frequency).value, h[|h| - 1].time;
      assert h[|h| - 1] in h;
      DivMonotone(a.next - start, last + interval - start, interval);
      DivShift(last + interval - start, interval);
    }
  }

  /** So in every run an allowance has made at most one payment for each slot of its schedule up to its last payment, each of
      its fixed amount. */
  lemma PaymentsBound(balances: Balances, events: seq<Event>, id: U64)
    ensures var s := Deployed(balances);
      id in Run(s, events).allowances ==>
        OnePerSlot(Run(s, events).allowances[id], HistoryOf(Run(s, events), id), StartOf(s, events, id))
  {
    SlottedRun(balances, events, id);
    var s := Deployed(balances);
    if id in Run(s, events).allowances {
      SlottedBound(Run(s, events).allowances[id], HistoryOf(Run(s, events), id), StartOf(s, events, id));
    }
  }

  /** A successful distribution pays the owner's amount to the recipient, records exactly that payment, and sets the next
      time to the first slot boundary after now; nothing else in the record moves but the count, and a one-time allowance
      ends. */
  lemma DistributionPays(s: State, now: U64, id: U64)
    requires DistributeStep(s, now, id).1.Ok?
    ensures var a, s' := s.allowances[id], DistributeStep(s, now, id).0;
      var b := s'.allowances[id];
      && PaidTo(s.balances, s'.balances, a.token, a.owner, a.recipient, a.amount)
      && HistoryOf(s', id) == HistoryOf(s, id) + [Payment(a.amount, now, a.recipient)]
      && b.(next := a.next, count := a.count, active := a.active) == a && b.count == a.count + 1
      && match a.frequency
         case Once => !b.active && b.next == 0
         case Daily => b.active && IsNextSlot(b.next, a.next, 86_400, now)
         case Weekly => b.active && IsNextSlot(b.next, a.next, 604_800, now)
         case Monthly => b.active && IsNextSlot(b.next, a.next, 2_592_000, now)
  {
    var a := s.allowances[id];
    MovedExactly(s.balances, a.token, a.owner, a.recipient, a.amount);
    if Interval(a.frequency).Some? {
      NextSlotReached(a.next, Interval(a.frequency).value, now);
    }
  }

  /** after is the first of the times next + k * interval, k at least 1, that lies beyond now. */
  ghost predicate IsNextSlot(after: int, next: int, interval: int, now: int) {
    after - interval <= now < after && exists k :: k >= 1 && after == next + k * interval
  }

  lemma NextSlotReached(next: nat, interval: nat, now: nat)
    requires interval > 0 && next <= now
    ensures IsNextSlot(Advance(next, interval, now), next, interval, now)
  {
    AdvanceIsLoop(next, interval, now);
    DivMonotone(0, now - next, interval);
    var k := (now - next) / interval + 1;
    assert k >= 1 && Advance(next, interval, now) == next + k * interval;
  }

  /** A payment under a positive limit leaves the cumulative amount within the limit. */
  lemma LimitRespected(s: State, now: U64, id: U64)
    requires DistributeStep(s, now, id).1.Ok? && s.allowances[id].limit > 0
    ensures var a := DistributeStep(s, now, id).0.allowances[id];
      a.limit == s.allowances[id].limit && a.amount * a.count <= a.limit
  {
  }

  // ----- who may do what, and when a payment is made -----

  /** Nothing stands against a payment now. */
  predicate Payable(s: State, now: U64, a: Allowance) {
    && a.active && !a.pending && !a.paused && a.next <= now && (a.endDate == 0 || now < a.endDate)
    && (a.limit <= 0 || a.amount * (a.count + 1) <= a.limit)
    && Get(s.balances, Account(a.token, a.owner)) >= a.amount
  }

  /** A distribution succeeds exactly when the allowance is payable, its counter can grow, and the first slot after now is
      within u64. */
  lemma DistributesExactly(s: State, now: U64, id: U64)
    requires id in s.allowances && s.allowances[id].amount > 0
    ensures var a := s.allowances[id];
      DistributeStep(s, now, id).1.Ok? <==>
        && Payable(s, now, a) && a.count < U64_MAX
        && match a.frequency
           case Once => true
           case Daily => a.next + ((now - a.next) / 86_400 + 1) * 86_400 <= U64_MAX
           case Weekly => a.next + ((now - a.next) / 604_800 + 1) * 604_800 <= U64_MAX
           case Monthly => a.next + ((now - a.next) / 2_592_000 + 1) * 2_592_000 <= U64_MAX
  {
    var a := s.allowances[id];
    MulNonNegative(a.count + 1, a.amount);
    if Interval(a.frequency).Some? && a.next <= now {
      AdvanceIsLoop(a.next, Interval(a.frequency).value, now);
    }
  }

  /** A refused distribution changes nothing and answers what stands first against it. */
  lemma DistributeRefusals(s: State, now: U64, id: U64)
    requires DistributeStep(s, now, id).1.Abort? && (id in s.allowances ==> s.allowances[id].amount > 0)
    ensures DistributeStep(s, now, id).0 == s
    ensures id !in s.allowances ==> DistributeStep(s, now, id).1 == Abort(NotFound)
    ensures id in s.allowances ==>
              var a := s.allowances[id];
              DistributeStep(s, now, id).1.error ==
                if a.pending then ApprovalRequired
                else if !a.active then AlreadyInactive
                else if a.paused then Paused
                else if a.endDate != 0 && now >= a.endDate then Expired
                else if now < a.next then TooEarly
                else if a.limit > 0 && a.count < U64_MAX && a.amount * (a.count + 1) > a.limit then SpendingLimitExceeded
                else if Get(s.balances, Account(a.token, a.owner)) < a.amount && !(a.limit > 0 && a.count == U64_MAX)
                then InsufficientBalance
                else Overflow
  {
    if id in s.allowances {
      MulNonNegative(s.allowances[id].count + 1, s.allowances[id].amount);
    }
  }

  /** A pause stops payments until the owner resumes, which restores the storage; neither can be done twice. */
  lemma PauseThenResume(s: State, caller: Address, id: U64, now: U64, later: U64)
    requires Step(s, Event(now, Pause(caller, id))).1.Ok?
    ensures var s' := Step(s, Event(now, Pause(caller, id))).0;
      && DistributeStep(s', later, id).1.Abort?
      && Step(s', Event(later, Pause(caller, id))).1 == Abort(AlreadyPaused)
      && Step(s', Event(later, Resume(caller, id))) == (s, Ok(Done))
      && Step(s, Event(later, Resume(caller, id))).1 == Abort(NotPaused)
  {
    var s' := Step(s, Event(now, Pause(caller, id))).0;
    assert Step(s', Event(later, Resume(caller, id))).0.allowances == s.allowances;
  }

  /** The owner's calls: all that concern one allowance except payment and approval. */
  predicate OwnerCall(op: Op) {
    op.Pause? || op.Resume? || op.Cancel? || op.UpdateBeneficiary? || op.SetLimit? || op.SetExpiration? || op.Transfer?
  }

  /** Each succeeds exactly for the owner of an active allowance, a pause only when running, a resume only when paused, a limit
      only when not negative, an end date only when zero or ahead; it changes the one field it names, and a transfer or a new
      beneficiary the lists besides. */
  lemma OwnerCallsExactly(s: State, e: Event)
    requires OwnerCall(e.op)
    ensures Step(s, e).1.Ok? <==>
              && e.op.id in s.allowances && e.op.caller == s.allowances[e.op.id].owner && s.allowances[e.op.id].active
              && match e.op
                 case Pause(_, id) => !s.allowances[id].paused
                 case Resume(_, id) => s.allowances[id].paused
                 case SetLimit(_, _, limit) => limit >= 0
                 case SetExpiration(_, _, endDate) => endDate == 0 || endDate > e.now
                 case _ => true
    ensures Step(s, e).1.Ok? ==>
              var a, after := s.allowances[e.op.id], Step(s, e).0;
              && after.(allowances := s.allowances, ownerIndex := s.ownerIndex, recipientIndex := s.recipientIndex) == s
              && (e.op.Transfer? || after.ownerIndex == s.ownerIndex)
              && (e.op.UpdateBeneficiary? || after.recipientIndex == s.recipientIndex)
              && after.allowances == s.allowances[e.op.id := Changed(a, e.op)]
    ensures Step(s, e).1.Abort? ==> Step(s, e) == (s, Abort(OwnerRefusal(s, e)))
  {
  }

  /** What a transfer and a new beneficiary do to the lists: the id leaves the old owner's list and goes to the end of the new
      owner's, and to the end of the new recipient's; no other list changes. */
  lemma ListsExactly(s: State, e: Event, a: Address)
    requires (e.op.Transfer? || e.op.UpdateBeneficiary?) && Step(s, e).1.Ok?
    ensures var after, id := Step(s, e).0, e.op.id;
      match e.op
      case Transfer(caller, _, newOwner) =>
        IdsOf(after.ownerIndex, a) == (if a == caller then Without(IdsOf(s.ownerIndex, a), id) else IdsOf(s.ownerIndex, a))
                                      + if a == newOwner then [id] else []
      case UpdateBeneficiary(_, _, recipient) =>
        IdsOf(after.recipientIndex, a) == IdsOf(s.recipientIndex, a) + if a == recipient then [id] else []
      case _ => true
  {
  }

  /** How a refused call is answered; only a limit is checked before the activity. */
  function OwnerRefusal(s: State, e: Event): Error
    requires OwnerCall(e.op)
  {
    if e.op.id !in s.allowances then NotFound
    else if e.op.caller != s.allowances[e.op.id].owner then Unauthorized
    else if e.op.SetLimit? && e.op.limit < 0 then InvalidLimit
    else if !s.allowances[e.op.id].active then AlreadyInactive
    else if e.op.Pause? then AlreadyPaused
    else if e.op.Resume? then NotPaused
    else InvalidExpiration
  }

  function Changed(a: Allowance, op: Op): Allowance
    requires OwnerCall(op)
  {
    match op
    case Pause(_, _) => a.(paused := true)
    case Resume(_, _) => a.(paused := false)
    case Cancel(_, _) => a.(active := false)
    case UpdateBeneficiary(_, _, recipient) => a.(recipient := recipient)
    case SetLimit(_, _, limit) => a.(limit := limit)
    case SetExpiration(_, _, endDate) => a.(endDate := endDate)
    case Transfer(_, _, newOwner) => a.(owner := newOwner)
  }

  /** A creation succeeds exactly for a positive amount while ids last. The record starts unpaid, unlimited and without end, due
      at the start time, and runs at once unless the amount is above the threshold in force. */
  lemma CreatesExactly(s: State, e: Event)
    requires e.op.Create?
    ensures Step(s, e).1.Ok? <==> e.op.amount > 0 && s.created < U64_MAX
    ensures Step(s, e).1.Abort? ==> Step(s, e) == (s, Abort(if e.op.amount <= 0 then InvalidAmount else Overflow))
    ensures Step(s, e).1.Ok? ==>
              var id, after := s.created + 1, Step(s, e).0;
              var held := s.approval.Some? && e.op.amount > s.approval.value.threshold;
              && Step(s, e).1.value == Created(id) && after.created == id
              && after.allowances.Keys == s.allowances.Keys + {id}
              && (forall x <- s.allowances.Keys :: x != id ==> after.allowances[x] == s.allowances[x])
              && after.allowances[id] == Allowance(e.op.owner, e.op.recipient, e.op.token, e.op.amount, e.op.frequency,
                                                   e.op.start, 0, !held, false, held, 0, 0)
              && IdsOf(after.ownerIndex, e.op.owner) == IdsOf(s.ownerIndex, e.op.owner) + [id]
              && IdsOf(after.recipientIndex, e.op.recipient) == IdsOf(s.recipientIndex, e.op.recipient) + [id]
              && after.history == s.history && after.approval == s.approval && after.balances == s.balances
  {
  }

  /** A policy is accepted exactly with a positive threshold, from the approver in force, or from the incoming one if there is
      none; an approval exactly from the approver in force for an allowance that is held, which it sets running. */
  lemma ApprovalCallsExactly(s: State, e: Event)
    requires e.op.SetApproval? || e.op.Approve?
    ensures Step(s, e).1.Ok? <==>
              match e.op
              case SetApproval(caller, approver, threshold) =>
                threshold > 0 && caller == if s.approval.Some? then s.approval.value.approver else approver
              case Approve(caller, id) =>
                && s.approval.Some? && caller == s.approval.value.approver
                && id in s.allowances && s.allowances[id].pending
              case _ => false
    ensures Step(s, e).1.Ok? ==>
              Step(s, e).0 == match e.op
                              case SetApproval(_, approver, threshold) => s.(approval := Some(Approval(approver, threshold)))
                              case Approve(_, id) =>
                                s.(allowances := s.allowances[id := s.allowances[id].(pending := false, active := true)])
                              case _ => s
    ensures Step(s, e).1.Abort? ==>
              Step(s, e) == (s, Abort(
                match e.op
                case SetApproval(_, _, threshold) => if threshold <= 0 then InvalidThreshold else Unauthorized
                case Approve(caller, id) =>
                  if s.approval.None? then ApproverNotConfigured
                  else if caller != s.approval.value.approver then Unauthorized
                  else if id !in s.allowances then NotFound else NotPendingApproval
                case _ => NotFound))
  {
  }

  /** Nobody but the owner can make them. */
  lemma OnlyOwner(s: State, e: Event)
    requires OwnerCall(e.op) && Step(s, e).1.Ok?
    ensures e.op.id in s.allowances && s.allowances[e.op.id].owner == e.op.caller && s.allowances[e.op.id].active
  {
  }

  /** After a transfer of ownership only the new owner can make them. */
  lemma TransferHandsOver(s: State, caller: Address, id: U64, newOwner: Address, e: Event)
    requires TransferStep(s, caller, id, newOwner).1.Ok? && OwnerCall(e.op) && e.op.id == id
    ensures Step(TransferStep(s, caller, id, newOwner).0, e).1.Ok? ==> e.op.caller == newOwner
  {
    OnlyOwnerOf(TransferStep(s, caller, id, newOwner).0, e);
  }

  lemma OnlyOwnerOf(s: State, e: Event)
    requires OwnerCall(e.op)
    ensures Step(s, e).1.Ok? ==> e.op.id in s.allowances && s.allowances[e.op.id].owner == e.op.caller
  {
    if Step(s, e).1.Ok? {
      OnlyOwner(s, e);
    }
  }

  /** The next payment after a change of beneficiary goes to the new one. */
  lemma BeneficiaryTakesEffect(s: State, caller: Address, id: U64, recipient: Address, now: U64, later: U64)
    requires Step(s, Event(now, UpdateBeneficiary(caller, id, recipient))).1.Ok?
    requires DistributeStep(Step(s, Event(now, UpdateBeneficiary(caller, id, recipient))).0, later, id).1.Ok?
    ensures var s1 := Step(s, Event(now, UpdateBeneficiary(caller, id, recipient))).0;
      var s2, a := DistributeStep(s1, later, id).0, s.allowances[id];
      && HistoryOf(s2, id) == HistoryOf(s, id) + [Payment(a.amount, later, recipient)]
      && PaidTo(s.balances, s2.balances, a.token, a.owner, recipient, a.amount)
  {
    DistributionPays(Step(s, Event(now, UpdateBeneficiary(caller, id, recipient))).0, later, id);
  }

  /** The next payment after a positive limit is set leaves the cumulative amount within that limit, and is made only before
      an end date set with it. */
  lemma PolicyTakesEffect(s: State, caller: Address, id: U64, limit: I128, endDate: U64, now: U64, later: U64)
    requires limit > 0 && endDate != 0
    requires Step(s, Event(now, SetLimit(caller, id, limit))).1.Ok?
    requires Step(Step(s, Event(now, SetLimit(caller, id, limit))).0, Event(now, SetExpiration(caller, id, endDate))).1.Ok?
    ensures var s1 := Step(Step(s, Event(now, SetLimit(caller, id, limit))).0,
                           Event(now, SetExpiration(caller, id, endDate))).0;
      DistributeStep(s1, later, id).1.Ok? ==>
        && now < endDate && later < endDate
        && DistributeStep(s1, later, id).0.allowances[id].amount * DistributeStep(s1, later, id).0.allowances[id].count <= limit
  {
    var s1 := Step(Step(s, Event(now, SetLimit(caller, id, limit))).0, Event(now, SetExpiration(caller, id, endDate))).0;
    if DistributeStep(s1, later, id).1.Ok? {
      LimitRespected(s1, later, id);
    }
  }

  /** Once set, the approval policy can be changed by the approver it names and by nobody else. */
  lemma ApproverHandsOver(s: State, caller: Address, approver: Address, threshold: I128, e: Event)
    requires Step(s, Event(e.now, SetApproval(caller, approver, threshold))).1.Ok?
    requires e.op.SetApproval? || e.op.Approve?
    ensures Step(Step(s, Event(e.now, SetApproval(caller, approver, threshold))).0, e).1.Ok? ==> e.op.caller == approver
    ensures s.approval.Some? ==> caller == s.approval.value.approver
  {
  }

  /** An allowance held for approval is inactive and has paid nothing. */
  ghost predicate HeldUnpaid(s: State, id: U64) {
    id in s.allowances && s.allowances[id].pending ==> !s.allowances[id].active && HistoryOf(s, id) == []
  }

  /** Over every run, nothing is ever paid under an allowance before its approval. */
  lemma {:induction false} HeldRun(balances: Balances, events: seq<Event>, id: U64)
    ensures HeldUnpaid(Run(Deployed(balances), events), id)
  {
    if events != [] {
      var s, init := Deployed(balances), events[..|events| - 1];
      HeldRun(balances, init, id);
      SlottedRun(balances, init, id);
      HeldStep(Run(s, init), events[|events| - 1], id);
    }
  }

  lemma HeldStep(s: State, e: Event, id: U64)
    requires HeldUnpaid(s, id) && (id in s.allowances ==> id <= s.created) && (id !in s.allowances ==> HistoryOf(s, id) == [])
    ensures HeldUnpaid(Step(s, e).0, id)
  {
    if id !in s.allowances {
      NewRecord(s, e, id);
      if id in Step(s, e).0.allowances {
        NewlyHeld(s, e, id);
      }
    } else if e.op == Distribute(id) && Step(s, e).1.Ok? {
      DistributionPays(s, e.now, id);
    } else {
      ScheduleKept(s, e, id);
    }
  }

  /** A new allowance is held exactly when a policy is in force and the amount is above its threshold; it is then refused
      payment until the approver activates it. */
  lemma NewlyHeld(s: State, e: Event, id: U64)
    requires e.op.Create? && Step(s, e).1 == Ok(Created(id))
    ensures var s' := Step(s, e).0;
      && id in s'.allowances
      && (s'.allowances[id].pending <==> s.approval.Some? && e.op.amount > s.approval.value.threshold)
      && (s'.allowances[id].active <==> !s'.allowances[id].pending)
      && (s'.allowances[id].pending ==>
            && (forall now :: DistributeStep(s', now, id).1 == Abort(ApprovalRequired))
            && (forall now, caller :: Step(s', Event(now, Approve(caller, id))).1.Ok? <==> caller == s.approval.value.approver)
            && var s2 := Step(s', Event(e.now, Approve(s.approval.value.approver, id))).0;
               s2.allowances[id].active && !s2.allowances[id].pending)
  {
  }

  lemma TermsKept(s: State, e: Event, id: U64)
    requires id in s.allowances && id <= s.created
    ensures id in Step(s, e).0.allowances
    ensures var a, b := s.allowances[id], Step(s, e).0.allowances[id];
      (a.token, a.amount, a.frequency) == (b.token, b.amount, b.frequency) && (a.limit >= 0 ==> b.limit >= 0)
  {
    if e.op == Distribute(id) && Step(s, e).1.Ok? {
      DistributionPays(s, e.now, id);
    } else {
      ScheduleKept(s, e, id);
    }
  }

  /** The step creates allowance id with the token, amount and frequency of a. */
  predicate Grants(s: State, e: Event, id: U64, a: Allowance) {
    && e.op.Create? && Step(s, e).1 == Ok(Created(id))
    && (e.op.token, e.op.amount, e.op.frequency) == (a.token, a.amount, a.frequency)
  }

  /** Over every run each allowance still pays the positive amount of the token and at the frequency of its creation, however
      its owner, recipient or policy changed. */
  lemma {:induction false} GrantedAsAsked(balances: Balances, events: seq<Event>, id: U64)
    requires id in Run(Deployed(balances), events).allowances
    ensures var s := Deployed(balances);
      var a := Run(s, events).allowances[id];
      && a.amount > 0 && a.limit >= 0
      && exists i :: 0 <= i < |events| && Grants(Run(s, events[..i]), events[i], id, a)
  {
    var s, init, e := Deployed(balances), events[..|events| - 1], events[|events| - 1];
    assert events[..|init|] == init;
    SlottedRun(balances, init, id);
    if id in Run(s, init).allowances {
      GrantedAsAsked(balances, init, id);
      TermsKept(Run(s, init), e, id);
      var i :| 0 <= i < |init| && Grants(Run(s, init[..i]), init[i], id, Run(s, init).allowances[id]);
      assert init[..i] == events[..i];
    } else {
      NewRecord(Run(s, init), e, id);
      assert Grants(Run(s, events[..|init|]), events[|init|], id, Run(s, events).allowances[id]);
    }
  }

  ghost predicate Closed(s: State, id: U64) {
    id in s.allowances && id <= s.created && !s.allowances[id].active && !s.allowances[id].pending
  }

  /** A cancelled or spent one-time allowance stays closed in every later run, and pays nothing more. */
  lemma {:induction false} ClosedRun(s: State, events: seq<Event>, id: U64)
    requires Closed(s, id)
    ensures Closed(Run(s, events), id) && HistoryOf(Run(s, events), id) == HistoryOf(s, id)
  {
    if events != [] {
      ClosedRun(s, events[..|events| - 1], id);
      ScheduleKept(Run(s, events[..|events| - 1]), events[|events| - 1], id);
    }
  }

  /** In every run a cancellation closes the allowance. */
  lemma CancelCloses(balances: Balances, events: seq<Event>, caller: Address, id: U64, now: U64)
    requires Step(Run(Deployed(balances), events), Event(now, Cancel(caller, id))).1.Ok?
    ensures Closed(Step(Run(Deployed(balances), events), Event(now, Cancel(caller, id))).0, id)
  {
    HeldRun(balances, events, id);
    SlottedRun(balances, events, id);
  }

  // ----- the indexes -----

  ghost predicate ListedExactly(s: State, o: Address, id: U64) {
    id in IdsOf(s.ownerIndex, o) <==> id in s.allowances && s.allowances[id].owner == o
  }

  /** Each owner's list names exactly the allowances the owner has, each once; each recipient's list names at least the
      allowances now paid to the recipient. */
  ghost predicate Indexed(s: State) {
    && (forall id <- s.allowances.Keys :: id <= s.created)
    && (forall o :: NoDuplicates(IdsOf(s.ownerIndex, o)))
    && (forall o, id :: ListedExactly(s, o, id))
    && (forall id <- s.allowances.Keys :: id in IdsOf(s.recipientIndex, s.allowances[id].recipient))
  }

  lemma IndexedByCreate(s: State, owner: Address, recipient: Address, token: Address, amount: I128, f: Frequency, start: U64)
    requires Indexed(s)
    ensures Indexed(CreateStep(s, owner, recipient, token, amount, f, start).0)
  {
    var s' := CreateStep(s, owner, recipient, token, amount, f, start).0;
    if s' != s {
      forall o
        ensures NoDuplicates(IdsOf(s'.ownerIndex, o))
      {
        assert NoDuplicates(IdsOf(s.ownerIndex, o)) && ListedExactly(s, o, s'.created);
      }
      forall o, x
        ensures ListedExactly(s', o, x)
      {
        assert ListedExactly(s, o, x);
      }
    }
  }

  lemma IndexedByTransfer(s: State, caller: Address, id: U64, newOwner: Address)
    requires Indexed(s)
    ensures Indexed(TransferStep(s, caller, id, newOwner).0)
  {
    var s' := TransferStep(s, caller, id, newOwner).0;
    if s' != s {
      var owner := s.allowances[id].owner;
      WithoutKeepsDistinct(IdsOf(s.ownerIndex, owner), id);
      forall o
        ensures NoDuplicates(IdsOf(s'.ownerIndex, o))
      {
        assert NoDuplicates(IdsOf(s.ownerIndex, o)) && ListedExactly(s, o, id);
      }
      forall o, x
        ensures ListedExactly(s', o, x)
      {
        assert ListedExactly(s, o, x);
      }
    }
  }

  /** Storage changes that leave owners and owner lists alone, and add a changed recipient to that recipient's list. */
  ghost predicate KeepsOwners(s: State, s': State) {
    && s'.created == s.created && s'.allowances.Keys == s.allowances.Keys && s'.ownerIndex == s.ownerIndex
    && (forall r, x :: x in IdsOf(s.recipientIndex, r) ==> x in IdsOf(s'.recipientIndex, r))
    && (forall x <- s.allowances.Keys ::
          && s'.allowances[x].owner == s.allowances[x].owner
          && (s'.allowances[x].recipient == s.allowances[x].recipient
              || x in IdsOf(s'.recipientIndex, s'.allowances[x].recipient)))
  }

  lemma IndexedByUpdate(s: State, s': State)
    requires Indexed(s) && KeepsOwners(s, s')
    ensures Indexed(s')
  {
    forall o, x
      ensures ListedExactly(s', o, x)
    {
      assert ListedExactly(s, o, x);
    }
  }

  /** Every call but creation and transfer leaves owners alone. */
  lemma OtherCallsKeepOwners(s: State, e: Event)
    requires !e.op.Create? && !e.op.Transfer?
    ensures KeepsOwners(s, Step(s, e).0)
  {
    if e.op.Distribute? {
      if Step(s, e).0 != s {
        RecordKeepsOwners(s, Step(s, e).0, e.op.id);
      }
    } else if e.op.UpdateBeneficiary? {
      BeneficiaryKeepsOwners(s, e);
    } else if e.op.SetApproval? {
      assert KeepsOwners(s, Step(s, e).0);
    } else if e.op.Pause? || e.op.Resume? || e.op.Cancel? {
      SwitchKeepsOwners(s, e);
    } else {
      TermsKeepOwners(s, e);
    }
  }

  lemma SwitchKeepsOwners(s: State, e: Event)
    requires e.op.Pause? || e.op.Resume? || e.op.Cancel?
    ensures KeepsOwners(s, Step(s, e).0)
  {
    if Step(s, e).0 != s {
      RecordKeepsOwners(s, Step(s, e).0, e.op.id);
    }
  }

  lemma TermsKeepOwners(s: State, e: Event)
    requires e.op.Approve? || e.op.SetLimit? || e.op.SetExpiration?
    ensures KeepsOwners(s, Step(s, e).0)
  {
    if Step(s, e).0 != s {
      RecordKeepsOwners(s, Step(s, e).0, e.op.id);
    }
  }

  lemma RecordKeepsOwners(s: State, s': State, id: U64)
    requires id in s.allowances && id in s'.allowances
    requires s'.created == s.created && s'.ownerIndex == s.ownerIndex && s'.recipientIndex == s.recipientIndex
    requires s'.allowances == s.allowances[id := s'.allowances[id]]
    requires s'.allowances[id].owner == s.allowances[id].owner && s'.allowances[id].recipient == s.allowances[id].recipient
    ensures KeepsOwners(s, s')
  {
  }

  lemma BeneficiaryKeepsOwners(s: State, e: Event)
    requires e.op.UpdateBeneficiary?
    ensures KeepsOwners(s, Step(s, e).0)
  {
  }

  lemma IndexedStep(s: State, e: Event)
    requires Indexed(s)
    ensures Indexed(Step(s, e).0)
  {
    match e.op
    case Create(owner, recipient, token, amount, f, start) => IndexedByCreate(s, owner, recipient, token, amount, f, start);
    case Transfer(caller, id, newOwner) => IndexedByTransfer(s, caller, id, newOwner);
    case _ =>
      OtherCallsKeepOwners(s, e);
      IndexedByUpdate(s, Step(s, e).0);
  }

  lemma {:induction false} IndexedRun(balances: Balances, events: seq<Event>)
    ensures Indexed(Run(Deployed(balances), events))
  {
    if events != [] {
      var init := events[..|events| - 1];
      IndexedRun(balances, init);
      IndexedStep(Run(Deployed(balances), init), events[|events| - 1]);
    }
  }

  // ----- the contract -----

  class AllowancesContract {
    var created: U64
    var allowances: map<U64, Allowance>
    var history: map<U64, seq<Payment>>
    var ownerIndex: map<Address, seq<U64>>
    var recipientIndex: map<Address, seq<U64>>
    var approval: Option<Approval>
    var balances: Balances

    ghost function View(): State
      reads this
    {
      State(created, allowances, history, ownerIndex, recipientIndex, approval, balances)
    }

    constructor (balances: Balances)
      ensures View() == Deployed(balances)
    {
      created, allowances, history, ownerIndex, recipientIndex := 0, map[], map[], map[], map[];
      approval, this.balances := None, balances;
    }

    method CreateAllowance(owner: Address, recipient: Address, token: Address, amount: I128, f: Frequency, start: U64,
                           now: U64) returns (r: Result<Reply, Error>)
      modifies this
      ensures (View(), r) == Step(old(View()), Event(now, Create(owner, recipient, token, amount, f, start)))
    {
      if amount <= 0 {
        return Abort(InvalidAmount);
      }
      if created == U64_MAX {
        return Abort(Overflow);
      }
      var id := created + 1;
      var held := match approval
        case Some(a) => amount > a.threshold
        case None => false;
      allowances := allowances[id := Allowance(owner, recipient, token, amount, f, start, 0, !held, false, held, 0, 0)];
      created := id;
      ownerIndex := ownerIndex[owner := IdsOf(ownerIndex, owner) + [id]];
      recipientIndex := recipientIndex[recipient := IdsOf(recipientIndex, recipient) + [id]];
      return Ok(Created(id));
    }

    method DistributeTo(id: U64, now: U64) returns (r: Result<Reply, Error>)
      modifies this
      ensures (View(), r) == Step(old(View()), Event(now, Distribute(id)))
    {
      if id !in allowances {
        return Abort(NotFound);
      }
      var a := allowances[id];
      if a.pending {
        return Abort(ApprovalRequired);
      }
      if !a.active {
        return Abort(AlreadyInactive);
      }
      if a.paused {
        return Abort(Paused);
      }
      if a.endDate != 0 && now >= a.endDate {
        return Abort(Expired);
      }
      if now < a.next {
        return Abort(TooEarly);
      }
      if a.limit > 0 {
        if a.count == U64_MAX {
          return Abort(Overflow);
        }
        var projected := a.amount * (a.count + 1);
        if !FitsI128(projected) || projected > a.limit {
          return Abort(SpendingLimitExceeded);
        }
      }
      if !CanMove(balances, a.token, a.owner, a.amount) {
        return Abort(InsufficientBalance);
      }
      if a.count == U64_MAX {
        return Abort(Overflow);
      }
      var payment := Payment(a.amount, now, a.recipient);
      var moved := Moved(balances, a.token, a.owner, a.recipient, a.amount);
      a := a.(count := a.count + 1);
      var interval := Interval(a.frequency);
      if interval.None? {
        a := a.(active := false, next := 0);
      } else {
        var next := NextAfter(a.next, interval.value, now);
        if next > U64_MAX {
          return Abort(Overflow);
        }
        a := a.(next := next);
      }
      balances := moved;
      history := history[id := (if id in history then history[id] else []) + [payment]];
      allowances := allowances[id := a];
      return Ok(Done);
    }

    /** The schedule update: the first slot boundary after now, found without looping. */
    static method NextAfter(next: U64, interval: U64, now: U64) returns (after: nat)
      requires interval > 0 && next <= now
      ensures after == Advance(next, interval, now) == StepPast(next, interval, now)
      ensures now < after <= now + interval
    {
      AdvanceIsLoop(next, interval, now);
      after := next + interval;
      if after <= now {
        var missed := (now - after) / interval;
        after := after + (missed + 1) * interval;
      }
    }

    /** Load, owner authorization and the activity check, in that order. */
    method OwnerCheck(caller: Address, id: U64) returns (fault: Option<Error>)
      ensures fault == OwnerFault(View(), caller, id)
    {
      if id !in allowances {
        return Some(NotFound);
      }
      if caller != allowances[id].owner {
        return Some(Unauthorized);
      }
      if !allowances[id].active {
        return Some(AlreadyInactive);
      }
      return None;
    }

    method PauseAllowance(caller: Address, id: U64, now: U64) returns (r: Result<Reply, Error>)
      modifies this`allowances
      ensures (View(), r) == Step(old(View()), Event(now, Pause(caller, id)))
    {
      var fault := OwnerCheck(caller, id);
      if fault.Some? {
        return Abort(fault.value);
      }
      if allowances[id].paused {
        return Abort(AlreadyPaused);
      }
      allowances := allowances[id := allowances[id].(paused := true)];
      return Ok(Done);
    }

    method ResumeAllowance(caller: Address, id: U64, now: U64) returns (r: Result<Reply, Error>)
      modifies this`allowances
      ensures (View(), r) == Step(old(View()), Event(now, Resume(caller, id)))
    {
      var fault := OwnerCheck(caller, id);
      if fault.Some? {
        return Abort(fault.value);
      }
      if !allowances[id].paused {
        return Abort(NotPaused);
      }
      allowances := allowances[id := allowances[id].(paused := false)];
      return Ok(Done);
    }

    method CancelAllowance(caller: Address, id: U64, now: U64) returns (r: Result<Reply, Error>)
      modifies this`allowances
      ensures (View(), r) == Step(old(View()), Event(now, Cancel(caller, id)))
    {
      var fault := OwnerCheck(caller, id);
      if fault.Some? {
        return Abort(fault.value);
      }
      allowances := allowances[id := allowances[id].(active := false)];
      return Ok(Done);
    }

    method UpdateBeneficiaryOf(caller: Address, id: U64, recipient: Address, now: U64) returns (r: Result<Reply, Error>)
      modifies this`allowances, this`recipientIndex
      ensures (View(), r) == Step(old(View()), Event(now, UpdateBeneficiary(caller, id, recipient)))
    {
      var fault := OwnerCheck(caller, id);
      if fault.Some? {
        return Abort(fault.value);
      }
      allowances := allowances[id := allowances[id].(recipient := recipient)];
      recipientIndex := recipientIndex[recipient := IdsOf(recipientIndex, recipient) + [id]];
      return Ok(Done);
    }

    method TransferOwnership(caller: Address, id: U64, newOwner: Address, now: U64) returns (r: Result<Reply, Error>)
      modifies this`allowances, this`ownerIndex
      ensures (View(), r) == Step(old(View()), Event(now, Transfer(caller, id, newOwner)))
    {
      var fault := OwnerCheck(caller, id);
      if fault.Some? {
        return Abort(fault.value);
      }
      var oldOwner := allowances[id].owner;
      var remaining, listed := RebuildWithout(IdsOf(ownerIndex, oldOwner), id);
      ownerIndex := ownerIndex[oldOwner := remaining];
      ownerIndex := ownerIndex[newOwner := IdsOf(ownerIndex, newOwner) + [id]];
      allowances := allowances[id := allowances[id].(owner := newOwner)];
      return Ok(Done);
    }

    method SetApprovalConfig(caller: Address, approver: Address, threshold: I128, now: U64) returns (r: Result<Reply, Error>)
      modifies this`approval
      ensures (View(), r) == Step(old(View()), Event(now, SetApproval(caller, approver, threshold)))
    {
      if threshold <= 0 {
        return Abort(InvalidThreshold);
      }
      var authority := match approval
        case Some(a) => a.approver
        case None => approver;
      if caller != authority {
        return Abort(Unauthorized);
      }
      approval := Some(Approval(approver, threshold));
      return Ok(Done);
    }
  }
}
