/** Direct, multi-signature and timelocked transfers over one balance ledger. */
module Transactions {
  import opened Base
  import opened MapSums

  datatype PendingTx = PendingTx(from: Address, to: Address, amount: I128, createdAt: U64, executed: bool)

  datatype Timelock = Timelock(
    from: Address,
    to: Address,
    amount: I128,
    executeAt: U64,
    createdAt: U64,
    executedAt: Option<U64>,
    canceledAt: Option<U64>)

  datatype Error =
    | Unauthorized | InvalidThreshold | DuplicateSigner | InvalidAmount | PendingTxNotFound | UnauthorizedSigner
    | DuplicateApproval | AlreadyExecuted | InsufficientBalance | MultisigNotConfigured | Overflow | BlacklistedDestination
    | TimelockNotFound | AlreadyCanceled | EarlyExecution | InvalidScheduleTime

  datatype Approval = Approval(id: U64, signer: Address)

  datatype Pair = Pair(caller: Address, destination: Address)

  datatype State = State(
    admin: Address,
    signers: seq<Address>,
    threshold: U32,
    highValue: I128,
    nextTxId: U64,
    pending: map<U64, PendingTx>,
    approvals: set<Approval>,
    approvalCount: map<U64, U32>,
    balances: map<Address, I128>,
    blocked: set<Pair>,
    nextLockId: U64,
    locks: map<U64, Timelock>)

  datatype Reply = Executed | Queued(id: U64) | Scheduled(id: U64) | Done

  datatype Op =
    | SetSigners(caller: Address, signers: seq<Address>, threshold: U32)
    | SetHighValue(caller: Address, amount: I128)
    | SetBalance(caller: Address, user: Address, amount: I128)
    | Block(caller: Address, destination: Address)
    | Unblock(caller: Address, destination: Address)
    | Submit(from: Address, to: Address, amount: I128)
    | Approve(id: U64, signer: Address)
    | Schedule(from: Address, to: Address, amount: I128, executeAt: U64)
    | ExecuteLock(caller: Address, id: U64)
    | CancelLock(caller: Address, id: U64)

  datatype Event = Event(now: U64, op: Op)

  // ----- transfers -----

  function TransferFault(b: map<Address, I128>, from: Address, to: Address, amount: I128): Option<Error> {
    if Get(b, from) < amount then Some(InsufficientBalance)
    else if !FitsI128(Get(b, from) - amount) || !FitsI128(Get(b, to) + amount) then Some(Overflow)
    else None
  }

  /** Both balances are read before either is written, so the credit wins when they are the same account. */
  function Transferred(b: map<Address, I128>, from: Address, to: Address, amount: I128): map<Address, I128>
    requires TransferFault(b, from, to, amount).None?
  {
    b[from := Get(b, from) - amount][to := Get(b, to) + amount]
  }

  /** A transfer keeps the sum of balances exactly when its parties differ; to oneself it creates the amount. */
  lemma TransferConservesExactly(b: map<Address, I128>, from: Address, to: Address, amount: I128)
    requires TransferFault(b, from, to, amount).None? && amount > 0
    ensures Sum(Transferred(b, from, to, amount)) == Sum(b) <==> from != to
    ensures Sum(Transferred(b, from, to, amount)) == Sum(b) + if from == to then amount else 0
    ensures var t := Transferred(b, from, to, amount);
      && Get(t, to) == Get(b, to) + amount && (from != to ==> Get(t, from) == Get(b, from) - amount)
      && forall a :: a != from && a != to ==> Get(t, a) == Get(b, a)
  {
    var debited := b[from := Get(b, from) - amount];
    SumUpdate(b, from, Get(b, from) - amount);
    SumUpdate(debited, to, Get(b, to) + amount);
  }

  /** The sender can pay, and the receiver's balance can take the amount. */
  predicate Covered(b: map<Address, I128>, from: Address, to: Address, amount: int) {
    amount <= Get(b, from) && Get(b, to) + amount <= I128_MAX
  }

  /** The receiver has got the amount, and a different sender has paid it; nobody else is touched. */
  ghost predicate MovesFunds(b: map<Address, I128>, after: map<Address, I128>, from: Address, to: Address, amount: int) {
    && Get(after, to) == Get(b, to) + amount && (from != to ==> Get(after, from) == Get(b, from) - amount)
    && forall a :: a != from && a != to ==> Get(after, a) == Get(b, a)
  }

  lemma TransferExactly(b: map<Address, I128>, from: Address, to: Address, amount: I128)
    requires amount > 0
    ensures TransferFault(b, from, to, amount).None? <==> Covered(b, from, to, amount)
    ensures Covered(b, from, to, amount) ==> MovesFunds(b, Transferred(b, from, to, amount), from, to, amount)
  {
  }

  // ----- signers -----

  /** The faults of a signer configuration, as the validation reports them. */
  function SignerFault(signers: seq<Address>, threshold: U32): Option<Error> {
    if |signers| == 0 || threshold == 0 || threshold > |signers| then Some(InvalidThreshold)
    else if !NoDuplicates(signers) then Some(DuplicateSigner)
    else None
  }

  function CountOf(s: State, id: U64): U32 {
    if id in s.approvalCount then s.approvalCount[id] else 0
  }

  // ----- steps -----

  function SubmitStep(s: State, now: U64, from: Address, to: Address, amount: I128): (State, Result<Reply, Error>) {
    if Pair(from, to) in s.blocked then (s, Abort(BlacklistedDestination))
    else if amount <= 0 then (s, Abort(InvalidAmount))
    else if amount < s.highValue then
      var fault := TransferFault(s.balances, from, to, amount);
      if fault.Some? then (s, Abort(fault.value))
      else (s.(balances := Transferred(s.balances, from, to, amount)), Ok(Executed))
    else if |s.signers| == 0 || s.threshold == 0 || s.threshold > |s.signers| then (s, Abort(MultisigNotConfigured))
    else if s.nextTxId == U64_MAX then (s, Abort(Overflow))
    else
      var id := s.nextTxId + 1;
      (s.(nextTxId := id, pending := s.pending[id := PendingTx(from, to, amount, now, false)],
          approvalCount := s.approvalCount[id := 0]),
       Ok(Queued(id)))
  }

  function ApproveFault(s: State, id: U64, signer: Address): Option<Error> {
    if signer !in s.signers then Some(UnauthorizedSigner)
    else if id !in s.pending then Some(PendingTxNotFound)
    else if s.pending[id].executed then Some(AlreadyExecuted)
    else if Approval(id, signer) in s.approvals then Some(DuplicateApproval)
    else if CountOf(s, id) == U32_MAX then Some(Overflow)
    else None
  }

  /** The approval that reaches the threshold in force executes the transfer in the same call. */
  function ApproveStep(s: State, id: U64, signer: Address): (State, Result<Reply, Error>) {
    var fault := ApproveFault(s, id, signer);
    if fault.Some? then (s, Abort(fault.value))
    else
      var tx := s.pending[id];
      var recorded := s.(approvals := s.approvals + {Approval(id, signer)},
                         approvalCount := s.approvalCount[id := CountOf(s, id) + 1]);
      if CountOf(s, id) + 1 < s.threshold then (recorded, Ok(Done))
      else
        var blockedBy := TransferFault(s.balances, tx.from, tx.to, tx.amount);
        if blockedBy.Some? then (s, Abort(blockedBy.value))
        else
          (recorded.(pending := s.pending[id := tx.(executed := true)],
                     balances := Transferred(s.balances, tx.from, tx.to, tx.amount)),
           Ok(Executed))
  }

  function ScheduleStep(s: State, now: U64, from: Address, to: Address, amount: I128, at: U64): (State, Result<Reply, Error>) {
    if Pair(from, to) in s.blocked then (s, Abort(BlacklistedDestination))
    else if amount <= 0 then (s, Abort(InvalidAmount))
    else if at <= now || s.nextLockId == U64_MAX then (s, Abort(InvalidScheduleTime))
    else
      var id := s.nextLockId + 1;
      (s.(nextLockId := id, locks := s.locks[id := Timelock(from, to, amount, at, now, None, None)]), Ok(Scheduled(id)))
  }

  function LockFault(s: State, id: U64): Option<Error> {
    if id !in s.locks then Some(TimelockNotFound)
    else if s.locks[id].executedAt.Some? then Some(AlreadyExecuted)
    else if s.locks[id].canceledAt.Some? then Some(AlreadyCanceled)
    else None
  }

  function ExecuteLockStep(s: State, now: U64, caller: Address, id: U64): (State, Result<Reply, Error>) {
    var fault := LockFault(s, id);
    if fault.Some? then (s, Abort(fault.value))
    else
      var tx := s.locks[id];
      var blockedBy := TransferFault(s.balances, tx.from, tx.to, tx.amount);
      if now < tx.executeAt then (s, Abort(EarlyExecution))
      else if caller != tx.from && caller != s.admin then (s, Abort(Unauthorized))
      else if blockedBy.Some? then (s, Abort(blockedBy.value))
      else
        (s.(locks := s.locks[id := tx.(executedAt := Some(now))],
            balances := Transferred(s.balances, tx.from, tx.to, tx.amount)),
         Ok(Executed))
  }

  function CancelLockStep(s: State, now: U64, caller: Address, id: U64): (State, Result<Reply, Error>) {
    var fault := LockFault(s, id);
    if fault.Some? then (s, Abort(fault.value))
    else if caller != s.locks[id].from && caller != s.admin then (s, Abort(Unauthorized))
    else (s.(locks := s.locks[id := s.locks[id].(canceledAt := Some(now))]), Ok(Done))
  }

  function Step(s: State, e: Event): (State, Result<Reply, Error>) {
    match e.op
    case SetSigners(caller, signers, threshold) =>
      if caller != s.admin then (s, Abort(Unauthorized))
      else if SignerFault(signers, threshold).Some? then (s, Abort(SignerFault(signers, threshold).value))
      else (s.(signers := signers, threshold := threshold), Ok(Done))
    case SetHighValue(caller, amount) =>
      if caller != s.admin then (s, Abort(Unauthorized))
      else if amount < 0 then (s, Abort(InvalidAmount))
      else (s.(highValue := amount), Ok(Done))
    case SetBalance(caller, user, amount) =>
      if caller != s.admin then (s, Abort(Unauthorized))
      else if amount < 0 then (s, Abort(InvalidAmount))
      else (s.(balances := s.balances[user := amount]), Ok(Done))
    case Block(caller, destination) => (s.(blocked := s.blocked + {Pair(caller, destination)}), Ok(Done))
    case Unblock(caller, destination) => (s.(blocked := s.blocked - {Pair(caller, destination)}), Ok(Done))
    case Submit(from, to, amount) => SubmitStep(s, e.now, from, to, amount)
    case Approve(id, signer) => ApproveStep(s, id, signer)
    case Schedule(from, to, amount, at) => ScheduleStep(s, e.now, from, to, amount, at)
    case ExecuteLock(caller, id) => ExecuteLockStep(s, e.now, caller, id)
    case CancelLock(caller, id) => CancelLockStep(s, e.now, caller, id)
  }

  function Deployed(admin: Address): State {
    State(admin, [], 0, I128_MAX, 0, map[], {}, map[], map[], {}, 0, map[])
  }

  function Run(s: State, events: seq<Event>): State {
    if events == [] then s else Step(Run(s, events[..|events| - 1]), events[|events| - 1]).0
  }

  // ----- quorum -----

  function Approvers(s: State, id: U64): set<Address> {
    set a <- s.approvals | a.id == id :: a.signer
  }

  /** The stored counter of every transaction is the number of its distinct approvers. */
  ghost predicate Counted(s: State) {
    && (forall id: U64 :: |Approvers(s, id)| == CountOf(s, id))
    && (forall a <- s.approvals :: a.id in s.pending)
    && (forall id <- s.pending.Keys :: id <= s.nextTxId && s.pending[id].amount > 0)
  }

  lemma ApproverAdded(s: State, s': State, id: U64, signer: Address, other: U64)
    requires s'.approvals == s.approvals + {Approval(id, signer)} && Approval(id, signer) !in s.approvals
    ensures |Approvers(s', other)| == |Approvers(s, other)| + if other == id then 1 else 0
  {
    if other == id {
      assert Approvers(s', id) == Approvers(s, id) + {signer};
      assert signer !in Approvers(s, id);
    } else {
      assert Approvers(s', other) == Approvers(s, other);
    }
  }

  lemma CountedByApprove(s: State, id: U64, signer: Address)
    requires Counted(s)
    ensures Counted(ApproveStep(s, id, signer).0)
  {
    var s' := ApproveStep(s, id, signer).0;
    if s' != s {
      forall other: U64
        ensures |Approvers(s', other)| == CountOf(s', other)
      {
        ApproverAdded(s, s', id, signer, other);
      }
    }
  }

  lemma CountedBySubmit(s: State, now: U64, from: Address, to: Address, amount: I128)
    requires Counted(s)
    ensures Counted(SubmitStep(s, now, from, to, amount).0)
  {
    var s' := SubmitStep(s, now, from, to, amount).0;
    forall other: U64
      ensures |Approvers(s', other)| == CountOf(s', other)
    {
      assert Approvers(s', other) == Approvers(s, other);
      if s'.pending != s.pending && other == s'.nextTxId {
        assert Approvers(s, other) == {};
      }
    }
  }

  lemma CountedStep(s: State, e: Event)
    requires Counted(s)
    ensures Counted(Step(s, e).0)
  {
    match e.op
    case Submit(from, to, amount) => CountedBySubmit(s, e.now, from, to, amount);
    case Approve(id, signer) => CountedByApprove(s, id, signer);
    case _ =>
      OthersKeepApprovals(s, e);
      CountedKept(s, Step(s, e).0);
  }

  lemma OthersKeepApprovals(s: State, e: Event)
    requires !e.op.Submit? && !e.op.Approve?
    ensures var s' := Step(s, e).0;
      s'.approvals == s.approvals && s'.approvalCount == s.approvalCount && s'.pending == s.pending && s'.nextTxId == s.nextTxId
  {
    match e.op
    case SetSigners(_, _, _) =>
    case SetHighValue(_, _) =>
    case SetBalance(_, _, _) =>
    case Block(_, _) =>
    case Unblock(_, _) =>
    case Schedule(_, _, _, _) =>
    case ExecuteLock(_, _) =>
    case CancelLock(_, _) =>
  }

  lemma CountedKept(s: State, s': State)
    requires Counted(s)
    requires s'.approvals == s.approvals && s'.approvalCount == s.approvalCount && s'.pending == s.pending
    requires s'.nextTxId == s.nextTxId
    ensures Counted(s')
  {
    forall other: U64
      ensures |Approvers(s', other)| == CountOf(s', other)
    {
      assert Approvers(s', other) == Approvers(s, other);
    }
  }

  lemma {:induction false} CountedRun(admin: Address, events: seq<Event>)
    ensures Counted(Run(Deployed(admin), events))
  {
    var s := Deployed(admin);
    if events == [] {
      forall id: U64
        ensures |Approvers(s, id)| == CountOf(s, id)
      {
        assert Approvers(s, id) == {};
      }
    } else {
      CountedRun(admin, events[..|events| - 1]);
      CountedStep(Run(s, events[..|events| - 1]), events[|events| - 1]);
    }
  }

  /** The step moves the funds of pending transaction id. */
  predicate Settles(s: State, e: Event, id: U64) {
    e.op.Approve? && e.op.id == id && Step(s, e).1 == Ok(Executed)
  }

  function SettlementsOf(s: State, events: seq<Event>, id: U64): nat {
    if events == [] then 0
    else
      var init := events[..|events| - 1];
      SettlementsOf(s, init, id) + if Settles(Run(s, init), events[|events| - 1], id) then 1 else 0
  }

  /** Over every run, with signers and threshold changed in between, a pending transfer moves its funds at most once: it is
      marked executed exactly when it did. */
  lemma {:induction false} SettledOnce(admin: Address, events: seq<Event>, id: U64)
    ensures var s := Deployed(admin);
      var end := Run(s, events);
      SettlementsOf(s, events, id) == if id in end.pending && end.pending[id].executed then 1 else 0
  {
    if events != [] {
      var s, init, e := Deployed(admin), events[..|events| - 1], events[|events| - 1];
      SettledOnce(admin, init, id);
      CountedRun(admin, init);
      SettleStep(Run(s, init), e, id);
    }
  }

  predicate IsExecuted(s: State, id: U64) {
    id in s.pending && s.pending[id].executed
  }

  lemma SettleStep(s: State, e: Event, id: U64)
    requires Counted(s)
    ensures Settles(s, e, id) ==> !IsExecuted(s, id) && IsExecuted(Step(s, e).0, id)
    ensures !Settles(s, e, id) ==> IsExecuted(Step(s, e).0, id) == IsExecuted(s, id)
  {
  }

  /** In every reachable state the settling approval comes from a current signer who has not approved before, and brings the
      number of distinct approvers to at least the threshold in force; conversely an approval that reaches it with the
      funds available settles. */
  lemma SettlesExactly(admin: Address, events: seq<Event>, now: U64, id: U64, signer: Address)
    ensures var s := Run(Deployed(admin), events);
      Settles(s, Event(now, Approve(id, signer)), id) <==>
        && signer in s.signers && signer !in Approvers(s, id)
        && id in s.pending && !s.pending[id].executed
        && |Approvers(s, id) + {signer}| <= U32_MAX
        && |Approvers(s, id) + {signer}| >= s.threshold
        && Covered(s.balances, s.pending[id].from, s.pending[id].to, s.pending[id].amount)
  {
    CountedRun(admin, events);
    var s := Run(Deployed(admin), events);
    assert |Approvers(s, id)| == CountOf(s, id);
    assert signer in Approvers(s, id) <==> Approval(id, signer) in s.approvals;
    if id in s.pending {
      TransferExactly(s.balances, s.pending[id].from, s.pending[id].to, s.pending[id].amount);
    }
  }

  /** In every reachable state an approval is accepted exactly from a current signer who has given none, for an open transfer,
      when it stays below the threshold or the transfer is covered. It is then on record, and at the threshold the funds have
      moved and the transfer is closed. */
  lemma ApprovesExactly(admin: Address, events: seq<Event>, now: U64, id: U64, signer: Address)
    ensures var s := Run(Deployed(admin), events);
      var (after, r) := Step(s, Event(now, Approve(id, signer)));
      && (r.Ok? <==>
            && signer in s.signers && signer !in Approvers(s, id) && id in s.pending && !s.pending[id].executed
            && |Approvers(s, id)| < U32_MAX
            && (|Approvers(s, id)| + 1 >= s.threshold ==>
                  Covered(s.balances, s.pending[id].from, s.pending[id].to, s.pending[id].amount)))
      && (r.Ok? ==>
            && after.approvals == s.approvals + {Approval(id, signer)}
            && if |Approvers(s, id)| + 1 >= s.threshold then
                 && r.value == Executed && after.pending == s.pending[id := s.pending[id].(executed := true)]
                 && MovesFunds(s.balances, after.balances, s.pending[id].from, s.pending[id].to, s.pending[id].amount)
               else r.value == Done && after.pending == s.pending && after.balances == s.balances)
      && (r.Abort? ==>
            && after == s
            && r.error == if signer !in s.signers then UnauthorizedSigner
                          else if id !in s.pending then PendingTxNotFound
                          else if s.pending[id].executed then AlreadyExecuted
                          else if signer in Approvers(s, id) then DuplicateApproval
                          else if |Approvers(s, id)| == U32_MAX then Overflow
                          else if s.pending[id].amount > Get(s.balances, s.pending[id].from) then InsufficientBalance
                          else Overflow)
  {
    CountedRun(admin, events);
    var s := Run(Deployed(admin), events);
    assert |Approvers(s, id)| == CountOf(s, id);
    assert signer in Approvers(s, id) <==> Approval(id, signer) in s.approvals;
    if id in s.pending {
      TransferExactly(s.balances, s.pending[id].from, s.pending[id].to, s.pending[id].amount);
    }
  }

  /** The approvers who are signers now, and those who no longer are. */
  function CurrentApprovers(s: State, id: U64): set<Address> {
    Approvers(s, id) * Elements(s.signers)
  }

  function FormerApprovers(s: State, id: U64): set<Address> {
    Approvers(s, id) - Elements(s.signers)
  }

  /** In every reachable state an approval settles although fewer current signers than the threshold approved exactly when
      the approvals of former signers make up the difference, everything else permitting. */
  lemma SettlesByFormerExactly(admin: Address, events: seq<Event>, now: U64, id: U64, signer: Address)
    ensures var s := Run(Deployed(admin), events);
      Settles(s, Event(now, Approve(id, signer)), id) && |CurrentApprovers(s, id) + {signer}| < s.threshold <==>
        && signer in s.signers && signer !in Approvers(s, id) && id in s.pending && !s.pending[id].executed
        && |CurrentApprovers(s, id)| + 1 < s.threshold
        && s.threshold <= |CurrentApprovers(s, id)| + 1 + |FormerApprovers(s, id)| <= U32_MAX
        && Covered(s.balances, s.pending[id].from, s.pending[id].to, s.pending[id].amount)
  {
    SettlesExactly(admin, events, now, id, signer);
    var s := Run(Deployed(admin), events);
    assert Approvers(s, id) == CurrentApprovers(s, id) + FormerApprovers(s, id);
    if signer !in Approvers(s, id) {
      assert |Approvers(s, id) + {signer}| == |Approvers(s, id)| + 1;
      assert |CurrentApprovers(s, id) + {signer}| == |CurrentApprovers(s, id)| + 1;
    }
  }

  /** Over every run, a transfer has approvals of former signers only if signers were set after it was queued; without that a
      settlement has the threshold's number of current signers. */
  lemma {:induction false} FormerNeedsNewSigners(admin: Address, events: seq<Event>, k: nat, id: U64)
    requires k <= |events| && id !in Run(Deployed(admin), events[..k]).pending
    requires forall i :: k <= i < |events| ==> !events[i].op.SetSigners?
    ensures FormerApprovers(Run(Deployed(admin), events), id) == {}
  {
    var s := Deployed(admin);
    if k == |events| {
      assert events[..k] == events;
      CountedRun(admin, events);
      assert Approvers(Run(s, events), id) == {};
    } else {
      var init, e := events[..|events| - 1], events[|events| - 1];
      assert init[..k] == events[..k];
      FormerNeedsNewSigners(admin, init, k, id);
      SignersKept(Run(s, init), e);
      forall a | a in Approvers(Run(s, events), id)
        ensures a in Run(s, events).signers
      {
        if a in Approvers(Run(s, init), id) {
          assert a !in FormerApprovers(Run(s, init), id);
        } else {
          ApprovalAppears(Run(s, init), e, id, a);
        }
      }
    }
  }

  lemma SignersKept(s: State, e: Event)
    requires !e.op.SetSigners?
    ensures Step(s, e).0.signers == s.signers
  {
    if !e.op.SetHighValue? {
      ConfigKept(s, e);
    }
  }

  lemma RunExtends(s: State, events: seq<Event>, e: Event)
    ensures Run(s, events + [e]) == Step(Run(s, events), e).0
  {
    assert (events + [e])[..|events|] == events;
  }

  /** A run of it: one of two signers approves, both are replaced, and the approval of one new signer settles at the
      threshold of two. */
  lemma FormerSignerSettles(admin: Address, from: Address, to: Address, a: Address, b: Address, c: Address, d: Address)
    requires from != to && |{a, b, c, d}| == 4
    ensures var events := [Event(0, SetHighValue(admin, 1))] + [Event(0, SetBalance(admin, from, 1))]
                          + [Event(0, SetSigners(admin, [a, b], 2))] + [Event(0, Submit(from, to, 1))]
                          + [Event(0, Approve(1, a))] + [Event(0, SetSigners(admin, [c, d], 2))];
      var s := Run(Deployed(admin), events);
      && s.threshold == 2 && |CurrentApprovers(s, 1) + {c}| == 1
      && Settles(s, Event(0, Approve(1, c)), 1)
  {
    var e1, e2, e3 := Event(0, SetHighValue(admin, 1)), Event(0, SetBalance(admin, from, 1)),
                      Event(0, SetSigners(admin, [a, b], 2));
    var e4, e5, e6 := Event(0, Submit(from, to, 1)), Event(0, Approve(1, a)), Event(0, SetSigners(admin, [c, d], 2));
    var s := Deployed(admin);
    FourDiffer(a, b, c, d);
    RunExtends(s, [], e1);
    assert [] + [e1] == [e1];
    RunExtends(s, [e1], e2);
    RunExtends(s, [e1] + [e2], e3);
    var s3 := Run(s, [e1] + [e2] + [e3]);
    assert s3 == s.(highValue := 1, balances := map[from := 1], signers := [a, b], threshold := 2);
    RunExtends(s, [e1] + [e2] + [e3], e4);
    RunExtends(s, [e1] + [e2] + [e3] + [e4], e5);
    RunExtends(s, [e1] + [e2] + [e3] + [e4] + [e5], e6);
    ReplacedAfterOne(s3, from, to, a, b, c, d);
  }

  lemma FourDiffer(a: Address, b: Address, c: Address, d: Address)
    requires |{a, b, c, d}| == 4
    ensures a != b && a != c && a != d && b != c && b != d && c != d
  {
    assert {a, b, c, d} == {a, b, c} + {d};
    assert a == b ==> {a, b, c, d} == {b, c, d};
    assert a == c ==> {a, b, c, d} == {b, c, d};
    assert a == d ==> {a, b, c, d} == {b, c, d};
    assert b == c ==> {a, b, c, d} == {a, c, d};
    assert b == d ==> {a, b, c, d} == {a, c, d};
    assert c == d ==> {a, b, c, d} == {a, b, d};
  }

  lemma ReplacedAfterOne(s: State, from: Address, to: Address, a: Address, b: Address, c: Address, d: Address)
    requires a != b && a != c && a != d && b != c && b != d && c != d && from != to
    requires s == Deployed(s.admin).(highValue := 1, balances := map[from := 1], signers := [a, b], threshold := 2)
    ensures var s1 := Step(s, Event(0, Submit(from, to, 1))).0;
      var s2 := Step(s1, Event(0, Approve(1, a))).0;
      var s3 := Step(s2, Event(0, SetSigners(s.admin, [c, d], 2))).0;
      && s3.threshold == 2 && |CurrentApprovers(s3, 1) + {c}| == 1
      && Settles(s3, Event(0, Approve(1, c)), 1)
  {
    var s1 := Step(s, Event(0, Submit(from, to, 1))).0;
    assert s1 == s.(nextTxId := 1, pending := map[1 := PendingTx(from, to, 1, 0, false)], approvalCount := map[1 := 0]);
    var s2 := Step(s1, Event(0, Approve(1, a))).0;
    assert a in [a, b];
    assert s2 == s1.(approvals := {Approval(1, a)}, approvalCount := map[1 := 1]);
    assert NoDuplicates([c, d]);
    var s3 := Step(s2, Event(0, SetSigners(s.admin, [c, d], 2))).0;
    assert s3 == s2.(signers := [c, d]);
    assert c in [c, d] && Approval(1, c) !in s3.approvals;
    assert CurrentApprovers(s3, 1) + {c} == {c};
  }

  /** Every approval on record was given by an address that was a signer at that moment. */
  lemma {:induction false} ApprovedWhileSigner(admin: Address, events: seq<Event>, id: U64, signer: Address)
    requires signer in Approvers(Run(Deployed(admin), events), id)
    ensures exists i :: 0 <= i < |events| && events[i].op == Approve(id, signer)
                        && signer in Run(Deployed(admin), events[..i]).signers
  {
    if events != [] {
      var s, init, e := Deployed(admin), events[..|events| - 1], events[|events| - 1];
      if signer in Approvers(Run(s, init), id) {
        ApprovedWhileSigner(admin, init, id, signer);
        var i :| 0 <= i < |init| && init[i].op == Approve(id, signer) && signer in Run(s, init[..i]).signers;
        assert events[i] == init[i] && events[..i] == init[..i];
      } else {
        ApprovalAppears(Run(s, init), e, id, signer);
        assert events[..|init|] == init && events[|init|] == e;
      }
    }
  }

  lemma ApprovalAppears(s: State, e: Event, id: U64, signer: Address)
    requires signer !in Approvers(s, id) && signer in Approvers(Step(s, e).0, id)
    ensures e.op == Approve(id, signer) && signer in s.signers
  {
  }

  // ----- timelocks -----

  predicate LockRespected(t: Timelock) {
    && t.amount > 0 && t.executeAt > t.createdAt
    && !(t.executedAt.Some? && t.canceledAt.Some?)
    && (t.executedAt.Some? ==> t.executedAt.value >= t.executeAt)
  }

  /** A timelocked transfer is never both executed and cancelled, and never executed before its time. */
  ghost predicate LocksRespected(s: State) {
    forall id <- s.locks.Keys :: LockRespected(s.locks[id])
  }

  lemma {:induction false} LocksRun(admin: Address, events: seq<Event>)
    ensures LocksRespected(Run(Deployed(admin), events))
  {
    if events != [] {
      LocksRun(admin, events[..|events| - 1]);
      LocksStep(Run(Deployed(admin), events[..|events| - 1]), events[|events| - 1]);
    }
  }

  lemma LocksStep(s: State, e: Event)
    requires LocksRespected(s)
    ensures LocksRespected(Step(s, e).0)
  {
    match e.op
    case Schedule(_, _, _, _) =>
    case ExecuteLock(caller, id) => ExecuteRespects(s, e.now, caller, id);
    case CancelLock(caller, id) => CancelRespects(s, e.now, caller, id);
    case Submit(_, _, _) => assert Step(s, e).0.locks == s.locks;
    case Approve(_, _) => assert Step(s, e).0.locks == s.locks;
    case _ => assert Step(s, e).0.locks == s.locks;
  }

  lemma ExecuteRespects(s: State, now: U64, caller: Address, id: U64)
    requires LocksRespected(s)
    ensures LocksRespected(ExecuteLockStep(s, now, caller, id).0)
  {
  }

  lemma CancelRespects(s: State, now: U64, caller: Address, id: U64)
    requires LocksRespected(s)
    ensures LocksRespected(CancelLockStep(s, now, caller, id).0)
  {
  }

  // ----- balances -----

  /** What a step adds to the sum of balances: an admin's correction, or the amount of a transfer to oneself. */
  function Inflow(s: State, e: Event): int {
    if Step(s, e).1.Abort? then 0
    else
      match e.op
      case SetBalance(_, user, amount) => amount - Get(s.balances, user)
      case Submit(from, to, amount) => if Step(s, e).1 == Ok(Executed) && from == to then amount else 0
      case Approve(id, _) =>
        if Step(s, e).1 == Ok(Executed) && id in s.pending && s.pending[id].from == s.pending[id].to then s.pending[id].amount
        else 0
      case ExecuteLock(_, id) => if id in s.locks && s.locks[id].from == s.locks[id].to then s.locks[id].amount else 0
      case _ => 0
  }

  function Inflows(s: State, events: seq<Event>): int {
    if events == [] then 0
    else Inflows(s, events[..|events| - 1]) + Inflow(Run(s, events[..|events| - 1]), events[|events| - 1])
  }

  predicate NoDebts(b: map<Address, I128>) {
    forall a <- b.Keys :: b[a] >= 0
  }

  lemma TransferKeepsLedger(b: map<Address, I128>, from: Address, to: Address, amount: I128)
    requires NoDebts(b) && TransferFault(b, from, to, amount).None? && amount > 0
    ensures NoDebts(Transferred(b, from, to, amount))
    ensures Sum(Transferred(b, from, to, amount)) == Sum(b) + if from == to then amount else 0
  {
    TransferConservesExactly(b, from, to, amount);
  }

  ghost predicate LedgerMoves(s: State, e: Event) {
    NoDebts(Step(s, e).0.balances) && Sum(Step(s, e).0.balances) == Sum(s.balances) + Inflow(s, e)
  }

  lemma ApproveMoves(s: State, e: Event)
    requires NoDebts(s.balances) && Counted(s) && e.op.Approve?
    ensures LedgerMoves(s, e)
  {
    if Step(s, e).1 == Ok(Executed) {
      var tx := s.pending[e.op.id];
      TransferKeepsLedger(s.balances, tx.from, tx.to, tx.amount);
    } else {
      assert Step(s, e).0.balances == s.balances;
    }
  }

  lemma SubmitMoves(s: State, e: Event)
    requires NoDebts(s.balances) && e.op.Submit?
    ensures LedgerMoves(s, e)
  {
    if Step(s, e).1 == Ok(Executed) {
      TransferKeepsLedger(s.balances, e.op.from, e.op.to, e.op.amount);
    } else {
      assert Step(s, e).0.balances == s.balances;
    }
  }

  lemma ExecuteLockMoves(s: State, e: Event)
    requires NoDebts(s.balances) && LocksRespected(s) && e.op.ExecuteLock?
    ensures LedgerMoves(s, e)
  {
    if Step(s, e).1.Ok? {
      var tx := s.locks[e.op.id];
      TransferKeepsLedger(s.balances, tx.from, tx.to, tx.amount);
    }
  }

  lemma BalanceStep(s: State, e: Event)
    requires NoDebts(s.balances) && Counted(s) && LocksRespected(s)
    ensures LedgerMoves(s, e)
  {
    match e.op
    case SetBalance(_, user, amount) => SumUpdate(s.balances, user, amount);
    case Submit(_, _, _) => SubmitMoves(s, e);
    case Approve(_, _) => ApproveMoves(s, e);
    case ExecuteLock(_, _) => ExecuteLockMoves(s, e);
    case _ => assert Step(s, e).0.balances == s.balances;
  }

  /** Over every run no balance is negative, and the sum of balances is what admin corrections and self-transfers put in. */
  lemma {:induction false} BalanceRun(admin: Address, events: seq<Event>)
    ensures var s := Deployed(admin);
      NoDebts(Run(s, events).balances) && Sum(Run(s, events).balances) == Inflows(s, events)
  {
    if events != [] {
      var init := events[..|events| - 1];
      BalanceRun(admin, init);
      CountedRun(admin, init);
      LocksRun(admin, init);
      BalanceStep(Run(Deployed(admin), init), events[|events| - 1]);
    }
  }

  // ----- configuration over runs -----

  /** Either no signers were ever set, or the threshold is between one and the number of distinct signers. */
  ghost predicate SignersConfigured(s: State) {
    && NoDuplicates(s.signers) && s.threshold <= |s.signers| && (s.signers != [] ==> s.threshold >= 1) && s.highValue >= 0
  }

  datatype Policy = Policy(signers: seq<Address>, threshold: U32, highValue: I128)

  function PolicyOf(s: State): Policy {
    Policy(s.signers, s.threshold, s.highValue)
  }

  /** The policy in force, read off the calls alone: the admin's last valid settings. */
  function PolicyAfter(admin: Address, events: seq<Event>): Policy {
    if events == [] then Policy([], 0, I128_MAX)
    else
      var before := PolicyAfter(admin, events[..|events| - 1]);
      match events[|events| - 1].op
      case SetSigners(caller, signers, threshold) =>
        if caller == admin && 1 <= threshold <= |signers| && NoDuplicates(signers)
        then before.(signers := signers, threshold := threshold) else before
      case SetHighValue(caller, amount) => if caller == admin && amount >= 0 then before.(highValue := amount) else before
      case _ => before
  }

  lemma {:induction false} SignersRun(admin: Address, events: seq<Event>)
    ensures var s := Run(Deployed(admin), events);
      SignersConfigured(s) && s.admin == admin && PolicyOf(s) == PolicyAfter(admin, events)
  {
    if events != [] {
      SignersRun(admin, events[..|events| - 1]);
      var e := events[|events| - 1];
      if !e.op.SetSigners? && !e.op.SetHighValue? {
        ConfigKept(Run(Deployed(admin), events[..|events| - 1]), e);
      }
    }
  }

  /** The policy calls are the admin's alone; a threshold out of reach comes before a repeated signer. */
  lemma PolicyCallsExactly(s: State, now: U64, caller: Address, signers: seq<Address>, threshold: U32, amount: I128)
    ensures var (after, r) := Step(s, Event(now, SetSigners(caller, signers, threshold)));
      && (r.Ok? <==> caller == s.admin && 1 <= threshold <= |signers| && NoDuplicates(signers))
      && after == (if r.Ok? then s.(signers := signers, threshold := threshold) else s)
      && (r.Abort? ==> r.error == if caller != s.admin then Unauthorized
                                  else if !(1 <= threshold <= |signers|) then InvalidThreshold else DuplicateSigner)
    ensures var (after, r) := Step(s, Event(now, SetHighValue(caller, amount)));
      && (r.Ok? <==> caller == s.admin && amount >= 0)
      && after == (if r.Ok? then s.(highValue := amount) else s)
      && (r.Abort? ==> r.error == if caller != s.admin then Unauthorized else InvalidAmount)
  {
  }

  /** Balances are set by the admin alone. */
  lemma AdminSetsBalances(s: State, now: U64, caller: Address, user: Address, amount: I128)
    ensures var (s', r) := Step(s, Event(now, SetBalance(caller, user, amount)));
      && (r.Ok? <==> caller == s.admin && amount >= 0)
      && (r.Abort? ==> r.error == if caller != s.admin then Unauthorized else InvalidAmount)
      && (r.Ok? ==> forall u :: Get(s'.balances, u) == if u == user then amount else Get(s.balances, u))
      && (r.Abort? ==> s' == s)
  {
  }

  lemma ConfigKept(s: State, e: Event)
    requires !e.op.SetSigners? && !e.op.SetHighValue?
    ensures var s' := Step(s, e).0;
      s'.signers == s.signers && s'.threshold == s.threshold && s'.highValue == s.highValue && s'.admin == s.admin
  {
    match e.op
    case Submit(_, _, _) =>
    case Approve(_, _) =>
    case ExecuteLock(_, _) =>
    case CancelLock(_, _) =>
    case _ =>
  }

  /** Whether the caller blocks the destination after the run, read off the calls alone: the caller's last word decides. */
  predicate BlockedAfter(events: seq<Event>, caller: Address, destination: Address) {
    events != [] &&
    match events[|events| - 1].op
    case Block(c, d) => (c == caller && d == destination) || BlockedAfter(events[..|events| - 1], caller, destination)
    case Unblock(c, d) => (c != caller || d != destination) && BlockedAfter(events[..|events| - 1], caller, destination)
    case _ => BlockedAfter(events[..|events| - 1], caller, destination)
  }

  lemma {:induction false} BlockedRun(admin: Address, events: seq<Event>, caller: Address, destination: Address)
    ensures Pair(caller, destination) in Run(Deployed(admin), events).blocked <==> BlockedAfter(events, caller, destination)
  {
    if events != [] {
      var init, e := events[..|events| - 1], events[|events| - 1];
      BlockedRun(admin, init, caller, destination);
      if !e.op.Block? && !e.op.Unblock? {
        BlocksKept(Run(Deployed(admin), init), e);
      }
    }
  }

  lemma BlocksKept(s: State, e: Event)
    requires !e.op.Block? && !e.op.Unblock?
    ensures Step(s, e).0.blocked == s.blocked
  {
  }

  /** What a submission answers and does, from the stored values. */
  ghost predicate Submits(s: State, now: U64, from: Address, to: Address, amount: I128, blocked: bool) {
    var (after, r) := Step(s, Event(now, Submit(from, to, amount)));
    && (r == Ok(Executed) <==>
        && 0 < amount < s.highValue && !blocked
        && amount <= Get(s.balances, from) && Get(s.balances, to) + amount <= I128_MAX)
    && (r.Ok? && r != Ok(Executed) <==>
        && amount > 0 && amount >= s.highValue && !blocked
        && s.signers != [] && s.nextTxId < U64_MAX)
    && (r == Ok(Executed) ==>
        && MovesFunds(s.balances, after.balances, from, to, amount) && after.(balances := s.balances) == s)
    && (r.Ok? && r != Ok(Executed) ==>
        && r == Ok(Queued(s.nextTxId + 1)) && after.nextTxId == s.nextTxId + 1 && after.balances == s.balances
        && after.pending == s.pending[s.nextTxId + 1 := PendingTx(from, to, amount, now, false)])
    && (r.Abort? ==>
        && after == s
        && r.error == if blocked then BlacklistedDestination
                      else if amount <= 0 then InvalidAmount
                      else if amount < s.highValue then
                        if amount > Get(s.balances, from) then InsufficientBalance else Overflow
                      else if s.signers == [] then MultisigNotConfigured else Overflow)
  }

  lemma SubmitLaw(s: State, now: U64, from: Address, to: Address, amount: I128)
    requires SignersConfigured(s)
    ensures Submits(s, now, from, to, amount, Pair(from, to) in s.blocked)
  {
    if amount > 0 {
      TransferExactly(s.balances, from, to, amount);
    }
  }

  /** In every run a submission moves the funds at once exactly when it is positive, below the high-value limit, not blocked
      by the sender, and covered; at or above the limit it is queued exactly when signers have been set. */
  lemma SubmitExactly(admin: Address, events: seq<Event>, now: U64, from: Address, to: Address, amount: I128)
    ensures Submits(Run(Deployed(admin), events), now, from, to, amount, BlockedAfter(events, from, to))
  {
    SignersRun(admin, events);
    BlockedRun(admin, events, from, to);
    SubmitLaw(Run(Deployed(admin), events), now, from, to, amount);
  }

  // ----- queued and timelocked transfers stay what was asked for -----

  /** The step queues pending transfer id as it stands in tx, above the limit in force and not blocked. */
  predicate Queues(s: State, e: Event, id: U64, tx: PendingTx) {
    && e.op == Submit(tx.from, tx.to, tx.amount) && e.now == tx.createdAt && Step(s, e).1 == Ok(Queued(id))
    && tx.amount >= s.highValue && Pair(tx.from, tx.to) !in s.blocked
  }

  /** Over every run each pending or executed transfer still has the parties and the amount of a submission that queued
      it. */
  lemma {:induction false} QueuedAsSubmitted(admin: Address, events: seq<Event>, id: U64)
    requires id in Run(Deployed(admin), events).pending
    ensures var s := Deployed(admin);
      exists i :: 0 <= i < |events| && Queues(Run(s, events[..i]), events[i], id, Run(s, events).pending[id])
  {
    var s, init, e := Deployed(admin), events[..|events| - 1], events[|events| - 1];
    CountedRun(admin, init);
    if id in Run(s, init).pending {
      QueuedAsSubmitted(admin, init, id);
      PendingKept(Run(s, init), e, id);
      var i :| 0 <= i < |init| && Queues(Run(s, init[..i]), init[i], id, Run(s, init).pending[id]);
      assert init[..i] == events[..i];
    } else {
      PendingAppears(Run(s, init), e, id);
    }
  }

  lemma PendingKept(s: State, e: Event, id: U64)
    requires Counted(s) && id in s.pending
    ensures id in Step(s, e).0.pending
    ensures Step(s, e).0.pending[id].(executed := false) == s.pending[id].(executed := false)
  {
    if !e.op.Submit? && !e.op.Approve? {
      OthersKeepApprovals(s, e);
    }
  }

  lemma PendingAppears(s: State, e: Event, id: U64)
    requires id !in s.pending && id in Step(s, e).0.pending
    ensures Queues(s, e, id, Step(s, e).0.pending[id])
  {
    if !e.op.Submit? && !e.op.Approve? {
      OthersKeepApprovals(s, e);
    }
  }

  predicate Locks(s: State, e: Event, id: U64, lock: Timelock) {
    && e.op == Schedule(lock.from, lock.to, lock.amount, lock.executeAt) && e.now == lock.createdAt
    && Step(s, e).1 == Ok(Scheduled(id))
  }

  ghost predicate LocksNumbered(s: State) {
    forall id <- s.locks.Keys :: id <= s.nextLockId
  }

  /** Over every run each timelock still has the parties, amount and time of a call that scheduled it. */
  lemma {:induction false} LockedAsScheduled(admin: Address, events: seq<Event>, id: U64)
    ensures var s := Deployed(admin);
      && LocksNumbered(Run(s, events))
      && (id in Run(s, events).locks ==>
            exists i :: 0 <= i < |events| && Locks(Run(s, events[..i]), events[i], id, Run(s, events).locks[id]))
  {
    if events != [] {
      var s, init, e := Deployed(admin), events[..|events| - 1], events[|events| - 1];
      LockedAsScheduled(admin, init, id);
      LockStep(Run(s, init), e, id);
      if id in Run(s, init).locks {
        var i :| 0 <= i < |init| && Locks(Run(s, init[..i]), init[i], id, Run(s, init).locks[id]);
        assert init[..i] == events[..i];
        assert Locks(Run(s, events[..i]), events[i], id, Run(s, events).locks[id]);
      } else if id in Run(s, events).locks {
        assert events[..|init|] == init;
        assert Locks(Run(s, events[..|init|]), events[|init|], id, Run(s, events).locks[id]);
      }
    }
  }

  lemma LockStep(s: State, e: Event, id: U64)
    requires LocksNumbered(s)
    ensures var s' := Step(s, e).0;
      && LocksNumbered(s')
      && (id in s.locks ==>
            && id in s'.locks
            && s'.locks[id].(executedAt := None, canceledAt := None) == s.locks[id].(executedAt := None, canceledAt := None))
      && (id !in s.locks && id in s'.locks ==> Locks(s, e, id, s'.locks[id]))
  {
    match e.op
    case Schedule(_, _, _, _) =>
    case ExecuteLock(_, _) =>
    case CancelLock(_, _) =>
    case Submit(_, _, _) => assert Step(s, e).0.locks == s.locks;
    case Approve(_, _) => assert Step(s, e).0.locks == s.locks;
    case _ => assert Step(s, e).0.locks == s.locks;
  }

  /** In every run a transfer is scheduled exactly when positive, for a later time, and not blocked by its sender, while ids
      last. */
  lemma SchedulesExactly(admin: Address, events: seq<Event>, now: U64, from: Address, to: Address, amount: I128, at: U64)
    ensures var s := Run(Deployed(admin), events);
      var (after, r) := Step(s, Event(now, Schedule(from, to, amount, at)));
      && (r.Ok? <==> amount > 0 && at > now && !BlockedAfter(events, from, to) && s.nextLockId < U64_MAX)
      && (r.Ok? ==>
            && r.value == Scheduled(s.nextLockId + 1) && after.nextLockId == s.nextLockId + 1
            && after.locks == s.locks[s.nextLockId + 1 := Timelock(from, to, amount, at, now, None, None)]
            && after.balances == s.balances)
      && (r.Abort? ==>
            && after == s
            && r.error == if BlockedAfter(events, from, to) then BlacklistedDestination
                          else if amount <= 0 then InvalidAmount else InvalidScheduleTime)
  {
    BlockedRun(admin, events, from, to);
  }

  predicate IsOpen(s: State, id: U64) {
    id in s.locks && s.locks[id].executedAt.None? && s.locks[id].canceledAt.None?
  }

  /** A timelocked transfer executes exactly from its time on, by sender or admin, while open and covered, and moves the funds;
      neither another execution nor a cancellation can follow. */
  lemma LockExecutesExactly(s: State, now: U64, caller: Address, id: U64, other: Address, later: U64)
    requires LocksRespected(s)
    ensures var (after, r) := Step(s, Event(now, ExecuteLock(caller, id)));
      && (r.Ok? <==>
            && IsOpen(s, id) && now >= s.locks[id].executeAt && caller in {s.locks[id].from, s.admin}
            && Covered(s.balances, s.locks[id].from, s.locks[id].to, s.locks[id].amount))
      && (r.Ok? ==>
            && r.value == Executed && after.locks == s.locks[id := s.locks[id].(executedAt := Some(now))]
            && MovesFunds(s.balances, after.balances, s.locks[id].from, s.locks[id].to, s.locks[id].amount)
            && Step(after, Event(later, ExecuteLock(other, id))).1 == Abort(AlreadyExecuted)
            && Step(after, Event(later, CancelLock(other, id))).1 == Abort(AlreadyExecuted))
      && (r.Abort? ==>
            && after == s
            && r.error == if id !in s.locks then TimelockNotFound
                          else if s.locks[id].executedAt.Some? then AlreadyExecuted
                          else if s.locks[id].canceledAt.Some? then AlreadyCanceled
                          else if now < s.locks[id].executeAt then EarlyExecution
                          else if caller !in {s.locks[id].from, s.admin} then Unauthorized
                          else if s.locks[id].amount > Get(s.balances, s.locks[id].from) then InsufficientBalance
                          else Overflow)
  {
    if id in s.locks {
      TransferExactly(s.balances, s.locks[id].from, s.locks[id].to, s.locks[id].amount);
    }
  }

  /** It is cancelled exactly by the same parties while open, at any time, and moves nothing; nothing can follow either. */
  lemma LockCancelsExactly(s: State, now: U64, caller: Address, id: U64, other: Address, later: U64)
    ensures var (after, r) := Step(s, Event(now, CancelLock(caller, id)));
      && (r.Ok? <==> IsOpen(s, id) && caller in {s.locks[id].from, s.admin})
      && (r.Ok? ==>
            && after == s.(locks := s.locks[id := s.locks[id].(canceledAt := Some(now))])
            && Step(after, Event(later, ExecuteLock(other, id))).1 == Abort(AlreadyCanceled)
            && Step(after, Event(later, CancelLock(other, id))).1 == Abort(AlreadyCanceled))
      && (r.Abort? ==>
            && after == s
            && r.error == if id !in s.locks then TimelockNotFound
                          else if s.locks[id].executedAt.Some? then AlreadyExecuted
                          else if s.locks[id].canceledAt.Some? then AlreadyCanceled else Unauthorized)
  {
  }

  // ----- the contract -----

  /** The nested index loops of the signer validation. */
  method ValidateSignerConfig(signers: seq<Address>, threshold: U32) returns (fault: Option<Error>)
    ensures fault == SignerFault(signers, threshold)
  {
    if |signers| == 0 || threshold == 0 || threshold > |signers| {
      return Some(InvalidThreshold);
    }
    for i := 0 to |signers|
      invariant forall k, j :: 0 <= k < i && k < j < |signers| ==> signers[k] != signers[j]
    {
      for j := i + 1 to |signers|
        invariant forall k :: i < k < j ==> signers[i] != signers[k]
      {
        if signers[i] == signers[j] {
          return Some(DuplicateSigner);
        }
      }
    }
    return None;
  }

  class TransactionsContract {
    var admin: Address
    var signers: seq<Address>
    var threshold: U32
    var highValue: I128
    var nextTxId: U64
    var pending: map<U64, PendingTx>
    var approvals: set<Approval>
    var approvalCount: map<U64, U32>
    var balances: map<Address, I128>
    var blocked: set<Pair>
    var nextLockId: U64
    var locks: map<U64, Timelock>

    ghost function View(): State
      reads this
    {
      State(admin, signers, threshold, highValue, nextTxId, pending, approvals, approvalCount, balances, blocked,
            nextLockId, locks)
    }

    constructor (admin: Address)
      ensures View() == Deployed(admin)
    {
      this.admin, signers, threshold, highValue := admin, [], 0, I128_MAX;
      nextTxId, pending, approvals, approvalCount := 0, map[], {}, map[];
      balances, blocked, nextLockId, locks := map[], {}, 0, map[];
    }

    method SetSignersOf(caller: Address, newSigners: seq<Address>, newThreshold: U32, now: U64)
      returns (r: Result<Reply, Error>)
      modifies this`signers, this`threshold
      ensures (View(), r) == Step(old(View()), Event(now, SetSigners(caller, newSigners, newThreshold)))
    {
      if caller != admin {
        return Abort(Unauthorized);
      }
      var fault := ValidateSignerConfig(newSigners, newThreshold);
      if fault.Some? {
        return Abort(fault.value);
      }
      signers, threshold := newSigners, newThreshold;
      return Ok(Done);
    }

    method SetBalanceOf(caller: Address, user: Address, amount: I128, now: U64) returns (r: Result<Reply, Error>)
      modifies this`balances
      ensures (View(), r) == Step(old(View()), Event(now, SetBalance(caller, user, amount)))
    {
      if caller != admin {
        return Abort(Unauthorized);
      }
      if amount < 0 {
        return Abort(InvalidAmount);
      }
      balances := balances[user := amount];
      return Ok(Done);
    }

    method SetHighValueThreshold(caller: Address, amount: I128, now: U64) returns (r: Result<Reply, Error>)
      modifies this`highValue
      ensures (View(), r) == Step(old(View()), Event(now, SetHighValue(caller, amount)))
    {
      if caller != admin {
        return Abort(Unauthorized);
      }
      if amount < 0 {
        return Abort(InvalidAmount);
      }
      highValue := amount;
      return Ok(Done);
    }

    method BlockDestination(caller: Address, destination: Address, now: U64) returns (r: Result<Reply, Error>)
      modifies this`blocked
      ensures (View(), r) == Step(old(View()), Event(now, Block(caller, destination)))
    {
      blocked := blocked + {Pair(caller, destination)};
      return Ok(Done);
    }

    method UnblockDestination(caller: Address, destination: Address, now: U64) returns (r: Result<Reply, Error>)
      modifies this`blocked
      ensures (View(), r) == Step(old(View()), Event(now, Unblock(caller, destination)))
    {
      blocked := blocked - {Pair(caller, destination)};
      return Ok(Done);
    }

    method IsSigner(a: Address) returns (found: bool)
      ensures found <==> a in signers
    {
      for i := 0 to |signers|
        invariant a !in signers[..i]
      {
        if signers[i] == a {
          return true;
        }
      }
      return false;
    }

    /** Debit and credit from balances read beforehand; reports the failing check instead of trapping. */
    method ExecuteTransfer(from: Address, to: Address, amount: I128) returns (fault: Option<Error>)
      modifies this`balances
      ensures fault == TransferFault(old(balances), from, to, amount)
      ensures balances == if fault.None? then Transferred(old(balances), from, to, amount) else old(balances)
    {
      var fromBalance := Get(balances, from);
      if fromBalance < amount {
        return Some(InsufficientBalance);
      }
      var toBalance := Get(balances, to);
      if !FitsI128(fromBalance - amount) || !FitsI128(toBalance + amount) {
        return Some(Overflow);
      }
      balances := balances[from := fromBalance - amount];
      balances := balances[to := toBalance + amount];
      return None;
    }

    method SubmitTransaction(from: Address, to: Address, amount: I128, now: U64) returns (r: Result<Reply, Error>)
      modifies this
      ensures (View(), r) == Step(old(View()), Event(now, Submit(from, to, amount)))
    {
      if Pair(from, to) in blocked {
        return Abort(BlacklistedDestination);
      }
      if amount <= 0 {
        return Abort(InvalidAmount);
      }
      if amount < highValue {
        var fault := ExecuteTransfer(from, to, amount);
        if fault.Some? {
          return Abort(fault.value);
        }
        return Ok(Executed);
      }
      if |signers| == 0 || threshold == 0 || threshold > |signers| {
        return Abort(MultisigNotConfigured);
      }
      if nextTxId == U64_MAX {
        return Abort(Overflow);
      }
      nextTxId := nextTxId + 1;
      pending := pending[nextTxId := PendingTx(from, to, amount, now, false)];
      approvalCount := approvalCount[nextTxId := 0];
      return Ok(Queued(nextTxId));
    }

    method ApproveTransaction(id: U64, signer: Address, now: U64) returns (r: Result<Reply, Error>)
      modifies this
      ensures (View(), r) == Step(old(View()), Event(now, Approve(id, signer)))
    {
      var known := IsSigner(signer);
      if !known {
        return Abort(UnauthorizedSigner);
      }
      if id !in pending {
        return Abort(PendingTxNotFound);
      }
      var tx := pending[id];
      if tx.executed {
        return Abort(AlreadyExecuted);
      }
      if Approval(id, signer) in approvals {
        return Abort(DuplicateApproval);
      }
      var count := if id in approvalCount then approvalCount[id] else 0;
      if count == U32_MAX {
        return Abort(Overflow);
      }
      if count + 1 >= threshold {
        var fault := ExecuteTransfer(tx.from, tx.to, tx.amount);
        if fault.Some? {
          return Abort(fault.value);
        }
        pending := pending[id := tx.(executed := true)];
        r := Ok(Executed);
      } else {
        r := Ok(Done);
      }
      approvals := approvals + {Approval(id, signer)};
      approvalCount := approvalCount[id := count + 1];
    }

    method ScheduleTimelocked(from: Address, to: Address, amount: I128, at: U64, now: U64) returns (r: Result<Reply, Error>)
      modifies this`nextLockId, this`locks
      ensures (View(), r) == Step(old(View()), Event(now, Schedule(from, to, amount, at)))
    {
      if Pair(from, to) in blocked {
        return Abort(BlacklistedDestination);
      }
      if amount <= 0 {
        return Abort(InvalidAmount);
      }
      if at <= now {
        return Abort(InvalidScheduleTime);
      }
      if nextLockId == U64_MAX {
        return Abort(InvalidScheduleTime);
      }
      nextLockId := nextLockId + 1;
      locks := locks[nextLockId := Timelock(from, to, amount, at, now, None, None)];
      return Ok(Scheduled(nextLockId));
    }

    method ExecuteTimelocked(caller: Address, id: U64, now: U64) returns (r: Result<Reply, Error>)
      modifies this`balances, this`locks
      ensures (View(), r) == Step(old(View()), Event(now, ExecuteLock(caller, id)))
    {
      if id !in locks {
        return Abort(TimelockNotFound);
      }
      var tx := locks[id];
      if tx.executedAt.Some? {
        return Abort(AlreadyExecuted);
      }
      if tx.canceledAt.Some? {
        return Abort(AlreadyCanceled);
      }
      if now < tx.executeAt {
        return Abort(EarlyExecution);
      }
      if caller != tx.from && caller != admin {
        return Abort(Unauthorized);
      }
      var fault := ExecuteTransfer(tx.from, tx.to, tx.amount);
      if fault.Some? {
        return Abort(fault.value);
      }
      locks := locks[id := tx.(executedAt := Some(now))];
      return Ok(Executed);
    }

    method CancelTimelocked(caller: Address, id: U64, now: U64) returns (r: Result<Reply, Error>)
      modifies this`locks
      ensures (View(), r) == Step(old(View()), Event(now, CancelLock(caller, id)))
    {
      if id !in locks {
        return Abort(TimelockNotFound);
      }
      var tx := locks[id];
      if tx.executedAt.Some? {
        return Abort(AlreadyExecuted);
      }
      if tx.canceledAt.Some? {
        return Abort(AlreadyCanceled);
      }
      if caller != tx.from && caller != admin {
        return Abort(Unauthorized);
      }
      locks := locks[id := tx.(canceledAt := Some(now))];
      return Ok(Done);
    }
  }
}
