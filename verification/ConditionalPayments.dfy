/** Escrowed payments that execute once all their conditions hold. */
module ConditionalPayments {
  import opened Base
  import opened MapSums
  import opened Tokens

  const MAX_CONDITIONS := 8
  const MAX_SIGNERS := 10

  datatype Condition =
    | TimeAfter(time: U64)
    | TimeBefore(time: U64)
    | BalanceAbove(token: Address, watched: Address, threshold: I128)
    | BalanceBelow(token: Address, watched: Address, threshold: I128)
    | MultiSigApproved(signers: seq<Address>, required: U32)

  datatype Status = Pending | Executed | Cancelled

  datatype Payment = Payment(
    payer: Address,
    recipient: Address,
    token: Address,
    amount: I128,
    conditions: seq<Condition>,
    status: Status,
    createdAt: U64,
    settledAt: U64)

  datatype Error =
    | Unauthorized | InvalidAmount | PaymentNotFound | PaymentNotPending | ConditionNotMet | NotASigner | AlreadyApproved
    | TooManyConditions | TooManySigners | InvalidThreshold | SamePayerRecipient | Overflow | InvalidCondition
    | TransferFailed

  datatype State = State(
    self: Address,
    nextId: U64,
    payments: map<U64, Payment>,
    stamps: set<(U64, Address)>,
    balances: Balances)

  datatype Reply = Created(id: U64) | Paid(amount: I128) | Done

  datatype Op =
    | Create(payer: Address, recipient: Address, token: Address, amount: I128, conditions: seq<Condition>)
    | Approve(signer: Address, id: U64)
    | Execute(id: U64)
    | Cancel(caller: Address, id: U64)
    | Elsewhere(token: Address, from: Address, to: Address, units: nat) // a transfer this contract has no part in

  datatype Event = Event(now: U64, op: Op)

  // ----- conditions -----

  function ConditionFault(c: Condition): Option<Error> {
    match c
    case TimeAfter(t) => if t == 0 then Some(InvalidCondition) else None
    case TimeBefore(t) => if t == 0 then Some(InvalidCondition) else None
    case BalanceAbove(_, _, threshold) => if threshold <= 0 then Some(InvalidCondition) else None
    case BalanceBelow(_, _, threshold) => if threshold <= 0 then Some(InvalidCondition) else None
    case MultiSigApproved(signers, required) =>
      if |signers| == 0 || |signers| > MAX_SIGNERS then Some(TooManySigners)
      else if required == 0 || required > |signers| then Some(InvalidThreshold)
      else None
  }

  /** The fault of the first condition that has one. */
  function FirstFault(cs: seq<Condition>): Option<Error> {
    if cs == [] then None
    else if ConditionFault(cs[0]).Some? then ConditionFault(cs[0])
    else FirstFault(cs[1..])
  }

  /** How many entries of the list carry a stamp for the payment. */
  function ApprovalCount(stamps: set<(U64, Address)>, id: U64, signers: seq<Address>): nat {
    if signers == [] then 0
    else ApprovalCount(stamps, id, signers[..|signers| - 1]) + if (id, signers[|signers| - 1]) in stamps then 1 else 0
  }

  predicate Holds(s: State, now: U64, id: U64, c: Condition) {
    match c
    case TimeAfter(t) => now >= t
    case TimeBefore(t) => now < t
    case BalanceAbove(token, a, threshold) => BalanceOf(s.balances, token, a) >= threshold
    case BalanceBelow(token, a, threshold) => BalanceOf(s.balances, token, a) < threshold
    case MultiSigApproved(signers, required) => signers != [] && ApprovalCount(s.stamps, id, signers) >= required
  }

  predicate AllHold(s: State, now: U64, id: U64, cs: seq<Condition>) {
    forall c <- cs :: Holds(s, now, id, c)
  }

  predicate IsSigner(cs: seq<Condition>, a: Address) {
    exists c <- cs :: c.MultiSigApproved? && a in c.signers
  }

  // ----- steps -----

  function CreateStep(s: State, now: U64, payer: Address, recipient: Address, token: Address, amount: I128,
                      cs: seq<Condition>): (State, Result<Reply, Error>)
  {
    if amount <= 0 then (s, Abort(InvalidAmount))
    else if payer == recipient then (s, Abort(SamePayerRecipient))
    else if cs == [] || |cs| > MAX_CONDITIONS then (s, Abort(TooManyConditions))
    else if FirstFault(cs).Some? then (s, Abort(FirstFault(cs).value))
    else if s.nextId == U64_MAX then (s, Abort(Overflow))
    else if !CanMove(s.balances, token, payer, amount) then (s, Abort(TransferFailed))
    else
      (s.(nextId := s.nextId + 1,
          payments := s.payments[s.nextId := Payment(payer, recipient, token, amount, cs, Pending, now, 0)],
          balances := Moved(s.balances, token, payer, s.self, amount)),
       Ok(Created(s.nextId)))
  }

  function ApproveStep(s: State, signer: Address, id: U64): (State, Result<Reply, Error>) {
    if id !in s.payments then (s, Abort(PaymentNotFound))
    else if s.payments[id].status != Pending then (s, Abort(PaymentNotPending))
    else if !IsSigner(s.payments[id].conditions, signer) then (s, Abort(NotASigner))
    else if (id, signer) in s.stamps then (s, Abort(AlreadyApproved))
    else (s.(stamps := s.stamps + {(id, signer)}), Ok(Done))
  }

  /** Settle a pending payment: mark it, then move the escrowed amount out. */
  function Settle(s: State, now: U64, id: U64, status: Status, to: Address, reply: Reply): (State, Result<Reply, Error>)
    requires id in s.payments
  {
    var p := s.payments[id];
    if p.amount < 0 || !CanMove(s.balances, p.token, s.self, p.amount) then (s, Abort(TransferFailed))
    else
      (s.(payments := s.payments[id := p.(status := status, settledAt := now)],
          balances := Moved(s.balances, p.token, s.self, to, p.amount)),
       Ok(reply))
  }

  function ExecuteStep(s: State, now: U64, id: U64): (State, Result<Reply, Error>) {
    if id !in s.payments then (s, Abort(PaymentNotFound))
    else
      var p := s.payments[id];
      if p.status != Pending then (s, Abort(PaymentNotPending))
      else if !AllHold(s, now, id, p.conditions) then (s, Abort(ConditionNotMet))
      else Settle(s, now, id, Executed, p.recipient, Paid(p.amount))
  }

  function CancelStep(s: State, now: U64, caller: Address, id: U64): (State, Result<Reply, Error>) {
    if id !in s.payments then (s, Abort(PaymentNotFound))
    else
      var p := s.payments[id];
      if caller != p.payer then (s, Abort(Unauthorized))
      else if p.status != Pending then (s, Abort(PaymentNotPending))
      else Settle(s, now, id, Cancelled, p.payer, Done)
  }

  function Step(s: State, e: Event): (State, Result<Reply, Error>) {
    match e.op
    case Create(payer, recipient, token, amount, cs) => CreateStep(s, e.now, payer, recipient, token, amount, cs)
    case Approve(signer, id) => ApproveStep(s, signer, id)
    case Execute(id) => ExecuteStep(s, e.now, id)
    case Cancel(caller, id) => CancelStep(s, e.now, caller, id)
    case Elsewhere(token, from, to, amount) =>
      if CanMove(s.balances, token, from, amount) then (s.(balances := Moved(s.balances, token, from, to, amount)), Ok(Done))
      else (s, Abort(TransferFailed))
  }

  function Run(s: State, events: seq<Event>): State {
    if events == [] then s else Step(Run(s, events[..|events| - 1]), events[|events| - 1]).0
  }

  // ----- solvency -----

  /** The contract's own address signs no call: it neither funds a payment nor moves tokens outside settlement. */
  predicate Authorized(self: Address, e: Event) {
    && (e.op.Create? ==> e.op.payer != self)
    && (e.op.Elsewhere? ==> e.op.from != self)
  }

  ghost predicate AuthorizedRun(self: Address, events: seq<Event>) {
    forall i :: 0 <= i < |events| ==> Authorized(self, events[i])
  }

  function LockedBy(p: Payment, token: Address): int {
    if p.status == Pending && p.token == token then p.amount else 0
  }

  /** What each payment still holds of a token. */
  function Locked(payments: map<U64, Payment>, token: Address): map<U64, int> {
    map id | id in payments :: LockedBy(payments[id], token)
  }

  ghost predicate Covers(s: State, token: Address) {
    BalanceOf(s.balances, token, s.self) >= Sum(Locked(s.payments, token))
  }

  ghost predicate Solvent(s: State) {
    && (forall token :: Covers(s, token))
    && (forall id <- s.payments.Keys :: id < s.nextId && s.payments[id].amount > 0 && s.payments[id].payer != s.self)
  }

  lemma LockedUpdate(payments: map<U64, Payment>, id: U64, p: Payment, token: Address)
    ensures Sum(Locked(payments[id := p], token)) ==
            Sum(Locked(payments, token)) - (if id in payments then LockedBy(payments[id], token) else 0) + LockedBy(p, token)
  {
    assert Locked(payments[id := p], token) == Locked(payments, token)[id := LockedBy(p, token)];
    SumUpdate(Locked(payments, token), id, LockedBy(p, token));
  }

  lemma PendingIsCovered(s: State, id: U64)
    requires Solvent(s) && id in s.payments && s.payments[id].status == Pending
    ensures CanMove(s.balances, s.payments[id].token, s.self, s.payments[id].amount)
  {
    var token := s.payments[id].token;
    assert Covers(s, token);
    SumNonNegative(Locked(s.payments, token));
    assert Locked(s.payments, token)[id] == s.payments[id].amount;
  }

  lemma SolventBySettle(s: State, now: U64, id: U64, status: Status, to: Address, reply: Reply)
    requires Solvent(s) && id in s.payments && s.payments[id].status == Pending && status != Pending
    ensures Settle(s, now, id, status, to, reply).1 == Ok(reply)
    ensures Solvent(Settle(s, now, id, status, to, reply).0)
  {
    PendingIsCovered(s, id);
    var p, s' := s.payments[id], Settle(s, now, id, status, to, reply).0;
    forall token
      ensures Covers(s', token)
    {
      assert Covers(s, token);
      LockedUpdate(s.payments, id, p.(status := status, settledAt := now), token);
    }
  }

  lemma SolventByCreate(s: State, e: Event)
    requires Solvent(s) && Authorized(s.self, e) && e.op.Create?
    ensures Solvent(Step(s, e).0)
  {
    var s' := Step(s, e).0;
    if s' != s {
      forall token
        ensures Covers(s', token)
      {
        assert Covers(s, token);
        LockedUpdate(s.payments, s.nextId, s'.payments[s.nextId], token);
      }
    }
  }

  lemma SolventByElsewhere(s: State, e: Event)
    requires Solvent(s) && Authorized(s.self, e) && e.op.Elsewhere?
    ensures Solvent(Step(s, e).0)
  {
    forall token
      ensures Covers(Step(s, e).0, token)
    {
      assert Covers(s, token);
    }
  }

  lemma SolventStep(s: State, e: Event)
    requires Solvent(s) && Authorized(s.self, e)
    ensures Solvent(Step(s, e).0)
  {
    match e.op
    case Create(_, _, _, _, _) => SolventByCreate(s, e);
    case Approve(_, _) =>
      forall token
        ensures Covers(Step(s, e).0, token)
      {
        assert Covers(s, token);
      }
    case Execute(id) =>
      if Step(s, e).0 != s {
        SolventBySettle(s, e.now, id, Executed, s.payments[id].recipient, Paid(s.payments[id].amount));
      }
    case Cancel(_, id) =>
      if Step(s, e).0 != s {
        SolventBySettle(s, e.now, id, Cancelled, s.payments[id].payer, Done);
      }
    case Elsewhere(_, _, _, _) => SolventByElsewhere(s, e);
  }

  function Deployed(self: Address, balances: Balances): State {
    State(self, 0, map[], {}, balances)
  }

  predicate NoDebts(balances: Balances) {
    forall a <- balances.Keys :: balances[a] >= 0
  }

  /** Over every run, each token balance of the contract covers all pending payments in that token. */
  lemma {:induction false} SolventRun(self: Address, balances: Balances, events: seq<Event>)
    requires NoDebts(balances) && AuthorizedRun(self, events)
    ensures Solvent(Run(Deployed(self, balances), events)) && Run(Deployed(self, balances), events).self == self
  {
    var s := Deployed(self, balances);
    if events == [] {
      forall token
        ensures Covers(s, token)
      {
        assert Locked(s.payments, token) == map[];
      }
    } else {
      var init := events[..|events| - 1];
      SolventRun(self, balances, init);
      SolventStep(Run(s, init), events[|events| - 1]);
    }
  }

  /** Execution succeeds exactly when the payment is pending and every condition holds, and a payer's cancellation
      exactly when it is pending: the outbound transfer is never what fails. */
  lemma SettlementExact(self: Address, balances: Balances, events: seq<Event>, now: U64, id: U64, caller: Address)
    requires NoDebts(balances) && AuthorizedRun(self, events)
    ensures var s := Run(Deployed(self, balances), events);
      && (Step(s, Event(now, Execute(id))).1.Ok? <==>
            id in s.payments && s.payments[id].status == Pending && AllHold(s, now, id, s.payments[id].conditions))
      && (Step(s, Event(now, Cancel(caller, id))).1.Ok? <==>
            id in s.payments && s.payments[id].status == Pending && caller == s.payments[id].payer)
  {
    SolventRun(self, balances, events);
    var s := Run(Deployed(self, balances), events);
    if id in s.payments && s.payments[id].status == Pending {
      PendingIsCovered(s, id);
    }
  }

  // ----- each payment settles at most once -----

  datatype Outflow = Outflow(id: U64, token: Address, to: Address, amount: I128)

  /** The outbound transfer a step makes, if any. */
  function StepOutflow(s: State, e: Event): seq<Outflow> {
    if Step(s, e).1.Abort? then []
    else
      match e.op
      case Execute(id) =>
        if id in s.payments then [Outflow(id, s.payments[id].token, s.payments[id].recipient, s.payments[id].amount)] else []
      case Cancel(caller, id) =>
        if id in s.payments then [Outflow(id, s.payments[id].token, caller, s.payments[id].amount)] else []
      case _ => []
  }

  /** All outbound transfers of one payment, in order. */
  function OutflowsOf(s: State, events: seq<Event>, id: U64): seq<Outflow> {
    if events == [] then []
    else
      var init := events[..|events| - 1];
      var o := StepOutflow(Run(s, init), events[|events| - 1]);
      OutflowsOf(s, init, id) + if o != [] && o[0].id == id then o else []
  }

  function ExpectedOutflows(s: State, id: U64): seq<Outflow> {
    if id !in s.payments then []
    else
      var p := s.payments[id];
      match p.status
      case Pending => []
      case Executed => [Outflow(id, p.token, p.recipient, p.amount)]
      case Cancelled => [Outflow(id, p.token, p.payer, p.amount)]
  }

  /** Over every run the transfers made for a payment are none while it is pending, and afterwards exactly one of the
      recorded amount: to the recipient if it executed, back to the payer if it was cancelled. */
  lemma {:induction false} PaidOutOnce(self: Address, balances: Balances, events: seq<Event>, id: U64)
    requires NoDebts(balances) && AuthorizedRun(self, events)
    ensures var s := Deployed(self, balances);
      OutflowsOf(s, events, id) == ExpectedOutflows(Run(s, events), id)
  {
    if events != [] {
      var s, init, e := Deployed(self, balances), events[..|events| - 1], events[|events| - 1];
      PaidOutOnce(self, balances, init, id);
      SolventRun(self, balances, init);
      OutflowStep(Run(s, init), e, id);
    }
  }

  lemma OutflowStep(s: State, e: Event, id: U64)
    requires Solvent(s)
    ensures var o := StepOutflow(s, e);
      ExpectedOutflows(Step(s, e).0, id) == ExpectedOutflows(s, id) + if o != [] && o[0].id == id then o else []
  {
  }

  /** An outbound transfer is what happens to the balances: the contract pays exactly that, and nobody else is touched. A
      creation moves the amount from the payer to the contract; an approval moves nothing. */
  lemma OutflowIsTransfer(s: State, e: Event)
    requires Solvent(s) && Authorized(s.self, e) && Step(s, e).1.Ok?
    ensures var o, s' := StepOutflow(s, e), Step(s, e).0;
      match e.op
      case Create(payer, _, token, amount, _) => o == [] && PaidTo(s.balances, s'.balances, token, payer, s.self, amount)
      case Approve(_, _) => o == [] && s'.balances == s.balances
      case Execute(id) =>
        && |o| == 1 && o[0].id == id && Step(s, e).1.value == Paid(o[0].amount)
        && PaidTo(s.balances, s'.balances, o[0].token, s.self, o[0].to, o[0].amount)
      case Cancel(_, id) =>
        |o| == 1 && o[0].id == id && PaidTo(s.balances, s'.balances, o[0].token, s.self, o[0].to, o[0].amount)
      case Elsewhere(token, from, to, units) => o == [] && PaidTo(s.balances, s'.balances, token, from, to, units)
  {
    match e.op
    case Create(payer, _, token, amount, _) => MovedExactly(s.balances, token, payer, s.self, amount);
    case Approve(_, _) =>
    case Execute(id) =>
      MovedExactly(s.balances, s.payments[id].token, s.self, s.payments[id].recipient, s.payments[id].amount);
    case Cancel(_, id) =>
      MovedExactly(s.balances, s.payments[id].token, s.self, s.payments[id].payer, s.payments[id].amount);
    case Elsewhere(token, from, to, units) => MovedExactly(s.balances, token, from, to, units);
  }

  /** Later steps change nothing in a payment's record but its status and settlement time, and those only while pending. */
  lemma RecordStep(s: State, e: Event, id: U64)
    requires Solvent(s) && id in s.payments
    ensures id in Step(s, e).0.payments
    ensures var p, q := s.payments[id], Step(s, e).0.payments[id];
      q.(status := p.status, settledAt := p.settledAt) == p && (p.status != Pending ==> q == p)
  {
  }

  // ----- approvals -----

  ghost function Approvers(stamps: set<(U64, Address)>, id: U64, signers: seq<Address>): set<Address> {
    set a | a in signers && (id, a) in stamps
  }

  /** No signer who approved is listed twice. */
  ghost predicate ApproversListedOnce(stamps: set<(U64, Address)>, id: U64, signers: seq<Address>) {
    forall i, j :: 0 <= i < j < |signers| && (id, signers[i]) in stamps ==> signers[i] != signers[j]
  }

  /** The count is over list entries, so it is the number of distinct approving signers exactly when no approving signer
      is listed twice; otherwise it is larger. */
  lemma {:induction false} ApprovalCountExact(stamps: set<(U64, Address)>, id: U64, signers: seq<Address>)
    ensures ApprovalCount(stamps, id, signers) >= |Approvers(stamps, id, signers)|
    ensures ApprovalCount(stamps, id, signers) == |Approvers(stamps, id, signers)| <==>
            ApproversListedOnce(stamps, id, signers)
  {
    if signers == [] {
      assert Approvers(stamps, id, signers) == {};
    } else {
      var init, last := signers[..|signers| - 1], signers[|signers| - 1];
      ApprovalCountExact(stamps, id, init);
      ApproversOfLast(stamps, id, signers);
      ListedOnceSplit(stamps, id, signers);
    }
  }

  lemma ApproversOfLast(stamps: set<(U64, Address)>, id: U64, signers: seq<Address>)
    requires signers != []
    ensures var init, last := signers[..|signers| - 1], signers[|signers| - 1];
      Approvers(stamps, id, signers) == Approvers(stamps, id, init) + if (id, last) in stamps then {last} else {}
  {
    assert signers == signers[..|signers| - 1] + [signers[|signers| - 1]];
  }

  lemma ListedOnceSplit(stamps: set<(U64, Address)>, id: U64, signers: seq<Address>)
    requires signers != []
    ensures var init, last := signers[..|signers| - 1], signers[|signers| - 1];
      ApproversListedOnce(stamps, id, signers) <==>
        ApproversListedOnce(stamps, id, init) && last !in Approvers(stamps, id, init)
  {
    var init, last := signers[..|signers| - 1], signers[|signers| - 1];
    if last in Approvers(stamps, id, init) {
      var i :| 0 <= i < |init| && init[i] == last;
      assert signers[i] == signers[|signers| - 1] && (id, signers[i]) in stamps;
    }
    if ApproversListedOnce(stamps, id, signers) {
      assert forall i :: 0 <= i < |init| ==> init[i] == signers[i];
    }
  }

  /** The stamps these approvers have left on one payment. */
  function StampsOf(id: U64, approvers: set<Address>): set<(U64, Address)> {
    set a <- approvers :: (id, a)
  }

  ghost predicate EnoughDistinct(signers: seq<Address>, required: U32, id: U64, stamps: set<(U64, Address)>) {
    ApprovalCount(stamps, id, signers) >= required ==> |Approvers(stamps, id, signers)| >= required
  }

  lemma {:induction false} SubsetOfSize(all: set<Address>, a: Address, k: nat) returns (part: set<Address>)
    requires a in all && 1 <= k <= |all|
    ensures a in part && part <= all && |part| == k
  {
    if k == |all| {
      part := all;
    } else {
      var others := all - {a};
      assert |others| == |all| - 1;
      var x :| x in others;
      part := SubsetOfSize(all - {x}, a, k);
    }
  }

  /** Whichever signers approve, a required number reached by the count is reached by distinct approvers too, exactly when it
      is one or no signer is listed twice: otherwise a repeated signer and required - 2 others suffice. */
  lemma EnoughDistinctExactly(signers: seq<Address>, required: U32, id: U64)
    requires WellFormed(MultiSigApproved(signers, required))
    ensures (forall stamps :: EnoughDistinct(signers, required, id, stamps)) <==> required == 1 || NoDuplicates(signers)
  {
    if required == 1 || NoDuplicates(signers) {
      forall stamps
        ensures EnoughDistinct(signers, required, id, stamps)
      {
        ApprovalCountExact(stamps, id, signers);
        if NoDuplicates(signers) {
          assert ApproversListedOnce(stamps, id, signers);
        } else if Approvers(stamps, id, signers) == {} {
          assert forall i :: 0 <= i < |signers| ==> signers[i] in signers && signers[i] !in Approvers(stamps, id, signers);
          assert ApproversListedOnce(stamps, id, signers);
        }
      }
    } else {
      var i, j :| 0 <= i < j < |signers| && signers[i] == signers[j];
      TooFewApprovers(signers, required, id, i, j);
    }
  }

  lemma TooFewApprovers(signers: seq<Address>, required: U32, id: U64, i: nat, j: nat)
    requires 2 <= required <= |signers| && i < j < |signers| && signers[i] == signers[j]
    ensures exists stamps :: !EnoughDistinct(signers, required, id, stamps)
  {
    var all := Elements(signers);
    assert signers[i] in all && |all| >= 1;
    var k := if |all| < required then |all| else required - 1;
    var part := SubsetOfSize(all, signers[i], k);
    var stamps := StampsOf(id, part);
    assert Approvers(stamps, id, signers) == part;
    ApprovalCountExact(stamps, id, signers);
    assert !ApproversListedOnce(stamps, id, signers);
    if |all| < required {
      assert part == all by {
        SubsetIsAll(part, all);
      }
      AllStamped(stamps, id, signers);
    }
    assert !EnoughDistinct(signers, required, id, stamps);
  }

  lemma {:induction false} SubsetIsAll(part: set<Address>, all: set<Address>)
    requires part <= all && |part| == |all|
    ensures part == all
  {
    if part != {} {
      var x :| x in part;
      SubsetIsAll(part - {x}, all - {x});
    }
  }

  lemma {:induction false} AllStamped(stamps: set<(U64, Address)>, id: U64, signers: seq<Address>)
    requires forall a <- signers :: (id, a) in stamps
    ensures ApprovalCount(stamps, id, signers) == |signers|
  {
    if signers != [] {
      AllStamped(stamps, id, signers[..|signers| - 1]);
    }
  }

  function DoubleListing(signer: Address): seq<Condition> {
    [MultiSigApproved([signer, signer], 2)]
  }

  lemma DoubleListingCreated(s: State, now: U64, payer: Address, recipient: Address, token: Address, signer: Address)
    requires payer != recipient && s.nextId == 0 && s.payments == map[] && BalanceOf(s.balances, token, payer) >= 5
    ensures Step(s, Event(now, Create(payer, recipient, token, 5, DoubleListing(signer)))).0.payments ==
            map[0 := Payment(payer, recipient, token, 5, DoubleListing(signer), Pending, now, 0)]
    ensures Step(s, Event(now, Create(payer, recipient, token, 5, DoubleListing(signer)))).0.stamps == s.stamps
  {
    CreateExactly(s, now, payer, recipient, token, 5, DoubleListing(signer));
  }

  lemma DoubleListingExecutes(s: State, now: U64, signer: Address)
    requires Solvent(s) && 0 in s.payments && s.payments[0].status == Pending && s.stamps == {(0, signer)}
    requires s.payments[0].conditions == DoubleListing(signer)
    ensures var end := Step(s, Event(now, Execute(0))).0;
      && 0 in end.payments && end.payments[0].status == Executed
      && ApprovalCount(end.stamps, 0, [signer, signer]) == 2 && |Approvers(end.stamps, 0, [signer, signer])| == 1
  {
    CountTwice(s.stamps, signer);
    PendingIsCovered(s, 0);
  }

  /** A whole run of it: the payer lists one signer twice and requires two approvals; that signer approves once, and the
      payment executes. */
  lemma OneApproverCountedTwice(self: Address, payer: Address, recipient: Address, token: Address, signer: Address, now: U64)
    requires payer != self && payer != recipient
    ensures var balances := map[Account(token, payer) := 5];
      var events := [Event(now, Create(payer, recipient, token, 5, DoubleListing(signer)))] + [Event(now, Approve(signer, 0))]
                    + [Event(now, Execute(0))];
      var end := Run(Deployed(self, balances), events);
      && NoDebts(balances) && AuthorizedRun(self, events) && 0 in end.payments && end.payments[0].status == Executed
      && ApprovalCount(end.stamps, 0, [signer, signer]) == 2 && |Approvers(end.stamps, 0, [signer, signer])| == 1
  {
    var balances := map[Account(token, payer) := 5];
    var s := Deployed(self, balances);
    var create := Event(now, Create(payer, recipient, token, 5, DoubleListing(signer)));
    var approve := Event(now, Approve(signer, 0));
    RunOfTwo(s, create, approve);
    RunExtends(s, [create] + [approve], Event(now, Execute(0)));
    DoubleListingCreated(s, now, payer, recipient, token, signer);
    DoubleListingApproved(Step(s, create).0, now, signer);
    SolventRun(self, balances, [create] + [approve]);
    DoubleListingExecutes(Run(s, [create] + [approve]), now, signer);
  }

  lemma RunOfTwo(s: State, a: Event, b: Event)
    ensures Run(s, [a] + [b]) == Step(Step(s, a).0, b).0
  {
    RunExtends(s, [], a);
    assert [] + [a] == [a];
    RunExtends(s, [a], b);
  }

  lemma DoubleListingApproved(s: State, now: U64, signer: Address)
    requires 0 in s.payments && s.payments[0].status == Pending && s.payments[0].conditions == DoubleListing(signer)
    requires s.stamps == {}
    ensures var after := Step(s, Event(now, Approve(signer, 0))).0;
      after.stamps == {(0, signer)} && after.payments == s.payments
  {
    assert DoubleListing(signer)[0] in DoubleListing(signer);
  }

  lemma RunExtends(s: State, events: seq<Event>, e: Event)
    ensures Run(s, events + [e]) == Step(Run(s, events), e).0
  {
    assert (events + [e])[..|events|] == events;
  }

  lemma CountTwice(stamps: set<(U64, Address)>, signer: Address)
    requires stamps == {(0, signer)}
    ensures ApprovalCount(stamps, 0, [signer, signer]) == 2 && Approvers(stamps, 0, [signer, signer]) == {signer}
  {
    assert [signer, signer][..1] == [signer] && [signer][..0] == [];
    assert ApprovalCount(stamps, 0, [signer]) == 1;
  }

  lemma {:induction false} CountMonotone(before: set<(U64, Address)>, after: set<(U64, Address)>, id: U64, signers: seq<Address>)
    requires before <= after
    ensures ApprovalCount(before, id, signers) <= ApprovalCount(after, id, signers)
  {
    if signers != [] {
      CountMonotone(before, after, id, signers[..|signers| - 1]);
    }
  }

  function ApprovalsGiven(s: State, events: seq<Event>, id: U64, signer: Address): nat {
    if events == [] then 0
    else
      var init, e := events[..|events| - 1], events[|events| - 1];
      ApprovalsGiven(s, init, id, signer) + if e.op == Approve(signer, id) && Step(Run(s, init), e).1.Ok? then 1 else 0
  }

  /** Over every run a stamp is one accepted approval, never repeated, of a signer that the payment lists. */
  lemma {:induction false} StampsRun(self: Address, balances: Balances, events: seq<Event>, id: U64, signer: Address)
    requires NoDebts(balances) && AuthorizedRun(self, events)
    ensures var s := Deployed(self, balances);
      var end := Run(s, events);
      && ApprovalsGiven(s, events, id, signer) == (if (id, signer) in end.stamps then 1 else 0)
      && ((id, signer) in end.stamps ==>
            && id in end.payments
            && exists c <- end.payments[id].conditions :: c.MultiSigApproved? && signer in c.signers)
  {
    if events != [] {
      var s, init, e := Deployed(self, balances), events[..|events| - 1], events[|events| - 1];
      StampsRun(self, balances, init, id, signer);
      SolventRun(self, balances, init);
      if id in Run(s, init).payments {
        RecordStep(Run(s, init), e, id);
      }
      StampStep(Run(s, init), e, id, signer);
    }
  }

  lemma StampStep(s: State, e: Event, id: U64, signer: Address)
    ensures var s' := Step(s, e).0;
      && s.stamps <= s'.stamps
      && (e.op == Approve(signer, id) && Step(s, e).1.Ok? <==> (id, signer) !in s.stamps && (id, signer) in s'.stamps)
      && ((id, signer) !in s.stamps && (id, signer) in s'.stamps ==>
            id in s.payments && s'.payments == s.payments && IsSigner(s.payments[id].conditions, signer))
  {
  }

  /** In every run an approval is accepted exactly from a listed signer of a pending payment who has given none before. */
  lemma ApproveExactly(self: Address, balances: Balances, events: seq<Event>, now: U64, id: U64, signer: Address)
    requires NoDebts(balances) && AuthorizedRun(self, events)
    ensures var s := Run(Deployed(self, balances), events);
      Step(s, Event(now, Approve(signer, id))).1.Ok? <==>
        && id in s.payments && s.payments[id].status == Pending
        && (exists c <- s.payments[id].conditions :: c.MultiSigApproved? && signer in c.signers)
        && ApprovalsGiven(Deployed(self, balances), events, id, signer) == 0
    ensures var s := Run(Deployed(self, balances), events);
      var (after, r) := Step(s, Event(now, Approve(signer, id)));
      && (r.Ok? ==> after == s.(stamps := s.stamps + {(id, signer)}))
      && (r.Abort? ==>
            && after == s
            && r.error == if id !in s.payments then PaymentNotFound
                          else if s.payments[id].status != Pending then PaymentNotPending
                          else if ApprovalsGiven(Deployed(self, balances), events, id, signer) > 0 then AlreadyApproved
                          else NotASigner)
  {
    StampsRun(self, balances, events, id, signer);
  }

  // ----- the calls on a payment, in plain terms -----

  /** The positions of the list whose address has stamped the payment. */
  ghost function StampedEntries(stamps: set<(U64, Address)>, id: U64, signers: seq<Address>): set<int> {
    set i | 0 <= i < |signers| && (id, signers[i]) in stamps
  }

  lemma {:induction false} CountIsEntries(stamps: set<(U64, Address)>, id: U64, signers: seq<Address>)
    ensures ApprovalCount(stamps, id, signers) == |StampedEntries(stamps, id, signers)|
  {
    if signers == [] {
      assert StampedEntries(stamps, id, signers) == {};
    } else {
      var n := |signers| - 1;
      CountIsEntries(stamps, id, signers[..n]);
      assert StampedEntries(stamps, id, signers) ==
             StampedEntries(stamps, id, signers[..n]) + if (id, signers[n]) in stamps then {n} else {};
    }
  }

  /** What a condition says of the clock, of the storage and of the token balances. */
  ghost predicate IsTrue(s: State, now: U64, id: U64, c: Condition) {
    match c
    case TimeAfter(t) => now >= t
    case TimeBefore(t) => now < t
    case BalanceAbove(token, watched, threshold) => Get(s.balances, Account(token, watched)) >= threshold
    case BalanceBelow(token, watched, threshold) => Get(s.balances, Account(token, watched)) < threshold
    case MultiSigApproved(signers, required) => |signers| > 0 && |StampedEntries(s.stamps, id, signers)| >= required
  }

  lemma HoldsExactly(s: State, now: U64, id: U64, c: Condition)
    ensures Holds(s, now, id, c) <==> IsTrue(s, now, id, c)
  {
    if c.MultiSigApproved? {
      CountIsEntries(s.stamps, id, c.signers);
    }
  }

  /** The payer is paid back or the recipient paid: the record, the token balances, and nothing else. */
  ghost predicate Settles(s: State, after: State, id: U64, status: Status, now: U64, to: Address)
    requires id in s.payments
  {
    var p := s.payments[id];
    && after.payments == s.payments[id := p.(status := status, settledAt := now)]
    && PaidTo(s.balances, after.balances, p.token, s.self, to, p.amount)
    && after.(payments := s.payments, balances := s.balances) == s
  }

  /** In every run an execution succeeds exactly when the payment is pending and each of its conditions is true before the call;
      it then pays the recipient, and otherwise says what is missing. */
  lemma ExecuteExactly(self: Address, balances: Balances, events: seq<Event>, now: U64, id: U64)
    requires NoDebts(balances) && AuthorizedRun(self, events)
    ensures var s := Run(Deployed(self, balances), events);
      var (after, r) := Step(s, Event(now, Execute(id)));
      && (r.Ok? <==> id in s.payments && s.payments[id].status == Pending
                     && forall c <- s.payments[id].conditions :: IsTrue(s, now, id, c))
      && (r.Ok? ==> r.value == Paid(s.payments[id].amount)
                    && Settles(s, after, id, Executed, now, s.payments[id].recipient))
      && (r.Abort? ==> after == s && r.error == if id !in s.payments then PaymentNotFound
                                                else if s.payments[id].status != Pending then PaymentNotPending
                                                else ConditionNotMet)
  {
    SettlementExact(self, balances, events, now, id, 0);
    SolventRun(self, balances, events);
    var s := Run(Deployed(self, balances), events);
    if id in s.payments {
      var p := s.payments[id];
      forall c <- p.conditions
        ensures Holds(s, now, id, c) <==> IsTrue(s, now, id, c)
      {
        HoldsExactly(s, now, id, c);
      }
      if p.status == Pending {
        PendingIsCovered(s, id);
        MovedExactly(s.balances, p.token, s.self, p.recipient, p.amount);
      }
    }
  }

  /** In every run a cancellation succeeds exactly for the payer of a pending payment, whatever its conditions, and pays the
      payer back. */
  lemma CancelExactly(self: Address, balances: Balances, events: seq<Event>, now: U64, caller: Address, id: U64)
    requires NoDebts(balances) && AuthorizedRun(self, events)
    ensures var s := Run(Deployed(self, balances), events);
      var (after, r) := Step(s, Event(now, Cancel(caller, id)));
      && (r.Ok? <==> id in s.payments && caller == s.payments[id].payer && s.payments[id].status == Pending)
      && (r.Ok? ==> r.value == Done && Settles(s, after, id, Cancelled, now, caller))
      && (r.Abort? ==> after == s && r.error == if id !in s.payments then PaymentNotFound
                                                else if caller != s.payments[id].payer then Unauthorized
                                                else PaymentNotPending)
  {
    SolventRun(self, balances, events);
    var s := Run(Deployed(self, balances), events);
    if id in s.payments && s.payments[id].status == Pending {
      PendingIsCovered(s, id);
      MovedExactly(s.balances, s.payments[id].token, s.self, s.payments[id].payer, s.payments[id].amount);
    }
  }

  // ----- payments do what was asked, when it was asked -----

  predicate WellFormed(c: Condition) {
    match c
    case TimeAfter(t) => 1 <= t
    case TimeBefore(t) => 1 <= t
    case BalanceAbove(_, _, threshold) => 1 <= threshold
    case BalanceBelow(_, _, threshold) => 1 <= threshold
    case MultiSigApproved(signers, required) => 1 <= required <= |signers| <= 10
  }

  lemma {:induction false} FaultlessExactly(cs: seq<Condition>)
    ensures FirstFault(cs).None? <==> forall c <- cs :: WellFormed(c)
  {
    if cs != [] {
      FaultlessExactly(cs[1..]);
      assert forall c :: c in cs <==> c == cs[0] || c in cs[1..];
      assert ConditionFault(cs[0]).None? <==> WellFormed(cs[0]);
    }
  }

  /** The first ill-formed condition, and how the validation answers it. */
  ghost predicate IsFirstIllFormed(cs: seq<Condition>, i: nat)
    requires i < |cs|
  {
    !WellFormed(cs[i]) && forall j :: 0 <= j < i ==> WellFormed(cs[j])
  }

  function IllFormedError(c: Condition): Error {
    if !c.MultiSigApproved? then InvalidCondition
    else if 1 <= |c.signers| <= 10 then InvalidThreshold else TooManySigners
  }

  lemma {:induction false} FirstFaultExactly(cs: seq<Condition>, i: nat)
    requires i < |cs| && IsFirstIllFormed(cs, i)
    ensures FirstFault(cs) == Some(IllFormedError(cs[i]))
  {
    if i > 0 {
      assert WellFormed(cs[0]);
      FirstFaultExactly(cs[1..], i - 1);
    }
  }

  /** A refused creation changes nothing and answers its first fault: amount, parties, number of conditions, first ill-formed
      condition, ids, funds. */
  lemma CreateRefusals(s: State, now: U64, payer: Address, recipient: Address, token: Address, amount: I128,
                       cs: seq<Condition>, i: nat)
    requires CreateStep(s, now, payer, recipient, token, amount, cs).1.Abort?
    requires (i < |cs| && IsFirstIllFormed(cs, i)) || forall c <- cs :: WellFormed(c)
    ensures CreateStep(s, now, payer, recipient, token, amount, cs) ==
              (s, Abort(if amount <= 0 then InvalidAmount
                        else if payer == recipient then SamePayerRecipient
                        else if !(1 <= |cs| <= 8) then TooManyConditions
                        else if i < |cs| && !WellFormed(cs[i]) then IllFormedError(cs[i])
                        else if s.nextId == U64_MAX then Overflow
                        else TransferFailed))
  {
    FaultlessExactly(cs);
    if i < |cs| && IsFirstIllFormed(cs, i) {
      FirstFaultExactly(cs, i);
    }
  }

  /** A creation succeeds exactly for a positive, funded amount between two parties under one to eight well-formed
      conditions, as long as ids last. */
  lemma CreateExactly(s: State, now: U64, payer: Address, recipient: Address, token: Address, amount: I128,
                      cs: seq<Condition>)
    ensures CreateStep(s, now, payer, recipient, token, amount, cs).1.Ok? <==>
            && amount > 0 && payer != recipient && 1 <= |cs| <= 8 && (forall c <- cs :: WellFormed(c))
            && s.nextId < U64_MAX && Get(s.balances, Account(token, payer)) >= amount
    ensures CreateStep(s, now, payer, recipient, token, amount, cs).1.Ok? ==>
              var after := CreateStep(s, now, payer, recipient, token, amount, cs).0;
              && after.payments == s.payments[s.nextId := Payment(payer, recipient, token, amount, cs, Pending, now, 0)]
              && after.nextId == s.nextId + 1 && after.stamps == s.stamps && after.self == s.self
              && PaidTo(s.balances, after.balances, token, payer, s.self, amount)
  {
    FaultlessExactly(cs);
    MovedExactly(s.balances, token, payer, s.self, amount);
  }

  /** The step creates payment id as it stands in p, settlement aside. */
  predicate AsksFor(s: State, e: Event, id: U64, p: Payment) {
    && e.op == Create(p.payer, p.recipient, p.token, p.amount, p.conditions) && e.now == p.createdAt
    && Step(s, e).1 == Ok(Created(id))
  }

  /** Over every run each stored payment still is what a creation in the run asked for. */
  lemma {:induction false} PaymentsAsAsked(self: Address, balances: Balances, events: seq<Event>, id: U64)
    requires NoDebts(balances) && AuthorizedRun(self, events)
    requires id in Run(Deployed(self, balances), events).payments
    ensures var s := Deployed(self, balances);
      exists i :: 0 <= i < |events| && AsksFor(Run(s, events[..i]), events[i], id, Run(s, events).payments[id])
  {
    var s, init, e := Deployed(self, balances), events[..|events| - 1], events[|events| - 1];
    SolventRun(self, balances, init);
    if id in Run(s, init).payments {
      PaymentsAsAsked(self, balances, init, id);
      RecordStep(Run(s, init), e, id);
      var i :| 0 <= i < |init| && AsksFor(Run(s, init[..i]), init[i], id, Run(s, init).payments[id]);
      assert init[..i] == events[..i];
    } else {
      PaymentAppears(Run(s, init), e, id);
    }
  }

  lemma PaymentAppears(s: State, e: Event, id: U64)
    requires id !in s.payments && id in Step(s, e).0.payments
    ensures AsksFor(s, e, id, Step(s, e).0.payments[id])
    ensures Step(s, e).0.payments[id].status == Pending && Step(s, e).0.payments[id].settledAt == 0
  {
  }

  /** What an executed payment shows of its conditions: it was settled within its time limits, and with the approvals each of
      its signer lists requires. */
  ghost predicate Justified(s: State, id: U64)
    requires id in s.payments
  {
    s.payments[id].status == Executed ==>
      forall c <- s.payments[id].conditions ::
        match c
        case TimeAfter(t) => s.payments[id].settledAt >= t
        case TimeBefore(t) => s.payments[id].settledAt < t
        case MultiSigApproved(signers, required) => ApprovalCount(s.stamps, id, signers) >= required
        case _ => true
  }

  /** The step executes the payment now on record as p, with every condition true at that moment. */
  ghost predicate ExecutesHolding(s: State, e: Event, id: U64, p: Payment) {
    e.op == Execute(id) && e.now == p.settledAt && Step(s, e).1.Ok? && forall c <- p.conditions :: IsTrue(s, p.settledAt, id, c)
  }

  lemma ExecutesTrue(s: State, now: U64, id: U64)
    requires Step(s, Event(now, Execute(id))).1.Ok?
    ensures id in Step(s, Event(now, Execute(id))).0.payments
    ensures ExecutesHolding(s, Event(now, Execute(id)), id, Step(s, Event(now, Execute(id))).0.payments[id])
  {
    forall c <- s.payments[id].conditions
      ensures IsTrue(s, now, id, c)
    {
      HoldsExactly(s, now, id, c);
    }
  }

  /** Over every run an executed payment was executed by a step before which all its conditions held, those on balances
      included, and what can be read off the storage afterwards agrees. */
  lemma {:induction false} ExecutedJustified(self: Address, balances: Balances, events: seq<Event>, id: U64)
    requires NoDebts(balances) && AuthorizedRun(self, events)
    requires id in Run(Deployed(self, balances), events).payments
    ensures Justified(Run(Deployed(self, balances), events), id)
    ensures var s := Deployed(self, balances);
      var p := Run(s, events).payments[id];
      p.status == Executed ==> exists i :: 0 <= i < |events| && ExecutesHolding(Run(s, events[..i]), events[i], id, p)
  {
    var s, init, e := Deployed(self, balances), events[..|events| - 1], events[|events| - 1];
    SolventRun(self, balances, init);
    if id in Run(s, init).payments {
      ExecutedJustified(self, balances, init, id);
      JustifiedStep(Run(s, init), e, id);
      var before, p := Run(s, init).payments[id], Run(s, events).payments[id];
      RecordStep(Run(s, init), e, id);
      if before.status == Executed {
        var i :| 0 <= i < |init| && ExecutesHolding(Run(s, init[..i]), init[i], id, before);
        assert init[..i] == events[..i];
      } else if p.status == Executed {
        assert events[..|init|] == init && e.op == Execute(id);
        ExecutesTrue(Run(s, init), e.now, id);
        assert ExecutesHolding(Run(s, events[..|init|]), events[|init|], id, p);
      }
    } else {
      PaymentAppears(Run(s, init), e, id);
    }
  }

  lemma JustifiedStep(s: State, e: Event, id: U64)
    requires Solvent(s) && id in s.payments && Justified(s, id)
    ensures id in Step(s, e).0.payments && Justified(Step(s, e).0, id)
  {
    var s' := Step(s, e).0;
    RecordStep(s, e, id);
    StampStep(s, e, id, 0);
    if s'.payments[id].status == Executed {
      forall c <- s'.payments[id].conditions | c.MultiSigApproved?
        ensures ApprovalCount(s'.stamps, id, c.signers) >= c.required
      {
        CountMonotone(s.stamps, s'.stamps, id, c.signers);
        assert c in s.payments[id].conditions;
      }
    }
  }

  /** Opposite conditions on the same time or balance are never true together and never false together, so a payment that
      lists both is never executed. */
  lemma OppositesExclude(s: State, now: U64, id: U64, time: U64, token: Address, a: Address, threshold: I128)
    ensures Holds(s, now, id, TimeAfter(time)) <==> !Holds(s, now, id, TimeBefore(time))
    ensures Holds(s, now, id, BalanceAbove(token, a, threshold)) <==> !Holds(s, now, id, BalanceBelow(token, a, threshold))
    ensures id in s.payments
            && ((TimeAfter(time) in s.payments[id].conditions && TimeBefore(time) in s.payments[id].conditions)
                || (BalanceAbove(token, a, threshold) in s.payments[id].conditions
                    && BalanceBelow(token, a, threshold) in s.payments[id].conditions)) ==>
              ExecuteStep(s, now, id).1.Abort?
  {
    if id in s.payments && TimeAfter(time) in s.payments[id].conditions && TimeBefore(time) in s.payments[id].conditions {
      assert !Holds(s, now, id, TimeAfter(time)) || !Holds(s, now, id, TimeBefore(time));
    }
    if id in s.payments && BalanceAbove(token, a, threshold) in s.payments[id].conditions
       && BalanceBelow(token, a, threshold) in s.payments[id].conditions {
      assert !Holds(s, now, id, BalanceAbove(token, a, threshold)) || !Holds(s, now, id, BalanceBelow(token, a, threshold));
    }
  }

  // ----- the contract -----

  class ConditionalPaymentsContract {
    const self: Address
    var nextId: U64
    var payments: map<U64, Payment>
    var stamps: set<(U64, Address)>
    var balances: Balances

    ghost function View(): State
      reads this
    {
      State(self, nextId, payments, stamps, balances)
    }

    constructor (self: Address, balances: Balances)
      ensures View() == Deployed(self, balances)
    {
      this.self, this.balances := self, balances;
      nextId, payments, stamps := 0, map[], {};
    }

    method CreatePayment(payer: Address, recipient: Address, token: Address, amount: I128, conditions: seq<Condition>,
                         now: U64) returns (r: Result<Reply, Error>)
      modifies this
      ensures (View(), r) == Step(old(View()), Event(now, Create(payer, recipient, token, amount, conditions)))
    {
      if amount <= 0 {
        return Abort(InvalidAmount);
      }
      if payer == recipient {
        return Abort(SamePayerRecipient);
      }
      if |conditions| == 0 || |conditions| > MAX_CONDITIONS {
        return Abort(TooManyConditions);
      }
      for i := 0 to |conditions|
        invariant FirstFault(conditions) == FirstFault(conditions[i..])
      {
        var fault := ConditionFault(conditions[i]);
        if fault.Some? {
          return Abort(fault.value);
        }
      }
      if nextId == U64_MAX {
        return Abort(Overflow);
      }
      if !CanMove(balances, token, payer, amount) {
        return Abort(TransferFailed);
      }
      var id := nextId;
      nextId := id + 1;
      payments := payments[id := Payment(payer, recipient, token, amount, conditions, Pending, now, 0)];
      balances := Moved(balances, token, payer, self, amount);
      return Ok(Created(id));
    }

    method ApprovePayment(signer: Address, id: U64, now: U64) returns (r: Result<Reply, Error>)
      modifies this`stamps
      ensures (View(), r) == Step(old(View()), Event(now, Approve(signer, id)))
    {
      if id !in payments {
        return Abort(PaymentNotFound);
      }
      var p := payments[id];
      if p.status != Pending {
        return Abort(PaymentNotPending);
      }
      var i, valid := 0, false;
      while i < |p.conditions| && !valid
        invariant 0 <= i <= |p.conditions|
        invariant valid ==> IsSigner(p.conditions, signer)
        invariant !valid ==> !IsSigner(p.conditions[..i], signer)
        decreases |p.conditions| - i, !valid
      {
        if p.conditions[i].MultiSigApproved? && signer in p.conditions[i].signers {
          valid := true;
        }
        i := i + 1;
      }
      if !valid {
        assert p.conditions[..i] == p.conditions;
        return Abort(NotASigner);
      }
      if (id, signer) in stamps {
        return Abort(AlreadyApproved);
      }
      stamps := stamps + {(id, signer)};
      return Ok(Done);
    }

    /** The counting loop, which stops at the required number. */
    method EvaluateMultiSig(id: U64, signers: seq<Address>, required: U32) returns (passes: bool)
      ensures passes <==> signers != [] && ApprovalCount(stamps, id, signers) >= required
    {
      var approvals := 0;
      for i := 0 to |signers|
        invariant approvals == ApprovalCount(stamps, id, signers[..i])
        invariant i > 0 ==> approvals < required
      {
        assert signers[..i + 1][..i] == signers[..i];
        if (id, signers[i]) in stamps {
          approvals := approvals + 1;
        }
        if approvals >= required {
          CountGrows(stamps, id, signers, i + 1);
          return true;
        }
      }
      assert signers[..|signers|] == signers;
      return false;
    }

    method EvaluateCondition(id: U64, c: Condition, now: U64) returns (passes: bool)
      ensures passes == IsTrue(View(), now, id, c) == Holds(View(), now, id, c)
    {
      HoldsExactly(View(), now, id, c);
      match c
      case TimeAfter(t) => passes := now >= t;
      case TimeBefore(t) => passes := now < t;
      case BalanceAbove(token, a, threshold) => passes := BalanceOf(balances, token, a) >= threshold;
      case BalanceBelow(token, a, threshold) => passes := BalanceOf(balances, token, a) < threshold;
      case MultiSigApproved(signers, required) => passes := EvaluateMultiSig(id, signers, required);
    }

    method CheckConditions(id: U64, now: U64) returns (r: Result<seq<bool>, Error>)
      ensures id !in payments ==> r == Abort(PaymentNotFound)
      ensures id in payments ==>
                r.Ok? && |r.value| == |payments[id].conditions|
                && forall i :: 0 <= i < |r.value| ==> r.value[i] == IsTrue(View(), now, id, payments[id].conditions[i])
    {
      if id !in payments {
        return Abort(PaymentNotFound);
      }
      var cs, results := payments[id].conditions, [];
      for i := 0 to |cs|
        invariant |results| == i
        invariant forall k :: 0 <= k < i ==> results[k] == IsTrue(View(), now, id, cs[k])
      {
        var passes := EvaluateCondition(id, cs[i], now);
        results := results + [passes];
      }
      return Ok(results);
    }

    method ApprovalCountAt(id: U64, index: U32) returns (r: Result<nat, Error>)
      ensures r == if id !in payments then Abort(PaymentNotFound)
                   else if index >= |payments[id].conditions| || !payments[id].conditions[index].MultiSigApproved?
                   then Abort(InvalidCondition)
                   else Ok(|StampedEntries(stamps, id, payments[id].conditions[index].signers)|)
    {
      if id !in payments {
        return Abort(PaymentNotFound);
      }
      if index >= |payments[id].conditions| || !payments[id].conditions[index].MultiSigApproved? {
        return Abort(InvalidCondition);
      }
      var signers, count := payments[id].conditions[index].signers, 0;
      for i := 0 to |signers|
        invariant count == ApprovalCount(stamps, id, signers[..i])
      {
        assert signers[..i + 1][..i] == signers[..i];
        if (id, signers[i]) in stamps {
          count := count + 1;
        }
      }
      assert signers[..|signers|] == signers;
      CountIsEntries(stamps, id, signers);
      return Ok(count);
    }

    method ExecutePayment(id: U64, now: U64) returns (r: Result<Reply, Error>)
      modifies this`payments, this`balances
      ensures (View(), r) == Step(old(View()), Event(now, Execute(id)))
    {
      if id !in payments {
        return Abort(PaymentNotFound);
      }
      var p := payments[id];
      if p.status != Pending {
        return Abort(PaymentNotPending);
      }
      for i := 0 to |p.conditions|
        invariant View() == old(View())
        invariant forall k :: 0 <= k < i ==> Holds(View(), now, id, p.conditions[k])
      {
        var passes := EvaluateCondition(id, p.conditions[i], now);
        if !passes {
          return Abort(ConditionNotMet);
        }
      }
      if p.amount < 0 || !CanMove(balances, p.token, self, p.amount) {
        return Abort(TransferFailed);
      }
      payments := payments[id := p.(status := Executed, settledAt := now)];
      balances := Moved(balances, p.token, self, p.recipient, p.amount);
      return Ok(Paid(p.amount));
    }

    method CancelPayment(caller: Address, id: U64, now: U64) returns (r: Result<Reply, Error>)
      modifies this`payments, this`balances
      ensures (View(), r) == Step(old(View()), Event(now, Cancel(caller, id)))
    {
      if id !in payments {
        return Abort(PaymentNotFound);
      }
      var p := payments[id];
      if caller != p.payer {
        return Abort(Unauthorized);
      }
      if p.status != Pending {
        return Abort(PaymentNotPending);
      }
      if p.amount < 0 || !CanMove(balances, p.token, self, p.amount) {
        return Abort(TransferFailed);
      }
      payments := payments[id := p.(status := Cancelled, settledAt := now)];
      balances := Moved(balances, p.token, self, p.payer, p.amount);
      return Ok(Done);
    }
  }

  lemma {:induction false} CountGrows(stamps: set<(U64, Address)>, id: U64, signers: seq<Address>, i: nat)
    requires i <= |signers|
    ensures ApprovalCount(stamps, id, signers[..i]) <= ApprovalCount(stamps, id, signers)
  {
    if i < |signers| {
      var init := signers[..|signers| - 1];
      assert init[..i] == signers[..i];
      CountGrows(stamps, id, init, i);
    } else {
      assert signers[..i] == signers;
    }
  }
}
