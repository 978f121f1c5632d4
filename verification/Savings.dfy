/** Batch contributions to savings goals: one pass validates, a second pass applies. */
module Savings {
  import opened Base
  import opened MapSums

  datatype Goal = Goal(owner: Address, target: I128, saved: I128, createdAt: U64)

  datatype Error =
    | InvalidTargetAmount | GoalAlreadyExists | GoalAmountMismatch | InvalidContributionAmount | InvalidGoalId
    | InvalidGoalOwner | OverContribution

  type Goals = map<U32, Goal>

  datatype Op =
    | CreateGoal(owner: Address, id: U32, target: I128)
    | BatchContribute(user: Address, ids: seq<U32>, amounts: seq<I128>)

  datatype Event = Event(now: U64, op: Op)

  // ----- the two passes -----

  function CheckEntry(goals: Goals, pending: map<U32, I128>, id: U32, amount: I128): Result<map<U32, I128>, Error> {
    if amount <= 0 then Abort(InvalidContributionAmount)
    else if id !in goals then Abort(InvalidGoalId)
    else
      var sum := Get(pending, id) + amount;
      if !FitsI128(sum) || !FitsI128(goals[id].saved + sum) || goals[id].saved + sum > goals[id].target then
        Abort(OverContribution)
      else Ok(pending[id := sum])
  }

  /** The first pass: what each goal would receive so far. */
  function Validate(goals: Goals, ids: seq<U32>, amounts: seq<I128>): Result<map<U32, I128>, Error>
    requires |ids| == |amounts|
  {
    if ids == [] then Ok(map[])
    else
      var n := |ids| - 1;
      var before := Validate(goals, ids[..n], amounts[..n]);
      if before.Abort? then before else CheckEntry(goals, before.value, ids[n], amounts[n])
  }

  function Contribute(goals: Goals, user: Address, id: U32, amount: I128): Result<Goals, Error> {
    if id !in goals then Abort(InvalidGoalId)
    else if goals[id].owner != user then Abort(InvalidGoalOwner)
    else
      var saved := goals[id].saved + amount;
      if !FitsI128(saved) || saved > goals[id].target then Abort(OverContribution)
      else Ok(goals[id := goals[id].(saved := saved)])
  }

  /** The second pass. */
  function Apply(goals: Goals, user: Address, ids: seq<U32>, amounts: seq<I128>): Result<Goals, Error>
    requires |ids| == |amounts|
  {
    if ids == [] then Ok(goals)
    else
      var n := |ids| - 1;
      var before := Apply(goals, user, ids[..n], amounts[..n]);
      if before.Abort? then before else Contribute(before.value, user, ids[n], amounts[n])
  }

  /** An error anywhere discards everything the call did. */
  function BatchStep(goals: Goals, user: Address, ids: seq<U32>, amounts: seq<I128>): (Goals, Result<(), Error>) {
    if |ids| != |amounts| then (goals, Abort(GoalAmountMismatch))
    else
      var checks := Validate(goals, ids, amounts);
      if checks.Abort? then (goals, Abort(checks.error))
      else
        var applied := Apply(goals, user, ids, amounts);
        if applied.Abort? then (goals, Abort(applied.error)) else (applied.value, Ok(()))
  }

  function Step(goals: Goals, e: Event): (Goals, Result<(), Error>) {
    match e.op
    case CreateGoal(owner, id, target) =>
      if target <= 0 then (goals, Abort(InvalidTargetAmount))
      else if id in goals then (goals, Abort(GoalAlreadyExists))
      else (goals[id := Goal(owner, target, 0, e.now)], Ok(()))
    case BatchContribute(user, ids, amounts) => BatchStep(goals, user, ids, amounts)
  }

  function Run(events: seq<Event>): Goals {
    if events == [] then map[] else Step(Run(events[..|events| - 1]), events[|events| - 1]).0
  }

  // ----- what a batch means -----

  /** The sum of the entries for one goal. */
  function TotalFor(ids: seq<U32>, amounts: seq<I128>, g: U32): int
    requires |ids| == |amounts|
  {
    if ids == [] then 0
    else
      var n := |ids| - 1;
      TotalFor(ids[..n], amounts[..n], g) + if ids[n] == g then amounts[n] else 0
  }

  ghost predicate WithinTargets(goals: Goals) {
    forall g <- goals.Keys :: 0 <= goals[g].saved <= goals[g].target
  }

  /** All amounts are positive, and every listed goal exists and has room for the sum of its entries. */
  ghost predicate Affordable(goals: Goals, ids: seq<U32>, amounts: seq<I128>)
    requires |ids| == |amounts|
  {
    && (forall i :: 0 <= i < |amounts| ==> amounts[i] > 0)
    && (forall i :: 0 <= i < |ids| ==>
          ids[i] in goals && goals[ids[i]].saved + TotalFor(ids, amounts, ids[i]) <= goals[ids[i]].target)
  }

  ghost predicate Owns(goals: Goals, user: Address, ids: seq<U32>) {
    forall i :: 0 <= i < |ids| ==> ids[i] in goals && goals[ids[i]].owner == user
  }

  lemma {:induction false} TotalsNonNegative(ids: seq<U32>, amounts: seq<I128>, g: U32)
    requires |ids| == |amounts| && forall i :: 0 <= i < |amounts| ==> amounts[i] > 0
    ensures TotalFor(ids, amounts, g) >= 0
  {
    if ids != [] {
      TotalsNonNegative(ids[..|ids| - 1], amounts[..|ids| - 1], g);
    }
  }

  /** Dropping the last entry of an affordable batch leaves an affordable one. */
  lemma AffordablePrefix(goals: Goals, ids: seq<U32>, amounts: seq<I128>)
    requires |ids| == |amounts| && ids != [] && Affordable(goals, ids, amounts)
    ensures Affordable(goals, ids[..|ids| - 1], amounts[..|ids| - 1])
  {
    var n := |ids| - 1;
    forall i | 0 <= i < n
      ensures ids[..n][i] in goals
      ensures goals[ids[..n][i]].saved + TotalFor(ids[..n], amounts[..n], ids[..n][i]) <= goals[ids[..n][i]].target
    {
      assert ids[..n][i] == ids[i];
    }
  }

  lemma AffordableLast(goals: Goals, ids: seq<U32>, amounts: seq<I128>)
    requires |ids| == |amounts| && ids != [] && Affordable(goals, ids[..|ids| - 1], amounts[..|ids| - 1])
    requires var n := |ids| - 1;
      amounts[n] > 0 && ids[n] in goals && goals[ids[n]].saved + TotalFor(ids, amounts, ids[n]) <= goals[ids[n]].target
    ensures Affordable(goals, ids, amounts)
  {
    var n := |ids| - 1;
    forall i | 0 <= i < |ids|
      ensures amounts[i] > 0 && ids[i] in goals
      ensures goals[ids[i]].saved + TotalFor(ids, amounts, ids[i]) <= goals[ids[i]].target
    {
      if i < n {
        assert ids[..n][i] == ids[i] && amounts[..n][i] == amounts[i];
        if ids[i] != ids[n] {
          assert TotalFor(ids, amounts, ids[i]) == TotalFor(ids[..n], amounts[..n], ids[i]);
        }
      }
    }
  }

  /** The validation pass accepts exactly the affordable batches, and its running map holds each goal's sum. */
  lemma {:induction false} ValidateExactly(goals: Goals, ids: seq<U32>, amounts: seq<I128>)
    requires |ids| == |amounts| && WithinTargets(goals)
    ensures Validate(goals, ids, amounts).Ok? <==> Affordable(goals, ids, amounts)
    ensures Validate(goals, ids, amounts).Ok? ==>
              forall g: U32 :: Get(Validate(goals, ids, amounts).value, g) == TotalFor(ids, amounts, g)
  {
    if ids != [] {
      var n := |ids| - 1;
      ValidateExactly(goals, ids[..n], amounts[..n]);
      if Affordable(goals, ids, amounts) {
        AffordablePrefix(goals, ids, amounts);
        TotalsNonNegative(ids, amounts, ids[n]);
      }
      if Validate(goals, ids, amounts).Ok? {
        AffordableLast(goals, ids, amounts);
      }
    }
  }

  /** Each goal grows by exactly the sum of its entries; nothing else in it changes. */
  ghost predicate Grown(goals: Goals, after: Goals, ids: seq<U32>, amounts: seq<I128>)
    requires |ids| == |amounts|
  {
    && after.Keys == goals.Keys
    && forall g <- goals.Keys ::
         goals[g].saved + TotalFor(ids, amounts, g) == after[g].saved && after[g].(saved := 0) == goals[g].(saved := 0)
  }

  /** After a successful validation the second pass succeeds exactly when the user owns every listed goal. */
  lemma {:induction false} ApplyExactly(goals: Goals, user: Address, ids: seq<U32>, amounts: seq<I128>)
    requires |ids| == |amounts| && WithinTargets(goals) && Affordable(goals, ids, amounts)
    ensures Apply(goals, user, ids, amounts).Ok? <==> Owns(goals, user, ids)
    ensures Apply(goals, user, ids, amounts).Ok? ==> Grown(goals, Apply(goals, user, ids, amounts).value, ids, amounts)
  {
    if ids != [] {
      var n := |ids| - 1;
      AffordablePrefix(goals, ids, amounts);
      ApplyExactly(goals, user, ids[..n], amounts[..n]);
      TotalsNonNegative(ids, amounts, ids[n]);
      OwnsSplit(goals, user, ids);
    }
  }

  lemma OwnsSplit(goals: Goals, user: Address, ids: seq<U32>)
    requires ids != []
    ensures var n := |ids| - 1;
      Owns(goals, user, ids) <==> Owns(goals, user, ids[..n]) && ids[n] in goals && goals[ids[n]].owner == user
  {
    var n := |ids| - 1;
    if Owns(goals, user, ids[..n]) && ids[n] in goals && goals[ids[n]].owner == user {
      forall i | 0 <= i < |ids|
        ensures ids[i] in goals && goals[ids[i]].owner == user
      {
        assert i < n ==> ids[..n][i] == ids[i];
      }
    }
  }

  lemma TotalForUnlisted(ids: seq<U32>, amounts: seq<I128>, g: U32)
    requires |ids| == |amounts| && g !in ids
    ensures TotalFor(ids, amounts, g) == 0
  {
  }

  /** A batch succeeds exactly when the lists match, it is affordable, and the user owns every listed goal; it then grows each
      goal by the sum of its entries, repeated ids included, and otherwise changes nothing. */
  lemma BatchExactly(goals: Goals, user: Address, ids: seq<U32>, amounts: seq<I128>)
    requires WithinTargets(goals)
    ensures var (after, r) := BatchStep(goals, user, ids, amounts);
      && (r.Ok? <==> |ids| == |amounts| && Affordable(goals, ids, amounts) && Owns(goals, user, ids))
      && (r.Ok? ==> Grown(goals, after, ids, amounts))
      && (r.Abort? ==> after == goals)
  {
    if |ids| == |amounts| {
      ValidateExactly(goals, ids, amounts);
      if Affordable(goals, ids, amounts) {
        ApplyExactly(goals, user, ids, amounts);
      }
    }
  }

  /** In every run no goal is ever saved beyond its target or below zero. */
  lemma {:induction false} WithinTargetsRun(events: seq<Event>)
    ensures WithinTargets(Run(events))
  {
    if events != [] {
      var init, e := events[..|events| - 1], events[|events| - 1];
      WithinTargetsRun(init);
      var goals := Run(init);
      if e.op.BatchContribute? {
        BatchKeepsTargets(goals, e.op.user, e.op.ids, e.op.amounts);
      }
    }
  }

  lemma BatchKeepsTargets(goals: Goals, user: Address, ids: seq<U32>, amounts: seq<I128>)
    requires WithinTargets(goals)
    ensures WithinTargets(BatchStep(goals, user, ids, amounts).0)
  {
    BatchExactly(goals, user, ids, amounts);
    var (after, r) := BatchStep(goals, user, ids, amounts);
    if r.Ok? {
      forall g <- goals.Keys
        ensures 0 <= after[g].saved <= after[g].target
      {
        TotalsNonNegative(ids, amounts, g);
        if g in ids {
          var i :| 0 <= i < |ids| && ids[i] == g;
        } else {
          TotalForUnlisted(ids, amounts, g);
        }
      }
    }
  }

  /** Why a batch is refused: for its lists, or in the first pass for the first entry i that pass cannot take, or for an owner
      in the second. */
  lemma BatchRefusal(goals: Goals, user: Address, ids: seq<U32>, amounts: seq<I128>, i: nat)
    requires WithinTargets(goals)
    ensures var (after, r) := BatchStep(goals, user, ids, amounts);
      && (|ids| != |amounts| ==> r == Abort(GoalAmountMismatch))
      && (|ids| == |amounts| && i < |ids|
          && Affordable(goals, ids[..i], amounts[..i]) && !Affordable(goals, ids[..i + 1], amounts[..i + 1]) ==>
            r == Abort(if amounts[i] <= 0 then InvalidContributionAmount
                       else if ids[i] !in goals then InvalidGoalId else OverContribution))
      && (|ids| == |amounts| && Affordable(goals, ids, amounts) && r.Abort? ==> r == Abort(InvalidGoalOwner))
  {
    if |ids| == |amounts| {
      if i < |ids| && Affordable(goals, ids[..i], amounts[..i]) && !Affordable(goals, ids[..i + 1], amounts[..i + 1]) {
        ValidateExactly(goals, ids[..i], amounts[..i]);
        ValidateExactly(goals, ids[..i + 1], amounts[..i + 1]);
        assert ids[..i + 1][..i] == ids[..i] && amounts[..i + 1][..i] == amounts[..i];
        ValidateAbortStays(goals, ids, amounts, i + 1);
      }
      if Affordable(goals, ids, amounts) {
        ValidateExactly(goals, ids, amounts);
        ApplyRefusal(goals, user, ids, amounts);
      }
    }
  }

  lemma {:induction false} ApplyRefusal(goals: Goals, user: Address, ids: seq<U32>, amounts: seq<I128>)
    requires |ids| == |amounts| && WithinTargets(goals) && Affordable(goals, ids, amounts)
    ensures Apply(goals, user, ids, amounts).Abort? ==> Apply(goals, user, ids, amounts).error == InvalidGoalOwner
  {
    if ids != [] {
      var n := |ids| - 1;
      AffordablePrefix(goals, ids, amounts);
      ApplyRefusal(goals, user, ids[..n], amounts[..n]);
      ApplyExactly(goals, user, ids[..n], amounts[..n]);
      TotalsNonNegative(ids, amounts, ids[n]);
    }
  }

  /** What the successful batches of a run paid into a goal. */
  function PaidInto(events: seq<Event>, g: U32): int {
    if events == [] then 0
    else
      var init, e := events[..|events| - 1], events[|events| - 1];
      PaidInto(init, g) +
      if e.op.BatchContribute? && |e.op.ids| == |e.op.amounts| && Step(Run(init), e).1.Ok?
      then TotalFor(e.op.ids, e.op.amounts, g) else 0
  }

  /** Over every run what a goal has saved is exactly what the successful batches listed for it; before it exists, nothing. */
  lemma {:induction false} SavedIsPaidIn(events: seq<Event>, g: U32)
    ensures PaidInto(events, g) == if g in Run(events) then Run(events)[g].saved else 0
  {
    if events != [] {
      var init, e := events[..|events| - 1], events[|events| - 1];
      SavedIsPaidIn(init, g);
      WithinTargetsRun(init);
      if e.op.BatchContribute? && |e.op.ids| == |e.op.amounts| {
        BatchExactly(Run(init), e.op.user, e.op.ids, e.op.amounts);
        if g !in Run(init) && Step(Run(init), e).1.Ok? {
          assert g !in e.op.ids;
          TotalForUnlisted(e.op.ids, e.op.amounts, g);
        }
      }
    }
  }

  /** A goal is created exactly with a positive target under a new id, with nothing saved. */
  lemma CreatesExactly(goals: Goals, now: U64, owner: Address, id: U32, target: I128)
    ensures var (after, r) := Step(goals, Event(now, CreateGoal(owner, id, target)));
      && (r.Ok? <==> target > 0 && id !in goals)
      && after == (if r.Ok? then goals[id := Goal(owner, target, 0, now)] else goals)
      && (r.Abort? ==> r.error == if target <= 0 then InvalidTargetAmount else GoalAlreadyExists)
  {
  }

  /** Event i of the run created goal g with these terms. */
  predicate CreatesGoal(events: seq<Event>, i: nat, g: U32, goal: Goal)
    requires i < |events|
  {
    events[i] == Event(goal.createdAt, CreateGoal(goal.owner, g, goal.target)) && Step(Run(events[..i]), events[i]).1.Ok?
  }

  /** Over every run each goal still has the owner and the positive target it was created with. */
  lemma {:induction false} GoalsAsCreated(events: seq<Event>, g: U32)
    requires g in Run(events)
    ensures Run(events)[g].target > 0
    ensures exists i: nat :: i < |events| && CreatesGoal(events, i, g, Run(events)[g])
  {
    var init, e := events[..|events| - 1], events[|events| - 1];
    assert events[..|init|] == init;
    WithinTargetsRun(init);
    if g in Run(init) {
      GoalsAsCreated(init, g);
      GoalKept(Run(init), e, g);
      var i: nat :| i < |init| && CreatesGoal(init, i, g, Run(init)[g]);
      assert init[..i] == events[..i];
      assert CreatesGoal(events, i, g, Run(events)[g]);
    } else {
      if e.op.BatchContribute? {
        BatchExactly(Run(init), e.op.user, e.op.ids, e.op.amounts);
      }
      assert CreatesGoal(events, |init|, g, Run(events)[g]);
    }
  }

  /** An existing goal keeps its owner, target and creation time in every later call, and saves more only by its owner's
      batches. */
  lemma GoalKept(goals: Goals, e: Event, g: U32)
    requires WithinTargets(goals) && g in goals
    ensures g in Step(goals, e).0 && Step(goals, e).0[g].(saved := 0) == goals[g].(saved := 0)
    ensures Step(goals, e).0[g] != goals[g] ==> e.op.BatchContribute? && e.op.user == goals[g].owner && g in e.op.ids
  {
    if e.op.BatchContribute? {
      BatchExactly(goals, e.op.user, e.op.ids, e.op.amounts);
      if |e.op.ids| == |e.op.amounts| && g !in e.op.ids {
        TotalForUnlisted(e.op.ids, e.op.amounts, g);
      }
    }
  }

  // ----- the contract -----

  lemma {:induction false} ValidateAbortStays(goals: Goals, ids: seq<U32>, amounts: seq<I128>, i: nat)
    requires |ids| == |amounts| && i <= |ids| && Validate(goals, ids[..i], amounts[..i]).Abort?
    ensures Validate(goals, ids, amounts) == Validate(goals, ids[..i], amounts[..i])
  {
    if i < |ids| {
      var n := |ids| - 1;
      assert ids[..n][..i] == ids[..i] && amounts[..n][..i] == amounts[..i];
      ValidateAbortStays(goals, ids[..n], amounts[..n], i);
    } else {
      assert ids[..i] == ids && amounts[..i] == amounts;
    }
  }

  lemma {:induction false} ApplyAbortStays(goals: Goals, user: Address, ids: seq<U32>, amounts: seq<I128>, i: nat)
    requires |ids| == |amounts| && i <= |ids| && Apply(goals, user, ids[..i], amounts[..i]).Abort?
    ensures Apply(goals, user, ids, amounts) == Apply(goals, user, ids[..i], amounts[..i])
  {
    if i < |ids| {
      var n := |ids| - 1;
      assert ids[..n][..i] == ids[..i] && amounts[..n][..i] == amounts[..i];
      ApplyAbortStays(goals, user, ids[..n], amounts[..n], i);
    } else {
      assert ids[..i] == ids && amounts[..i] == amounts;
    }
  }

  class SavingsContract {
    var goals: Goals

    constructor ()
      ensures goals == Run([])
    {
      goals := map[];
    }

    method Create(owner: Address, id: U32, target: I128, now: U64) returns (r: Result<(), Error>)
      modifies this
      ensures (goals, r) == Step(old(goals), Event(now, CreateGoal(owner, id, target)))
    {
      if target <= 0 {
        return Abort(InvalidTargetAmount);
      }
      if id in goals {
        return Abort(GoalAlreadyExists);
      }
      goals := goals[id := Goal(owner, target, 0, now)];
      return Ok(());
    }

    method ValidatePass(ids: seq<U32>, amounts: seq<I128>) returns (r: Result<map<U32, I128>, Error>)
      requires |ids| == |amounts|
      ensures r == Validate(goals, ids, amounts)
    {
      var pending: map<U32, I128> := map[];
      for i := 0 to |ids|
        invariant Validate(goals, ids[..i], amounts[..i]) == Ok(pending)
      {
        assert ids[..i + 1][..i] == ids[..i] && amounts[..i + 1][..i] == amounts[..i];
        var checked := CheckEntry(goals, pending, ids[i], amounts[i]);
        if checked.Abort? {
          ValidateAbortStays(goals, ids, amounts, i + 1);
          return Abort(checked.error);
        }
        pending := checked.value;
      }
      assert ids[..|ids|] == ids && amounts[..|ids|] == amounts;
      return Ok(pending);
    }

    method BatchContributeTo(user: Address, ids: seq<U32>, amounts: seq<I128>, now: U64) returns (r: Result<(), Error>)
      modifies this
      ensures (goals, r) == Step(old(goals), Event(now, BatchContribute(user, ids, amounts)))
    {
      if |ids| != |amounts| {
        return Abort(GoalAmountMismatch);
      }
      var checks := ValidatePass(ids, amounts);
      if checks.Abort? {
        return Abort(checks.error);
      }
      var before := goals;
      for i := 0 to |ids|
        invariant Apply(before, user, ids[..i], amounts[..i]) == Ok(goals)
      {
        assert ids[..i + 1][..i] == ids[..i] && amounts[..i + 1][..i] == amounts[..i];
        var next := Contribute(goals, user, ids[i], amounts[i]);
        if next.Abort? {
          ApplyAbortStays(before, user, ids, amounts, i + 1);
          goals := before;
          return Abort(next.error);
        }
        goals := next.value;
      }
      assert ids[..|ids|] == ids && amounts[..|ids|] == amounts;
      return Ok(());
    }
  }
}
