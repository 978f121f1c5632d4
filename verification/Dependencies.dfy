/** Transactions that wait for one other transaction; creation does not check that the other exists. */
module Dependencies {
  import opened Base

  datatype Transaction = Transaction(id: U64, creator: Address, dependency: Option<U64>, completed: bool)

  datatype Error = NotFound | DependencyNotFound | DependencyNotCompleted | Overflow

  datatype State = State(count: U64, txs: map<U64, Transaction>)

  datatype Reply = Created(id: U64) | Done

  datatype Op = Create(creator: Address, dependency: Option<U64>) | Execute(id: U64)

  function CreateStep(s: State, creator: Address, dependency: Option<U64>): (State, Result<Reply, Error>) {
    if s.count == U64_MAX then (s, Abort(Overflow))
    else
      var id := s.count + 1;
      (State(id, s.txs[id := Transaction(id, creator, dependency, false)]), Ok(Created(id)))
  }

  predicate Satisfied(s: State, tx: Transaction) {
    tx.dependency.Some? ==> tx.dependency.value in s.txs && s.txs[tx.dependency.value].completed
  }

  function ExecuteStep(s: State, id: U64): (State, Result<Reply, Error>) {
    if id !in s.txs then (s, Abort(NotFound))
    else
      var tx := s.txs[id];
      if tx.completed then (s, Ok(Done))
      else if tx.dependency.Some? && tx.dependency.value !in s.txs then (s, Abort(DependencyNotFound))
      else if !Satisfied(s, tx) then (s, Abort(DependencyNotCompleted))
      else (s.(txs := s.txs[id := tx.(completed := true)]), Ok(Done))
  }

  function Step(s: State, op: Op): (State, Result<Reply, Error>) {
    match op
    case Create(creator, dependency) => CreateStep(s, creator, dependency)
    case Execute(id) => ExecuteStep(s, id)
  }

  function Run(ops: seq<Op>): State {
    if ops == [] then State(0, map[]) else Step(Run(ops[..|ops| - 1]), ops[|ops| - 1]).0
  }

  predicate IsCompleted(s: State, id: U64) {
    id in s.txs && s.txs[id].completed
  }

  /** The ids completed in the run, in the order they were completed. */
  function Completions(ops: seq<Op>): seq<U64> {
    if ops == [] then []
    else
      var before, op := Run(ops[..|ops| - 1]), ops[|ops| - 1];
      Completions(ops[..|ops| - 1]) +
      if op.Execute? && !IsCompleted(before, op.id) && IsCompleted(Step(before, op).0, op.id) then [op.id] else []
  }

  predicate DependencyMet(s: State, order: seq<U64>, k: nat)
    requires k < |order|
  {
    order[k] in s.txs && (s.txs[order[k]].dependency.Some? ==> s.txs[order[k]].dependency.value in order[..k])
  }

  /** order lists the completed ids once each, every dependency before its dependent. */
  ghost predicate CompletedInOrder(s: State, order: seq<U64>) {
    && NoDuplicates(order)
    && (forall id :: id in order <==> IsCompleted(s, id))
    && (forall k: nat :: k < |order| ==> DependencyMet(s, order, k))
    && (forall id <- s.txs.Keys :: id <= s.count)
  }

  lemma {:induction false} OrderRun(ops: seq<Op>)
    ensures CompletedInOrder(Run(ops), Completions(ops))
  {
    if ops != [] {
      var init := ops[..|ops| - 1];
      OrderRun(init);
      OrderStep(Run(init), Completions(init), ops[|ops| - 1]);
    }
  }

  lemma OrderStep(s: State, order: seq<U64>, op: Op)
    requires CompletedInOrder(s, order)
    ensures CompletedInOrder(Step(s, op).0,
              order + if op.Execute? && !IsCompleted(s, op.id) && IsCompleted(Step(s, op).0, op.id) then [op.id] else [])
  {
    var s' := Step(s, op).0;
    var order' := order + if op.Execute? && !IsCompleted(s, op.id) && IsCompleted(s', op.id) then [op.id] else [];
    forall k: nat | k < |order'|
      ensures DependencyMet(s', order', k)
    {
      if k < |order| {
        assert DependencyMet(s, order, k) && order'[..k] == order[..k];
      } else {
        assert order'[..k] == order;
      }
    }
  }

  // ----- chains -----

  /** Each id on the path is the dependency of the one before it. */
  predicate IsChain(s: State, path: seq<U64>) {
    forall i :: 0 <= i < |path| - 1 ==> path[i] in s.txs && s.txs[path[i]].dependency == Some(path[i + 1])
  }

  function IndexIn(order: seq<U64>, id: U64): (k: nat)
    requires id in order
    ensures k < |order| && order[k] == id
  {
    if order[0] == id then 0 else IndexIn(order[1..], id) + 1
  }

  lemma {:induction false} ChainDescends(s: State, order: seq<U64>, path: seq<U64>, i: nat)
    requires CompletedInOrder(s, order) && IsChain(s, path) && path != [] && path[0] in order && i < |path|
    ensures path[i] in order && IndexIn(order, path[i]) + i <= IndexIn(order, path[0])
  {
    if i > 0 {
      ChainDescends(s, order, path, i - 1);
      var k := IndexIn(order, path[i - 1]);
      assert DependencyMet(s, order, k) && path[i - 1] == order[k];
      var j :| 0 <= j < k && order[..k][j] == path[i];
      assert order[IndexIn(order, path[i])] == order[j];
    }
  }

  /** In every run, everything a completed transaction depends on, directly or through others, is completed, each earlier
      than its dependent; the chain repeats nothing and is no longer than the number of completions. */
  lemma CompletedChain(ops: seq<Op>, path: seq<U64>)
    requires path != [] && IsChain(Run(ops), path) && IsCompleted(Run(ops), path[0])
    ensures forall i :: 0 <= i < |path| ==> IsCompleted(Run(ops), path[i])
    ensures forall i, j :: 0 <= i < j < |path| ==>
              path[i] in Completions(ops) && path[j] in Completions(ops) &&
              IndexIn(Completions(ops), path[j]) < IndexIn(Completions(ops), path[i])
    ensures NoDuplicates(path) && |path| <= |Completions(ops)|
  {
    OrderRun(ops);
    ChainInOrder(Run(ops), Completions(ops), path);
  }

  lemma ChainInOrder(s: State, order: seq<U64>, path: seq<U64>)
    requires CompletedInOrder(s, order) && IsChain(s, path) && path != [] && path[0] in order
    ensures forall i :: 0 <= i < |path| ==> path[i] in order
    ensures forall i, j :: 0 <= i < j < |path| ==> IndexIn(order, path[j]) < IndexIn(order, path[i])
    ensures NoDuplicates(path) && |path| <= |order|
  {
    forall i | 0 <= i < |path|
      ensures path[i] in order
    {
      ChainDescends(s, order, path, i);
    }
    forall i, j | 0 <= i < j < |path|
      ensures IndexIn(order, path[j]) < IndexIn(order, path[i])
    {
      assert IsChain(s, path[i..]);
      ChainDescends(s, order, path[i..], j - i);
    }
    ChainDescends(s, order, path, |path| - 1);
  }

  /** So a transaction that lies on a dependency cycle, or whose chain runs into one, is not completed in any run, although
      creation accepts self and forward references. */
  lemma CycleNeverCompletes(ops: seq<Op>, path: seq<U64>, i: nat, j: nat)
    requires i < j < |path| && IsChain(Run(ops), path) && path[i] == path[j]
    ensures !IsCompleted(Run(ops), path[0])
  {
    if IsCompleted(Run(ops), path[0]) {
      CompletedChain(ops, path);
    }
  }

  /** How many creations of a run succeeded; ids are handed out in that order. */
  function Creations(ops: seq<Op>): nat {
    if ops == [] then 0
    else Creations(ops[..|ops| - 1]) + if ops[|ops| - 1].Create? && Step(Run(ops[..|ops| - 1]), ops[|ops| - 1]).1.Ok? then 1 else 0
  }

  /** Operation i of the run is the creation that got this id, and the record is what it asked for. */
  predicate CreatedAs(ops: seq<Op>, i: nat, id: U64, tx: Transaction)
    requires i < |ops|
  {
    ops[i] == Create(tx.creator, tx.dependency) && Creations(ops[..i]) == id - 1 && tx.id == id
  }

  ghost predicate WasAsked(ops: seq<Op>, id: U64) {
    id in Run(ops).txs && exists i: nat :: i < |ops| && CreatedAs(ops, i, id, Run(ops).txs[id])
  }

  /** Over every run the stored ids are 1, 2, ... up to the number of creations, and each record still has the creator and the
      dependency that its creation named. */
  lemma {:induction false} RecordsAsAsked(ops: seq<Op>)
    ensures Run(ops).count == Creations(ops)
    ensures forall id: U64 :: id in Run(ops).txs <==> 1 <= id <= Creations(ops)
    ensures forall id: U64 :: 1 <= id <= Creations(ops) ==> WasAsked(ops, id)
  {
    if ops != [] {
      var init, op := ops[..|ops| - 1], ops[|ops| - 1];
      RecordsAsAsked(init);
      forall id: U64 | 1 <= id <= Creations(ops)
        ensures WasAsked(ops, id)
      {
        if id <= Creations(init) {
          assert WasAsked(init, id);
          var i: nat :| i < |init| && CreatedAs(init, i, id, Run(init).txs[id]);
          assert init[..i] == ops[..i];
          assert CreatedAs(ops, i, id, Run(ops).txs[id]);
        } else {
          assert ops[..|init|] == init && CreatedAs(ops, |init|, id, Run(ops).txs[id]);
        }
      }
    }
  }

  /** A creation succeeds exactly while ids last, whatever dependency it names, and adds one open transaction. */
  lemma CreatesExactly(s: State, creator: Address, dependency: Option<U64>)
    ensures var (after, r) := Step(s, Create(creator, dependency));
      && (r.Ok? <==> s.count < U64_MAX)
      && (r.Ok? ==> r.value == Created(s.count + 1)
                    && after == State(s.count + 1,
                                      s.txs[s.count + 1 := Transaction(s.count + 1, creator, dependency, false)]))
      && (r.Abort? ==> after == s && r.error == Overflow)
  {
  }

  /** In every run an execution succeeds exactly when the transaction exists and is completed already or waits for nothing
      unfinished; repeating it changes nothing and succeeds again, and no later call undoes it. */
  lemma ExecutesExactly(ops: seq<Op>, id: U64, later: Op)
    ensures var s := Run(ops);
      var (s', r) := Step(s, Execute(id));
      && (r.Ok? <==> id in s.txs && (s.txs[id].completed || s.txs[id].dependency.None?
                                     || IsCompleted(s, s.txs[id].dependency.value)))
      && (r.Ok? ==> IsCompleted(s', id) && Step(s', Execute(id)) == (s', Ok(Done)) && IsCompleted(Step(s', later).0, id))
      && (r.Abort? ==>
            && s' == s
            && r.error == if id !in s.txs then NotFound
                          else if s.txs[id].dependency.value !in s.txs then DependencyNotFound else DependencyNotCompleted)
  {
    RecordsAsAsked(ops);
    var (s', r) := Step(Run(ops), Execute(id));
    assert s'.count == Run(ops).count;
  }

  class DependencyContract {
    var count: U64
    var txs: map<U64, Transaction>

    ghost function View(): State
      reads this
    {
      State(count, txs)
    }

    constructor ()
      ensures View() == Run([])
    {
      count, txs := 0, map[];
    }

    method CreateTransaction(creator: Address, dependency: Option<U64>) returns (r: Result<Reply, Error>)
      modifies this
      ensures (View(), r) == Step(old(View()), Create(creator, dependency))
    {
      if count == U64_MAX {
        return Abort(Overflow);
      }
      count := count + 1;
      txs := txs[count := Transaction(count, creator, dependency, false)];
      return Ok(Created(count));
    }

    method ExecuteTransaction(id: U64) returns (r: Result<Reply, Error>)
      modifies this`txs
      ensures (View(), r) == Step(old(View()), Execute(id))
    {
      if id !in txs {
        return Abort(NotFound);
      }
      var tx := txs[id];
      if tx.completed {
        return Ok(Done);
      }
      if tx.dependency.Some? {
        if tx.dependency.value !in txs {
          return Abort(DependencyNotFound);
        }
        if !txs[tx.dependency.value].completed {
          return Abort(DependencyNotCompleted);
        }
      }
      txs := txs[id := tx.(completed := true)];
      return Ok(Done);
    }
  }
}
