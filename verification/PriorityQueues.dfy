/** Three priority queues with a starvation override that looks only at queue heads. */
module PriorityQueues {
  import opened Base

  const STARVATION_THRESHOLD := 60

  datatype Item = Item(id: U64, payload: nat, priority: U32, createdAt: U64)

  datatype Error = InvalidPriority | EmptyQueue | Overflow

  datatype State = State(nextId: U64, items: map<U64, Item>, high: seq<U64>, med: seq<U64>, low: seq<U64>)

  datatype Reply = Enqueued(id: U64) | Dequeued(item: Option<Item>)

  datatype Op = Enqueue(payload: nat, priority: U32) | Dequeue

  datatype Event = Event(now: U64, op: Op)

  // ----- steps -----

  function EnqueueStep(s: State, now: U64, payload: nat, priority: U32): (State, Result<Reply, Error>) {
    if priority > 2 then (s, Abort(InvalidPriority))
    else if s.nextId == U64_MAX then (s, Abort(Overflow))
    else
      var id := s.nextId + 1;
      var stored := s.(nextId := id, items := s.items[id := Item(id, payload, priority, now)]);
      (if priority == 0 then stored.(low := s.low + [id])
       else if priority == 1 then stored.(med := s.med + [id])
       else stored.(high := s.high + [id]),
       Ok(Enqueued(id)))
  }

  /** The clock difference saturates at zero. */
  predicate Waited(item: Item, now: U64) {
    now - item.createdAt > STARVATION_THRESHOLD
  }

  /** The head of the medium queue, else of the low queue, if it has waited too long; a head without an item traps. */
  function FindStarved(s: State, now: U64): Result<Option<U64>, Error> {
    if s.med != [] && s.med[0] !in s.items then Abort(EmptyQueue)
    else if s.med != [] && Waited(s.items[s.med[0]], now) then Ok(Some(s.med[0]))
    else if s.low != [] && s.low[0] !in s.items then Abort(EmptyQueue)
    else if s.low != [] && Waited(s.items[s.low[0]], now) then Ok(Some(s.low[0]))
    else Ok(None)
  }

  /** Hands out the item and forgets it; the queues are not touched. */
  function PopById(s: State, popped: State, id: U64): (State, Result<Reply, Error>) {
    if id !in s.items then (s, Abort(EmptyQueue))
    else (popped.(items := s.items - {id}), Ok(Dequeued(Some(s.items[id]))))
  }

  function DequeueStep(s: State, now: U64): (State, Result<Reply, Error>) {
    var starved := FindStarved(s, now);
    if starved.Abort? then (s, Abort(starved.error))
    else if starved.value.Some? then PopById(s, s, starved.value.value)
    else if s.high != [] then PopById(s, s.(high := s.high[1..]), s.high[0])
    else if s.med != [] then PopById(s, s.(med := s.med[1..]), s.med[0])
    else if s.low != [] then PopById(s, s.(low := s.low[1..]), s.low[0])
    else (s, Ok(Dequeued(None)))
  }

  function Step(s: State, e: Event): (State, Result<Reply, Error>) {
    match e.op
    case Enqueue(payload, priority) => EnqueueStep(s, e.now, payload, priority)
    case Dequeue => DequeueStep(s, e.now)
  }

  const Deployed: State := State(0, map[], [], [], [])

  function Run(events: seq<Event>): State {
    if events == [] then Deployed else Step(Run(events[..|events| - 1]), events[|events| - 1]).0
  }

  ghost predicate Chronological(events: seq<Event>) {
    forall i, j :: 0 <= i < j < |events| ==> events[i].now <= events[j].now
  }

  // ----- soundness -----

  /** The queue lists the live ids of its priority, each once, oldest first. */
  ghost predicate Lists(q: seq<U64>, items: map<U64, Item>, priority: int) {
    && (forall i, j :: 0 <= i < j < |q| ==> q[i] < q[j])
    && (forall id <- q :: id in items && items[id].priority == priority)
    && (forall id <- items.Keys :: items[id].priority == priority ==> id in q)
  }

  ghost predicate Sound(s: State) {
    Lists(s.high, s.items, 2) && Lists(s.med, s.items, 1) && Lists(s.low, s.items, 0)
  }

  /** Ids are handed out in order of time. */
  ghost predicate Timed(s: State, now: int) {
    && (forall id <- s.items.Keys :: id <= s.nextId && s.items[id].id == id && s.items[id].priority <= 2
                                     && s.items[id].createdAt <= now)
    && (forall a, b :: a in s.items && b in s.items && a < b ==> s.items[a].createdAt <= s.items[b].createdAt)
  }

  /** Some medium or low item has waited too long. */
  ghost predicate SomeStarved(s: State, now: U64) {
    exists id <- s.items.Keys :: s.items[id].priority <= 1 && now - s.items[id].createdAt > 60
  }

  lemma HeadIsOldest(q: seq<U64>, s: State, priority: int, now: int, id: U64)
    requires Lists(q, s.items, priority) && Timed(s, now) && id in s.items && s.items[id].priority == priority
    ensures q != [] && q[0] in s.items && q[0] <= id && s.items[q[0]].createdAt <= s.items[id].createdAt
  {
    var i :| 0 <= i < |q| && q[i] == id;
    assert q[0] in q;
  }

  /** In a sound state the two heads decide whether anything at all has starved, and nothing traps. */
  lemma StarvedExactly(s: State, now: U64)
    requires Sound(s) && Timed(s, now)
    ensures FindStarved(s, now).Ok?
    ensures FindStarved(s, now).value.Some? <==> SomeStarved(s, now)
    ensures var f := FindStarved(s, now).value;
      f.Some? ==> f.value in s.items && s.items[f.value].priority <= 1 && now - s.items[f.value].createdAt > 60
  {
    assert s.med != [] ==> s.med[0] in s.med;
    assert s.low != [] ==> s.low[0] in s.low;
    if id :| id in s.items && s.items[id].priority <= 1 && Waited(s.items[id], now) {
      if s.items[id].priority == 1 {
        HeadIsOldest(s.med, s, 1, now, id);
      } else {
        HeadIsOldest(s.low, s, 0, now, id);
      }
    }
  }

  /** The item a dequeue should hand out when nothing has starved: the oldest of the highest priority present. */
  ghost predicate IsNext(s: State, id: U64) {
    && id in s.items
    && (forall x <- s.items.Keys :: s.items[x].priority <= s.items[id].priority)
    && (forall x <- s.items.Keys :: s.items[x].priority == s.items[id].priority ==> id <= x)
  }

  /** From a sound state, when nothing has starved, a dequeue removes exactly that item and stays sound; it answers nothing
      only when no item is left. */
  lemma FairDequeue(s: State, now: U64)
    requires Sound(s) && Timed(s, now) && !SomeStarved(s, now)
    ensures var (s', r) := DequeueStep(s, now);
      && r.Ok? && r.value.Dequeued? && Sound(s') && Timed(s', now)
      && (r.value.item.None? ==> s.items == map[] && s' == s)
      && (r.value.item.Some? ==>
            var item := r.value.item.value;
            IsNext(s, item.id) && item == s.items[item.id] && s'.items == s.items - {item.id} && s'.nextId == s.nextId)
  {
    StarvedExactly(s, now);
    if s.high != [] {
      PopHead(s, s.high, 2, now);
      OtherQueueKept(s.med, s.items, 1, s.high[0]);
      OtherQueueKept(s.low, s.items, 0, s.high[0]);
    } else if s.med != [] {
      PopHead(s, s.med, 1, now);
      OtherQueueKept(s.high, s.items, 2, s.med[0]);
      OtherQueueKept(s.low, s.items, 0, s.med[0]);
    } else if s.low != [] {
      PopHead(s, s.low, 0, now);
      OtherQueueKept(s.high, s.items, 2, s.low[0]);
      OtherQueueKept(s.med, s.items, 1, s.low[0]);
    } else {
      assert s.items == map[] by {
        assert forall id :: id !in s.items;
      }
    }
  }

  lemma PopHead(s: State, q: seq<U64>, priority: int, now: U64)
    requires Lists(q, s.items, priority) && q != [] && Timed(s, now)
    ensures q[0] in s.items && s.items[q[0]].id == q[0] && s.items[q[0]].priority == priority
    ensures Lists(q[1..], s.items - {q[0]}, priority)
    ensures forall x <- s.items.Keys :: s.items[x].priority == priority ==> q[0] <= x
  {
    assert q[0] in q;
    forall x <- s.items.Keys | s.items[x].priority == priority
      ensures q[0] <= x && (x != q[0] ==> x in q[1..])
    {
      HeadIsOldest(q, s, priority, now, x);
      var i :| 0 <= i < |q| && q[i] == x;
      assert i > 0 ==> q[1..][i - 1] == x;
    }
    forall x <- q[1..]
      ensures x in s.items - {q[0]} && s.items[x].priority == priority
    {
      assert x in q;
    }
  }

  /** Removing an item of another priority does not affect a queue. */
  lemma OtherQueueKept(q: seq<U64>, items: map<U64, Item>, priority: int, id: U64)
    requires Lists(q, items, priority) && id in items && items[id].priority != priority
    ensures Lists(q, items - {id}, priority)
  {
  }

  // ----- runs -----

  predicate UpTo(q: seq<U64>, n: U64) {
    forall i :: 0 <= i < |q| ==> q[i] <= n
  }

  ghost predicate Numbered(s: State) {
    UpTo(s.high, s.nextId) && UpTo(s.med, s.nextId) && UpTo(s.low, s.nextId)
  }

  /** An item is accepted exactly with a priority up to 2 while ids last; it gets the next id, is stored with its payload, and
      goes to the back of the queue of its priority: 0 low, 1 medium, 2 high. */
  lemma EnqueuesExactly(s: State, now: U64, payload: nat, priority: U32)
    ensures var (after, r) := EnqueueStep(s, now, payload, priority);
      && (r.Ok? <==> priority <= 2 && s.nextId < U64_MAX)
      && (r.Abort? ==> after == s && r.error == if priority > 2 then InvalidPriority else Overflow)
      && (r.Ok? ==>
            var id := s.nextId + 1;
            && r.value == Enqueued(id) && after.nextId == id
            && after.items == s.items[id := Item(id, payload, priority, now)]
            && after.low == s.low + (if priority == 0 then [id] else [])
            && after.med == s.med + (if priority == 1 then [id] else [])
            && after.high == s.high + if priority == 2 then [id] else [])
  {
  }

  lemma EnqueueKeepsTimed(s: State, now: U64, payload: nat, priority: U32, last: int)
    requires Timed(s, last) && Numbered(s) && last <= now
    ensures Timed(EnqueueStep(s, now, payload, priority).0, now) && Numbered(EnqueueStep(s, now, payload, priority).0)
  {
  }

  /** A fresh id at the back of its queue, and no change to a queue of another priority. */
  lemma Appended(q: seq<U64>, items: map<U64, Item>, priority: int, n: U64, item: Item)
    requires Lists(q, items, priority) && UpTo(q, n) && n < item.id && item.id !in items
    ensures item.priority == priority ==> Lists(q + [item.id], items[item.id := item], priority)
    ensures item.priority != priority ==> Lists(q, items[item.id := item], priority)
  {
  }

  lemma EnqueueKeepsSound(s: State, now: U64, payload: nat, priority: U32, last: int)
    requires Timed(s, last) && Numbered(s) && Sound(s)
    ensures Sound(EnqueueStep(s, now, payload, priority).0)
  {
    if EnqueueStep(s, now, payload, priority).1.Ok? {
      var item := Item(s.nextId + 1, payload, priority, now);
      assert item.id !in s.items;
      Appended(s.high, s.items, 2, s.nextId, item);
      Appended(s.med, s.items, 1, s.nextId, item);
      Appended(s.low, s.items, 0, s.nextId, item);
      var s' := EnqueueStep(s, now, payload, priority).0;
      assert s'.items == s.items[item.id := item];
      assert Lists(s'.high, s'.items, 2);
      assert Lists(s'.med, s'.items, 1);
      assert Lists(s'.low, s'.items, 0);
    }
  }

  lemma DequeueKeepsTimed(s: State, now: U64, last: int)
    requires Timed(s, last) && last <= now
    ensures Timed(DequeueStep(s, now).0, now)
  {
    var s' := DequeueStep(s, now).0;
    assert s'.nextId == s.nextId && forall id <- s'.items.Keys :: id in s.items && s'.items[id] == s.items[id];
  }

  lemma DequeueKeepsNumbered(s: State, now: U64)
    requires Numbered(s)
    ensures Numbered(DequeueStep(s, now).0)
  {
  }

  /** The step hands out a starved item. */
  ghost predicate TakesStarved(s: State, e: Event) {
    e.op == Dequeue && FindStarved(s, e.now).Ok? && FindStarved(s, e.now).value.Some? && Step(s, e).1.Ok?
  }

  ghost predicate SomeStarvedTaken(events: seq<Event>) {
    exists i :: 0 <= i < |events| && TakesStarved(Run(events[..i]), events[i])
  }

  /** A queue whose head names no item: what taking a starved item leaves behind. */
  ghost predicate MedStale(s: State) {
    s.med != [] && s.med[0] !in s.items && s.med[0] <= s.nextId
  }

  ghost predicate LowStale(s: State) {
    s.low != [] && s.low[0] !in s.items && s.low[0] <= s.nextId
  }

  lemma StarvedLeavesStale(s: State, e: Event)
    requires Numbered(s) && TakesStarved(s, e)
    ensures MedStale(Step(s, e).0) || (LowStale(Step(s, e).0) && !MedStale(s))
  {
  }

  /** A stale medium head stays, and no dequeue ever succeeds again. */
  lemma MedStaleForever(s: State, e: Event)
    requires MedStale(s)
    ensures MedStale(Step(s, e).0) && (e.op == Dequeue ==> Step(s, e).1 == Abort(EmptyQueue))
  {
  }

  /** A stale low head stays; the only dequeue that can still succeed takes a starved medium item, and makes that queue's
      head stale too. */
  lemma LowStaleForever(s: State, e: Event)
    requires LowStale(s) && Numbered(s)
    ensures LowStale(Step(s, e).0)
    ensures e.op == Dequeue && Step(s, e).1.Ok? ==> TakesStarved(s, e) && MedStale(Step(s, e).0)
    ensures e.op == Dequeue && Step(s, e).1.Abort? ==> Step(s, e) == (s, Abort(EmptyQueue))
  {
  }

  /** How many dequeues succeeded after a starved item had been taken. */
  ghost function LateDequeues(events: seq<Event>): nat {
    if events == [] then 0
    else
      var init, e := events[..|events| - 1], events[|events| - 1];
      LateDequeues(init) + if SomeStarvedTaken(init) && e.op == Dequeue && Step(Run(init), e).1.Ok? then 1 else 0
  }

  lemma TakenSplit(events: seq<Event>)
    requires events != []
    ensures var init, e := events[..|events| - 1], events[|events| - 1];
      SomeStarvedTaken(events) <==> SomeStarvedTaken(init) || TakesStarved(Run(init), e)
  {
    var init, e := events[..|events| - 1], events[|events| - 1];
    if i :| 0 <= i < |events| && TakesStarved(Run(events[..i]), events[i]) {
      if i < |init| {
        assert init[..i] == events[..i];
      }
    }
    if i :| 0 <= i < |init| && TakesStarved(Run(init[..i]), init[i]) {
      assert init[..i] == events[..i];
      assert TakesStarved(Run(events[..i]), events[i]);
    }
  }

  /** What is known after a run: no starved item taken and everything sound, or one taken and a stale head for ever. */
  ghost predicate Outcome(events: seq<Event>, now: int) {
    var s := Run(events);
    && Timed(s, now) && Numbered(s)
    && (if SomeStarvedTaken(events) then MedStale(s) || (LowStale(s) && LateDequeues(events) == 0) else Sound(s))
    && LateDequeues(events) <= (if SomeStarvedTaken(events) then 1 else 0)
  }

  lemma {:induction false} OutcomeOfRun(events: seq<Event>)
    requires Chronological(events)
    ensures Outcome(events, if events == [] then 0 else events[|events| - 1].now)
  {
    if events != [] {
      var init, e := events[..|events| - 1], events[|events| - 1];
      var last := if init == [] then 0 else init[|init| - 1].now;
      OutcomeOfRun(init);
      TakenSplit(events);
      var s := Run(init);
      match e.op {
        case Enqueue(payload, priority) => EnqueueKeepsTimed(s, e.now, payload, priority, last);
        case Dequeue =>
          DequeueKeepsTimed(s, e.now, last);
          DequeueKeepsNumbered(s, e.now);
      }
      if SomeStarvedTaken(init) {
        StaleStep(s, e);
      } else {
        SoundStep(s, e);
      }
    }
  }

  lemma StaleStep(s: State, e: Event)
    requires Numbered(s) && (MedStale(s) || LowStale(s))
    ensures MedStale(s) ==> MedStale(Step(s, e).0) && !(e.op == Dequeue && Step(s, e).1.Ok?)
    ensures !MedStale(s) ==> if e.op == Dequeue && Step(s, e).1.Ok? then MedStale(Step(s, e).0) else LowStale(Step(s, e).0)
  {
    if MedStale(s) {
      MedStaleForever(s, e);
    } else {
      LowStaleForever(s, e);
    }
  }

  lemma SoundStep(s: State, e: Event)
    requires Sound(s) && Numbered(s) && Timed(s, e.now)
    ensures if TakesStarved(s, e) then MedStale(Step(s, e).0) || LowStale(Step(s, e).0) else Sound(Step(s, e).0)
  {
    match e.op {
      case Enqueue(payload, priority) => EnqueueKeepsSound(s, e.now, payload, priority, e.now);
      case Dequeue =>
        StarvedExactly(s, e.now);
        if TakesStarved(s, e) {
          StarvedLeavesStale(s, e);
        } else if !SomeStarved(s, e.now) {
          FairDequeue(s, e.now);
        }
    }
  }

  /** In every run the queues still list exactly the live items, in order, if and only if no starved item was ever taken. */
  lemma SoundExactly(events: seq<Event>)
    requires Chronological(events)
    ensures Sound(Run(events)) <==> !SomeStarvedTaken(events)
  {
    OutcomeOfRun(events);
    var s := Run(events);
    if MedStale(s) {
      assert s.med[0] in s.med;
    } else if LowStale(s) {
      assert s.low[0] in s.low;
    }
  }

  /** After the first starved item is taken, at most one more dequeue ever succeeds, however long the run goes on. */
  lemma AtMostOneLateDequeue(events: seq<Event>)
    requires Chronological(events)
    ensures LateDequeues(events) <= 1
  {
    OutcomeOfRun(events);
  }

  /** The starved item to hand out: the oldest medium item if that has starved, else the oldest low item. */
  ghost predicate IsStarvedPick(s: State, now: U64, id: U64) {
    && id in s.items && s.items[id].priority <= 1 && now - s.items[id].createdAt > 60
    && (forall x <- s.items.Keys :: s.items[x].priority == s.items[id].priority ==> id <= x)
    && (forall x <- s.items.Keys :: s.items[x].priority == 1 && now - s.items[x].createdAt > 60 ==> s.items[id].priority == 1)
  }

  /** From a sound state a starved dequeue hands out that item, however many high items wait, and leaves its id queued. */
  lemma StarvedDequeue(s: State, now: U64)
    requires Sound(s) && Timed(s, now) && SomeStarved(s, now)
    ensures var (s', r) := DequeueStep(s, now);
      && r.Ok? && r.value.Dequeued? && r.value.item.Some?
      && IsStarvedPick(s, now, r.value.item.value.id)
      && s' == s.(items := s.items - {r.value.item.value.id})
  {
    StarvedExactly(s, now);
    var id := FindStarved(s, now).value.value;
    if s.items[id].priority == 1 {
      PopHead(s, s.med, 1, now);
    } else {
      PopHead(s, s.low, 0, now);
    }
    forall x <- s.items.Keys | s.items[x].priority == 1 && Waited(s.items[x], now)
      ensures s.items[id].priority == 1
    {
      HeadIsOldest(s.med, s, 1, now, x);
      assert s.med[0] in s.med;
    }
  }

  /** While no starved item has been taken, a dequeue succeeds, hands out a starved item exactly when some medium or low item
      has waited more than the threshold, the oldest of its queue and medium before low, and otherwise the oldest item of the
      highest priority present. */
  lemma DequeueInSoundRun(events: seq<Event>, now: U64)
    requires Chronological(events + [Event(now, Dequeue)]) && !SomeStarvedTaken(events)
    ensures var s := Run(events);
      var (s', r) := DequeueStep(s, now);
      && r.Ok? && r.value.Dequeued?
      && (TakesStarved(s, Event(now, Dequeue)) <==> SomeStarved(s, now))
      && (SomeStarved(s, now) ==> r.value.item.Some? && IsStarvedPick(s, now, r.value.item.value.id))
      && (!SomeStarved(s, now) ==>
            && (r.value.item.None? ==> s.items == map[])
            && (r.value.item.Some? ==> IsNext(s, r.value.item.value.id)
                                       && s'.items == s.items - {r.value.item.value.id}))
  {
    var s, all := Run(events), events + [Event(now, Dequeue)];
    assert Chronological(events) by {
      forall i, j | 0 <= i < j < |events|
        ensures events[i].now <= events[j].now
      {
        assert all[i] == events[i] && all[j] == events[j];
      }
    }
    OutcomeOfRun(events);
    assert events != [] ==> all[|events| - 1] == events[|events| - 1] && all[|events|] == Event(now, Dequeue);
    assert Timed(s, now);
    StarvedExactly(s, now);
    if SomeStarved(s, now) {
      StarvedDequeue(s, now);
    } else {
      FairDequeue(s, now);
    }
  }

  // ----- runs in which a starved item is taken -----

  lemma RunOfOne(e: Event)
    ensures Run([e]) == Step(Deployed, e).0
  {
    assert [e][..0] == [];
  }

  lemma RunExtends(events: seq<Event>, e: Event)
    ensures Run(events + [e]) == Step(Run(events), e).0
    ensures SomeStarvedTaken(events + [e]) <==> SomeStarvedTaken(events) || TakesStarved(Run(events), e)
    ensures LateDequeues(events + [e]) ==
              LateDequeues(events) + if SomeStarvedTaken(events) && e.op == Dequeue && Step(Run(events), e).1.Ok? then 1 else 0
  {
    assert (events + [e])[..|events|] == events;
    TakenSplit(events + [e]);
  }

  /** A medium item queued at 0 and taken at 61 leaves the queue unsound, and no later dequeue succeeds. */
  lemma StarvedRunBreaks(payload: nat, now: U64)
    ensures var events := [Event(0, Enqueue(payload, 1))] + [Event(61, Dequeue)];
      && Chronological(events) && SomeStarvedTaken(events) && !Sound(Run(events))
      && Run(events).items == map[] && Run(events).med == [1]
      && Step(Run(events), Event(now, Dequeue)).1 == Abort(EmptyQueue)
  {
    var first, second := Event(0, Enqueue(payload, 1)), Event(61, Dequeue);
    RunOfOne(first);
    var s := Run([first]);
    assert s == State(1, map[1 := Item(1, payload, 1, 0)], [], [1], []);
    RunExtends([first], second);
    assert Run([first] + [second]) == State(1, map[], [], [1], []) by {
      assert s.items - {1} == map[];
    }
    assert 1 in Run([first] + [second]).med;
  }

  /** The bound on late dequeues is reached: a starved low item is taken, and then a medium item that has starved too. */
  lemma LateDequeueReached(payload: nat)
    ensures var events := [Event(0, Enqueue(payload, 0))] + [Event(61, Dequeue)] + [Event(61, Enqueue(payload, 1))]
                          + [Event(122, Dequeue)];
      Chronological(events) && LateDequeues(events) == 1
  {
    var a, b, c, d := Event(0, Enqueue(payload, 0)), Event(61, Dequeue), Event(61, Enqueue(payload, 1)), Event(122, Dequeue);
    RunOfOne(a);
    assert Run([a]) == State(1, map[1 := Item(1, payload, 0, 0)], [], [], [1]);
    NothingLate(a);
    RunExtends([a], b);
    assert Run([a] + [b]) == State(1, map[], [], [], [1]) by {
      assert Run([a]).items - {1} == map[];
    }
    RunExtends([a] + [b], c);
    assert Run([a] + [b] + [c]) == State(2, map[2 := Item(2, payload, 1, 61)], [], [2], [1]);
    RunExtends([a] + [b] + [c], d);
  }

  lemma NothingLate(e: Event)
    requires e.op.Enqueue?
    ensures LateDequeues([e]) == 0 && !SomeStarvedTaken([e])
  {
    assert [e][..0] == [];
  }

  // ----- the contract -----

  class PriorityContract {
    var nextId: U64
    var items: map<U64, Item>
    var high: seq<U64>
    var med: seq<U64>
    var low: seq<U64>

    ghost function View(): State
      reads this
    {
      State(nextId, items, high, med, low)
    }

    constructor ()
      ensures View() == Deployed
    {
      nextId, items, high, med, low := 0, map[], [], [], [];
    }

    method EnqueueItem(payload: nat, priority: U32, now: U64) returns (r: Result<Reply, Error>)
      modifies this
      ensures (View(), r) == Step(old(View()), Event(now, Enqueue(payload, priority)))
    {
      if priority > 2 {
        return Abort(InvalidPriority);
      }
      if nextId == U64_MAX {
        return Abort(Overflow);
      }
      nextId := nextId + 1;
      items := items[nextId := Item(nextId, payload, priority, now)];
      if priority == 0 {
        low := low + [nextId];
      } else if priority == 1 {
        med := med + [nextId];
      } else {
        high := high + [nextId];
      }
      return Ok(Enqueued(nextId));
    }

    /** The starvation scan: the medium head, then the low head. */
    method FindStarvedHead(now: U64) returns (r: Result<Option<U64>, Error>)
      ensures r == FindStarved(View(), now)
    {
      if |med| > 0 {
        if med[0] !in items {
          return Abort(EmptyQueue);
        }
        if now - items[med[0]].createdAt > STARVATION_THRESHOLD {
          return Ok(Some(med[0]));
        }
      }
      if |low| > 0 {
        if low[0] !in items {
          return Abort(EmptyQueue);
        }
        if now - items[low[0]].createdAt > STARVATION_THRESHOLD {
          return Ok(Some(low[0]));
        }
      }
      return Ok(None);
    }

    /** Copies all but the head, one element at a time. */
    static method PopFront(q: seq<U64>) returns (id: U64, rest: seq<U64>)
      requires q != []
      ensures id == q[0] && rest == q[1..]
    {
      id, rest := q[0], [];
      var i := 1;
      while i < |q|
        invariant 1 <= i <= |q| && rest == q[1..i]
      {
        rest := rest + [q[i]];
        i := i + 1;
      }
    }

    method DequeueItem(now: U64) returns (r: Result<Reply, Error>)
      modifies this
      ensures (View(), r) == Step(old(View()), Event(now, Dequeue))
    {
      var starved := FindStarvedHead(now);
      if starved.Abort? {
        return Abort(starved.error);
      }
      var id;
      var newHigh, newMed, newLow := high, med, low;
      if starved.value.Some? {
        id := starved.value.value;
      } else if |high| > 0 {
        id, newHigh := PopFront(high);
      } else if |med| > 0 {
        id, newMed := PopFront(med);
      } else if |low| > 0 {
        id, newLow := PopFront(low);
      } else {
        return Ok(Dequeued(None));
      }
      if id !in items {
        return Abort(EmptyQueue);
      }
      var item := items[id];
      items := items - {id};
      high, med, low := newHigh, newMed, newLow;
      return Ok(Dequeued(Some(item)));
    }
  }
}
