/** The per-validator queue of DKG tasks, driven by canonical-block heartbeats. */
module DkgQueue {
  import opened Basics
  import opened Outcomes

  type Hash = nat

  datatype Call = Share | Reshare | Recover | ReshareRecovered

  datatype TaskId = TaskId(round: nat, call: Call, sender: nat)

  datatype Plan = Plan(id: TaskId, endHeight: nat, recovery: seq<nat>)

  datatype State =
    | Unprepared
    | Preparing
    | Ready(ready: Bytes)
    | Submitting(sending: Bytes)
    | Submitted(sent: Bytes, hash: Hash, sendHeight: nat)
    | Checking(checkedData: Bytes, checkedHash: Hash, checkedHeight: nat)

  datatype Task = Task(plan: Plan, state: State)

  datatype Queue = Queue(tasks: map<TaskId, Task>, order: seq<TaskId>)

  datatype Action =
    | Prepare(id: TaskId, plan: Plan)
    | Submit(id: TaskId, calldata: Bytes)
    | CheckReceipt(id: TaskId, transaction: Hash)
    | Expire(id: TaskId)

  datatype Receipt = Succeeded | Reverted | Missing

  datatype QueueError = UnknownTask | UnexpectedState | InvalidCalldata

  const EMPTY := Queue(map[], [])

  /** Tasks sit under their own identity and the order lists each once. */
  ghost predicate Valid(q: Queue)
  {
    && (forall i, j :: 0 <= i < j < |q.order| ==> q.order[i] != q.order[j])
    && (forall id :: id in q.order <==> id in q.tasks)
    && (forall id :: id in q.tasks ==> q.tasks[id].plan.id == id)
  }

  /** The calldata a task has, once it was prepared. */
  function Calldata(s: State): Option<Bytes>
  {
    match s
    case Unprepared => None
    case Preparing => None
    case Ready(c) => Some(c)
    case Submitting(c) => Some(c)
    case Submitted(c, _, _) => Some(c)
    case Checking(c, _, _) => Some(c)
  }

  /** Calldata is never replaced: a task that has some keeps it for as long as it is queued. */
  ghost predicate KeepsCalldata(before: Queue, after: Queue)
  {
    forall id :: id in before.tasks && id in after.tasks && Calldata(before.tasks[id].state).Some? ==>
      Calldata(after.tasks[id].state) == Calldata(before.tasks[id].state)
  }

  // ---------------------------------------------------------------------------
  // Queueing
  // ---------------------------------------------------------------------------

  /** `enqueue`: new tasks go last, unprepared; a queued task is not planned twice. */
  method Enqueue(q: Queue, plans: seq<Plan>) returns (r: Queue, inserted: nat)
    requires Valid(q)
    ensures Valid(r) && q.order <= r.order && inserted == |r.order| - |q.order|
    ensures forall id :: id in r.tasks <==> id in q.tasks || exists i :: 0 <= i < |plans| && plans[i].id == id
    ensures forall id :: id in q.tasks ==> id in r.tasks && r.tasks[id] == q.tasks[id]
    ensures forall id :: id in r.tasks && id !in q.tasks ==>
      r.tasks[id].state == Unprepared && r.tasks[id].plan in plans
  {
    r, inserted := q, 0;
    for n := 0 to |plans|
      invariant Valid(r) && q.order <= r.order && inserted == |r.order| - |q.order|
      invariant forall id :: id in r.tasks <==> id in q.tasks || exists i :: 0 <= i < n && plans[i].id == id
      invariant forall id :: id in q.tasks ==> id in r.tasks && r.tasks[id] == q.tasks[id]
      invariant forall id :: id in r.tasks && id !in q.tasks ==>
        r.tasks[id].state == Unprepared && r.tasks[id].plan in plans
    {
      var id := plans[n].id;
      if id !in r.tasks {
        r := Queue(r.tasks[id := Task(plans[n], Unprepared)], r.order + [id]);
        inserted := inserted + 1;
      }
    }
  }

  function Kept(order: seq<TaskId>, tasks: map<TaskId, Task>): seq<TaskId>
  {
    if order == [] then [] else
      var last := order[|order| - 1];
      Kept(order[..|order| - 1], tasks) + if last in tasks then [last] else []
  }

  lemma {:induction false} KeptMembers(order: seq<TaskId>, tasks: map<TaskId, Task>)
    ensures forall id :: id in Kept(order, tasks) <==> id in order && id in tasks
  {
    if order != [] {
      var rest, last := order[..|order| - 1], order[|order| - 1];
      KeptMembers(rest, tasks);
      assert order == rest + [last];
      assert Kept(order, tasks) == Kept(rest, tasks) + if last in tasks then [last] else [];
    }
  }

  lemma {:induction false} KeptAll(order: seq<TaskId>, tasks: map<TaskId, Task>)
    requires forall id :: id in order ==> id in tasks
    ensures Kept(order, tasks) == order
  {
    if order != [] {
      var rest, last := order[..|order| - 1], order[|order| - 1];
      assert forall id :: id in rest ==> id in order;
      KeptAll(rest, tasks);
      assert last in order && order == rest + [last];
    }
  }

  lemma {:induction false} KeptTwice(order: seq<TaskId>, a: map<TaskId, Task>, b: map<TaskId, Task>)
    requires b.Keys <= a.Keys
    ensures Kept(Kept(order, a), b) == Kept(order, b)
  {
    if order != [] {
      var rest, last := order[..|order| - 1], order[|order| - 1];
      KeptTwice(rest, a, b);
      assert Kept(order, b) == Kept(rest, b) + if last in b then [last] else [];
      if last in a {
        assert Kept(order, a)[..|Kept(rest, a)|] == Kept(rest, a);
      } else {
        assert Kept(order, a) == Kept(rest, a) && last !in b.Keys;
      }
    }
  }

  lemma {:induction false} KeptDistinct(order: seq<TaskId>, tasks: map<TaskId, Task>)
    requires forall i, j :: 0 <= i < j < |order| ==> order[i] != order[j]
    ensures forall i, j :: 0 <= i < j < |Kept(order, tasks)| ==> Kept(order, tasks)[i] != Kept(order, tasks)[j]
  {
    if order != [] {
      var rest, last := order[..|order| - 1], order[|order| - 1];
      KeptDistinct(rest, tasks);
      KeptMembers(rest, tasks);
      assert last !in rest;
      assert forall i :: 0 <= i < |Kept(rest, tasks)| ==> Kept(rest, tasks)[i] in rest;
    }
  }

  /** Dropping tasks and their places in the order. */
  lemma RemovalKeepsValid(q: Queue, tasks: map<TaskId, Task>)
    requires Valid(q) && forall id :: id in tasks ==> id in q.tasks && tasks[id].plan.id == id
    ensures Valid(Queue(tasks, Kept(q.order, tasks)))
  {
    KeptMembers(q.order, tasks);
    KeptDistinct(q.order, tasks);
  }

  /** `retire`. */
  function Retire(q: Queue, id: TaskId): Queue
  {
    var tasks := q.tasks - {id};
    Queue(tasks, Kept(q.order, tasks))
  }

  lemma RetireKeepsValid(q: Queue, id: TaskId)
    requires Valid(q)
    ensures Valid(Retire(q, id))
  {
    RemovalKeepsValid(q, q.tasks - {id});
  }

  // ---------------------------------------------------------------------------
  // Starting actions
  // ---------------------------------------------------------------------------

  /** What a heartbeat does with one live task: its next state and the action asked for, if any. */
  function Started(task: Task, height: nat, mayPrepare: bool): State
  {
    match task.state
    case Unprepared => if mayPrepare then Preparing else Unprepared
    case Ready(c) => Submitting(c)
    case Submitted(c, h, sendHeight) => if height >= sendHeight + 3 then Checking(c, h, sendHeight) else task.state
    case _ => task.state
  }

  predicate Fits(id: TaskId, before: Task, after: Task, action: Action)
  {
    && action.id == id && after.plan == before.plan
    && match action
       case Prepare(_, plan) => before.state.Unprepared? && after.state == Preparing && plan == before.plan
       case Submit(_, c) => before.state == Ready(c) && after.state == Submitting(c)
       case CheckReceipt(_, h) =>
         && (before.state.Submitted? || before.state.Checking?)
         && after.state.Checking? && after.state.checkedHash == h
         && Calldata(after.state) == Calldata(before.state)
       case Expire(_) => false
  }

  function IsPrepare(a: Action): nat
  {
    if a.Prepare? then 1 else 0
  }

  function Prepares(actions: seq<Action>): nat
  {
    if actions == [] then 0 else Prepares(actions[..|actions| - 1]) + IsPrepare(actions[|actions| - 1])
  }

  /** No task is named by two actions. */
  ghost predicate DistinctIds(actions: seq<Action>)
  {
    forall i, j :: 0 <= i < j < |actions| ==> actions[i].id != actions[j].id
  }

  function IdsOf(actions: seq<Action>): set<TaskId>
  {
    set a | a in actions :: a.id
  }

  /** The actions name live tasks and describe what became of them; every other task is as before. */
  ghost predicate Describes(before: map<TaskId, Task>, after: map<TaskId, Task>, actions: seq<Action>)
  {
    && after.Keys == before.Keys
    && (forall a :: a in actions ==> a.id in before && Fits(a.id, before[a.id], after[a.id], a))
    && (forall id :: id in before && id !in IdsOf(actions) ==> after[id] == before[id])
  }

  /** The submissions and receipt checks among some actions. */
  function Sends(actions: seq<Action>): seq<Action>
  {
    if actions == [] then [] else
      var last := actions[|actions| - 1];
      Sends(actions[..|actions| - 1]) + if last.Submit? || last.CheckReceipt? then [last] else []
  }

  /** What a live task with calldata asks for, preparations aside. */
  function DueOf(id: TaskId, task: Task, height: nat): seq<Action>
  {
    var action := ActionFor(id, task, Started(task, height, false));
    if height < task.plan.endHeight && action.Some? then [action.value] else []
  }

  /** The submissions and receipt checks a heartbeat owes these tasks, in queue order. */
  function Due(order: seq<TaskId>, tasks: map<TaskId, Task>, height: nat): seq<Action>
  {
    if order == [] then [] else
      var last := order[|order| - 1];
      Due(order[..|order| - 1], tasks, height) + if last in tasks then DueOf(last, tasks[last], height) else []
  }

  /** Every task in `done` has started what it was ready for, unless it waits for its preparation. */
  ghost predicate Advanced(live: map<TaskId, Task>, tasks: map<TaskId, Task>, done: seq<TaskId>, height: nat,
                           full: bool)
    requires tasks.Keys == live.Keys
  {
    forall id :: id in live ==>
      if id in done then
        || tasks[id].state == Started(live[id], height, true)
        || (full && tasks[id] == live[id] && tasks[id].state == Unprepared)
      else tasks[id] == live[id]
  }

  /** The expired tasks, in queue order. */
  function Expired(order: seq<TaskId>, tasks: map<TaskId, Task>, height: nat): seq<TaskId>
  {
    if order == [] then [] else
      var last := order[|order| - 1];
      Expired(order[..|order| - 1], tasks, height) +
      if last in tasks && height >= tasks[last].plan.endHeight then [last] else []
  }

  function Live(tasks: map<TaskId, Task>, height: nat): map<TaskId, Task>
  {
    map id | id in tasks && height < tasks[id].plan.endHeight :: tasks[id]
  }

  lemma {:induction false} ExpiredMembers(order: seq<TaskId>, tasks: map<TaskId, Task>, height: nat)
    ensures forall id :: id in Expired(order, tasks, height) <==>
      (id in order && id in tasks && height >= tasks[id].plan.endHeight)
  {
    if order != [] {
      var rest, last := order[..|order| - 1], order[|order| - 1];
      ExpiredMembers(rest, tasks, height);
      assert order == rest + [last];
      assert Expired(order, tasks, height) == Expired(rest, tasks, height) +
        if last in tasks && height >= tasks[last].plan.endHeight then [last] else [];
    }
  }

  /**
    `actions_with_preparation_limit`: drops the tasks past their deadline, then lets every other task
    start what it is ready for, at most `limit` of them a preparation.
   */
  method Actions(q: Queue, height: nat, limit: nat) returns (r: Queue, expired: seq<TaskId>, started: seq<Action>)
    requires Valid(q)
    ensures Valid(r)
    ensures expired == Expired(q.order, q.tasks, height)
    ensures r.order == Kept(q.order, Live(q.tasks, height))
    ensures Describes(Live(q.tasks, height), r.tasks, started) && DistinctIds(started)
    ensures Prepares(started) <= limit && Sends(started) == Due(q.order, q.tasks, height)
    ensures Advanced(Live(q.tasks, height), r.tasks, r.order, height, Prepares(started) == limit)
  {
    hide Kept, Expired, Describes, DistinctIds, Valid, Prepares, Advanced, Fits, IdsOf, Sends, Due;
    expired := FindExpired(q, height);
    var live := Live(q.tasks, height);
    var order := Kept(q.order, live);
    LiveIsValid(q, height);
    var tasks := live;
    started := [];
    NothingStarted(live, order, height, limit);
    for i := 0 to |order|
      invariant Describes(live, tasks, started) && DistinctIds(started)
      invariant tasks.Keys == live.Keys && Sends(started) == Due(order[..i], live, height)
      invariant Prepares(started) <= limit && IdsOf(started) <= set id | id in order[..i]
      invariant Advanced(live, tasks, order[..i], height, Prepares(started) == limit)
    {
      var id := order[i];
      OrderFacts(Queue(live, order), i);
      AdvanceStep(live, tasks, order, i, height, limit, Prepares(started));
      SendStep(live, order, i, started, height, Prepares(started) < limit);
      var task := tasks[id];
      var next := Started(task, height, Prepares(started) < limit);
      var action := ActionFor(id, task, next);
      if action.Some? {
        FitsStarted(id, task, height, Prepares(started) < limit);
        DescribeStep(live, tasks, started, id, Task(task.plan, next), action.value);
        DistinctStep(started, action.value);
        started := started + [action.value];
        tasks := tasks[id := Task(task.plan, next)];
      }
    }
    r := Queue(tasks, order);
    assert order[..|order|] == order;
    DueOfLive(q.order, q.tasks, height);
    StartedIsValid(Queue(live, order), tasks, started);
  }

  /** The action that takes a task to its next state; a check is asked for again while it is under way. */
  function ActionFor(id: TaskId, task: Task, next: State): Option<Action>
  {
    match next
    case Preparing => if task.state.Unprepared? then Some(Prepare(id, task.plan)) else None
    case Submitting(c) => if task.state.Ready? then Some(Submit(id, c)) else None
    case Checking(_, h, _) => Some(CheckReceipt(id, h))
    case _ => None
  }

  method FindExpired(q: Queue, height: nat) returns (expired: seq<TaskId>)
    ensures expired == Expired(q.order, q.tasks, height)
  {
    expired := [];
    for i := 0 to |q.order|
      invariant expired == Expired(q.order[..i], q.tasks, height)
    {
      assert q.order[..i + 1][..i] == q.order[..i];
      var id := q.order[i];
      if id in q.tasks && height >= q.tasks[id].plan.endHeight { expired := expired + [id]; }
    }
    assert q.order[..|q.order|] == q.order;
  }

  lemma LiveIsValid(q: Queue, height: nat)
    requires Valid(q)
    ensures Valid(Queue(Live(q.tasks, height), Kept(q.order, Live(q.tasks, height))))
  {
    RemovalKeepsValid(q, Live(q.tasks, height));
  }

  lemma NothingStarted(live: map<TaskId, Task>, order: seq<TaskId>, height: nat, limit: nat)
    ensures Describes(live, live, []) && DistinctIds([]) && Prepares([]) == 0 && IdsOf([]) == {}
    ensures Advanced(live, live, order[..0], height, 0 == limit) && Sends([]) == Due(order[..0], live, height)
  {
  }

  /** Only a preparation needs room, and what a task starts is what its action says. */
  lemma FitsStarted(id: TaskId, task: Task, height: nat, mayPrepare: bool)
    ensures var next := Started(task, height, mayPrepare);
      var action := ActionFor(id, task, next);
      && (action.Some? ==> Fits(id, task, Task(task.plan, next), action.value))
      && (action.Some? && action.value.Prepare? ==> mayPrepare)
  {
  }

  lemma AdvanceStep(live: map<TaskId, Task>, tasks: map<TaskId, Task>, order: seq<TaskId>, i: nat, height: nat,
                    limit: nat, used: nat)
    requires tasks.Keys == live.Keys && i < |order| && used <= limit
    requires order[i] in live && order[i] !in order[..i]
    requires Advanced(live, tasks, order[..i], height, used == limit)
    ensures tasks[order[i]] == live[order[i]]
    ensures var id := order[i];
      var next := Started(tasks[id], height, used < limit);
      var action := ActionFor(id, tasks[id], next);
      && (action.None? ==> Advanced(live, tasks, order[..i + 1], height, used == limit))
      && (action.Some? ==> Advanced(live, tasks[id := Task(tasks[id].plan, next)], order[..i + 1], height,
                                    used + IsPrepare(action.value) == limit))
  {
    assert order[..i + 1] == order[..i] + [order[i]];
  }

  lemma DueNext(order: seq<TaskId>, i: nat, tasks: map<TaskId, Task>, height: nat)
    requires i < |order| && order[i] in tasks
    ensures Due(order[..i + 1], tasks, height) ==
      Due(order[..i], tasks, height) + DueOf(order[i], tasks[order[i]], height)
  {
    assert order[..i + 1][..i] == order[..i];
  }

  lemma SendsNext(started: seq<Action>, action: Action)
    ensures Sends(started + [action]) ==
      Sends(started) + if action.Submit? || action.CheckReceipt? then [action] else []
  {
    assert (started + [action])[..|started|] == started;
  }

  /** Whether a preparation may start makes no difference to what else a task asks for. */
  lemma DueOfStarted(id: TaskId, task: Task, height: nat, mayPrepare: bool)
    requires height < task.plan.endHeight
    ensures var action := ActionFor(id, task, Started(task, height, mayPrepare));
      DueOf(id, task, height) ==
      if action.Some? && (action.value.Submit? || action.value.CheckReceipt?) then [action.value] else []
  {
  }

  lemma SendStep(live: map<TaskId, Task>, order: seq<TaskId>, i: nat, started: seq<Action>, height: nat,
                 mayPrepare: bool)
    requires i < |order| && order[i] in live && Sends(started) == Due(order[..i], live, height)
    requires height < live[order[i]].plan.endHeight
    ensures var action := ActionFor(order[i], live[order[i]], Started(live[order[i]], height, mayPrepare));
      && (action.Some? ==> Sends(started + [action.value]) == Due(order[..i + 1], live, height))
      && (action.None? ==> Sends(started) == Due(order[..i + 1], live, height))
  {
    hide Due, DueOf, Sends, ActionFor, Started;
    var action := ActionFor(order[i], live[order[i]], Started(live[order[i]], height, mayPrepare));
    DueNext(order, i, live, height);
    DueOfStarted(order[i], live[order[i]], height, mayPrepare);
    if action.Some? { SendsNext(started, action.value); }
  }

  /** Expired tasks owe nothing, so dropping them from the order first makes no difference. */
  lemma {:induction false} DueOfLive(order: seq<TaskId>, tasks: map<TaskId, Task>, height: nat)
    ensures var live := Live(tasks, height);
      Due(Kept(order, live), live, height) == Due(order, tasks, height)
  {
    if order != [] {
      var rest, last := order[..|order| - 1], order[|order| - 1];
      DueOfLive(rest, tasks, height);
      var live := Live(tasks, height);
      if last in live {
        assert Kept(order, live)[..|Kept(rest, live)|] == Kept(rest, live);
      } else {
        assert Kept(order, live) == Kept(rest, live) && Due(order, tasks, height) == Due(rest, tasks, height);
      }
    }
  }

  /** Neither does dropping tasks that are gone. */
  lemma {:induction false} DueOfKept(order: seq<TaskId>, tasks: map<TaskId, Task>, due: map<TaskId, Task>, height: nat)
    requires due.Keys <= tasks.Keys
    ensures Due(Kept(order, tasks), due, height) == Due(order, due, height)
  {
    if order != [] {
      var rest, last := order[..|order| - 1], order[|order| - 1];
      DueOfKept(rest, tasks, due, height);
      if last in tasks {
        assert Kept(order, tasks)[..|Kept(rest, tasks)|] == Kept(rest, tasks);
      } else {
        assert Kept(order, tasks) == Kept(rest, tasks) && last !in due.Keys;
        assert Due(order, due, height) == Due(rest, due, height);
      }
    }
  }

  /** Only the tasks in the order count. */
  lemma {:induction false} DueOfSame(order: seq<TaskId>, a: map<TaskId, Task>, b: map<TaskId, Task>, height: nat)
    requires forall id :: id in order ==> (id in a <==> id in b) && (id in a ==> a[id] == b[id])
    ensures Due(order, a, height) == Due(order, b, height)
  {
    if order != [] {
      DueOfSame(order[..|order| - 1], a, b, height);
      assert order[|order| - 1] in order;
    }
  }

  /** Unprepared tasks behind the others owe nothing. */
  lemma {:induction false} DueBehind(order: seq<TaskId>, more: seq<TaskId>, tasks: map<TaskId, Task>, height: nat)
    requires forall id :: id in more && id in tasks ==> tasks[id].state == Unprepared
    ensures Due(order + more, tasks, height) == Due(order, tasks, height)
  {
    if more == [] {
      assert order + more == order;
    } else {
      var rest, last := more[..|more| - 1], more[|more| - 1];
      DueBehind(order, rest, tasks, height);
      assert (order + more)[..|order| + |rest|] == order + rest && last in more;
    }
  }

  lemma {:induction false} SendsMembers(actions: seq<Action>)
    ensures forall a :: a in Sends(actions) <==> a in actions && (a.Submit? || a.CheckReceipt?)
  {
    if actions != [] {
      var rest, last := actions[..|actions| - 1], actions[|actions| - 1];
      SendsMembers(rest);
      assert actions == rest + [last];
    }
  }

  lemma OrderFacts(q: Queue, i: nat)
    requires Valid(q) && i < |q.order|
    ensures q.order[i] in q.tasks && q.order[i] !in q.order[..i]
    ensures q.order[..i + 1] == q.order[..i] + [q.order[i]]
  {
    assert q.order[i] in q.order;
  }

  lemma DescribeStep(live: map<TaskId, Task>, tasks: map<TaskId, Task>, started: seq<Action>, id: TaskId, next: Task,
                     action: Action)
    requires Describes(live, tasks, started) && id in live && tasks[id] == live[id] && id !in IdsOf(started)
    requires Fits(id, live[id], next, action)
    ensures Describes(live, tasks[id := next], started + [action])
    ensures IdsOf(started + [action]) == IdsOf(started) + {id}
  {
    hide Fits;
    var all := started + [action];
    assert action.id == id by { FitsNamesId(id, live[id], next, action); }
    assert forall a :: a in all <==> a in started || a == action;
    assert forall a :: a in started ==> a.id in IdsOf(started);
    assert IdsOf(all) == IdsOf(started) + {id};
  }

  lemma FitsNamesId(id: TaskId, before: Task, after: Task, action: Action)
    requires Fits(id, before, after, action)
    ensures action.id == id
  {
  }

  lemma DistinctStep(started: seq<Action>, action: Action)
    requires DistinctIds(started) && action.id !in IdsOf(started)
    ensures DistinctIds(started + [action])
    ensures Prepares(started + [action]) == Prepares(started) + IsPrepare(action)
  {
    var all := started + [action];
    assert all[..|started|] == started;
    assert forall i :: 0 <= i < |started| ==> started[i] in started;
  }

  lemma StartedIsValid(q: Queue, tasks: map<TaskId, Task>, started: seq<Action>)
    requires Valid(q) && Describes(q.tasks, tasks, started)
    ensures Valid(Queue(tasks, q.order))
  {
    forall id | id in tasks
      ensures tasks[id].plan.id == id
    {
      if id in IdsOf(started) {
        var a :| a in started && a.id == id;
        assert Fits(id, q.tasks[id], tasks[id], a);
      }
    }
  }

  /** Starting actions neither replaces calldata nor makes any. */
  lemma StartingKeepsCalldata(before: map<TaskId, Task>, after: map<TaskId, Task>, started: seq<Action>)
    requires Describes(before, after, started)
    ensures forall id :: id in before ==> Calldata(after[id].state) == Calldata(before[id].state)
  {
    forall id | id in before
      ensures Calldata(after[id].state) == Calldata(before[id].state)
    {
      if id in IdsOf(started) {
        var a :| a in started && a.id == id;
        assert Fits(id, before[id], after[id], a);
      }
    }
  }

  // ---------------------------------------------------------------------------
  // Recording results
  // ---------------------------------------------------------------------------

  function WithState(q: Queue, id: TaskId, state: State): Queue
    requires id in q.tasks
  {
    q.(tasks := q.tasks[id := Task(q.tasks[id].plan, state)])
  }

  /** `record_prepared`: the queue after it, and the error that ends the heartbeat, if any. */
  function RecordPrepared(q: Queue, id: TaskId, result: Option<Bytes>): (r: (Queue, Option<QueueError>))
    ensures KeepsCalldata(q, r.0) && r.0.tasks.Keys == q.tasks.Keys
    ensures Valid(q) ==> Valid(r.0)
  {
    if id !in q.tasks then (q, Some(UnknownTask))
    else if !q.tasks[id].state.Preparing? then (q, Some(UnexpectedState))
    else if result.None? then (WithState(q, id, Unprepared), None)
    else if |result.value| < 4 then (WithState(q, id, Unprepared), Some(InvalidCalldata))
    else (WithState(q, id, Ready(result.value)), None)
  }

  /** `record_submitted`. */
  function RecordSubmitted(q: Queue, id: TaskId, height: nat, result: Option<Hash>): (r: (Queue, Option<QueueError>))
    ensures KeepsCalldata(q, r.0) && r.0.tasks.Keys == q.tasks.Keys
    ensures Valid(q) ==> Valid(r.0)
  {
    if id !in q.tasks then (q, Some(UnknownTask))
    else match q.tasks[id].state
      case Submitting(c) =>
        (WithState(q, id, if result.Some? then Submitted(c, result.value, height) else Ready(c)), None)
      case _ => (q, Some(UnexpectedState))
  }

  /** `record_receipt`: a success ends a task, anything else sends the same calldata again. */
  function RecordReceipt(q: Queue, id: TaskId, receipt: Option<Receipt>): (r: (Queue, Option<QueueError>))
    ensures KeepsCalldata(q, r.0)
    ensures r.0.tasks.Keys == q.tasks.Keys - (if r.1.None? && receipt == Some(Succeeded) then {id} else {})
  {
    if id !in q.tasks then (q, Some(UnknownTask))
    else match q.tasks[id].state
      case Checking(c, _, _) =>
        if receipt == Some(Succeeded) then (Retire(q, id), None) else (WithState(q, id, Ready(c)), None)
      case _ => (q, Some(UnexpectedState))
  }

  lemma RecordReceiptKeepsValid(q: Queue, id: TaskId, receipt: Option<Receipt>)
    requires Valid(q)
    ensures Valid(RecordReceipt(q, id, receipt).0)
  {
    RetireKeepsValid(q, id);
  }
}
