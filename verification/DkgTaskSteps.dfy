/** Steps on the queued tasks of the DKG runtime and the proofs in flight for them. */
module DkgTaskSteps {
  import opened Basics
  import opened Outcomes
  import opened DkgQueue
  import opened DkgPlanner
  import opened DkgMachine

  // ---------------------------------------------------------------------------
  // Changing one task
  // ---------------------------------------------------------------------------

  function ExpiredIds(q: Queue, height: nat): set<TaskId>
  {
    set id | id in q.tasks && height >= q.tasks[id].plan.endHeight
  }

  lemma QueueIsValid(q: Queue, preparations: map<TaskId, TaskInputs>, canonicalTasks: set<TaskId>)
    requires QueueInv(q, preparations, canonicalTasks)
    ensures Valid(q)
  {
  }

  lemma QueueOf(validates: (nat, Material) -> bool, store: Store, m: Machine, t: Trace)
    requires TaskInv(validates, store, m, t)
    ensures QueueInv(m.executor, m.preparations, m.canonicalTasks)
  {
  }

  lemma SameKeys(validates: (nat, Material) -> bool, store: Store, settled: Option<Material>, q: Queue, q': Queue)
    requires StoreInv(validates, q, settled, store) && q'.tasks.Keys <= q.tasks.Keys
    ensures StoreInv(validates, q', settled, store)
  {
    assert q.tasks == map[] ==> q'.tasks.Keys == {};
  }

  lemma FewerTasks(validates: (nat, Material) -> bool, store: Store, settled: Option<Material>, q: Queue, q': Queue,
                   inputs: Option<TaskInputs>, madeFrom: map<TaskId, TaskInputs>)
    requires ProofInv(q, inputs, madeFrom) && StoreInv(validates, q, settled, store)
    requires forall id :: id in q'.tasks ==> id in q.tasks && q'.tasks[id] == q.tasks[id]
    ensures ProofInv(q', inputs, madeFrom) && StoreInv(validates, q', settled, store)
  {
    assert q.tasks == map[] ==> q'.tasks == map[];
  }

  lemma NoneQueued(q: Queue, preparations: map<TaskId, TaskInputs>, canonicalTasks: set<TaskId>,
                   madeFrom: map<TaskId, TaskInputs>)
    requires QueueInv(q, preparations, canonicalTasks) && q.tasks == map[]
    ensures QueueInv(q, preparations, {}) && ProofInv(q, None, madeFrom)
  {
  }

  lemma NoProofsYet(q: Queue, inputs: Option<TaskInputs>, madeFrom: map<TaskId, TaskInputs>)
    requires ProofInv(q, None, madeFrom)
    ensures ProofInv(q, inputs, madeFrom)
  {
  }

  lemma PreparationBound(q: Queue, preparations: map<TaskId, TaskInputs>, canonicalTasks: set<TaskId>)
    requires QueueInv(q, preparations, canonicalTasks)
    ensures |preparations| <= 1
  {
  }

  lemma OneTaskQueue(q: Queue, q': Queue, p: map<TaskId, TaskInputs>, p': map<TaskId, TaskInputs>,
                     canonicalTasks: set<TaskId>, id: TaskId)
    requires QueueInv(q, p, canonicalTasks) && Valid(q') && OnlyAt(q.tasks, q'.tasks, id) && OnlyAt(p, p', id)
    requires (id in q'.tasks ==> id in q.tasks) && |p'| <= 1
    requires id in p' ==> id in q'.tasks && q'.tasks[id].state.Preparing?
    ensures QueueInv(q', p', canonicalTasks)
  {
  }

  lemma OneTaskStranded(q: Queue, q': Queue, p: map<TaskId, TaskInputs>, p': map<TaskId, TaskInputs>, id: TaskId)
    requires OnlyAt(q.tasks, q'.tasks, id) && OnlyAt(p, p', id) && id !in Stranded(q', p')
    ensures Stranded(q', p') == Stranded(q, p) - {id}
  {
  }

  lemma OneTaskProof(q: Queue, q': Queue, inputs: Option<TaskInputs>, made: map<TaskId, TaskInputs>,
                     made': map<TaskId, TaskInputs>, id: TaskId)
    requires ProofInv(q, inputs, made) && OnlyAt(q.tasks, q'.tasks, id) && OnlyAt(made, made', id)
    requires id in q'.tasks && Calldata(q'.tasks[id].state).Some? ==> id in made' && inputs == Some(made'[id])
    ensures ProofInv(q', inputs, made')
  {
  }

  lemma ProofOf(q: Queue, inputs: Option<TaskInputs>, madeFrom: map<TaskId, TaskInputs>, id: TaskId)
    requires ProofInv(q, inputs, madeFrom) && id in q.tasks && Calldata(q.tasks[id].state).Some?
    ensures id in madeFrom && inputs == Some(madeFrom[id])
  {
  }

  lemma NotWaiting(q: Queue, preparations: map<TaskId, TaskInputs>, id: TaskId)
    requires id in q.tasks ==> !q.tasks[id].state.Preparing? && !q.tasks[id].state.Submitting?
    ensures id !in Stranded(q, preparations)
  {
  }

  lemma NotPrepared(q: Queue, preparations: map<TaskId, TaskInputs>, canonicalTasks: set<TaskId>, id: TaskId)
    requires QueueInv(q, preparations, canonicalTasks) && id in q.tasks && !q.tasks[id].state.Preparing?
    ensures id !in preparations
  {
  }

  lemma FewerPreparations(p: map<TaskId, TaskInputs>, id: TaskId)
    requires |p| <= 1
    ensures |p - {id}| <= 1
  {
    assert (p - {id}).Keys <= p.Keys;
    assert (p - {id}).Keys == p.Keys - {id};
    assert |p - {id}| == |(p - {id}).Keys| && |p| == |p.Keys|;
  }

  // ---------------------------------------------------------------------------
  // Retiring
  // ---------------------------------------------------------------------------

  lemma RetireStep(q: Queue, preparations: map<TaskId, TaskInputs>, before: set<TaskId>, id: TaskId)
    requires QueueInv(q, preparations, before)
    ensures QueueInv(Retire(q, id), preparations - {id}, before)
  {
    RetireKeepsValid(q, id);
    assert (preparations - {id}).Keys == preparations.Keys - {id};
    assert |preparations - {id}| == |(preparations - {id}).Keys| && |preparations| == |preparations.Keys|;
  }

  /** The queue without some of its tasks, the others in their order. */
  ghost predicate QueuedWithout(q: Queue, q': Queue, gone: set<TaskId>)
  {
    q'.tasks == q.tasks - gone && q'.order == Kept(q.order, q'.tasks) && (q == EMPTY ==> q' == EMPTY)
  }

  lemma NobodyGone(q: Queue, preparations: map<TaskId, TaskInputs>, canonicalTasks: set<TaskId>)
    requires QueueInv(q, preparations, canonicalTasks)
    ensures QueuedWithout(q, q, {})
  {
    KeptAll(q.order, q.tasks);
    NoneLess(q.tasks);
  }

  lemma OneMoreGone(q: Queue, q': Queue, gone: set<TaskId>, id: TaskId)
    requires QueuedWithout(q, q', gone)
    ensures QueuedWithout(q, Retire(q', id), gone + {id})
  {
    OneLess(q.tasks, gone, id);
    KeptTwice(q.order, q'.tasks, q'.tasks - {id});
  }

  lemma NowCanonical(q: Queue, q': Queue, preparations: map<TaskId, TaskInputs>, before: set<TaskId>,
                     canonical: set<TaskId>)
    requires QueueInv(q', preparations, before) && QueuedWithout(q, q', canonical - before)
    requires before <= canonical || q == EMPTY
    ensures QueueInv(q', preparations, canonical)
  {
    hide Kept;
  }

  /** Tasks newly found in canonical storage, retired one after the other. */
  method RetireEach(q: Queue, preparations: map<TaskId, TaskInputs>, before: set<TaskId>, canonical: set<TaskId>)
    returns (q': Queue, preparations': map<TaskId, TaskInputs>, released: set<TaskId>)
    requires QueueInv(q, preparations, before)
    requires before <= canonical || q == EMPTY
    ensures QueueInv(q', preparations', canonical) && released == canonical - before
    ensures QueuedWithout(q, q', released)
    ensures preparations' == preparations - released
  {
    hide *;
    released := canonical - before;
    var rest := released;
    ghost var done: set<TaskId> := {};
    NoneDone(released);
    q', preparations' := q, preparations;
    NobodyGone(q, preparations, before);
    NoneLess(preparations);
    while rest != {}
      invariant rest <= released && done == released - rest
      invariant QueueInv(q', preparations', before) && QueuedWithout(q, q', done)
      invariant preparations' == preparations - done
      decreases |rest|
    {
      var id :| id in rest;
      RetireStep(q', preparations', before, id);
      OneMoreGone(q, q', done, id);
      OneLess(preparations, done, id);
      OneDone(released, rest, id);
      q', preparations' := Retire(q', id), preparations' - {id};
      rest, done := rest - {id}, done + {id};
    }
    NowCanonical(q, q', preparations', before, canonical);
  }

  // ---------------------------------------------------------------------------
  // Planning
  // ---------------------------------------------------------------------------

  function NotCanonical(plans: seq<Plan>, canonical: set<TaskId>): seq<Plan>
  {
    if plans == [] then [] else
      var last := plans[|plans| - 1];
      NotCanonical(plans[..|plans| - 1], canonical) + if last.id in canonical then [] else [last]
  }

  lemma {:induction false} NotCanonicalPlans(plans: seq<Plan>, canonical: set<TaskId>)
    ensures forall i :: 0 <= i < |NotCanonical(plans, canonical)| ==> NotCanonical(plans, canonical)[i].id !in canonical
    ensures plans == [] ==> NotCanonical(plans, canonical) == []
    ensures forall p :: p in NotCanonical(plans, canonical) ==> p in plans
  {
    if plans != [] { NotCanonicalPlans(plans[..|plans| - 1], canonical); }
  }

  lemma PlansInTime(p: Planner, r: Planner, c: Context, plans: seq<Plan>)
    requires Planned(p, r, c, plans, {Share, Reshare, Recover, ReshareRecovered})
    ensures forall plan :: plan in plans ==> c.height < plan.endHeight
  {
  }

  /** Newly queued tasks are unprepared, not canonical, and only there while a round is open. */
  lemma MoreTasks(validates: (nat, Material) -> bool, store: Store, m: Machine, q: Queue, plans: seq<Plan>, t: Trace)
    requires TaskInv(validates, store, m, t) && Valid(q)
    requires forall i :: 0 <= i < |plans| ==> plans[i].id !in m.canonicalTasks
    requires forall id :: id in q.tasks ==> id in m.executor.tasks || exists i :: 0 <= i < |plans| && plans[i].id == id
    requires forall id :: id in m.executor.tasks ==> id in q.tasks && q.tasks[id] == m.executor.tasks[id]
    requires forall id :: id in q.tasks && id !in m.executor.tasks ==> q.tasks[id].state == Unprepared
    requires plans != [] ==> m.settled.Some? && store.sharing && Validates(validates, store, m.settled.value)
    ensures QueueInv(q, m.preparations, m.canonicalTasks) && ProofInv(q, m.taskInputs, t.madeFrom)
    ensures StoreInv(validates, q, m.settled, store)
    ensures plans == [] ==> q.tasks == m.executor.tasks
  {
    assert plans == [] ==> q.tasks.Keys == m.executor.tasks.Keys;
  }

  lemma PlannedStranded(q: Queue, q': Queue, preparations: map<TaskId, TaskInputs>, height: nat)
    requires forall id :: id in q.tasks ==> id in q'.tasks && q'.tasks[id] == q.tasks[id]
    requires forall id :: id in q'.tasks && id !in q.tasks ==> q'.tasks[id].state == Unprepared
    ensures Stranded(q', preparations) == Stranded(q, preparations)
    ensures Stranded(q, preparations) - ExpiredIds(q', height) == Stranded(q, preparations) - ExpiredIds(q, height)
  {
  }

  /** Tasks queued in time are not among the expired ones. */
  lemma PlannedExpire(q: Queue, q': Queue, height: nat)
    requires forall id :: id in q.tasks ==> id in q'.tasks && q'.tasks[id] == q.tasks[id]
    requires forall id :: id in q'.tasks && id !in q.tasks ==> height < q'.tasks[id].plan.endHeight
    ensures ExpiredIds(q', height) == ExpiredIds(q, height)
  {
  }

  // ---------------------------------------------------------------------------
  // Polling proofs
  // ---------------------------------------------------------------------------

  /** The same tasks under the same plans, in the same order. */
  ghost predicate SamePlans(q: Queue, q': Queue)
  {
    && q'.order == q.order && q'.tasks.Keys == q.tasks.Keys
    && forall id :: id in q.tasks ==> q'.tasks[id].plan == q.tasks[id].plan
  }

  lemma PlansKept(q: Queue)
    ensures SamePlans(q, q)
  {
  }

  lemma SamePlansOn(a: Queue, b: Queue, c: Queue)
    requires SamePlans(a, b)
    ensures SamePlans(b, c) ==> SamePlans(a, c)
  {
  }

  lemma SamePlansExpire(q: Queue, q': Queue, height: nat)
    requires SamePlans(q, q')
    ensures ExpiredIds(q', height) == ExpiredIds(q, height)
  {
  }

  lemma InPreparation(q: Queue, preparations: map<TaskId, TaskInputs>, canonicalTasks: set<TaskId>, id: TaskId)
    requires QueueInv(q, preparations, canonicalTasks) && id in preparations
    ensures Valid(q) && id in q.tasks && q.tasks[id].state.Preparing? && id !in Stranded(q, preparations)
    ensures |preparations| <= 1
  {
    hide Valid;
  }

  lemma RecordedPrepared(q: Queue, id: TaskId, result: Option<Bytes>)
    requires Valid(q) && id in q.tasks && q.tasks[id].state.Preparing?
    ensures var q' := RecordPrepared(q, id, result).0;
      && Valid(q') && OnlyAt(q.tasks, q'.tasks, id) && id in q'.tasks && SamePlans(q, q')
      && (q'.tasks[id].state.Unprepared? || (q'.tasks[id].state.Ready? && result.Some?))
  {
    hide Valid;
  }

  lemma PollStep(q: Queue, preparations: map<TaskId, TaskInputs>, inputs: TaskInputs, canonicalTasks: set<TaskId>,
                 madeFrom: map<TaskId, TaskInputs>, id: TaskId, result: Option<Bytes>)
    requires QueueInv(q, preparations, canonicalTasks) && ProofInv(q, Some(inputs), madeFrom)
    requires id in preparations && (result.Some? ==> preparations[id] == inputs)
    ensures var q', left := RecordPrepared(q, id, result).0, preparations - {id};
      && QueueInv(q', left, canonicalTasks) && ProofInv(q', Some(inputs), madeFrom[id := preparations[id]])
      && SamePlans(q, q') && Stranded(q', left) == Stranded(q, preparations)
  {
    hide RecordPrepared, QueueInv, ProofInv, Stranded, SamePlans, Valid;
    var q', left := RecordPrepared(q, id, result).0, preparations - {id};
    InPreparation(q, preparations, canonicalTasks, id);
    RecordedPrepared(q, id, result);
    FewerPreparations(preparations, id);
    NotWaiting(q', left, id);
    OneTaskQueue(q, q', preparations, left, canonicalTasks, id);
    OneTaskStranded(q, q', preparations, left, id);
    OneTaskProof(q, q', Some(inputs), madeFrom, madeFrom[id := preparations[id]], id);
  }

  /** The state a finished proof leads to: ready only with calldata proved over the inputs in force. */
  function Proved(made: TaskInputs, inputs: TaskInputs, result: Option<Bytes>): State
  {
    if made == inputs && result.Some? && |result.value| >= 4 then Ready(result.value) else Unprepared
  }

  /** The proofs in `done` are accounted for and no other task changed. */
  ghost predicate Polled(q: Queue, q': Queue, preparations: map<TaskId, TaskInputs>, inputs: TaskInputs,
                         finished: map<TaskId, Option<Bytes>>, done: set<TaskId>)
  {
    && SamePlans(q, q')
    && (forall id :: id in q.tasks && id in done && id in preparations && id in finished ==>
          q'.tasks[id].state == Proved(preparations[id], inputs, finished[id]))
    && (forall id :: id in q.tasks && id !in done ==> q'.tasks[id].state == q.tasks[id].state)
  }

  lemma NothingPolled(q: Queue, preparations: map<TaskId, TaskInputs>, inputs: TaskInputs,
                      finished: map<TaskId, Option<Bytes>>)
    ensures Polled(q, q, preparations, inputs, finished, {})
  {
  }

  lemma PolledOneMore(q: Queue, q': Queue, preparations: map<TaskId, TaskInputs>, inputs: TaskInputs,
                      finished: map<TaskId, Option<Bytes>>, done: set<TaskId>, id: TaskId)
    requires Polled(q, q', preparations, inputs, finished, done) && id in preparations && id in finished
    requires id in q'.tasks && q'.tasks[id].state.Preparing?
    ensures var r := RecordPrepared(q', id, if preparations[id] != inputs then None else finished[id]);
      Polled(q, r.0, preparations, inputs, finished, done + {id})
  {
  }

  /** The finished proofs, one after the other. */
  method PollEach(q: Queue, preparations: map<TaskId, TaskInputs>, inputs: TaskInputs,
                  finished: map<TaskId, Option<Bytes>>, canonicalTasks: set<TaskId>,
                  ghost madeFrom: map<TaskId, TaskInputs>)
    returns (q': Queue, preparations': map<TaskId, TaskInputs>, failed: bool, ghost madeFrom': map<TaskId, TaskInputs>)
    requires QueueInv(q, preparations, canonicalTasks) && ProofInv(q, Some(inputs), madeFrom)
    ensures QueueInv(q', preparations', canonicalTasks) && ProofInv(q', Some(inputs), madeFrom')
    ensures SamePlans(q, q') && Stranded(q', preparations') == Stranded(q, preparations)
    ensures !failed ==> preparations' == preparations - finished.Keys
    ensures !failed ==> Polled(q, q', preparations, inputs, finished, preparations.Keys * finished.Keys)
  {
    hide QueueInv, ProofInv, Stranded, RecordPrepared, SamePlans, Polled;
    PlansKept(q);
    NothingPolled(q, preparations, inputs, finished);
    var completed := preparations.Keys * finished.Keys;
    q', preparations', failed, madeFrom' := q, preparations, false, madeFrom;
    var rest := completed;
    NoneDone(completed);
    NoneLess(preparations);
    while rest != {}
      invariant rest <= completed && QueueInv(q', preparations', canonicalTasks)
      invariant ProofInv(q', Some(inputs), madeFrom') && preparations' == preparations - (completed - rest)
      invariant SamePlans(q, q') && Stranded(q', preparations') == Stranded(q, preparations)
      invariant Polled(q, q', preparations, inputs, finished, completed - rest)
      decreases |rest|
    {
      var id :| id in rest;
      ghost var done := completed - rest;
      OneDone(completed, rest, id);
      rest := rest - {id};
      OneLess(preparations, done, id);
      var result := if preparations'[id] != inputs then None else finished[id];
      InPreparation(q', preparations', canonicalTasks, id);
      PolledOneMore(q, q', preparations, inputs, finished, done, id);
      PollStep(q', preparations', inputs, canonicalTasks, madeFrom', id, result);
      var recorded := RecordPrepared(q', id, result);
      SamePlansOn(q, q', recorded.0);
      madeFrom' := madeFrom'[id := preparations'[id]];
      q', preparations' := recorded.0, preparations' - {id};
      if recorded.1.Some? { return q', preparations', true, madeFrom'; }
    }
    assert preparations - completed == preparations - finished.Keys;
  }

  // ---------------------------------------------------------------------------
  // Starting actions
  // ---------------------------------------------------------------------------

  /** A task whose preparation was asked for and not started yet. */
  predicate Waits(q: Queue, preparations: map<TaskId, TaskInputs>, id: TaskId)
  {
    id in q.tasks && q.tasks[id].state.Preparing? && id !in preparations
  }

  /** The task of an action is in the state the action was started from. */
  predicate PendingAction(q: Queue, preparations: map<TaskId, TaskInputs>, a: Action)
  {
    && a.id in q.tasks
    && match a
       case Prepare(id, _) => Waits(q, preparations, id)
       case Submit(id, c) => q.tasks[id].state == Submitting(c)
       case CheckReceipt(id, _) => q.tasks[id].state.Checking?
       case Expire(_) => false
  }

  ghost predicate AllPending(q: Queue, preparations: map<TaskId, TaskInputs>, actions: seq<Action>)
  {
    forall i :: 0 <= i < |actions| ==> PendingAction(q, preparations, actions[i])
  }

  /** At most one preparation is asked for, and none while one is in flight. */
  ghost predicate PrepareRoom(preparations: map<TaskId, TaskInputs>, actions: seq<Action>)
  {
    && (forall i, j :: 0 <= i < j < |actions| ==> !(actions[i].Prepare? && actions[j].Prepare?))
    && (preparations != map[] ==> forall i :: 0 <= i < |actions| ==> !actions[i].Prepare?)
  }

  function WaitingIds(actions: seq<Action>): set<TaskId>
  {
    set a | a in actions && (a.Prepare? || a.Submit?) :: a.id
  }

  lemma NonePending(q: Queue, preparations: map<TaskId, TaskInputs>, actions: seq<Action>)
    requires AllPending(q, preparations, actions) && q.tasks == map[]
    ensures actions == []
  {
    assert |actions| > 0 ==> PendingAction(q, preparations, actions[0]);
  }

  lemma ExpiredAre(q: Queue, height: nat)
    requires Valid(q)
    ensures (set id | id in Expired(q.order, q.tasks, height)) == ExpiredIds(q, height)
    ensures Live(q.tasks, height).Keys == q.tasks.Keys - ExpiredIds(q, height)
  {
    ExpiredMembers(q.order, q.tasks, height);
  }

  lemma LiveTasks(q: Queue, height: nat)
    ensures var live := Live(q.tasks, height);
      && live.Keys == q.tasks.Keys - ExpiredIds(q, height)
      && (forall id :: id in live ==> live[id] == q.tasks[id])
    ensures forall after, started :: Describes(Live(q.tasks, height), after, started) ==>
      after.Keys == q.tasks.Keys - ExpiredIds(q, height)
  {
  }

  lemma {:induction false} AtMostOnePrepare(actions: seq<Action>)
    ensures Prepares(actions) == 0 ==> forall i :: 0 <= i < |actions| ==> !actions[i].Prepare?
    ensures Prepares(actions) <= 1 ==> forall i, j :: 0 <= i < j < |actions| ==>
      !(actions[i].Prepare? && actions[j].Prepare?)
  {
    if actions != [] { AtMostOnePrepare(actions[..|actions| - 1]); }
  }

  lemma RoomFor(preparations: map<TaskId, TaskInputs>, gone: set<TaskId>, started: seq<Action>, limit: nat)
    requires Prepares(started) <= limit && limit == if preparations == map[] then 1 else 0
    ensures PrepareRoom(preparations - gone, started)
  {
    AtMostOnePrepare(started);
  }

  /** A task that is being prepared or submitted starts nothing. */
  lemma BusyStays(live: map<TaskId, Task>, after: map<TaskId, Task>, started: seq<Action>, id: TaskId)
    requires Describes(live, after, started) && id in live
    requires live[id].state.Preparing? || live[id].state.Submitting?
    ensures id !in IdsOf(started) && after[id] == live[id]
  {
    assert forall a :: a in started ==> Fits(a.id, live[a.id], after[a.id], a);
  }

  lemma StillPreparing(q: Queue, preparations: map<TaskId, TaskInputs>, canonicalTasks: set<TaskId>, height: nat,
                       id: TaskId)
    requires QueueInv(q, preparations, canonicalTasks) && id in preparations && id !in ExpiredIds(q, height)
    ensures id in Live(q.tasks, height) && Live(q.tasks, height)[id].state.Preparing?
  {
  }

  lemma FewerInFlight(preparations: map<TaskId, TaskInputs>, gone: set<TaskId>)
    ensures |preparations - gone| <= |preparations|
  {
    SubsetSize((preparations - gone).Keys, preparations.Keys);
    assert |preparations - gone| == |(preparations - gone).Keys| && |preparations| == |preparations.Keys|;
  }

  lemma StillQueued(q: Queue, preparations: map<TaskId, TaskInputs>, canonicalTasks: set<TaskId>, height: nat,
                    id: TaskId)
    requires QueueInv(q, preparations, canonicalTasks) && id in Live(q.tasks, height)
    ensures id !in canonicalTasks
  {
  }

  lemma SameTasksDescribed(before: map<TaskId, Task>, after: map<TaskId, Task>, actions: seq<Action>)
    requires Describes(before, after, actions)
    ensures after.Keys == before.Keys
  {
  }

  lemma StartedQueue(q: Queue, preparations: map<TaskId, TaskInputs>, canonicalTasks: set<TaskId>, q': Queue,
                     height: nat, started: seq<Action>)
    requires QueueInv(q, preparations, canonicalTasks) && Valid(q')
    requires Describes(Live(q.tasks, height), q'.tasks, started)
    ensures QueueInv(q', preparations - ExpiredIds(q, height), canonicalTasks)
  {
    hide Describes, Valid, Live, ExpiredIds;
    var left := preparations - ExpiredIds(q, height);
    FewerInFlight(preparations, ExpiredIds(q, height));
    SameTasksDescribed(Live(q.tasks, height), q'.tasks, started);
    forall id | id in q'.tasks
      ensures id !in canonicalTasks
    {
      assert id in Live(q.tasks, height).Keys;
      StillQueued(q, preparations, canonicalTasks, height, id);
    }
    forall id | id in left
      ensures id in q'.tasks && q'.tasks[id].state.Preparing?
    {
      StillPreparing(q, preparations, canonicalTasks, height, id);
      BusyStays(Live(q.tasks, height), q'.tasks, started, id);
    }
  }

  lemma StartedProofs(q: Queue, inputs: Option<TaskInputs>, madeFrom: map<TaskId, TaskInputs>, q': Queue, height: nat,
                      started: seq<Action>)
    requires ProofInv(q, inputs, madeFrom) && Describes(Live(q.tasks, height), q'.tasks, started)
    ensures ProofInv(q', inputs, madeFrom)
  {
    StartingKeepsCalldata(Live(q.tasks, height), q'.tasks, started);
  }

  lemma OneStarted(q: Queue, preparations: map<TaskId, TaskInputs>, canonicalTasks: set<TaskId>, q': Queue, height: nat,
                   started: seq<Action>, a: Action)
    requires QueueInv(q, preparations, canonicalTasks) && Describes(Live(q.tasks, height), q'.tasks, started)
    requires a in started
    ensures var left := preparations - ExpiredIds(q, height);
      && PendingAction(q', left, a) && a.id !in Stranded(q, preparations) && a.id !in ExpiredIds(q, height)
      && (a.id in Stranded(q', left) <==> a.Prepare? || a.Submit?)
  {
    hide Valid;
    assert Fits(a.id, Live(q.tasks, height)[a.id], q'.tasks[a.id], a);
  }

  lemma SameWaiting(started: seq<Action>, q: Queue, left: map<TaskId, TaskInputs>, a: Action)
    requires a in started
    requires forall x :: x in started ==> (x.id in Stranded(q, left) <==> x.Prepare? || x.Submit?)
    ensures a.id in WaitingIds(started) <==> a.id in Stranded(q, left)
  {
    if a.id in WaitingIds(started) {
      var x :| x in started && (x.Prepare? || x.Submit?) && x.id == a.id;
    }
  }

  /** What one live task waits for after the start. */
  lemma StartedWaiting(q: Queue, preparations: map<TaskId, TaskInputs>, canonicalTasks: set<TaskId>, q': Queue,
                       height: nat, started: seq<Action>)
    requires QueueInv(q, preparations, canonicalTasks) && Describes(Live(q.tasks, height), q'.tasks, started)
    ensures var left := preparations - ExpiredIds(q, height);
      && AllPending(q', left, started)
      && Stranded(q', left) == (Stranded(q, preparations) - ExpiredIds(q, height)) + WaitingIds(started)
      && IdsOf(started) !! Stranded(q, preparations)
  {
    hide Valid, Fits, QueueInv;
    var left, gone := preparations - ExpiredIds(q, height), ExpiredIds(q, height);
    forall a | a in started
      ensures PendingAction(q', left, a) && a.id !in Stranded(q, preparations) && a.id !in gone
      ensures a.id in Stranded(q', left) <==> a.Prepare? || a.Submit?
    {
      OneStarted(q, preparations, canonicalTasks, q', height, started, a);
    }
    forall id | id in q'.tasks && id !in IdsOf(started)
      ensures id in Stranded(q', left) <==> id in Stranded(q, preparations)
    {
      assert q'.tasks[id] == Live(q.tasks, height)[id] == q.tasks[id];
    }
    forall id
      ensures id in Stranded(q', left) <==> id in (Stranded(q, preparations) - gone) + WaitingIds(started)
    {
      if id in IdsOf(started) {
        var a :| a in started && a.id == id;
        SameWaiting(started, q', left, a);
      }
    }
  }

  /** The queue after the heartbeat's actions were started, with the proofs of expired tasks aborted. */
  lemma AfterStart(validates: (nat, Material) -> bool, store: Store, m: Machine, t: Trace, q: Queue, height: nat,
                   started: seq<Action>)
    requires TaskInv(validates, store, m, t) && Valid(q)
    requires Describes(Live(m.executor.tasks, height), q.tasks, started)
    ensures var left := m.preparations - ExpiredIds(m.executor, height);
      && QueueInv(q, left, m.canonicalTasks) && ProofInv(q, m.taskInputs, t.madeFrom)
      && StoreInv(validates, q, m.settled, store) && AllPending(q, left, started)
      && q.tasks.Keys == m.executor.tasks.Keys - ExpiredIds(m.executor, height)
      && Stranded(q, left) ==
         (Stranded(m.executor, m.preparations) - ExpiredIds(m.executor, height)) + WaitingIds(started)
      && IdsOf(started) !! Stranded(m.executor, m.preparations)
  {
    hide QueueInv, ProofInv, StoreInv, Stranded, Describes, Valid, Live, ExpiredIds, IdsOf, WaitingIds;
    hide AllPending, Fits;
    var live, left := Live(m.executor.tasks, height), m.preparations - ExpiredIds(m.executor, height);
    LiveTasks(m.executor, height);
    StartedQueue(m.executor, m.preparations, m.canonicalTasks, q, height, started);
    StartedProofs(m.executor, m.taskInputs, t.madeFrom, q, height, started);
    SameKeys(validates, store, m.settled, m.executor, q);
    StartedWaiting(m.executor, m.preparations, m.canonicalTasks, q, height, started);
  }

  // ---------------------------------------------------------------------------
  // Handling actions
  // ---------------------------------------------------------------------------

  /** Only a submission looks at the head first. */
  predicate Passes(a: Action, answers: map<TaskId, Answer>)
  {
    a.Submit? ==> AnswerFor(answers, a.id).fence.Holds?
  }

  /** Why the actions end early: the head moved, or something could not be read or was out of place. */
  function StopAt(a: Action, answers: map<TaskId, Answer>): Outcome
  {
    if a.Submit? && AnswerFor(answers, a.id).fence.Moved? then HeadChanged else Failed
  }

  lemma NoneHandled(started: seq<Action>, stranded: set<TaskId>)
    ensures started[0..] == started && stranded - IdsOf(started[..0]) == stranded
  {
  }

  lemma NextPending(q: Queue, preparations: map<TaskId, TaskInputs>, started: seq<Action>, i: nat)
    requires i < |started| && AllPending(q, preparations, started[i..]) && PrepareRoom(preparations, started[i..])
    ensures PendingAction(q, preparations, started[i]) && (started[i].Prepare? ==> preparations == map[])
  {
    assert started[i..][0] == started[i];
  }

  lemma OneMore(started: seq<Action>, i: nat, stranded: set<TaskId>)
    requires i < |started|
    ensures stranded - IdsOf(started[..i + 1]) == stranded - IdsOf(started[..i]) - {started[i].id}
  {
    assert started[..i + 1] == started[..i] + [started[i]];
    assert IdsOf(started[..i + 1]) == IdsOf(started[..i]) + {started[i].id};
  }

  /** Handling one action leaves the later ones pending. */
  lemma RestPending(m: Machine, n: Machine, started: seq<Action>, i: nat)
    requires i < |started| && DistinctIds(started) && ActsOn(m, n, started[i].id)
    requires AllPending(m.executor, m.preparations, started[i..]) && PrepareRoom(m.preparations, started[i..])
    requires n.preparations != m.preparations ==> started[i].Prepare?
    ensures AllPending(n.executor, n.preparations, started[i + 1..]) && PrepareRoom(n.preparations, started[i + 1..])
  {
    var before, after := started[i..], started[i + 1..];
    assert forall j :: 0 <= j < |after| ==> after[j] == before[j + 1] && after[j].id != started[i].id;
    assert before[0] == started[i];
  }

  /** Every waiting task was answered, and none of the others was waiting before. */
  lemma AllAnswered(stranded: set<TaskId>, gone: set<TaskId>, started: seq<Action>)
    requires IdsOf(started) !! stranded
    ensures ((stranded - gone) + WaitingIds(started)) - IdsOf(started) == stranded - gone
  {
    assert WaitingIds(started) <= IdsOf(started);
  }

  // ---------------------------------------------------------------------------
  // A head that moves
  // ---------------------------------------------------------------------------

  /** A task with calldata to send, before its deadline. */
  predicate ReadyAt(q: Queue, id: TaskId, height: nat)
  {
    id in q.tasks && q.tasks[id].state.Ready? && height < q.tasks[id].plan.endHeight
  }

  lemma InputsInForce(validates: (nat, Material) -> bool, store: Store, m: Machine, t: Trace, id: TaskId)
    requires TaskInv(validates, store, m, t) && id in m.executor.tasks && m.executor.tasks[id].state.Ready?
    ensures m.taskInputs.Some?
  {
    ProofOf(m.executor, m.taskInputs, t.madeFrom, id);
  }

  lemma {:induction false} DueMembers(order: seq<TaskId>, tasks: map<TaskId, Task>, height: nat)
    ensures forall id :: id in order && id in tasks && tasks[id].state.Ready? && height < tasks[id].plan.endHeight ==>
      Submit(id, tasks[id].state.ready) in Due(order, tasks, height)
    ensures forall a :: a in Due(order, tasks, height) ==> a.id in order && a.id in tasks
  {
    if order != [] {
      var rest, last := order[..|order| - 1], order[|order| - 1];
      DueMembers(rest, tasks, height);
      assert order == rest + [last];
    }
  }

  /** Ready tasks are among those that submit. */
  lemma BothSubmit(m: Machine, started: seq<Action>, first: TaskId, second: TaskId, height: nat)
    requires QueueInv(m.executor, m.preparations, m.canonicalTasks)
    requires Sends(started) == Due(m.executor.order, m.executor.tasks, height)
    requires ReadyAt(m.executor, first, height) && ReadyAt(m.executor, second, height)
    ensures Submit(first, m.executor.tasks[first].state.ready) in started
    ensures Submit(second, m.executor.tasks[second].state.ready) in started
    ensures forall a :: a in started && a.Submit? ==> a.id in m.executor.tasks
  {
    hide Due, Sends;
    DueMembers(m.executor.order, m.executor.tasks, height);
    SendsMembers(started);
    assert first in m.executor.order && second in m.executor.order;
  }

  /** No submission passes its fence, because the head has moved. */
  ghost predicate HeadMoved(started: seq<Action>, answers: map<TaskId, Answer>)
  {
    forall a :: a in started && a.Submit? ==> !Passes(a, answers) && StopAt(a, answers) == HeadChanged
  }

  lemma AllMoved(q: Queue, started: seq<Action>, answers: map<TaskId, Answer>)
    requires forall a :: a in started && a.Submit? ==> a.id in q.tasks
    requires forall id :: id in q.tasks ==> id in answers && answers[id].fence == Moved
    ensures HeadMoved(started, answers)
  {
  }

  /** Of two submissions only one can be the one that finds the head moved. */
  lemma OneLeft(started: seq<Action>, handled: nat, stop: Option<Outcome>, first: Action, second: Action,
                answers: map<TaskId, Answer>)
    requires first in started && second in started && first.Submit? && second.Submit? && first.id != second.id
    requires DistinctIds(started) && HeadMoved(started, answers)
    requires handled <= |started| && (stop.None? ==> handled == |started|)
    requires forall j :: 0 <= j < handled && (stop.None? || j + 1 < handled) ==> Passes(started[j], answers)
    requires stop.Some? ==>
      handled > 0 && stop.value == StopAt(started[handled - 1], answers) && !Passes(started[handled - 1], answers)
    ensures stop == Some(HeadChanged)
    ensures first.id !in IdsOf(started[..handled]) || second.id !in IdsOf(started[..handled])
    ensures first.id in WaitingIds(started) && second.id in WaitingIds(started)
  {
    hide IdsOf, DistinctIds, StopAt;
    var i :| 0 <= i < |started| && started[i] == first;
    var j :| 0 <= j < |started| && started[j] == second;
    NotHandled(started, handled, i);
    NotHandled(started, handled, j);
    if stop.Some? { assert started[handled - 1] in started; }
  }

  lemma NotHandled(started: seq<Action>, handled: nat, i: nat)
    requires i < |started| && handled <= |started| && DistinctIds(started)
    ensures started[i].id in IdsOf(started[..handled]) <==> i < handled
  {
    if i < handled { assert started[i] in started[..handled]; }
  }

  /** A proof in flight over the inputs in force, or its task unprepared again. */
  ghost predicate PreparationAnswered(m: Machine, id: TaskId, started: bool)
  {
    && m.taskInputs.Some? && id in m.executor.tasks
    && if started then m.preparations == map[id := m.taskInputs.value] else m.executor.tasks[id].state == Unprepared
  }

  lemma Preparation(validates: (nat, Material) -> bool, store: Store, m: Machine, t: Trace, id: TaskId, started: bool,
                    inputs: TaskInputs)
    requires TaskInv(validates, store, m, t) && Waits(m.executor, m.preparations, id) && m.preparations == map[]
    ensures var q, p := if started then m.executor else RecordPrepared(m.executor, id, None).0,
                        if started then m.preparations[id := inputs] else m.preparations;
      && QueueInv(q, p, m.canonicalTasks) && ProofInv(q, m.taskInputs, t.madeFrom)
      && StoreInv(validates, q, m.settled, store)
      && OnlyAt(m.executor.tasks, q.tasks, id) && OnlyAt(m.preparations, p, id)
      && Stranded(q, p) == Stranded(m.executor, m.preparations) - {id}
      && id in q.tasks && (!started ==> q.tasks[id].state == Unprepared)
      && (started ==> p == map[id := inputs])
  {
    var q, p := if started then m.executor else RecordPrepared(m.executor, id, None).0,
                if started then m.preparations[id := inputs] else m.preparations;
    assert p.Keys <= {id} && (p.Keys == {} || p.Keys == {id}) && |p| == |p.Keys|;
    SameKeys(validates, store, m.settled, m.executor, q);
    OneTaskQueue(m.executor, q, m.preparations, p, m.canonicalTasks, id);
    OneTaskStranded(m.executor, q, m.preparations, p, id);
    OneTaskProof(m.executor, q, m.taskInputs, t.madeFrom, t.madeFrom, id);
  }

  /** A submission leaves its task submitted with a hash that is in the pool, or ready as before. */
  ghost predicate SubmitAnswered(q: Queue, id: TaskId, calldata: Bytes, height: nat, a: Answer, live: set<Hash>)
  {
    && id in q.tasks
    && (|| q.tasks[id].state == Ready(calldata)
        || (a.fence.Holds? && a.fenceAfter.Holds? && a.accepted.Some? && a.accepted.value in live
            && q.tasks[id].state == Submitted(calldata, a.accepted.value, height)))
    && (!a.fence.Holds? ==> q.tasks[id].state == Ready(calldata))
  }

  lemma RecordedSubmitted(validates: (nat, Material) -> bool, store: Store, m: Machine, t: Trace, id: TaskId,
                          calldata: Bytes, height: nat, r: Option<Hash>)
    requires TaskInv(validates, store, m, t)
    requires id in m.executor.tasks && m.executor.tasks[id].state == Submitting(calldata)
    ensures var q := RecordSubmitted(m.executor, id, height, r).0;
      && QueueInv(q, m.preparations, m.canonicalTasks) && ProofInv(q, m.taskInputs, t.madeFrom)
      && StoreInv(validates, q, m.settled, store) && OnlyAt(m.executor.tasks, q.tasks, id)
      && Stranded(q, m.preparations) == Stranded(m.executor, m.preparations) - {id}
      && id in q.tasks
      && q.tasks[id].state == (if r.Some? then Submitted(calldata, r.value, height) else Ready(calldata))
  {
    var q := RecordSubmitted(m.executor, id, height, r).0;
    SameKeys(validates, store, m.settled, m.executor, q);
    OneTaskQueue(m.executor, q, m.preparations, m.preparations, m.canonicalTasks, id);
    OneTaskStranded(m.executor, q, m.preparations, m.preparations, id);
    OneTaskProof(m.executor, q, m.taskInputs, t.madeFrom, t.madeFrom, id);
  }

  /** The whole of a submission: its task recorded, its transactions and reservation as pricing left them. */
  lemma SubmissionDone(validates: (nat, Material) -> bool, store: Store, m: Machine, t: Trace, n: Machine, u: Trace,
                       id: TaskId, calldata: Bytes, height: nat, r: Option<Hash>, a: Answer)
    requires TaskInv(validates, store, m, t) && Grows(m.owned, n.owned)
    requires id in m.executor.tasks && m.executor.tasks[id].state == Submitting(calldata)
    requires n == m.(executor := RecordSubmitted(m.executor, id, height, r).0, owned := n.owned,
                     transactions := n.transactions)
    requires u == t.(live := u.live, lastNonce := u.lastNonce, seenNonce := u.seenNonce)
    requires PoolInv(u.live, n.owned) && NonceInv(n.owned, n.transactions, u.lastNonce, u.seenNonce)
    requires r.Some? ==> a.fence.Holds? && a.fenceAfter.Holds? && r == a.accepted && r.value in u.live
    ensures TaskInv(validates, store, n, u) && TransactionInv(n, u) && ActsOn(m, n, id)
    ensures SubmitAnswered(n.executor, id, calldata, height, a, u.live)
    ensures Stranded(n.executor, n.preparations) == Stranded(m.executor, m.preparations) - {id}
  {
    hide QueueInv, ProofInv, StoreInv, PoolInv, NonceInv, Stranded, RecordSubmitted, Grows, OnlyAt;
    RecordedSubmitted(validates, store, m, t, id, calldata, height, r);
    SameMap(m.preparations, id);
  }

  lemma ReceiptFacts(q: Queue, id: TaskId, receipt: Option<Receipt>)
    requires Valid(q) && id in q.tasks && q.tasks[id].state.Checking?
    ensures var q' := RecordReceipt(q, id, receipt).0;
      && Valid(q') && OnlyAt(q.tasks, q'.tasks, id) && q'.tasks.Keys <= q.tasks.Keys
      && (id in q'.tasks <==> receipt != Some(Succeeded))
      && (id in q'.tasks ==> q'.tasks[id].state.Ready?)
  {
    RecordReceiptKeepsValid(q, id, receipt);
  }

  lemma RecordedReceipt(validates: (nat, Material) -> bool, store: Store, m: Machine, t: Trace, id: TaskId,
                        receipt: Option<Receipt>)
    requires TaskInv(validates, store, m, t) && id in m.executor.tasks && m.executor.tasks[id].state.Checking?
    ensures var q := RecordReceipt(m.executor, id, receipt).0;
      && QueueInv(q, m.preparations, m.canonicalTasks) && ProofInv(q, m.taskInputs, t.madeFrom)
      && StoreInv(validates, q, m.settled, store) && OnlyAt(m.executor.tasks, q.tasks, id)
      && (id in q.tasks <==> receipt != Some(Succeeded))
      && Stranded(q, m.preparations) == Stranded(m.executor, m.preparations) - {id}
  {
    hide RecordReceipt, Stranded, QueueInv, Valid, StoreInv, ProofInv;
    ProofOf(m.executor, m.taskInputs, t.madeFrom, id);
    var q := RecordReceipt(m.executor, id, receipt).0;
    QueueIsValid(m.executor, m.preparations, m.canonicalTasks);
    ReceiptFacts(m.executor, id, receipt);
    NotWaiting(q, m.preparations, id);
    NotPrepared(m.executor, m.preparations, m.canonicalTasks, id);
    SameKeys(validates, store, m.settled, m.executor, q);
    PreparationBound(m.executor, m.preparations, m.canonicalTasks);
    OneTaskQueue(m.executor, q, m.preparations, m.preparations, m.canonicalTasks, id);
    OneTaskStranded(m.executor, q, m.preparations, m.preparations, id);
    OneTaskProof(m.executor, q, m.taskInputs, t.madeFrom, t.madeFrom, id);
  }
}
