/**
  The state of the validator DKG runtime, what the outside answers during a heartbeat, and the
  invariants that tie the two together.
 */
module DkgMachine {
  import opened Basics
  import opened Outcomes
  import opened DkgQueue
  import opened DkgPlanner
  import D = DkgDigest
  import T = DkgTransactions

  type Material = D.Settled

  /** The keystore: its settled round and keys, and whether an unfinished round is open. */
  datatype Store = Store(round: nat, keys: nat, sharing: bool)

  /** What the signer was given: the settled round and keys of the store, and the head they are bound to. */
  datatype Installed = Installed(round: nat, keys: nat, head: Hash)

  datatype TaskInputs = TaskInputs(pending: seq<nat>, messageKeys: seq<nat>)

  /** Contributions to an unfinished round, as sets of what was accepted. */
  datatype Round = Round(round: nat, shares: set<(nat, nat)>, reshares: set<(nat, nat)>)

  datatype Recovery = Recovery(recoveryRound: nat, recipient: nat, source: nat, messages: set<(nat, nat)>)

  datatype Contract = Contract(currentRound: nat, nextRound: nat, shareReady: bool, missing: seq<nat>)

  /** A comparison with the provider: as expected, changed, or not readable. */
  datatype Check = Holds | Moved | Unreadable

  datatype Outcome = Done | HeadChanged | Failed

  // ---------------------------------------------------------------------------
  // What the outside answers during a heartbeat
  // ---------------------------------------------------------------------------

  /** The latest header. */
  datatype HeaderRead = HeaderUnreadable | NoHeader | Header(height: nat, head: Hash)

  /** The reconciliation of settled material: head check, rebuilt store, its saving, the signer's acceptance. */
  datatype SettleAnswers = SettleAnswers(fence: Check, rebuilt: Option<Store>, saved: bool, installable: bool)

  /** The replay of the unfinished round and of recovery messages; `left` is the store a failure leaves. */
  datatype ReplayAnswers = ReplayAnswers(
    canonical: Option<Round>, applied: bool, left: Store, recoveryOpened: bool, recovery: Option<Recovery>,
    recoveryApplied: bool)

  /** What becomes of one action; `priced` is whether the account and fees could be read for it. */
  datatype Answer = Answer(
    material: bool, fence: Check, priced: bool, occupied: set<int>, accepted: Option<Hash>,
    fenceAfter: Check, receipt: Option<Receipt>)

  const NO_ANSWER := Answer(false, Unreadable, false, {}, None, Unreadable, None)

  function AnswerFor(answers: map<TaskId, Answer>, id: TaskId): Answer
  {
    if id in answers then answers[id] else NO_ANSWER
  }

  /**
    One heartbeat, read by read: the head and its place in the canonical mapping, the settled material,
    the schedule and contract of the active round, the replay, the inputs of the tasks, the finished
    proofs, the account and fees in the state of this head, one answer for each action, and the head
    checks in between.
   */
  datatype Heartbeat = Heartbeat(
    reorg: bool, header: HeaderRead, mapped: Check, previousMapped: Check, state: Check,
    settled: Option<Material>, settle: SettleAnswers,
    schedule: Option<Schedule>, contract: Option<Contract>, suspendFence: Check,
    participants: nat, threshold: nat, zkMatches: bool, pending: Option<seq<nat>>, pendingIndex: Option<nat>,
    replay: ReplayAnswers, reverted: Option<Store>,
    canonicalTasks: Option<set<TaskId>>, inputs: Option<TaskInputs>, keyMatches: bool,
    finished: map<TaskId, Option<Bytes>>, pricing: T.Inputs, answers: map<TaskId, Answer>, finalFence: Check)

  /** Rebuilding the keystore from canonical material gives keys that pass validation against it. */
  predicate RebuildSound(validates: (nat, Material) -> bool, m: Material, rebuilt: Option<Store>)
  {
    rebuilt.Some? ==> Validates(validates, rebuilt.value, m)
  }

  /** What the outside is assumed to keep to: material as its type allows, sound rebuilds, ordered schedules. */
  ghost predicate Sensible(validates: (nat, Material) -> bool, hb: Heartbeat)
  {
    && (hb.settled.Some? ==> D.Fits(hb.settled.value) && RebuildSound(validates, hb.settled.value, hb.settle.rebuilt))
    && (hb.schedule.Some? ==> OrderedSchedule(hb.schedule.value))
  }

  /** While the runtime has not reconciled once, every attempt that does not succeed is undone. */
  datatype Attempt = HeaderMissing | Try(attempt: Heartbeat)

  /** A heartbeat, a notice that leaves no header to read, or the end of the stream. */
  datatype Event = Beat(beat: Heartbeat) | HeaderLost | Closed

  // ---------------------------------------------------------------------------
  // Invariants
  // ---------------------------------------------------------------------------

  /** Whether local keys are the ones of some settled material. */
  predicate Validates(validates: (nat, Material) -> bool, store: Store, m: Material)
  {
    store.round == m.round && validates(store.keys, m)
  }

  /** The signer holds keys that validate against some settled material. */
  predicate SignsFor(validates: (nat, Material) -> bool, signer: Option<Installed>, m: Material)
  {
    signer.Some? && signer.value.round == m.round && validates(signer.value.keys, m)
  }

  function InstalledFrom(store: Store, head: Hash): Option<Installed>
  {
    Some(Installed(store.round, store.keys, head))
  }

  /** The marker as the program puts it together: the round, the index, and the hash of the printed material. */
  lemma DigestMarker(hash: D.Encoding -> nat, m: Material)
    requires D.Fits(m)
    ensures D.MarkerOf(hash, m) == D.Marker(m.round, m.currentIndex, hash(D.Encode(m)))
  {
  }

  /** A marker names material that the signer's own keys validate against. */
  ghost predicate Names(hash: D.Encoding -> nat, validates: (nat, Material) -> bool, marker: D.Marker,
                        signer: Option<Installed>)
  {
    exists m :: D.Fits(m) && marker == D.MarkerOf(hash, m) && SignsFor(validates, signer, m)
  }

  /** No marker means no shares; a marker names the material the shares are for. */
  ghost predicate SignerInv(hash: D.Encoding -> nat, validates: (nat, Material) -> bool, marker: Option<D.Marker>,
                            signer: Option<Installed>)
  {
    && (marker.None? ==> signer.None?)
    && (marker.Some? ==> Names(hash, validates, marker.value, signer))
  }

  lemma InstalledFor(hash: D.Encoding -> nat, validates: (nat, Material) -> bool, store: Store, head: Hash, m: Material)
    requires D.Fits(m) && Validates(validates, store, m)
    ensures SignerInv(hash, validates, Some(D.MarkerOf(hash, m)), Some(Installed(store.round, store.keys, head)))
  {
    hide D.MarkerOf, D.Fits;
    assert SignsFor(validates, Some(Installed(store.round, store.keys, head)), m);
  }

  /** With a collision-free hash, the marker of some material says the signer's keys validate against it. */
  lemma MarkedSharesValidate(hash: D.Encoding -> nat, validates: (nat, Material) -> bool, signer: Option<Installed>,
                             m: Material)
    requires D.CollisionFree(hash) && D.Fits(m) && SignerInv(hash, validates, Some(D.MarkerOf(hash, m)), signer)
    ensures SignsFor(validates, signer, m)
  {
    hide D.MarkerOf, D.Fits;
    var named :| D.Fits(named) && D.MarkerOf(hash, m) == D.MarkerOf(hash, named) && SignsFor(validates, signer, named);
    D.MarkerNamesMaterial(hash, m, named);
  }

  /**
    No queued task is already canonical, proofs in flight belong to tasks being prepared, and there is
    at most one.
   */
  ghost predicate QueueInv(q: Queue, preparations: map<TaskId, TaskInputs>, canonicalTasks: set<TaskId>)
  {
    && Valid(q)
    && (forall id :: id in q.tasks ==> id !in canonicalTasks)
    && (forall id :: id in preparations ==> id in q.tasks && q.tasks[id].state.Preparing?)
    && |preparations| <= 1
  }

  /** Every task with calldata got it from a proof over the recipient inputs now in force. */
  ghost predicate ProofInv(q: Queue, inputs: Option<TaskInputs>, madeFrom: map<TaskId, TaskInputs>)
  {
    forall id :: id in q.tasks && Calldata(q.tasks[id].state).Some? ==>
      id in madeFrom && inputs == Some(madeFrom[id])
  }

  /** Tasks are queued only over an open round on top of the settled material last reconciled. */
  ghost predicate StoreInv(validates: (nat, Material) -> bool, q: Queue, settled: Option<Material>, store: Store)
  {
    q.tasks != map[] ==> settled.Some? && store.sharing && Validates(validates, store, settled.value)
  }

  /** Every transaction put in the pool and not asked to be removed is listed. */
  ghost predicate PoolInv(live: set<Hash>, owned: map<TaskId, seq<Hash>>)
  {
    forall h :: h in live ==> exists id :: id in owned && h in owned[id]
  }

  /** A listed task without a reservation lost it because the chain passed its nonce. */
  ghost predicate NonceInv(owned: map<TaskId, seq<Hash>>, b: T.Builder, lastNonce: map<TaskId, nat>, seenNonce: nat)
  {
    && T.DistinctNonces(b)
    && (forall id :: id in owned ==> id in lastNonce)
    && (forall id :: id in owned && id in b ==> b[id].nonce == lastNonce[id])
    && (forall id :: id in owned && id !in b ==> lastNonce[id] < seenNonce)
  }

  /** Tasks waiting for an answer that nobody will give: no proof in flight, or no submission under way. */
  function Stranded(q: Queue, preparations: map<TaskId, TaskInputs>): set<TaskId>
  {
    set id | id in q.tasks &&
      ((q.tasks[id].state.Preparing? && id !in preparations) || q.tasks[id].state.Submitting?)
  }

  // ---------------------------------------------------------------------------
  // The machine
  // ---------------------------------------------------------------------------

  datatype Config = Config(store: Store, signer: Option<Installed>)

  datatype Machine = Machine(
    canonicalHead: Option<(nat, Hash)>, epoch: Option<(Schedule, nat)>,
    membership: Option<(Option<nat>, Option<nat>)>, marker: Option<D.Marker>, settled: Option<Material>,
    active: Option<Round>, recovery: Option<Recovery>,
    planner: Planner, executor: Queue, transactions: T.Builder, preparations: map<TaskId, TaskInputs>,
    taskInputs: Option<TaskInputs>, canonicalTasks: set<TaskId>,
    owned: map<TaskId, seq<Hash>>, pendingReleases: set<TaskId>)

  /**
    What happened so far: the pool transactions not asked to be removed, the inputs each task's calldata
    was proved over, the nonce last reserved for each task, the greatest canonical nonce read, and how
    often everything was discarded.
   */
  datatype Trace = Trace(
    live: set<Hash>, madeFrom: map<TaskId, TaskInputs>, lastNonce: map<TaskId, nat>, seenNonce: nat, discards: nat)

  ghost predicate TaskInv(validates: (nat, Material) -> bool, store: Store, m: Machine, t: Trace)
  {
    && QueueInv(m.executor, m.preparations, m.canonicalTasks)
    && ProofInv(m.executor, m.taskInputs, t.madeFrom)
    && StoreInv(validates, m.executor, m.settled, store)
  }

  ghost predicate TransactionInv(m: Machine, t: Trace)
  {
    && PoolInv(t.live, m.owned)
    && NonceInv(m.owned, m.transactions, t.lastNonce, t.seenNonce)
  }

  /** Nothing is queued, in flight, in the pool or reserved. */
  predicate Idle(m: Machine)
  {
    && m.executor == EMPTY && m.preparations == map[] && m.planner == DEFAULT
    && m.owned == map[] && m.transactions == map[] && m.pendingReleases == {}
  }

  // ---------------------------------------------------------------------------
  // How two states compare
  // ---------------------------------------------------------------------------

  /** The settled material and the marker stay as they are. */
  predicate Keeps(before: Machine, after: Machine)
  {
    before.marker == after.marker && before.settled == after.settled
  }

  /** How a suspended heartbeat ends. */
  predicate Suspended(m: Machine, o: Outcome, height: nat, head: Hash)
  {
    Idle(m) && (o.Done? ==> m.canonicalHead == Some((height, head)))
  }

  /** The parts of the machine that the invariants speak of. */
  predicate SameWork(m: Machine, n: Machine)
  {
    && m.executor == n.executor && m.preparations == n.preparations && m.canonicalTasks == n.canonicalTasks
    && m.taskInputs == n.taskInputs && m.settled == n.settled
    && m.owned == n.owned && m.transactions == n.transactions
  }

  /** The list only grows: every entry is still there, with its hashes in place. */
  ghost predicate Grows(before: map<TaskId, seq<Hash>>, after: map<TaskId, seq<Hash>>)
  {
    forall id :: id in before ==> id in after && before[id] <= after[id]
  }

  /** The queue, its proofs, the transactions, the reservations and the staged releases are as they were. */
  predicate Untouched(before: Machine, after: Machine)
  {
    && after.executor == before.executor && after.preparations == before.preparations
    && after.canonicalTasks == before.canonicalTasks && after.taskInputs == before.taskInputs
    && after.pendingReleases == before.pendingReleases
    && after.owned == before.owned && after.transactions == before.transactions
  }

  /** Nothing is queued, in flight, in the pool or reserved, whatever is staged for release. */
  predicate Emptied(m: Machine)
  {
    m.executor == EMPTY && m.preparations == map[] && m.owned == map[] && m.transactions == map[]
  }

  /** Between two states: either everything was discarded, or all task work is as it was. */
  ghost predicate GivesUpTogether(before: Machine, t: Trace, after: Machine, u: Trace)
  {
    && u.discards >= t.discards
    && if u.discards == t.discards then Untouched(before, after) else Emptied(after)
  }

  /** Some tasks left the queue with their proofs and are staged for release; the others stay in their order. */
  predicate Retired(before: Machine, after: Machine, newly: set<TaskId>)
  {
    && after.executor.tasks == before.executor.tasks - newly
    && after.executor.order == Kept(before.executor.order, after.executor.tasks)
    && after.preparations == before.preparations - newly
    && after.pendingReleases == before.pendingReleases + newly
    && after.owned == before.owned && after.transactions == before.transactions
  }

  /** Between two states: either everything was discarded, or these tasks were retired. */
  ghost predicate RetiresTogether(before: Machine, t: Trace, after: Machine, u: Trace, newly: set<TaskId>)
  {
    && u.discards >= t.discards
    && if u.discards == t.discards then Retired(before, after, newly) else Emptied(after)
  }

  /** A task that is no longer listed has no reservation either. */
  ghost predicate ReleasedTogether(before: Machine, after: Machine)
  {
    forall id :: id in before.owned && id !in after.owned ==> id !in after.transactions
  }

  /** Two maps agree everywhere but at one task. */
  ghost predicate OnlyAt<V(!new)>(m: map<TaskId, V>, n: map<TaskId, V>, id: TaskId)
  {
    forall x :: x != id ==> (x in m <==> x in n) && (x in m ==> m[x] == n[x])
  }

  /** Handling one action changes that task, its transactions and its release, and nothing else. */
  ghost predicate ActsOn(m: Machine, n: Machine, id: TaskId)
  {
    && n == m.(executor := n.executor, preparations := n.preparations, transactions := n.transactions,
               owned := n.owned, pendingReleases := n.pendingReleases)
    && OnlyAt(m.executor.tasks, n.executor.tasks, id) && OnlyAt(m.preparations, n.preparations, id)
    && Grows(m.owned, n.owned) && m.pendingReleases <= n.pendingReleases
  }

  /** The last reconciled head is above the new one, or no longer canonical. */
  predicate Discontinuous(m: Machine, height: nat, previousMapped: Check)
  {
    m.canonicalHead.Some? && (height < m.canonicalHead.value.0 || previousMapped.Moved?)
  }

  /** Something accepted before is no longer there. */
  predicate Regressed(prior: Option<Round>, current: Round)
  {
    && prior.Some?
    && (|| prior.value.round != current.round
        || !(prior.value.shares <= current.shares) || !(prior.value.reshares <= current.reshares))
  }

  predicate RecoveryRegressed(prior: Option<Recovery>, current: Recovery)
  {
    && prior.Some?
    && (|| prior.value.recoveryRound != current.recoveryRound || prior.value.recipient != current.recipient
        || prior.value.source != current.source || !(prior.value.messages <= current.messages))
  }

  predicate CanRecover(hb: Heartbeat)
    requires hb.contract.Some?
  {
    && hb.contract.value.shareReady && 1 <= |hb.contract.value.missing|
    && |hb.contract.value.missing| + hb.threshold <= hb.participants
  }

  // ---------------------------------------------------------------------------
  // When task work stands
  // ---------------------------------------------------------------------------

  /** Other settled material than last time. */
  predicate SettledChanged(m: Machine, hb: Heartbeat)
  {
    hb.settled.Some? && m.settled.Some? && m.settled != hb.settled
  }

  /** The active round can be read and is the one after the settled round. */
  predicate RoundReadable(round: nat, hb: Heartbeat)
  {
    hb.schedule.Some? && hb.contract.Some? && hb.contract.value.currentRound == round
  }

  /** Another branch, place or epoch, or other members to recover than those planned for. */
  predicate EpochChanged(m: Machine, hb: Heartbeat, reset: bool, restart: bool)
    requires hb.schedule.Some? && hb.contract.Some?
  {
    || reset || restart || m.epoch != Some((hb.schedule.value, hb.contract.value.nextRound))
    || (m.planner.planned != [] && m.planner.planned != hb.contract.value.missing)
  }

  /** Another place among the pending validators, or other pending validators. */
  predicate PendingChanged(m: Machine, pending: seq<nat>, pendingIndex: Option<nat>)
  {
    || (m.membership.Some? && m.membership.value.1 != pendingIndex)
    || (m.taskInputs.Some? && m.taskInputs.value.pending != pending)
  }

  /** Recovery messages are replayed for this validator. */
  predicate RecoveryDue(hb: Heartbeat, height: nat)
    requires hb.schedule.Some? && hb.contract.Some?
  {
    && height >= hb.schedule.value.recoverStart && CanRecover(hb)
    && height >= hb.schedule.value.recoverCheck && hb.pendingIndex.Some?
    && hb.pendingIndex.value in hb.contract.value.missing
  }

  /** The round and the recovery messages can be replayed into the store. */
  predicate Replayable(store: Store, hb: Heartbeat, height: nat)
    requires hb.schedule.Some? && hb.contract.Some?
  {
    && store.round + 1 == hb.contract.value.nextRound && hb.replay.canonical.Some? && hb.replay.applied
    && (height >= hb.schedule.value.recoverStart && CanRecover(hb) ==> hb.replay.recoveryOpened)
    && (RecoveryDue(hb, height) ==> hb.replay.recovery.Some? && hb.replay.recoveryApplied)
  }

  /** Something accepted into the round or its recovery is no longer there. */
  predicate ReplayChanged(m: Machine, hb: Heartbeat, height: nat)
    requires hb.schedule.Some? && hb.contract.Some?
  {
    || (hb.replay.canonical.Some? && Regressed(m.active, hb.replay.canonical.value))
    || (RecoveryDue(hb, height) && hb.replay.recovery.Some? &&
        RecoveryRegressed(m.recovery, hb.replay.recovery.value))
  }

  /** A contribution is no longer canonical, or the tasks are to be built on other inputs. */
  predicate InputsChanged(m: Machine, hb: Heartbeat)
    requires hb.canonicalTasks.Some?
  {
    !(m.canonicalTasks <= hb.canonicalTasks.value) || (m.taskInputs.Some? && m.taskInputs != hb.inputs)
  }

  /** Inside the window: everything about the round can be read and nothing accepted before has changed. */
  predicate RoundStands(m: Machine, store: Store, hb: Heartbeat, height: nat)
    requires hb.schedule.Some? && hb.contract.Some?
  {
    && hb.zkMatches && hb.pending.Some? && Replayable(store, hb, height)
    && hb.canonicalTasks.Some? && hb.inputs.Some? && hb.keyMatches
    && !PendingChanged(m, hb.pending.value, hb.pendingIndex) && !ReplayChanged(m, hb, height) && !InputsChanged(m, hb)
  }

  /** The exact condition under which a heartbeat keeps the task work of the ones before it. */
  predicate WorkStands(m: Machine, round: nat, store: Store, hb: Heartbeat, height: nat, reset: bool, restart: bool)
  {
    && RoundReadable(round, hb) && !EpochChanged(m, hb, reset, restart)
    && if Active(hb.schedule.value, height) then RoundStands(m, store, hb, height) else !store.sharing
  }

  /** The store the settled material leaves: the one there was, if its keys are good for it. */
  function StoreFor(validates: (nat, Material) -> bool, store: Store, hb: Heartbeat): Store
  {
    if hb.settled.Some? && !Validates(validates, store, hb.settled.value) && hb.settle.rebuilt.Some? then
      hb.settle.rebuilt.value
    else store
  }

  /** The same for a whole heartbeat, from the state it starts in and what it reads. */
  predicate WorkStandsIn(validates: (nat, Material) -> bool, m: Machine, store: Store, hb: Heartbeat)
  {
    && hb.header.Header? && hb.settled.Some? && !SettledChanged(m, hb)
    && WorkStands(m, hb.settled.value.round, StoreFor(validates, store, hb), hb, hb.header.height,
         hb.reorg || Discontinuous(m, hb.header.height, hb.previousMapped),
         m.membership.None? || m.membership.value.0 != hb.settled.value.currentIndex)
  }

  // ---------------------------------------------------------------------------
  // What carries over
  // ---------------------------------------------------------------------------

  lemma CarryOver(validates: (nat, Material) -> bool, store: Store, m: Machine, n: Machine, t: Trace)
    requires SameWork(m, n) && TaskInv(validates, store, m, t) && TransactionInv(m, t)
    ensures TaskInv(validates, store, n, t) && TransactionInv(n, t)
  {
  }

  lemma CarryTransactions(m: Machine, n: Machine, t: Trace, u: Trace)
    requires TransactionInv(m, t) && m.owned == n.owned && m.transactions == n.transactions
    requires t.live == u.live && t.lastNonce == u.lastNonce && t.seenNonce == u.seenNonce
    ensures TransactionInv(n, u)
  {
  }

  lemma PoolAndNonces(m: Machine, t: Trace)
    requires TransactionInv(m, t)
    ensures PoolInv(t.live, m.owned) && NonceInv(m.owned, m.transactions, t.lastNonce, t.seenNonce)
  {
  }

  lemma TasksOnly(validates: (nat, Material) -> bool, store: Store, m: Machine, n: Machine, t: Trace, u: Trace)
    requires TaskInv(validates, store, m, t)
    requires m.executor == n.executor && m.preparations == n.preparations && m.canonicalTasks == n.canonicalTasks
    requires m.taskInputs == n.taskInputs && m.settled == n.settled && t.madeFrom == u.madeFrom
    ensures TaskInv(validates, store, n, u)
  {
  }

  lemma MarkerOnly(m: Machine, marker: Option<D.Marker>, t: Trace)
    requires TransactionInv(m, t)
    ensures TransactionInv(m.(marker := marker), t)
  {
  }

  lemma SettledOnly(m: Machine, settled: Material, membership: Option<(Option<nat>, Option<nat>)>, t: Trace)
    requires TransactionInv(m, t)
    ensures TransactionInv(m.(settled := Some(settled), membership := membership), t)
  {
  }

  /** Opening the unfinished round does not touch the settled keys. */
  lemma OpenRound(validates: (nat, Material) -> bool, store: Store, m: Machine, t: Trace)
    requires TaskInv(validates, store, m, t)
    ensures TaskInv(validates, store.(sharing := true), m, t)
  {
  }

  lemma StillValidates(validates: (nat, Material) -> bool, store: Store, m: Material)
    requires Validates(validates, store, m)
    ensures Validates(validates, store.(sharing := true), m)
  {
  }

  /** An empty queue satisfies whatever is asked of queued tasks. */
  lemma NoTasks(validates: (nat, Material) -> bool, canonicalTasks: set<TaskId>, inputs: Option<TaskInputs>,
                settled: Option<Material>, store: Store)
    ensures QueueInv(EMPTY, map[], canonicalTasks) && ProofInv(EMPTY, inputs, map[])
    ensures StoreInv(validates, EMPTY, settled, store)
  {
  }

  lemma NothingOwned(lastNonce: map<TaskId, nat>, seenNonce: nat)
    ensures NonceInv(map[], map[], lastNonce, seenNonce)
  {
  }

  lemma StillIdle(m: Machine, t: Trace)
    requires Idle(m) && t.live == {}
    ensures TransactionInv(m, t)
  {
  }

  lemma NoChange(m: Machine, id: TaskId)
    ensures ActsOn(m, m, id)
  {
  }

  lemma AllKept(owned: map<TaskId, seq<Hash>>)
    ensures Grows(owned, owned)
  {
  }

  lemma GrowsOn(a: map<TaskId, seq<Hash>>, b: map<TaskId, seq<Hash>>, c: map<TaskId, seq<Hash>>)
    requires Grows(a, b)
    ensures Grows(b, c) ==> Grows(a, c)
  {
  }

  lemma MarkedOnly(m: Machine, n: Machine, t: Trace)
    requires n == m.(marker := n.marker)
    ensures GivesUpTogether(m, t, n, t)
  {
  }

  lemma GivesUpOn(a: Machine, t: Trace, b: Machine, u: Trace, c: Machine, v: Trace)
    requires GivesUpTogether(a, t, b, u) && GivesUpTogether(b, u, c, v)
    ensures GivesUpTogether(a, t, c, v)
  {
  }

  /** Retiring tasks of an empty queue leaves it empty. */
  lemma StaysEmptied(b: Machine, c: Machine, newly: set<TaskId>)
    requires Emptied(b) && Retired(b, c, newly)
    ensures Emptied(c)
  {
  }

  lemma RetiresOn(a: Machine, t: Trace, b: Machine, u: Trace, c: Machine, v: Trace, newly: set<TaskId>)
    requires GivesUpTogether(a, t, b, u) && RetiresTogether(b, u, c, v, newly)
    ensures RetiresTogether(a, t, c, v, newly)
  {
    if u.discards > t.discards && v.discards == u.discards { StaysEmptied(b, c, newly); }
  }

  lemma RetiresSame(a: Machine, t: Trace, m: Machine, u: Trace, newly: set<TaskId>, same: set<TaskId>)
    requires RetiresTogether(a, t, m, u, newly) && (u.discards == t.discards ==> newly == same)
    ensures RetiresTogether(a, t, m, u, same)
  {
  }

  lemma RetiredOwns(a: Machine, t: Trace, m: Machine, u: Trace, newly: set<TaskId>)
    requires RetiresTogether(a, t, m, u, newly) && u.discards == t.discards
    ensures m.owned == a.owned
  {
  }

  /** Taking over the settled material changes nothing that task work depends on. */
  lemma StandsAfterSettled(a: Machine, m: Machine, round: nat, store: Store, hb: Heartbeat, height: nat, reset: bool,
                           restart: bool)
    requires m == a.(marker := m.marker, settled := m.settled, membership := m.membership)
    requires if a.membership.None? then restart
             else m.membership.Some? && m.membership.value.1 == a.membership.value.1
    ensures WorkStands(m, round, store, hb, height, reset, restart) <==>
            WorkStands(a, round, store, hb, height, reset, restart)
  {
    hide Replayable, RecoveryDue, CanRecover, Regressed, RecoveryRegressed;
  }

  lemma InputsOnly(a: Machine, m: Machine, newly: set<TaskId>, inputs: Option<TaskInputs>)
    ensures Retired(a, m, newly) ==> Retired(a, m.(taskInputs := inputs), newly)
  {
  }

  lemma NoneRetired(m: Machine, n: Machine)
    requires Untouched(m, n.(canonicalTasks := m.canonicalTasks, taskInputs := m.taskInputs)) && Valid(m.executor)
    ensures Retired(m, n, {})
  {
    KeptAll(m.executor.order, m.executor.tasks);
    NoneLess(m.executor.tasks);
    NoneLess(m.preparations);
  }

  lemma ReleasedSince(a: Machine, b: Machine, c: Machine)
    requires Grows(a.owned, b.owned) && ReleasedTogether(b, c)
    ensures ReleasedTogether(a, c)
  {
  }

  lemma FinishReleases(before: Machine, acted: Machine, after: Machine)
    requires Grows(before.owned, acted.owned) && after.owned == acted.owned - acted.pendingReleases
    requires after.transactions == acted.transactions - acted.pendingReleases
    ensures ReleasedTogether(before, after)
  {
  }

  lemma SameMap<V(!new)>(m: map<TaskId, V>, id: TaskId)
    ensures OnlyAt(m, m, id)
  {
  }

  lemma OneLess<V>(m: map<TaskId, V>, done: set<TaskId>, id: TaskId)
    ensures m - done - {id} == m - (done + {id})
  {
  }

  lemma NoneLess<V>(m: map<TaskId, V>)
    ensures m - {} == m
  {
  }
}
