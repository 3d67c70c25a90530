/**
  The validator DKG runtime: one machine that reconciles signer shares, queued tasks, in-flight proofs,
  pool transactions and nonce reservations with a moving canonical head.
 */
module DkgRuntime {
  import opened Basics
  import opened Outcomes
  import opened DkgQueue
  import opened DkgPlanner
  import opened DkgMachine
  import opened DkgPoolSteps
  import opened DkgTaskSteps
  import opened DkgReservations
  import D = DkgDigest
  import T = DkgTransactions

  class Runtime {
    const hash: D.Encoding -> nat
    const validates: (nat, Material) -> bool
    var config: Config
    var machine: Machine
    ghost var trace: Trace

    /** What holds even where the store is being rebuilt under queued tasks. */
    ghost predicate BaseInv()
      reads this
    {
      SignerInv(hash, validates, machine.marker, config.signer) && TransactionInv(machine, trace)
    }

    /** What holds between any two steps of the runtime. */
    ghost predicate Inv()
      reads this
    {
      BaseInv() && TaskInv(validates, config.store, machine, trace)
    }

    /** A new machine beside a signer that holds nothing yet. */
    constructor (hash: D.Encoding -> nat, validates: (nat, Material) -> bool, store: Store)
      ensures Inv() && config.signer.None? && this.hash == hash && this.validates == validates
    {
      this.hash, this.validates, config := hash, validates, Config(store, None);
      machine := Machine(None, None, None, None, None, None, None, DEFAULT, EMPTY, map[], map[], None, {}, map[], {});
      trace := Trace({}, map[], map[], 0, 0);
    }

    // -------------------------------------------------------------------------
    // Giving up work
    // -------------------------------------------------------------------------

    /** `discard_owned_pool_transactions`. */
    method Discard()
      requires BaseInv()
      modifies this`machine, this`trace
      ensures BaseInv() && trace == old(trace).(live := {}, discards := old(trace).discards + 1)
      ensures machine == old(machine).(owned := map[], pendingReleases := {})
    {
      hide SignerInv, QueueInv, ProofInv, StoreInv, PoolInv, NonceInv, HashesOf;
      NothingLeft(trace.live, machine.owned);
      StopOwning(machine.owned, machine.transactions, trace.lastNonce, trace.seenNonce);
      trace := trace.(live := trace.live - HashesOf(machine.owned), discards := trace.discards + 1);
      machine := machine.(owned := map[], pendingReleases := {});
    }

    /** `reset_task_work`, always right after a discard. */
    method ResetTaskWork()
      requires BaseInv() && machine.owned == map[]
      modifies this`machine, this`trace
      ensures Inv() && trace == old(trace).(madeFrom := map[])
      ensures machine ==
        old(machine).(planner := DEFAULT, executor := EMPTY, transactions := map[], preparations := map[])
    {
      hide SignerInv, QueueInv, ProofInv, StoreInv, PoolInv, NonceInv, HashesOf;
      machine := machine.(planner := DEFAULT, executor := EMPTY, transactions := map[], preparations := map[]);
      trace := trace.(madeFrom := map[]);
      NoTasks(validates, machine.canonicalTasks, machine.taskInputs, machine.settled, config.store);
      NothingOwned(trace.lastNonce, trace.seenNonce);
    }

    /** Drops all task work; callers then adjust the rest of the machine. */
    method DiscardAndReset()
      requires BaseInv()
      modifies this`machine, this`trace
      ensures Inv() && Idle(machine) && trace.live == {} && trace.discards == old(trace).discards + 1
      ensures machine == old(machine).(planner := DEFAULT, executor := EMPTY, transactions := map[],
        preparations := map[], owned := map[], pendingReleases := {})
      ensures trace.madeFrom == map[]
    {
      hide SignerInv, TaskInv, TransactionInv;
      Discard();
      ResetTaskWork();
    }

    /** `suspend_task_work_at_head`: drops all task work, keeps the shares. */
    method Suspend(height: nat, head: Hash, fence: Check) returns (o: Outcome)
      requires BaseInv()
      modifies this`machine, this`trace
      ensures Inv() && Idle(machine) && trace.live == {} && trace.discards == old(trace).discards + 1
      ensures machine.marker == old(machine).marker && machine.settled == old(machine).settled
      ensures machine.canonicalTasks == {} && machine.taskInputs.None?
      ensures o == match fence case Holds => Done case Moved => HeadChanged case Unreadable => Failed
      ensures machine.canonicalHead == if o.Done? then Some((height, head)) else old(machine).canonicalHead
    {
      hide SignerInv, QueueInv, ProofInv, StoreInv, TransactionInv;
      DiscardAndReset();
      machine := machine.(active := None, recovery := None, taskInputs := None, canonicalTasks := {});
      NoTasks(validates, {}, None, machine.settled, config.store);
      assert TransactionInv(machine, trace) by { StillIdle(machine, trace); }
      match fence {
        case Holds =>
          machine := machine.(canonicalHead := Some((height, head)));
          assert TransactionInv(machine, trace) by { StillIdle(machine, trace); }
          return Done;
        case Moved => return HeadChanged;
        case Unreadable => return Failed;
      }
    }

    /** `invalidate_canonical_attempt`: clears the signer and drops all work. */
    method Invalidate()
      requires Inv()
      modifies this
      ensures Inv() && Idle(machine) && trace.live == {}
      ensures config == old(config).(signer := None) && machine.marker.None? && machine.canonicalHead.None?
    {
      hide QueueInv, ProofInv, StoreInv, TransactionInv;
      DiscardAndReset();
      config := config.(signer := None);
      machine := machine.(canonicalHead := None, marker := None, active := None, recovery := None,
        taskInputs := None, canonicalTasks := {});
      NoTasks(validates, {}, None, machine.settled, config.store);
      assert TransactionInv(machine, trace) by { StillIdle(machine, trace); }
    }

    /** `commit_transaction_releases`: a released task gives up its transactions and its nonce together. */
    method CommitReleases()
      requires Inv()
      modifies this`machine, this`trace
      ensures Inv()
      ensures var releases := old(machine).pendingReleases;
        && machine == old(machine).(owned := old(machine).owned - releases,
             transactions := old(machine).transactions - releases, pendingReleases := {})
        && trace == old(trace).(live := old(trace).live - HashesOf(Restrict(old(machine).owned, releases)))
    {
      hide SignerInv, TaskInv, PoolInv, NonceInv, HashesOf, Restrict;
      var releases := machine.pendingReleases;
      var owned, transactions;
      ghost var live;
      owned, transactions, live := ReleaseEach(machine.owned, machine.transactions, releases, trace.live,
        trace.lastNonce, trace.seenNonce);
      TasksOnly(validates, config.store, machine, machine.(owned := owned, transactions := transactions,
        pendingReleases := {}), trace, trace.(live := live));
      machine := machine.(owned := owned, transactions := transactions, pendingReleases := {});
      trace := trace.(live := live);
    }

    // -------------------------------------------------------------------------
    // Settled material and signer shares
    // -------------------------------------------------------------------------

    /** `install_signer_shares`: the signer gets what the store holds now, or stays as it is. */
    method InstallSignerShares(head: Hash, installable: bool) returns (ok: bool)
      modifies this`config
      ensures ok == installable
      ensures config == if ok then
        old(config).(signer := Some(Installed(old(config).store.round, old(config).store.keys, head))) else old(config)
    {
      if installable {
        config := config.(signer := Some(Installed(config.store.round, config.store.keys, head)));
      }
      ok := installable;
    }

    /** `reconcile_settled_round`: the shares and the marker follow the settled material, or are cleared. */
    method ReconcileSettled(m: Material, head: Hash, e: SettleAnswers) returns (o: Outcome)
      requires Inv() && D.Fits(m) && RebuildSound(validates, m, e.rebuilt)
      requires machine.executor.tasks != map[] ==> machine.settled == Some(m)
      modifies this`config, this`machine
      ensures Inv() && machine == old(machine).(marker := machine.marker)
      ensures machine.executor.tasks != map[] ==> config.store == old(config).store
      ensures o.Done? ==> machine.marker == Some(D.MarkerOf(hash, m)) && Validates(validates, config.store, m)
      ensures o.Done? && D.CollisionFree(hash) ==> SignsFor(validates, config.signer, m)
      ensures machine.marker == old(machine).marker || machine.marker.None? ||
        (e.fence.Holds? && e.installable && config.signer == InstalledFrom(config.store, head))
      ensures config.signer == old(config).signer || config.signer.None? ||
        (e.fence.Holds? && config.signer == InstalledFrom(config.store, head))
      ensures !o.Done? && !Validates(validates, old(config).store, m) ==> config.signer.None? && machine.marker.None?
      ensures o.HeadChanged? ==> e.fence.Moved?
      ensures o.Done? ==> Validates(validates, old(config).store, m) || e.rebuilt.Some?
      ensures o.Done? ==>
        config.store == (if Validates(validates, old(config).store, m) then old(config).store else e.rebuilt.value)
    {
      hide D.MarkerOf, D.CollisionFree, D.Fits, SignsFor, Names, TransactionInv, QueueInv, ProofInv, T.DistinctNonces;
      assert machine.(marker := machine.marker) == machine;
      var buffer := D.PrintSettled(m);
      var marker := D.Marker(m.round, m.currentIndex, hash(buffer));
      DigestMarker(hash, m);
      if Validates(validates, config.store, m) {
        if machine.marker != Some(marker) {
          if e.fence.Moved? { return HeadChanged; }
          if e.fence.Unreadable? { return Failed; }
          var ok := InstallSignerShares(head, e.installable);
          if !ok { return Failed; }
          InstalledFor(hash, validates, config.store, head, m);
          MarkerOnly(machine, Some(marker), trace);
          machine := machine.(marker := Some(marker));
        }
        if D.CollisionFree(hash) { MarkedSharesValidate(hash, validates, config.signer, m); }
        return Done;
      }
      MarkerOnly(machine, None, trace);
      config := config.(signer := None);
      machine := machine.(marker := None);
      if e.rebuilt.None? || !e.saved { return Failed; }
      if e.fence.Moved? { return HeadChanged; }
      if e.fence.Unreadable? { return Failed; }
      config := config.(store := e.rebuilt.value);
      var ok := InstallSignerShares(head, e.installable);
      if !ok { return Failed; }
      InstalledFor(hash, validates, config.store, head, m);
      MarkerOnly(machine, Some(marker), trace);
      machine := machine.(marker := Some(marker));
      if D.CollisionFree(hash) { MarkedSharesValidate(hash, validates, config.signer, m); }
      o := Done;
    }

    /** The start of a heartbeat: which head it is for, and whether the chain went another way. */
    method Begin(hb: Heartbeat) returns (stop: Option<Outcome>, height: nat, head: Hash, reset: bool)
      requires Inv()
      modifies this`config, this`machine
      ensures Inv() && config.store == old(config).store && machine == old(machine).(marker := machine.marker)
      ensures stop.None? ==> hb.header == Header(height, head)
      ensures stop.Some? ==> !stop.value.Done?
      ensures if reset then machine.marker.None? && config.signer.None?
              else machine == old(machine) && config == old(config)
      ensures stop.None? ==> reset == (hb.reorg || Discontinuous(machine, height, hb.previousMapped))
    {
      hide D.MarkerOf, D.CollisionFree, D.Fits, SignsFor, TransactionInv, QueueInv, ProofInv, StoreInv;
      stop, height, head, reset := None, 0, 0, false;
      assert machine.(marker := machine.marker) == machine;
      match hb.header {
        case HeaderUnreadable => stop := Some(Failed);
        case NoHeader => stop := Some(HeadChanged);
        case Header(n, h) => height, head := n, h;
      }
      if stop.Some? { return; }
      if hb.mapped.Unreadable? { stop := Some(Failed); return; }
      if hb.mapped.Moved? { stop := Some(HeadChanged); return; }
      var discontinuity := false;
      if machine.canonicalHead.Some? {
        if height < machine.canonicalHead.value.0 {
          discontinuity := true;
        } else {
          if hb.previousMapped.Unreadable? { stop := Some(Failed); return; }
          discontinuity := hb.previousMapped.Moved?;
        }
      }
      reset := hb.reorg || discontinuity;
      if reset {
        MarkerOnly(machine, None, trace);
        config := config.(signer := None);
        machine := machine.(marker := None);
      }
      match hb.state {
        case Holds =>
        case Moved => stop := Some(HeadChanged);
        case Unreadable => stop := Some(Failed);
      }
    }

    /** Reads the settled material and makes the signer follow it. */
    method SettledPhase(hb: Heartbeat, head: Hash) returns (stop: Option<Outcome>)
      requires Inv() && (hb.settled.Some? ==>
        D.Fits(hb.settled.value) && RebuildSound(validates, hb.settled.value, hb.settle.rebuilt))
      modifies this
      ensures Inv() && (stop.Some? ==> !stop.value.Done?)
      ensures stop.None? ==>
        && hb.settled.Some? && machine.settled == hb.settled
        && machine.marker == Some(D.MarkerOf(hash, hb.settled.value))
        && Validates(validates, config.store, hb.settled.value)
        && (D.CollisionFree(hash) ==> SignsFor(validates, config.signer, hb.settled.value))
      ensures machine.canonicalHead == old(machine).canonicalHead && machine.epoch == old(machine).epoch
      ensures GivesUpTogether(old(machine), old(trace), machine, trace)
      ensures hb.settled.Some? && old(machine).settled.Some? && old(machine).settled != hb.settled ==> Idle(machine)
      ensures trace.discards == old(trace).discards <==> !SettledChanged(old(machine), hb)
      ensures stop.None? ==> config.store == StoreFor(validates, old(config).store, hb)
      ensures stop.None? && trace.discards == old(trace).discards ==>
        machine == old(machine).(marker := machine.marker, settled := machine.settled, membership := machine.membership)
      ensures stop.None? && old(machine).membership.Some? ==>
        machine.membership.Some? && machine.membership.value.1 == old(machine).membership.value.1
    {
      hide D.MarkerOf, D.CollisionFree, D.Fits, SignsFor, SignerInv, TransactionInv, QueueInv, ProofInv;
      if hb.settled.None? { return Some(Failed); }
      var m := hb.settled.value;
      if machine.settled.Some? && machine.settled.value != m {
        DiscardAndReset();
      }
      var o := ReconcileSettled(m, head, hb.settle);
      if !o.Done? { return Some(o); }
      var membership := Some((m.currentIndex, if machine.membership.Some? then machine.membership.value.1 else None));
      SettledOnly(machine, m, membership, trace);
      machine := machine.(settled := Some(m), membership := membership);
      stop := None;
    }

    // -------------------------------------------------------------------------
    // The active round
    // -------------------------------------------------------------------------

    /** `reset_epoch_task_work`, always right after a discard. */
    method ResetEpoch(epoch: (Schedule, nat), index: Option<nat>)
      requires BaseInv()
      modifies this`machine, this`trace
      ensures Inv() && Idle(machine) && trace.discards == old(trace).discards + 1
      ensures machine.marker == old(machine).marker && machine.settled == old(machine).settled
      ensures machine.canonicalHead == old(machine).canonicalHead
      ensures machine.epoch == Some(epoch) && machine.membership == Some((index, None))
      ensures machine.taskInputs.None? && machine.canonicalTasks == {} && machine.active.None?
    {
      hide SignerInv, QueueInv, ProofInv, StoreInv, TransactionInv;
      DiscardAndReset();
      machine := machine.(epoch := Some(epoch), membership := Some((index, None)), active := None, recovery := None,
        taskInputs := None, canonicalTasks := {});
      NoTasks(validates, {}, None, machine.settled, config.store);
      assert TransactionInv(machine, trace) by { StillIdle(machine, trace); }
    }

    /** Reads the schedule and the contract; a new epoch, another branch or another place starts afresh. */
    method EpochPhase(hb: Heartbeat, height: nat, head: Hash, reset: bool, restart: bool)
      returns (stop: Option<Outcome>)
      requires Inv() && machine.settled.Some?
      modifies this`machine, this`trace
      ensures Inv() && Keeps(old(machine), machine)
      ensures GivesUpTogether(old(machine), old(trace), machine, trace)
      ensures stop.Some? ==> Suspended(machine, stop.value, height, head) && trace.discards > old(trace).discards
      ensures stop.None? <==> RoundReadable(old(machine).settled.value.round, hb)
      ensures stop.None? ==>
        (trace.discards == old(trace).discards <==> !EpochChanged(old(machine), hb, reset, restart))
      ensures stop.None? && trace.discards == old(trace).discards ==> machine == old(machine)
      ensures stop.None? ==>
        && hb.schedule.Some? && hb.contract.Some? && machine.canonicalHead == old(machine).canonicalHead
        && machine.epoch == Some((hb.schedule.value, hb.contract.value.nextRound))
        && (reset || restart || machine.epoch != old(machine).epoch ==> Idle(machine))
        && (machine.planner.planned == [] || machine.planner.planned == hb.contract.value.missing)
    {
      hide SignerInv, TaskInv, TransactionInv;
      if hb.schedule.None? || hb.contract.None? || hb.contract.value.currentRound != machine.settled.value.round {
        var o := Suspend(height, head, hb.suspendFence);
        return Some(o);
      }
      var epoch := (hb.schedule.value, hb.contract.value.nextRound);
      if reset || machine.epoch != Some(epoch) || restart {
        ResetEpoch(epoch, machine.settled.value.currentIndex);
      }
      if machine.planner.planned != [] && machine.planner.planned != hb.contract.value.missing {
        DiscardAndReset();
      }
      stop := None;
    }

    /** A changed place among the pending validators, or changed pending validators, starts task work afresh. */
    method PendingPhase(pending: seq<nat>, pendingIndex: Option<nat>)
      requires Inv() && machine.settled.Some?
      modifies this`machine, this`trace
      ensures Inv() && Keeps(old(machine), machine) && machine.canonicalHead == old(machine).canonicalHead
      ensures GivesUpTogether(old(machine), old(trace), machine, trace)
      ensures machine.membership == Some((machine.settled.value.currentIndex, pendingIndex))
      ensures machine.epoch == old(machine).epoch
      ensures trace.discards == old(trace).discards <==> !PendingChanged(old(machine), pending, pendingIndex)
      ensures trace.discards == old(trace).discards ==>
        machine.active == old(machine).active && machine.recovery == old(machine).recovery
      ensures machine.taskInputs.Some? ==> machine.taskInputs.value.pending == pending
      ensures old(machine).membership.Some? && old(machine).membership.value.1 != pendingIndex ==> Idle(machine)
    {
      hide SignerInv, QueueInv, ProofInv, StoreInv, TransactionInv;
      if (machine.membership.Some? && machine.membership.value.1 != pendingIndex) ||
         (machine.taskInputs.Some? && machine.taskInputs.value.pending != pending) {
        DiscardAndReset();
        machine := machine.(taskInputs := None, recovery := None);
        NoTasks(validates, machine.canonicalTasks, None, machine.settled, config.store);
        assert TransactionInv(machine, trace) by { StillIdle(machine, trace); }
      }
      CarryOver(validates, config.store, machine,
        machine.(membership := Some((machine.settled.value.currentIndex, pendingIndex))), trace);
      machine := machine.(membership := Some((machine.settled.value.currentIndex, pendingIndex)));
    }

    /** The replay of the unfinished round into the keystore; a regression drops all task work first. */
    method Replay(hb: Heartbeat, height: nat, pendingIndex: Option<nat>) returns (ok: bool)
      requires Inv() && hb.schedule.Some? && hb.contract.Some? && machine.settled.Some?
      requires Validates(validates, config.store, machine.settled.value)
      modifies this
      ensures BaseInv() && Keeps(old(machine), machine) && machine.canonicalHead == old(machine).canonicalHead
      ensures config.signer == old(config).signer
      ensures GivesUpTogether(old(machine), old(trace), machine, trace)
      ensures machine.epoch == old(machine).epoch && machine.membership == old(machine).membership
      ensures ok ==>
        && Inv() && config.store.sharing && Validates(validates, config.store, machine.settled.value)
        && hb.contract.value.nextRound == config.store.round + 1 && machine.active == hb.replay.canonical
      ensures pendingIndex == hb.pendingIndex ==> (ok <==> Replayable(old(config).store, hb, height))
      ensures pendingIndex == hb.pendingIndex && ok ==>
        (trace.discards == old(trace).discards <==> !ReplayChanged(old(machine), hb, height))
      ensures ok && hb.replay.canonical.Some? && Regressed(old(machine).active, hb.replay.canonical.value) ==>
        Idle(machine)
    {
      hide SignerInv, TaskInv, TransactionInv, Validates;
      if config.store.round + 1 != hb.contract.value.nextRound || hb.replay.canonical.None? { return false; }
      var canonical := hb.replay.canonical.value;
      if Regressed(machine.active, canonical) {
        DiscardAndReset();
      }
      if !hb.replay.applied {
        config := config.(store := hb.replay.left);
        return false;
      }
      OpenRound(validates, config.store, machine, trace);
      StillValidates(validates, config.store, machine.settled.value);
      CarryOver(validates, config.store.(sharing := true), machine, machine.(active := Some(canonical)), trace);
      config := config.(store := config.store.(sharing := true));
      machine := machine.(active := Some(canonical));
      if height >= hb.schedule.value.recoverStart && CanRecover(hb) {
        if !hb.replay.recoveryOpened { return false; }
        if height >= hb.schedule.value.recoverCheck && pendingIndex.Some? &&
           pendingIndex.value in hb.contract.value.missing {
          ghost var m, t := machine, trace;
          ok := ReplayRecovery(hb.replay);
          GivesUpOn(old(machine), old(trace), m, t, machine, trace);
          return;
        }
      }
      ok := true;
    }

    /** The replay of the recovery messages for this validator. */
    method ReplayRecovery(e: ReplayAnswers) returns (ok: bool)
      requires Inv()
      modifies this`machine, this`trace
      ensures Inv() && Keeps(old(machine), machine) && machine.canonicalHead == old(machine).canonicalHead
      ensures GivesUpTogether(old(machine), old(trace), machine, trace)
      ensures machine.epoch == old(machine).epoch && machine.membership == old(machine).membership
      ensures machine.active == old(machine).active
      ensures ok ==> machine.recovery == e.recovery && e.recovery.Some?
      ensures ok && RecoveryRegressed(old(machine).recovery, e.recovery.value) ==> Idle(machine)
      ensures old(Idle(machine)) ==> Idle(machine)
      ensures ok <==> e.recovery.Some? && e.recoveryApplied
      ensures ok ==>
        (trace.discards == old(trace).discards <==> !RecoveryRegressed(old(machine).recovery, e.recovery.value))
    {
      hide SignerInv, TaskInv, TransactionInv;
      if e.recovery.None? { return false; }
      var recovery := e.recovery.value;
      if RecoveryRegressed(machine.recovery, recovery) {
        DiscardAndReset();
      }
      if !e.recoveryApplied { return false; }
      CarryOver(validates, config.store, machine, machine.(recovery := Some(recovery)), trace);
      machine := machine.(recovery := Some(recovery));
      ok := true;
    }

    /** Inside the window the round is replayed; outside an open round is reverted and all work dropped. */
    method RoundPhase(hb: Heartbeat, height: nat, head: Hash) returns (stop: Option<Outcome>, active: bool)
      requires Inv() && hb.schedule.Some? && hb.contract.Some? && machine.settled.Some?
      requires Validates(validates, config.store, machine.settled.value)
      modifies this
      ensures Inv() && Keeps(old(machine), machine) && config.signer == old(config).signer
      ensures GivesUpTogether(old(machine), old(trace), machine, trace)
      ensures stop.Some? ==> Suspended(machine, stop.value, height, head) && trace.discards > old(trace).discards
      ensures active == Active(hb.schedule.value, height)
      ensures active ==>
        (stop.None? <==> hb.zkMatches && hb.pending.Some? && Replayable(old(config).store, hb, height))
      ensures stop.None? && active ==>
        (trace.discards == old(trace).discards <==>
           !PendingChanged(old(machine), hb.pending.value, hb.pendingIndex) && !ReplayChanged(old(machine), hb, height))
      ensures !active ==> (trace.discards == old(trace).discards <==> !old(config).store.sharing)
      ensures stop.None? ==> machine.canonicalHead == old(machine).canonicalHead
      ensures stop.None? && active ==> config.store.sharing && Validates(validates, config.store, machine.settled.value)
      ensures stop.None? && !active ==> machine.executor.tasks == map[]
    {
      hide SignerInv, QueueInv, ProofInv, TransactionInv;
      stop, active := None, Active(hb.schedule.value, height);
      if active {
        if !hb.zkMatches || hb.pending.None? {
          var o := Suspend(height, head, hb.suspendFence);
          return Some(o), active;
        }
        PendingPhase(hb.pending.value, hb.pendingIndex);
        var ok := Replay(hb, height, hb.pendingIndex);
        if !ok {
          var o := Suspend(height, head, hb.suspendFence);
          return Some(o), active;
        }
      } else if config.store.sharing {
        if hb.reverted.None? {
          var o := Suspend(height, head, hb.suspendFence);
          return Some(o), active;
        }
        config := config.(store := hb.reverted.value);
        ResetEpoch((hb.schedule.value, hb.contract.value.nextRound), machine.settled.value.currentIndex);
      }
    }

    // -------------------------------------------------------------------------
    // Tasks
    // -------------------------------------------------------------------------

    /** `reconcile_canonical_local_tasks`: tasks that are now canonical leave the queue. */
    method ReconcileCanonical(canonical: set<TaskId>)
      requires Inv()
      modifies this`machine, this`trace
      ensures Inv() && Keeps(old(machine), machine) && machine.canonicalHead == old(machine).canonicalHead
      ensures RetiresTogether(old(machine), old(trace), machine, trace, canonical - old(machine).canonicalTasks)
      ensures trace.discards == old(trace).discards <==> old(machine).canonicalTasks <= canonical
      ensures machine.canonicalTasks == canonical && machine.taskInputs == old(machine).taskInputs
      ensures !(old(machine).canonicalTasks <= canonical) ==> machine.executor == EMPTY && machine.preparations == map[]
      ensures forall id :: id in machine.executor.tasks ==>
        id in old(machine).executor.tasks && machine.executor.tasks[id] == old(machine).executor.tasks[id]
      ensures machine.planner == DEFAULT || machine.planner == old(machine).planner
      ensures machine.epoch == old(machine).epoch && machine.membership == old(machine).membership
    {
      hide SignerInv, QueueInv, ProofInv, StoreInv, PoolInv, NonceInv, Kept;
      if !(machine.canonicalTasks <= canonical) {
        DiscardAndReset();
      }
      var executor, preparations, released := RetireEach(machine.executor, machine.preparations, machine.canonicalTasks,
        canonical);
      FewerTasks(validates, config.store, machine.settled, machine.executor, executor, machine.taskInputs,
        trace.madeFrom);
      machine := machine.(executor := executor, preparations := preparations, canonicalTasks := canonical,
        pendingReleases := machine.pendingReleases + released);
    }

    /** Reads what the tasks are built on; changed recipient inputs drop all earlier work. */
    method InputsPhase(hb: Heartbeat, height: nat, head: Hash, active: bool) returns (stop: Option<Outcome>)
      requires Inv() && (!active ==> machine.executor.tasks == map[])
      modifies this`machine, this`trace
      ensures Inv() && Keeps(old(machine), machine)
      ensures RetiresTogether(old(machine), old(trace), machine, trace,
        if active && hb.canonicalTasks.Some? then hb.canonicalTasks.value - old(machine).canonicalTasks else {})
      ensures stop.Some? ==> Suspended(machine, stop.value, height, head) && trace.discards > old(trace).discards
      ensures stop.None? ==> machine.canonicalHead == old(machine).canonicalHead
      ensures stop.None? <==> !active || (hb.canonicalTasks.Some? && hb.inputs.Some? && hb.keyMatches)
      ensures !active ==> trace.discards == old(trace).discards
      ensures stop.None? && active ==> (trace.discards == old(trace).discards <==> !InputsChanged(old(machine), hb))
      ensures stop.None? && !active ==>
        machine.taskInputs.None? && machine.canonicalTasks == {} && machine.executor.tasks == map[]
      ensures stop.None? && active ==>
        && machine.taskInputs == hb.inputs && hb.inputs.Some? && Some(machine.canonicalTasks) == hb.canonicalTasks
        && (old(machine).taskInputs.Some? && old(machine).taskInputs != hb.inputs ==>
              machine.executor == EMPTY && machine.preparations == map[])
    {
      hide SignerInv, QueueInv, StoreInv, PoolInv, NonceInv, ProofInv, Kept, Retired;
      if !active {
        QueueIsValid(machine.executor, machine.preparations, machine.canonicalTasks);
        NoneRetired(machine, machine.(taskInputs := None, canonicalTasks := {}));
        NoneQueued(machine.executor, machine.preparations, machine.canonicalTasks, trace.madeFrom);
        machine := machine.(taskInputs := None, canonicalTasks := {});
        return None;
      }
      if hb.canonicalTasks.None? {
        var o := Suspend(height, head, hb.suspendFence);
        return Some(o);
      }
      ReconcileCanonical(hb.canonicalTasks.value);
      if hb.inputs.None? || !hb.keyMatches {
        var o := Suspend(height, head, hb.suspendFence);
        return Some(o);
      }
      if machine.taskInputs.Some? && machine.taskInputs != hb.inputs {
        DiscardAndReset();
        NoTasks(validates, machine.canonicalTasks, hb.inputs, machine.settled, config.store);
      } else if machine.taskInputs.None? {
        NoProofsYet(machine.executor, hb.inputs, trace.madeFrom);
      }
      InputsOnly(old(machine), machine, hb.canonicalTasks.value - old(machine).canonicalTasks, hb.inputs);
      machine := machine.(taskInputs := hb.inputs);
      stop := None;
    }

    /** Plans the tasks now due and queues those that are not canonical yet. */
    method PlanPhase(hb: Heartbeat, height: nat, active: bool) returns (stop: Option<Outcome>)
      requires Inv() && hb.schedule.Some? && hb.contract.Some? && machine.settled.Some?
      requires OrderedSchedule(hb.schedule.value) && active == Active(hb.schedule.value, height)
      requires active ==> config.store.sharing && Validates(validates, config.store, machine.settled.value)
      modifies this`machine
      ensures Inv() && (stop.Some? ==> stop == Some(Failed) && machine == old(machine))
      ensures machine == old(machine).(planner := machine.planner, executor := machine.executor)
      ensures !active ==> machine.executor.tasks == old(machine).executor.tasks
      ensures forall id :: id in old(machine).executor.tasks ==>
        id in machine.executor.tasks && machine.executor.tasks[id] == old(machine).executor.tasks[id]
      ensures forall id :: id in machine.executor.tasks && id !in old(machine).executor.tasks ==>
        && id !in machine.canonicalTasks && machine.executor.tasks[id].state == Unprepared
        && height < machine.executor.tasks[id].plan.endHeight
      ensures old(machine).executor.order <= machine.executor.order
    {
      hide SignerInv, QueueInv, ProofInv, StoreInv, TransactionInv, Validates;
      var context := Context(hb.participants, hb.threshold, hb.schedule.value, height, hb.contract.value.nextRound,
        machine.settled.value.currentIndex, if active then hb.pendingIndex else None, hb.contract.value.shareReady,
        hb.contract.value.missing);
      var planner, tasks := TakeTasks(machine.planner, context);
      assert machine.(planner := machine.planner, executor := machine.executor) == machine;
      if tasks.None? { return Some(Failed); }
      var plans := NotCanonical(tasks.value, machine.canonicalTasks);
      QueueIsValid(machine.executor, machine.preparations, machine.canonicalTasks);
      var executor, _ := Enqueue(machine.executor, plans);
      NotCanonicalPlans(tasks.value, machine.canonicalTasks);
      PlansInTime(machine.planner, planner, context, tasks.value);
      assert !active ==> plans == [];
      MoreTasks(validates, config.store, machine, executor, plans, trace);
      CarryTransactions(machine, machine.(planner := planner, executor := executor), trace, trace);
      machine := machine.(planner := planner, executor := executor);
      stop := None;
    }

    /** `poll_preparations`: a finished proof counts only if it was made over the inputs now in force. */
    method Poll(finished: map<TaskId, Option<Bytes>>) returns (stop: Option<Outcome>)
      requires Inv() && machine.taskInputs.Some?
      modifies this`machine, this`trace
      ensures Inv() && (stop.Some? ==> stop == Some(Failed))
      ensures machine == old(machine).(executor := machine.executor, preparations := machine.preparations)
      ensures trace == old(trace).(madeFrom := trace.madeFrom)
      ensures SamePlans(old(machine).executor, machine.executor)
      ensures stop.None? ==> machine.preparations == old(machine).preparations - finished.Keys
      ensures stop.None? ==> Polled(old(machine).executor, machine.executor, old(machine).preparations,
        machine.taskInputs.value, finished, old(machine).preparations.Keys * finished.Keys)
      ensures Stranded(machine.executor, machine.preparations) ==
        Stranded(old(machine).executor, old(machine).preparations)
    {
      hide SignerInv, QueueInv, ProofInv, StoreInv, TransactionInv, Stranded;
      var executor, preparations, failed;
      ghost var madeFrom;
      executor, preparations, failed, madeFrom := PollEach(machine.executor, machine.preparations,
        machine.taskInputs.value, finished, machine.canonicalTasks, trace.madeFrom);
      SameKeys(validates, config.store, machine.settled, machine.executor, executor);
      CarryTransactions(machine, machine.(executor := executor, preparations := preparations), trace,
        trace.(madeFrom := madeFrom));
      machine := machine.(executor := executor, preparations := preparations);
      trace := trace.(madeFrom := madeFrom);
      stop := if failed then Some(Failed) else None;
    }

    // -------------------------------------------------------------------------
    // Actions
    // -------------------------------------------------------------------------

    /** `start_preparation`: a proof over the inputs in force, or back to unprepared. */
    method StartPreparation(id: TaskId, a: Answer) returns (stop: Option<Outcome>)
      requires Inv() && Waits(machine.executor, machine.preparations, id) && machine.preparations == map[]
      modifies this`machine
      ensures Inv() && ActsOn(old(machine), machine, id)
      ensures stop.Some? ==> stop == Some(Failed) && machine.taskInputs.None?
      ensures stop.None? ==> (Stranded(machine.executor, machine.preparations) ==
        Stranded(old(machine).executor, old(machine).preparations) - {id})
      ensures machine.owned == old(machine).owned && machine.transactions == old(machine).transactions
      ensures forall plan, pricing :: Acted(old(machine), machine, Prepare(id, plan), a, pricing)
      ensures machine.taskInputs.Some? ==> stop.None?
      ensures stop.None? ==> PreparationAnswered(machine, id, a.material)
    {
      hide SignerInv, QueueInv, ProofInv, StoreInv, TransactionInv, Stranded, Calldata;
      NoChange(machine, id);
      if machine.taskInputs.None? { return Some(Failed); }
      var executor, preparations := machine.executor, machine.preparations;
      if a.material {
        preparations := preparations[id := machine.taskInputs.value];
      } else {
        var recorded := RecordPrepared(machine.executor, id, None);
        executor := recorded.0;
      }
      Preparation(validates, config.store, machine, trace, id, a.material, machine.taskInputs.value);
      CarryTransactions(machine, machine.(executor := executor, preparations := preparations), trace, trace);
      machine := machine.(executor := executor, preparations := preparations);
      stop := None;
    }

    /** The submission of prepared calldata; a failed fence sends a task back and ends the heartbeat. */
    method HandleSubmit(id: TaskId, calldata: Bytes, height: nat, pricing: T.Inputs, a: Answer)
      returns (stop: Option<Outcome>)
      requires Inv() && id in machine.executor.tasks && machine.executor.tasks[id].state == Submitting(calldata)
      modifies this`machine, this`trace
      ensures Inv() && ActsOn(old(machine), machine, id) && machine.preparations == old(machine).preparations
      ensures trace.discards == old(trace).discards && trace.madeFrom == old(trace).madeFrom
      ensures stop == match a.fence case Holds => None case Moved => Some(HeadChanged) case Unreadable => Some(Failed)
      ensures SubmitAnswered(machine.executor, id, calldata, height, a, trace.live)
      ensures Acted(old(machine), machine, Submit(id, calldata), a, pricing)
      ensures ListedReserved(old(machine).owned, old(machine).transactions) ==>
        (ListedReserved(machine.owned, machine.transactions) <==>
         (!a.fence.Holds? ||
          NonePassed(old(machine).owned, old(machine).transactions, id, calldata, a.priced, pricing.onChainNonce)))
      ensures Stranded(machine.executor, machine.preparations) ==
        Stranded(old(machine).executor, old(machine).preparations) - {id}
    {
      hide SignerInv, TaskInv, TransactionInv, PoolInv, NonceInv, Stranded, RecordSubmitted, Grows, Touched, ActsOn;
      hide ListedReserved, NonePassed, Acted, Listed, SubmitAnswered;
      AllKept(machine.owned);
      PoolAndNonces(machine, trace);
      if !a.fence.Holds? {
        var recorded := RecordSubmitted(machine.executor, id, height, None);
        machine := machine.(executor := recorded.0);
        SubmissionDone(validates, config.store, old(machine), trace, machine, trace, id, calldata, height, None, a);
        SubmitActed(old(machine), machine, id, calldata, a, pricing);
        return Some(if a.fence.Moved? then HeadChanged else Failed);
      }
      var owned, transactions, r;
      ghost var live, lastNonce, seenNonce;
      owned, transactions, r, live, lastNonce, seenNonce := BuildAndSubmit(machine.owned, machine.transactions, id,
        calldata, pricing, a, trace.live, trace.lastNonce, trace.seenNonce);
      var recorded := RecordSubmitted(machine.executor, id, height, r);
      machine := machine.(executor := recorded.0, owned := owned, transactions := transactions);
      trace := trace.(live := live, lastNonce := lastNonce, seenNonce := seenNonce);
      SubmissionDone(validates, config.store, old(machine), old(trace), machine, trace, id, calldata, height, r, a);
      SubmitActed(old(machine), machine, id, calldata, a, pricing);
      stop := None;
    }

    /** A confirmed task leaves the queue and is staged for release; any other receipt sends it again. */
    method HandleReceipt(id: TaskId, a: Answer) returns (stop: Option<Outcome>)
      requires Inv() && id in machine.executor.tasks && machine.executor.tasks[id].state.Checking?
      modifies this`machine
      ensures Inv() && ActsOn(old(machine), machine, id) && machine.preparations == old(machine).preparations
      ensures stop.None? && machine.owned == old(machine).owned && machine.transactions == old(machine).transactions
      ensures forall h, pricing :: Acted(old(machine), machine, CheckReceipt(id, h), a, pricing)
      ensures id in machine.executor.tasks <==> a.receipt != Some(Succeeded)
      ensures machine.pendingReleases ==
        old(machine).pendingReleases + if a.receipt == Some(Succeeded) then {id} else {}
      ensures Stranded(machine.executor, machine.preparations) ==
        Stranded(old(machine).executor, old(machine).preparations) - {id}
    {
      hide SignerInv, QueueInv, ProofInv, StoreInv, PoolInv, NonceInv, Stranded, RecordReceipt, Grows;
      AllKept(machine.owned);
      var recorded := RecordReceipt(machine.executor, id, a.receipt);
      RecordedReceipt(validates, config.store, machine, trace, id, a.receipt);
      machine := machine.(executor := recorded.0,
        pendingReleases := machine.pendingReleases + if a.receipt == Some(Succeeded) then {id} else {});
      stop := None;
    }

    /** Drops expired tasks with their proofs, stages their release, and starts what the rest is ready for. */
    method StartActions(height: nat) returns (started: seq<Action>)
      requires Inv()
      modifies this`machine
      ensures Inv() && DistinctIds(started) && AllPending(machine.executor, machine.preparations, started)
      ensures PrepareRoom(machine.preparations, started)
      ensures var gone := ExpiredIds(old(machine).executor, height);
        && machine == old(machine).(executor := machine.executor, preparations := old(machine).preparations - gone,
             pendingReleases := old(machine).pendingReleases + gone)
        && machine.executor.tasks.Keys == old(machine).executor.tasks.Keys - gone
        && Stranded(machine.executor, machine.preparations) ==
           (Stranded(old(machine).executor, old(machine).preparations) - gone) + WaitingIds(started)
        && IdsOf(started) !! Stranded(old(machine).executor, old(machine).preparations)
      ensures Sends(started) == Due(old(machine).executor.order, old(machine).executor.tasks, height)
    {
      hide SignerInv, QueueInv, ProofInv, StoreInv, PoolInv, NonceInv, Stranded, Valid, Kept, Expired;
      hide Describes, Advanced, DistinctIds, Prepares, IdsOf, Live, ExpiredIds, AllPending, PrepareRoom, WaitingIds;
      hide Sends, Due;
      var limit := if machine.preparations == map[] then 1 else 0;
      QueueIsValid(machine.executor, machine.preparations, machine.canonicalTasks);
      var executor, expired;
      executor, expired, started := Actions(machine.executor, height, limit);
      var gone := set id | id in expired;
      ExpiredAre(machine.executor, height);
      assert gone == ExpiredIds(machine.executor, height);
      AfterStart(validates, config.store, machine, trace, executor, height, started);
      RoomFor(machine.preparations, gone, started, limit);
      machine := machine.(executor := executor, preparations := machine.preparations - gone,
        pendingReleases := machine.pendingReleases + gone);
    }

    /**
      The started actions in order.  A head that moves stops at action `handled - 1`; the tasks of the
      actions after it stay behind, waiting for an answer that was never asked for.
     */
    method HandleActions(started: seq<Action>, height: nat, pricing: T.Inputs, answers: map<TaskId, Answer>)
      returns (stop: Option<Outcome>, ghost handled: nat)
      requires Inv() && DistinctIds(started) && AllPending(machine.executor, machine.preparations, started)
      requires PrepareRoom(machine.preparations, started)
      modifies this`machine, this`trace
      ensures handled <= |started| && (stop.None? ==> handled == |started|) && (stop.Some? ==> handled > 0)
      ensures Inv() && Keeps(old(machine), machine) && machine.canonicalHead == old(machine).canonicalHead
      ensures machine.canonicalTasks == old(machine).canonicalTasks && machine.taskInputs == old(machine).taskInputs
      ensures trace.discards == old(trace).discards
      ensures Progress(old(machine), machine, started[..handled], answers, pricing)
      ensures forall j :: 0 <= j < handled && (stop.None? || j + 1 < handled) ==> Passes(started[j], answers)
      ensures stop.Some? ==> stop.value == StopAt(started[handled - 1], answers)
      ensures stop.Some? && machine.taskInputs.Some? ==> !Passes(started[handled - 1], answers)
      ensures stop != Some(Failed) ==> (Stranded(machine.executor, machine.preparations) ==
        Stranded(old(machine).executor, old(machine).preparations) - IdsOf(started[..handled]))
    {
      hide SignerInv, TaskInv, TransactionInv, Stranded, DistinctIds, IdsOf, OnlyAt, AllPending, PrepareRoom, Grows;
      hide Progress, Acted, ListedReserved, NonePassed;
      stop, handled := None, 0;
      ProgressStart(machine, started, answers, pricing);
      NoneHandled(started, Stranded(machine.executor, machine.preparations));
      for i := 0 to |started|
        invariant stop.None? && handled == i && Inv()
        invariant forall j :: 0 <= j < i ==> Passes(started[j], answers)
        invariant Keeps(old(machine), machine) && machine.canonicalHead == old(machine).canonicalHead
        invariant machine.canonicalTasks == old(machine).canonicalTasks && machine.taskInputs == old(machine).taskInputs
        invariant trace.discards == old(trace).discards
        invariant Progress(old(machine), machine, started[..i], answers, pricing)
        invariant AllPending(machine.executor, machine.preparations, started[i..])
        invariant PrepareRoom(machine.preparations, started[i..])
        invariant Stranded(machine.executor, machine.preparations) ==
          Stranded(old(machine).executor, old(machine).preparations) - IdsOf(started[..i])
      {
        var action := started[i];
        ghost var before := machine;
        NextPending(machine.executor, machine.preparations, started, i);
        var answer := AnswerFor(answers, action.id);
        match action {
          case Prepare(id, _) => stop := StartPreparation(id, answer);
          case Submit(id, calldata) => stop := HandleSubmit(id, calldata, height, pricing, answer);
          case CheckReceipt(id, _) => stop := HandleReceipt(id, answer);
          case Expire(_) =>
        }
        handled := i + 1;
        ProgressStep(old(machine), before, machine, started, i, answers, pricing);
        OneMore(started, i, Stranded(old(machine).executor, old(machine).preparations));
        if stop.Some? { return; }
        RestPending(before, machine, started, i);
      }
      assert started[..|started|] == started;
    }

    // -------------------------------------------------------------------------
    // Heartbeats
    // -------------------------------------------------------------------------

    /** The last fence of a heartbeat; only behind it are staged releases carried out. */
    method Finish(height: nat, head: Hash, fence: Check) returns (o: Outcome)
      requires Inv()
      modifies this`machine, this`trace
      ensures Inv() && Keeps(old(machine), machine) && trace.discards == old(trace).discards
      ensures o == match fence case Holds => Done case Moved => HeadChanged case Unreadable => Failed
      ensures !o.Done? ==> machine == old(machine) && trace == old(trace)
      ensures o.Done? ==> var releases := old(machine).pendingReleases;
        && machine == old(machine).(owned := old(machine).owned - releases, pendingReleases := {},
             transactions := old(machine).transactions - releases, canonicalHead := Some((height, head)))
    {
      hide SignerInv, TaskInv, TransactionInv;
      if fence.Moved? { return HeadChanged; }
      if fence.Unreadable? { return Failed; }
      CommitReleases();
      CarryOver(validates, config.store, machine, machine.(canonicalHead := Some((height, head))), trace);
      machine := machine.(canonicalHead := Some((height, head)));
      o := Done;
    }

    /** A head found moved at the first submission of a heartbeat leaves one of any two ready tasks behind. */
    method MovedHeadStrandsNext(first: TaskId, second: TaskId, height: nat, pricing: T.Inputs)
      returns (stop: Option<Outcome>)
      requires Inv() && first != second && ReadyAt(machine.executor, first, height)
      requires ReadyAt(machine.executor, second, height)
      modifies this`machine, this`trace
      ensures stop == Some(HeadChanged)
      ensures first in Stranded(machine.executor, machine.preparations) ||
              second in Stranded(machine.executor, machine.preparations)
    {
      hide SignerInv, TaskInv, TransactionInv, Stranded, Due, Sends, Progress, AllPending, PrepareRoom, IdsOf, QueueInv;
      hide DistinctIds, WaitingIds, ExpiredIds, Passes, StopAt, HeadMoved;
      ghost var before := machine;
      InputsInForce(validates, config.store, machine, trace, first);
      QueueOf(validates, config.store, machine, trace);
      ghost var one, two := Submit(first, machine.executor.tasks[first].state.ready),
                            Submit(second, machine.executor.tasks[second].state.ready);
      var answers := map id | id in machine.executor.tasks :: NO_ANSWER.(fence := Moved);
      var started := StartActions(height);
      BothSubmit(before, started, first, second, height);
      AllMoved(before.executor, started, answers);
      ghost var handled;
      stop, handled := HandleActions(started, height, pricing, answers);
      OneLeft(started, handled, stop, one, two, answers);
    }

    /** Queues what is planned now and takes in finished proofs; then due is what was due of the tasks before. */
    method PlanAndPoll(hb: Heartbeat, height: nat, active: bool) returns (stop: Option<Outcome>)
      requires Inv() && hb.schedule.Some? && hb.contract.Some? && machine.settled.Some?
      requires OrderedSchedule(hb.schedule.value) && active == Active(hb.schedule.value, height)
      requires active ==> config.store.sharing && Validates(validates, config.store, machine.settled.value)
      requires active ==> machine.taskInputs.Some?
      modifies this`machine, this`trace
      ensures Inv() && (stop.Some? ==> stop == Some(Failed)) && trace.discards == old(trace).discards
      ensures machine == old(machine).(planner := machine.planner, executor := machine.executor,
        preparations := machine.preparations)
      ensures !active ==> machine.executor.tasks == old(machine).executor.tasks
      ensures stop.None? ==>
        && Stranded(machine.executor, machine.preparations) ==
           Stranded(old(machine).executor, old(machine).preparations)
        && ExpiredIds(machine.executor, height) == ExpiredIds(old(machine).executor, height)
        && Due(machine.executor.order, machine.executor.tasks, height) == Due(old(machine).executor.order,
             Acting(old(machine), {}, if active then old(machine).taskInputs else None, hb.finished), height)
    {
      hide SignerInv, TaskInv, TransactionInv, Stranded, Validates, ExpiredIds, Acting, Due, Polled, QueueInv, Valid;
      ghost var before, inputs := machine, if active then machine.taskInputs else None;
      QueueOf(validates, config.store, machine, trace);
      QueueIsValid(machine.executor, machine.preparations, machine.canonicalTasks);
      stop := PlanPhase(hb, height, active);
      if stop.Some? { return; }
      PlannedStranded(before.executor, machine.executor, machine.preparations, height);
      PlannedExpire(before.executor, machine.executor, height);
      ghost var planned := machine;
      QueueOf(validates, config.store, machine, trace);
      if active {
        stop := Poll(hb.finished);
        if stop.Some? { return; }
        SamePlansExpire(planned.executor, machine.executor, height);
      }
      DueAfterPolling(before, planned.executor, machine.executor, inputs, hb.finished, height);
    }

    /** Starts what the queued tasks are ready for, handles it, and finishes behind the last fence. */
    method Act(hb: Heartbeat, height: nat, head: Hash) returns (o: Outcome)
      requires Inv()
      modifies this`machine, this`trace
      ensures Inv() && Keeps(old(machine), machine) && trace.discards == old(trace).discards
      ensures machine.canonicalTasks == old(machine).canonicalTasks && machine.taskInputs == old(machine).taskInputs
      ensures o.Done? ==> machine.canonicalHead == Some((height, head)) && machine.pendingReleases == {}
      ensures if o.Done? then ReleasedTogether(old(machine), machine) else Grows(old(machine).owned, machine.owned)
      ensures o.Done? ==> (Stranded(machine.executor, machine.preparations) ==
        Stranded(old(machine).executor, old(machine).preparations) - ExpiredIds(old(machine).executor, height))
      ensures machine.taskInputs.Some? || old(machine).executor.tasks == map[] ==>
        var due := Due(old(machine).executor.order, old(machine).executor.tasks, height);
        Reservations(old(machine), old(trace), machine, trace, due,
          old(machine).pendingReleases + ExpiredIds(old(machine).executor, height) + Confirmed(due, hb.answers), hb, o)
    {
      hide SignerInv, TaskInv, TransactionInv, Stranded, Grows, DistinctIds, AllPending, PrepareRoom, IdsOf;
      hide WaitingIds, ExpiredIds, ReleasedTogether, Progress, Confirmed, Reservations, Due, Sends, Passes;
      ghost var before := machine;
      ghost var due := Due(before.executor.order, before.executor.tasks, height);
      ghost var released := before.pendingReleases + ExpiredIds(before.executor, height) + Confirmed(due, hb.answers);
      var started := StartActions(height);
      ConfirmedSends(started, hb.answers);
      ghost var acting := machine;
      if acting.executor.tasks == map[] { NonePending(acting.executor, acting.preparations, started); }
      ghost var handled;
      var stop;
      stop, handled := HandleActions(started, height, hb.pricing, hb.answers);
      ghost var acted := machine;
      ProgressFacts(acting, acted, started[..handled], hb.answers, hb.pricing);
      NothingGone(acted);
      if stop.Some? {
        if machine.taskInputs.Some? {
          ActionsReserved(before, old(trace), acting, acted, machine, trace, started, handled, true, released, hb,
            stop.value);
        }
        return stop.value;
      }
      assert started[..handled] == started;
      AllAnswered(Stranded(before.executor, before.preparations), ExpiredIds(before.executor, height), started);
      assert acted.pendingReleases == released;
      o := Finish(height, head, hb.finalFence);
      if o.Done? { FinishReleases(before, acted, machine); }
      ActionsReserved(before, old(trace), acting, acted, machine, trace, started, handled, false, released, hb, o);
    }

    /** Plans, polls, acts and finishes, with the round and the inputs in place. */
    method WorkHalf(hb: Heartbeat, height: nat, head: Hash, active: bool) returns (o: Outcome)
      requires Inv() && hb.schedule.Some? && hb.contract.Some? && machine.settled.Some?
      requires OrderedSchedule(hb.schedule.value) && active == Active(hb.schedule.value, height)
      requires active ==> config.store.sharing && Validates(validates, config.store, machine.settled.value)
      requires active ==> machine.taskInputs.Some?
      modifies this`machine, this`trace
      ensures Inv() && Keeps(old(machine), machine) && trace.discards == old(trace).discards
      ensures machine.canonicalTasks == old(machine).canonicalTasks && machine.taskInputs == old(machine).taskInputs
      ensures o.Done? ==> machine.canonicalHead == Some((height, head)) && machine.pendingReleases == {}
      ensures if o.Done? then ReleasedTogether(old(machine), machine) else Grows(old(machine).owned, machine.owned)
      ensures o.Done? ==> (Stranded(machine.executor, machine.preparations) ==
        Stranded(old(machine).executor, old(machine).preparations) - ExpiredIds(old(machine).executor, height))
      ensures active || old(machine).executor.tasks == map[] ==>
        var due := Due(old(machine).executor.order,
          Acting(old(machine), {}, if active then old(machine).taskInputs else None, hb.finished), height);
        Reservations(old(machine), old(trace), machine, trace, due,
          old(machine).pendingReleases + ExpiredIds(old(machine).executor, height) + Confirmed(due, hb.answers), hb, o)
    {
      hide SignerInv, TaskInv, TransactionInv, Stranded, Validates, Grows, ExpiredIds, ReleasedTogether, Confirmed;
      hide Reservations, Acting, Due, OrderedSchedule, Active;
      AllKept(machine.owned);
      ghost var before, inputs := machine, if active then machine.taskInputs else None;
      ghost var due := Due(before.executor.order, Acting(before, {}, inputs, hb.finished), height);
      ghost var released := before.pendingReleases + ExpiredIds(before.executor, height) + Confirmed(due, hb.answers);
      var stop := PlanAndPoll(hb, height, active);
      StoppedEarly(before, old(trace), machine, trace, due, released, hb, Failed);
      if stop.Some? { return Failed; }
      ghost var polled, t := machine, trace;
      o := Act(hb, height, head);
      if active || before.executor.tasks == map[] {
        SameReservations(before, old(trace), polled, t, machine, trace, due, released, hb, o);
      }
      if o.Done? { ReleasedSince(before, polled, machine); }
    }

    /** Reads the active round and what its tasks are built on; keeps task work exactly while all of it stands. */
    method Footing(hb: Heartbeat, height: nat, head: Hash, reset: bool, restart: bool)
      returns (stop: Option<Outcome>, active: bool)
      requires Inv() && machine.settled.Some? && Validates(validates, config.store, machine.settled.value)
      modifies this
      ensures Inv() && Keeps(old(machine), machine) && config.signer == old(config).signer
      ensures stop.Some? ==> Suspended(machine, stop.value, height, head) && trace.discards > old(trace).discards
      ensures stop.None? ==>
        && hb.schedule.Some? && hb.contract.Some? && active == Active(hb.schedule.value, height)
        && if active then config.store.sharing && Validates(validates, config.store, machine.settled.value)
             && machine.taskInputs.Some? && machine.taskInputs == hb.inputs
           else machine.executor.tasks == map[]
      ensures stop.None? ==> RetiresTogether(old(machine), old(trace), machine, trace, Newly(old(machine), hb, height))
      ensures trace.discards == old(trace).discards <==>
        WorkStands(old(machine), old(machine).settled.value.round, old(config).store, hb, height, reset, restart)
    {
      hide SignerInv, TaskInv, TransactionInv, Validates, EpochChanged, PendingChanged, ReplayChanged, Replayable;
      hide Emptied, OrderedSchedule, RoundReadable, Retired;
      stop := EpochPhase(hb, height, head, reset, restart);
      if stop.Some? { return stop, false; }
      ghost var b, u := machine, trace;
      stop, active := RoundPhase(hb, height, head);
      GivesUpOn(old(machine), old(trace), b, u, machine, trace);
      if stop.Some? { return; }
      b, u := machine, trace;
      stop := InputsPhase(hb, height, head, active);
      if stop.Some? { return; }
      RetiresOn(old(machine), old(trace), b, u, machine, trace, Newly(b, hb, height));
      RetiresSame(old(machine), old(trace), machine, trace, Newly(b, hb, height), Newly(old(machine), hb, height));
    }

    /** The task half of a heartbeat, behind the settled material. */
    method TaskHalf(hb: Heartbeat, height: nat, head: Hash, reset: bool, restart: bool) returns (o: Outcome)
      requires Inv() && machine.settled.Some? && Validates(validates, config.store, machine.settled.value)
      requires hb.schedule.Some? ==> OrderedSchedule(hb.schedule.value)
      modifies this
      ensures Inv() && Keeps(old(machine), machine) && config.signer == old(config).signer
      ensures o.Done? ==> machine.canonicalHead == Some((height, head)) && machine.pendingReleases == {}
      ensures trace.discards >= old(trace).discards
      ensures trace.discards == old(trace).discards <==>
        WorkStands(old(machine), old(machine).settled.value.round, old(config).store, hb, height, reset, restart)
      ensures trace.discards == old(trace).discards ==>
        if o.Done? then ReleasedTogether(old(machine), machine) else Grows(old(machine).owned, machine.owned)
      ensures Reservations(old(machine), old(trace), machine, trace, DueIn(old(machine), hb, height),
        ReleasedIn(old(machine), hb, height), hb, o)
    {
      hide SignerInv, TaskInv, TransactionInv, Stranded, Validates, Grows, ReleasedTogether, ExpiredIds, Retired;
      hide Reservations, DueIn, ReleasedIn, Due, Acting, Confirmed, WorkStands, Emptied, OrderedSchedule, Newly;
      var stop, active := Footing(hb, height, head, reset, restart);
      if stop.Some? {
        SuspendedReserves(old(machine), old(trace), machine, trace, hb, height, stop.value);
        return stop.value;
      }
      ghost var m, u := machine, trace;
      AllKept(machine.owned);
      o := WorkHalf(hb, height, head, active);
      PhasesReserved(old(machine), old(trace), m, u, machine, trace, if active then m.taskInputs else None, hb,
        height, o);
      if trace.discards == old(trace).discards {
        RetiredOwns(old(machine), old(trace), m, u, Newly(old(machine), hb, height));
        if o.Done? {
          ReleasedSince(old(machine), m, machine);
        } else {
          GrowsOn(old(machine).owned, m.owned, machine.owned);
        }
      }
    }

    /**
      `heartbeat`: the signer follows the settled material read at this head, then the tasks follow
      the active round.
     */
    method Reconcile(hb: Heartbeat) returns (o: Outcome)
      requires Inv() && Sensible(validates, hb)
      modifies this
      ensures Inv()
      ensures o.Done? ==>
        && hb.header.Header? && machine.canonicalHead == Some((hb.header.height, hb.header.head))
        && hb.settled.Some? && machine.settled == hb.settled
        && machine.marker == Some(D.MarkerOf(hash, hb.settled.value)) && machine.pendingReleases == {}
        && (D.CollisionFree(hash) ==> SignsFor(validates, config.signer, hb.settled.value))
      ensures trace.discards >= old(trace).discards
      ensures o.Done? ==> (trace.discards == old(trace).discards <==>
        WorkStandsIn(validates, old(machine), old(config).store, hb))
      ensures trace.discards == old(trace).discards ==>
        if o.Done? then ReleasedTogether(old(machine), machine) else Grows(old(machine).owned, machine.owned)
      ensures Reservations(old(machine), old(trace), machine, trace, DueIn(old(machine), hb, HeightOf(hb)),
        ReleasedIn(old(machine), hb, HeightOf(hb)), hb, o)
    {
      hide SignerInv, TaskInv, TransactionInv, Stranded, Validates, Grows, ReleasedTogether, D.MarkerOf;
      hide Reservations, DueIn, ReleasedIn, WorkStands, OrderedSchedule, Emptied;
      ghost var height' := HeightOf(hb);
      AllKept(machine.owned);
      var stop, height, head, reset := Begin(hb);
      MarkedOnly(old(machine), machine, trace);
      if stop.Some? {
        StoppedEarly(old(machine), old(trace), machine, trace, DueIn(old(machine), hb, height'),
          ReleasedIn(old(machine), hb, height'), hb, stop.value);
        return stop.value;
      }
      var membership := machine.membership;
      ghost var m, t := machine, trace;
      stop := SettledPhase(hb, head);
      GivesUpOn(old(machine), old(trace), m, t, machine, trace);
      if stop.Some? {
        StoppedEarly(old(machine), old(trace), machine, trace, DueIn(old(machine), hb, height'),
          ReleasedIn(old(machine), hb, height'), hb, stop.value);
        return stop.value;
      }
      var restart := membership.None? || membership.value.0 != hb.settled.value.currentIndex;
      m, t := machine, trace;
      AllKept(machine.owned);
      if trace.discards == old(trace).discards {
        StandsAfterSettled(old(machine), m, hb.settled.value.round, config.store, hb, height, reset, restart);
      }
      o := TaskHalf(hb, height, head, reset, restart);
      ReservationsSince(old(machine), old(trace), m, t, machine, trace, hb, height, o);
      if trace.discards == old(trace).discards {
        if o.Done? {
          ReleasedSince(old(machine), m, machine);
        } else {
          GrowsOn(old(machine).owned, m.owned, machine.owned);
        }
      }
    }

    /** The attempts until the first complete heartbeat; each other one is undone. */
    method Initialize(attempts: seq<Attempt>) returns (ready: bool)
      requires Inv() && config.signer.None?
      requires forall i :: 0 <= i < |attempts| && attempts[i].Try? ==> Sensible(validates, attempts[i].attempt)
      modifies this
      ensures Inv() && (!ready ==> config.signer.None?)
    {
      hide SignerInv, TaskInv, TransactionInv, Sensible, D.MarkerOf;
      ready := false;
      for i := 0 to |attempts|
        invariant Inv() && config.signer.None?
      {
        var o := HeadChanged;
        match attempts[i] {
          case HeaderMissing =>
          case Try(hb) =>
            o := Reconcile(hb);
        }
        if o.Done? { return true; }
        Invalidate();
      }
    }

    /**
      `run_dkg_runtime`: any attempts, then any events.  A moved head leaves everything for the next
      event; any other failure, a lost header and the end of the stream empty the signer.
     */
    method Run(attempts: seq<Attempt>, events: seq<Event>) returns (ready: bool, closed: bool)
      requires Inv() && config.signer.None?
      requires forall i :: 0 <= i < |attempts| && attempts[i].Try? ==> Sensible(validates, attempts[i].attempt)
      requires forall i :: 0 <= i < |events| && events[i].Beat? ==> Sensible(validates, events[i].beat)
      modifies this
      ensures Inv()
      ensures !ready || closed ==> config.signer.None?
      ensures closed ==> Idle(machine) && machine.marker.None? && trace.live == {}
    {
      hide SignerInv, TaskInv, TransactionInv, Sensible, D.MarkerOf, Idle;
      closed := false;
      ready := Initialize(attempts);
      if !ready { return; }
      for i := 0 to |events|
        invariant Inv()
      {
        match events[i] {
          case Beat(hb) =>
            var o := Drive(hb);
          case HeaderLost => Invalidate();
          case Closed =>
            Invalidate();
            return true, true;
        }
      }
    }

    /** One heartbeat of the main loop. */
    method Drive(hb: Heartbeat) returns (o: Outcome)
      requires Inv() && Sensible(validates, hb)
      modifies this
      ensures Inv()
      ensures o.Done? ==>
        && hb.header.Header? && machine.canonicalHead == Some((hb.header.height, hb.header.head))
        && hb.settled.Some? && machine.marker == Some(D.MarkerOf(hash, hb.settled.value))
        && (D.CollisionFree(hash) ==> SignsFor(validates, config.signer, hb.settled.value))
      ensures o.Done? ==> (trace.discards == old(trace).discards <==>
        WorkStandsIn(validates, old(machine), old(config).store, hb))
      ensures o.Failed? ==> config.signer.None? && machine.marker.None? && Idle(machine) && trace.live == {}
      ensures !o.Failed? ==>
        Reservations(old(machine), old(trace), machine, trace, DueIn(old(machine), hb, HeightOf(hb)),
          ReleasedIn(old(machine), hb, HeightOf(hb)), hb, o)
    {
      hide SignerInv, TaskInv, TransactionInv, Sensible, D.MarkerOf, Idle, ReleasedTogether, Grows, Reservations;
      hide DueIn, ReleasedIn;
      o := Reconcile(hb);
      if o.Failed? { Invalidate(); }
    }
  }
}
