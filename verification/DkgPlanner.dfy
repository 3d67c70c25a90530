/** Height-driven planning of one validator's DKG transactions. */
module DkgPlanner {
  import opened Outcomes
  import opened DkgQueue

  datatype Schedule = Schedule(epochStart: nat, shareStart: nat, recoverStart: nat, recoverCheck: nat, target: nat)

  datatype Context = Context(
    participants: nat, threshold: nat, schedule: Schedule, height: nat, nextRound: nat,
    currentIndex: Option<nat>, pendingIndex: Option<nat>, shareReady: bool, recovery: seq<nat>)

  datatype Planner = Planner(
    epoch: Option<(nat, nat)>, shareTasked: bool, recoverTasked: bool, reshareRecoveredTasked: bool,
    recovering: bool, planned: seq<nat>)

  const DEFAULT := Planner(None, false, false, false, false, [])

  predicate OrderedSchedule(s: Schedule)
  {
    s.shareStart <= s.recoverStart <= s.recoverCheck <= s.target
  }

  predicate Active(s: Schedule, height: nat)
  {
    s.shareStart <= height < s.target
  }

  predicate InSet(index: nat, participants: nat)
  {
    1 <= index <= participants
  }

  predicate ValidContext(c: Context)
  {
    && c.nextRound != 0
    && (c.currentIndex.Some? ==> InSet(c.currentIndex.value, c.participants))
    && (c.pendingIndex.Some? ==> InSet(c.pendingIndex.value, c.participants))
    && (forall i :: 0 <= i < |c.recovery| ==> InSet(c.recovery[i], c.participants))
    && (forall i, j :: 0 <= i < j < |c.recovery| ==> c.recovery[i] != c.recovery[j])
  }

  function EpochOf(c: Context): (nat, nat)
  {
    (c.schedule.epochStart, c.nextRound)
  }

  predicate Recoverable(c: Context)
  {
    c.shareReady && 1 <= |c.recovery| && |c.recovery| + c.threshold <= c.participants
  }

  /** Whether a planner has dealt with a kind of task in an epoch. */
  predicate Handled(p: Planner, epoch: (nat, nat), call: Call)
  {
    && p.epoch == Some(epoch)
    && match call
       case Share => p.shareTasked
       case Reshare => p.shareTasked
       case Recover => p.recoverTasked
       case ReshareRecovered => p.reshareRecoveredTasked
  }

  /** The sender's place in the set that the call is for. */
  function Sender(c: Context, call: Call): Option<nat>
  {
    if call.Reshare? || call.Recover? then c.currentIndex else c.pendingIndex
  }

  /** A plan names its sender and can still be sent. */
  predicate Timely(c: Context, plan: Plan)
  {
    && plan.id.round == c.nextRound && Sender(c, plan.id.call) == Some(plan.id.sender)
    && c.height < plan.endHeight <= c.schedule.target
  }

  /** Plans for one checkpoint: in time, of the kinds given, one each, none handled before and all now. */
  ghost predicate Planned(p: Planner, r: Planner, c: Context, plans: seq<Plan>, kinds: set<Call>)
  {
    && (forall i :: 0 <= i < |plans| ==>
          && Timely(c, plans[i]) && plans[i].id.call in kinds
          && !Handled(p, EpochOf(c), plans[i].id.call) && Handled(r, EpochOf(c), plans[i].id.call))
    && (forall i, j :: 0 <= i < j < |plans| ==> plans[i].id.call != plans[j].id.call)
    && (forall call :: Handled(p, EpochOf(c), call) ==> Handled(r, EpochOf(c), call))
  }

  /** The share checkpoint: a reshare by current members, then a share by pending ones. */
  method SharePlans(p: Planner, c: Context) returns (r: Planner, plans: seq<Plan>)
    requires OrderedSchedule(c.schedule) && p.epoch == Some(EpochOf(c)) && c.height < c.schedule.target
    ensures Planned(p, r, c, plans, {Share, Reshare}) && r.epoch == p.epoch
    ensures !Active(c.schedule, c.height) ==> plans == []
    ensures r.recoverTasked == p.recoverTasked && r.reshareRecoveredTasked == p.reshareRecoveredTasked
  {
    r, plans := p, [];
    if c.height >= c.schedule.shareStart && !r.shareTasked {
      r := r.(shareTasked := true);
      if c.height < c.schedule.recoverStart {
        if c.nextRound > 1 && c.currentIndex.Some? {
          plans := plans + [Plan(TaskId(c.nextRound, Reshare, c.currentIndex.value), c.schedule.recoverStart, [])];
        }
        if c.pendingIndex.Some? {
          plans := plans + [Plan(TaskId(c.nextRound, Share, c.pendingIndex.value), c.schedule.recoverStart, [])];
        }
      }
    }
  }

  /** The recover checkpoint, and the one after it for the members that were missing. */
  method RecoverPlans(p: Planner, c: Context) returns (r: Planner, plans: seq<Plan>)
    requires OrderedSchedule(c.schedule) && p.epoch == Some(EpochOf(c)) && c.height < c.schedule.target
    ensures Planned(p, r, c, plans, {Recover, ReshareRecovered}) && r.epoch == p.epoch
    ensures !Active(c.schedule, c.height) ==> plans == []
    ensures r.shareTasked == p.shareTasked
  {
    r, plans := p, [];
    if c.height >= c.schedule.recoverStart && !r.recoverTasked {
      r := r.(recoverTasked := true);
      if Recoverable(c) {
        r := r.(recovering := true, planned := c.recovery);
        if c.height < c.schedule.recoverCheck && c.currentIndex.Some? {
          plans := plans
            + [Plan(TaskId(c.nextRound, Recover, c.currentIndex.value), c.schedule.recoverCheck, c.recovery)];
        }
      }
    }
    if r.recovering && c.height >= c.schedule.recoverCheck && !r.reshareRecoveredTasked {
      r := r.(reshareRecoveredTasked := true);
      if c.pendingIndex.Some? && c.pendingIndex.value in r.planned {
        plans := plans + [Plan(TaskId(c.nextRound, ReshareRecovered, c.pendingIndex.value), c.schedule.target, [])];
      }
    }
  }

  lemma BothPlanned(p: Planner, q: Planner, r: Planner, c: Context, a: seq<Plan>, b: seq<Plan>)
    requires Planned(p, q, c, a, {Share, Reshare}) && Planned(q, r, c, b, {Recover, ReshareRecovered})
    requires forall call :: Handled(q, EpochOf(c), call) && call in {Recover, ReshareRecovered} ==>
      Handled(p, EpochOf(c), call)
    requires forall call :: Handled(p, EpochOf(c), call) ==> Handled(q, EpochOf(c), call)
    ensures Planned(p, r, c, a + b, {Share, Reshare, Recover, ReshareRecovered})
  {
    hide Timely, Handled;
  }

  /** `take_tasks`: nothing outside the window, every kind of task once in an epoch, always in time. */
  method TakeTasks(p: Planner, c: Context) returns (r: Planner, tasks: Option<seq<Plan>>)
    requires OrderedSchedule(c.schedule)
    ensures tasks.Some? <==> ValidContext(c)
    ensures tasks.None? ==> r == p
    ensures tasks.Some? && !Active(c.schedule, c.height) ==> tasks.value == []
    ensures tasks.Some? ==> Planned(p, r, c, tasks.value, {Share, Reshare, Recover, ReshareRecovered})
  {
    if !ValidContext(c) { return p, None; }
    r := p;
    if p.epoch != Some(EpochOf(c)) { r := DEFAULT.(epoch := Some(EpochOf(c))); }
    ghost var start := r;
    if c.height >= c.schedule.target { return r, Some([]); }
    var first, second;
    r, first := SharePlans(r, c);
    ghost var middle := r;
    r, second := RecoverPlans(r, c);
    BothPlanned(start, middle, r, c, first, second);
    tasks := Some(first + second);
  }

  /** Over any heights of one epoch, skipped or repeated, no kind of task is planned twice. */
  method PlanEpoch(p: Planner, contexts: seq<Context>, epoch: (nat, nat)) returns (r: Planner, all: seq<Plan>)
    requires forall i :: 0 <= i < |contexts| ==>
      OrderedSchedule(contexts[i].schedule) && EpochOf(contexts[i]) == epoch
    ensures forall i, j :: 0 <= i < j < |all| ==> all[i].id.call != all[j].id.call
    ensures forall i :: 0 <= i < |all| ==> !Handled(p, epoch, all[i].id.call)
  {
    r, all := p, [];
    for n := 0 to |contexts|
      invariant forall i, j :: 0 <= i < j < |all| ==> all[i].id.call != all[j].id.call
      invariant forall i :: 0 <= i < |all| ==>
        !Handled(p, epoch, all[i].id.call) && Handled(r, epoch, all[i].id.call)
      invariant forall call :: Handled(p, epoch, call) ==> Handled(r, epoch, call)
    {
      var before, tasks := r, None;
      r, tasks := TakeTasks(before, contexts[n]);
      if tasks.Some? { all := all + tasks.value; }
    }
  }
}
