/**
  Nonce reservations over a whole heartbeat.  All submissions of a heartbeat price against the state of one
  head, so they read one account nonce; what a reservation lives through depends on which submission first
  prunes the ones below it.
 */
module DkgReservations {
  import opened Basics
  import opened Outcomes
  import opened DkgQueue
  import opened DkgPlanner
  import opened DkgMachine
  import opened DkgPoolSteps
  import opened DkgTaskSteps
  import T = DkgTransactions

  // ---------------------------------------------------------------------------
  // What one heartbeat does to the reservations it finds
  // ---------------------------------------------------------------------------

  /** A submission that gets as far as the nonce builder. */
  predicate Reaches(act: Action, a: Answer)
  {
    act.Submit? && |act.calldata| >= 4 && a.fence.Holds? && a.priced
  }

  /** The tasks whose submissions reach the builder, in order. */
  function Touches(acts: seq<Action>, answers: map<TaskId, Answer>): seq<TaskId>
  {
    if acts == [] then [] else
      var last := acts[|acts| - 1];
      Touches(acts[..|acts| - 1], answers) + if Reaches(last, AnswerFor(answers, last.id)) then [last.id] else []
  }

  /** The tasks whose reserved nonce the chain has passed. */
  function Passed(b: T.Builder, onChain: nat): set<TaskId>
  {
    set id | id in b && b[id].nonce < onChain
  }

  /** How many of the first touched tasks have a passed nonce; the next one is the first to prune. */
  function BeforePruning(touches: seq<TaskId>, passed: set<TaskId>): (n: nat)
    ensures n <= |touches|
    ensures forall i :: 0 <= i < n ==> touches[i] in passed
    ensures n < |touches| ==> touches[n] !in passed
  {
    if touches == [] then 0 else
      var n := BeforePruning(touches[..|touches| - 1], passed);
      if n == |touches| - 1 && touches[n] in passed then |touches| else n
  }

  /**
    A task with a passed nonce ends without a reservation: it was touched before anything pruned, which
    reports its nonce as mined, or something pruned and it was not built again afterwards.
   */
  predicate Lost(x: TaskId, touches: seq<TaskId>, passed: set<TaskId>, payable: bool)
  {
    var n := BeforePruning(touches, passed);
    x in touches[..n] || (n < |touches| && !(payable && x in touches[n..]))
  }

  /** No listed task with a passed nonce is lost, other than those released. */
  ghost predicate NoneLost(owned: map<TaskId, seq<Hash>>, b: T.Builder, touches: seq<TaskId>, inputs: T.Inputs,
                           released: set<TaskId>)
  {
    var passed := Passed(b, inputs.onChainNonce);
    forall x :: x in owned && x in passed && x !in released ==>
      !Lost(x, touches, passed, T.InitialFee(inputs).Some?)
  }

  /** Every answer leaves a nonce free for each of `n` more reservations. */
  ghost predicate Roomy(inputs: T.Inputs, answers: map<TaskId, Answer>, b: T.Builder, n: nat)
  {
    forall id :: inputs.onChainNonce + |AnswerFor(answers, id).occupied| + |b| + n <= MAX_U64
  }

  // ---------------------------------------------------------------------------
  // Step by step
  // ---------------------------------------------------------------------------

  /** One action: a submission that reaches the builder touches it, anything else leaves it alone. */
  ghost predicate Reserves(m: Machine, n: Machine, act: Action, a: Answer, inputs: T.Inputs)
  {
    if Reaches(act, a) then
      && Touched(m.transactions, n.transactions, act.id, inputs, a.occupied)
      && (n.owned == m.owned || (act.id in n.transactions && n.owned.Keys == m.owned.Keys + {act.id}))
    else n.owned == m.owned && n.transactions == m.transactions
  }

  /** What became of one reservation since the start. */
  ghost predicate Fate(x: TaskId, b0: T.Builder, b: T.Builder, touches: seq<TaskId>, inputs: T.Inputs)
  {
    var onChain, passed := inputs.onChainNonce, Passed(b0, inputs.onChainNonce);
    if x in passed then
      && (x in b <==> !Lost(x, touches, passed, T.InitialFee(inputs).Some?))
      && (x in b ==> (b[x].nonce < onChain <==> BeforePruning(touches, passed) == |touches|))
    else (x in b0 ==> x in b) && (x in b ==> b[x].nonce >= onChain)
  }

  /** The reservations after some submissions, against those at the start. */
  ghost predicate Tally(o0: set<TaskId>, b0: T.Builder, o: set<TaskId>, b: T.Builder, touches: seq<TaskId>,
                        inputs: T.Inputs)
  {
    && |b| <= |b0| + |touches| && o0 <= o
    && (forall x :: x in o && x !in o0 ==> x in b && b[x].nonce >= inputs.onChainNonce)
    && (forall x :: Fate(x, b0, b, touches, inputs))
  }

  lemma StartOfTally(o0: set<TaskId>, b0: T.Builder, inputs: T.Inputs)
    ensures Tally(o0, b0, o0, b0, [], inputs)
  {
  }

  lemma OneMoreTouch(touches: seq<TaskId>, t: TaskId, passed: set<TaskId>)
    ensures var n := BeforePruning(touches, passed);
      BeforePruning(touches + [t], passed) == if n == |touches| && t in passed then n + 1 else n
  {
    assert (touches + [t])[..|touches|] == touches;
  }

  /** Before anything pruned, a touched task with a passed nonce is lost and the others stay as they are. */
  lemma LostBeforePruning(touches: seq<TaskId>, t: TaskId, passed: set<TaskId>, payable: bool, x: TaskId)
    requires BeforePruning(touches, passed) == |touches| && t in passed
    ensures Lost(x, touches + [t], passed, payable) <==> Lost(x, touches, passed, payable) || x == t
  {
    OneMoreTouch(touches, t, passed);
    assert touches[..|touches|] == touches && (touches + [t])[..|touches| + 1] == touches + [t];
  }

  /** The first touch of any other task prunes everything passed. */
  lemma LostAtPruning(touches: seq<TaskId>, t: TaskId, passed: set<TaskId>, payable: bool, x: TaskId)
    requires BeforePruning(touches, passed) == |touches| && t !in passed && x in passed
    ensures Lost(x, touches + [t], passed, payable)
  {
    OneMoreTouch(touches, t, passed);
    assert (touches + [t])[|touches|..] == [t];
  }

  /** From then on a touched task is built again, if its fee can be paid. */
  lemma LostAfterPruning(touches: seq<TaskId>, t: TaskId, passed: set<TaskId>, payable: bool, x: TaskId)
    requires BeforePruning(touches, passed) < |touches| && t !in touches
    ensures x != t ==> (Lost(x, touches + [t], passed, payable) <==> Lost(x, touches, passed, payable))
    ensures x == t ==> Lost(x, touches, passed, payable) && (Lost(x, touches + [t], passed, payable) <==> !payable)
  {
    OneMoreTouch(touches, t, passed);
    var n := BeforePruning(touches, passed);
    assert (touches + [t])[..n] == touches[..n] && (touches + [t])[n..] == touches[n..] + [t];
    assert t !in touches[..n] && t !in touches[n..];
  }

  /** A touch decides the fate of its own task and of those whose nonce was passed. */
  lemma FateStep(x: TaskId, b0: T.Builder, b: T.Builder, b': T.Builder, touches: seq<TaskId>, inputs: T.Inputs,
                 t: TaskId, occupied: set<int>)
    requires Fate(x, b0, b, touches, inputs) && Fate(t, b0, b, touches, inputs)
    requires t !in touches && Touched(b, b', t, inputs, occupied)
    requires inputs.onChainNonce + |occupied| + |b| <= MAX_U64
    ensures Fate(x, b0, b', touches + [t], inputs)
  {
    hide Lost, BeforePruning, Passed, T.InitialFee;
    var passed, payable := Passed(b0, inputs.onChainNonce), T.InitialFee(inputs).Some?;
    OneMoreTouch(touches, t, passed);
    PassedAre(b0, inputs.onChainNonce);
    if BeforePruning(touches, passed) < |touches| {
      LostAfterPruning(touches, t, passed, payable, x);
      LostAfterPruning(touches, t, passed, payable, t);
    } else if t in passed {
      LostBeforePruning(touches, t, passed, payable, x);
      NotLostYet(touches, t, passed, payable);
    } else if x in passed {
      LostAtPruning(touches, t, passed, payable, x);
    }
  }

  /** A listed task with a nonce the chain has not passed keeps it. */
  lemma TouchSpares(b: T.Builder, b': T.Builder, x: TaskId, t: TaskId, inputs: T.Inputs, occupied: set<int>)
    requires Touched(b, b', t, inputs, occupied)
    ensures x in b && b[x].nonce >= inputs.onChainNonce ==> x in b' && b'[x].nonce >= inputs.onChainNonce
    ensures t in b' ==> b'[t].nonce >= inputs.onChainNonce
  {
  }

  lemma TouchedSize(b: T.Builder, b': T.Builder, t: TaskId, inputs: T.Inputs, occupied: set<int>)
    requires Touched(b, b', t, inputs, occupied)
    ensures |b'| <= |b| + 1
  {
    SubsetSize(b'.Keys, b.Keys + {t});
    assert |b'| == |b'.Keys| && |b| == |b.Keys|;
  }

  lemma TallyTouch(o0: set<TaskId>, b0: T.Builder, o: set<TaskId>, b: T.Builder, touches: seq<TaskId>, inputs: T.Inputs,
                   t: TaskId, o': set<TaskId>, b': T.Builder, occupied: set<int>)
    requires Tally(o0, b0, o, b, touches, inputs) && t !in touches
    requires Touched(b, b', t, inputs, occupied)
    requires inputs.onChainNonce + |occupied| + |b0| + |touches| <= MAX_U64
    requires o' == o || (t in b' && o' == o + {t})
    ensures Tally(o0, b0, o', b', touches + [t], inputs)
  {
    hide Fate, Touched;
    TouchedSize(b, b', t, inputs, occupied);
    forall x
      ensures Fate(x, b0, b', touches + [t], inputs)
    {
      assert Fate(x, b0, b, touches, inputs) && Fate(t, b0, b, touches, inputs);
      FateStep(x, b0, b, b', touches, inputs, t, occupied);
    }
    forall x | x in o' && x !in o0
      ensures x in b' && b'[x].nonce >= inputs.onChainNonce
    {
      TouchSpares(b, b', x, t, inputs, occupied);
    }
  }

  lemma PassedAre(b: T.Builder, onChain: nat)
    ensures forall x :: x in Passed(b, onChain) <==> x in b && b[x].nonce < onChain
  {
  }

  lemma NotLostYet(touches: seq<TaskId>, t: TaskId, passed: set<TaskId>, payable: bool)
    requires BeforePruning(touches, passed) == |touches| && t !in touches
    ensures !Lost(t, touches, passed, payable)
  {
  }

  // ---------------------------------------------------------------------------
  // Over the actions of a heartbeat
  // ---------------------------------------------------------------------------

  /** As far as nonces are left for all of the submissions that need one. */
  ghost predicate TallyOf(start: Machine, now: Machine, acts: seq<Action>, answers: map<TaskId, Answer>,
                          inputs: T.Inputs)
  {
    Roomy(inputs, answers, start.transactions, |Touches(acts, answers)|) ==>
      Tally(start.owned.Keys, start.transactions, now.owned.Keys, now.transactions, Touches(acts, answers), inputs)
  }

  lemma {:induction false} TouchesAreActs(acts: seq<Action>, answers: map<TaskId, Answer>)
    ensures forall t :: t in Touches(acts, answers) ==> exists i :: 0 <= i < |acts| && acts[i].id == t
  {
    if acts != [] {
      var rest, last := acts[..|acts| - 1], acts[|acts| - 1];
      TouchesAreActs(rest, answers);
      forall t | t in Touches(acts, answers)
        ensures exists i :: 0 <= i < |acts| && acts[i].id == t
      {
        if t in Touches(rest, answers) {
          var i :| 0 <= i < |rest| && rest[i].id == t;
          assert acts[i].id == t;
        } else {
          assert acts[|acts| - 1].id == t;
        }
      }
    }
  }

  lemma TallyStart(m: Machine, started: seq<Action>, answers: map<TaskId, Answer>, inputs: T.Inputs)
    ensures TallyOf(m, m, started[..0], answers, inputs)
  {
    StartOfTally(m.owned.Keys, m.transactions, inputs);
  }

  lemma TallyStep(start: Machine, m: Machine, n: Machine, started: seq<Action>, i: nat, answers: map<TaskId, Answer>,
                  inputs: T.Inputs)
    requires i < |started| && DistinctIds(started)
    requires TallyOf(start, m, started[..i], answers, inputs)
    requires Reserves(m, n, started[i], AnswerFor(answers, started[i].id), inputs)
    ensures TallyOf(start, n, started[..i + 1], answers, inputs)
  {
    hide Tally, Touched, Reaches, Touches, Roomy;
    var acts, a := started[..i], started[i];
    assert started[..i + 1] == acts + [a];
    OneMoreAct(acts, a, answers);
    TouchesAreActs(acts, answers);
    if Reaches(a, AnswerFor(answers, a.id)) {
      assert a.id !in Touches(acts, answers);
      var count := |Touches(acts, answers)|;
      if Roomy(inputs, answers, start.transactions, count + 1) {
        LessRoomy(inputs, answers, start.transactions, count, a.id);
        TallyTouch(start.owned.Keys, start.transactions, m.owned.Keys, m.transactions, Touches(acts, answers), inputs,
          a.id, n.owned.Keys, n.transactions, AnswerFor(answers, a.id).occupied);
      }
    }
  }

  lemma OneMoreAct(acts: seq<Action>, a: Action, answers: map<TaskId, Answer>)
    ensures Reaches(a, AnswerFor(answers, a.id)) ==> Touches(acts + [a], answers) == Touches(acts, answers) + [a.id]
    ensures !Reaches(a, AnswerFor(answers, a.id)) ==> Touches(acts + [a], answers) == Touches(acts, answers)
  {
    assert (acts + [a])[..|acts|] == acts;
  }

  lemma LessRoomy(inputs: T.Inputs, answers: map<TaskId, Answer>, b: T.Builder, n: nat, id: TaskId)
    requires Roomy(inputs, answers, b, n + 1)
    ensures Roomy(inputs, answers, b, n)
    ensures inputs.onChainNonce + |AnswerFor(answers, id).occupied| + |b| + n <= MAX_U64
  {
  }

  lemma KeptOne(start: Machine, now: Machine, touches: seq<TaskId>, inputs: T.Inputs, x: TaskId)
    requires Tally(start.owned.Keys, start.transactions, now.owned.Keys, now.transactions, touches, inputs)
    requires ListedReserved(start.owned, start.transactions) && x in now.owned
    ensures x in now.transactions <==>
      (x in start.owned && x in Passed(start.transactions, inputs.onChainNonce) ==>
         !Lost(x, touches, Passed(start.transactions, inputs.onChainNonce), T.InitialFee(inputs).Some?))
  {
    hide Lost, BeforePruning, T.InitialFee;
    assert Fate(x, start.transactions, now.transactions, touches, inputs);
  }

  /** The exact condition: every listed task keeps a reservation if and only if none of them is lost. */
  lemma KeptExactly(start: Machine, now: Machine, acts: seq<Action>, answers: map<TaskId, Answer>, inputs: T.Inputs,
                    released: set<TaskId>)
    requires TallyOf(start, now, acts, answers, inputs)
    requires Roomy(inputs, answers, start.transactions, |Touches(acts, answers)|)
    requires ListedReserved(start.owned, start.transactions)
    ensures ListedReserved(now.owned - released, now.transactions - released) <==>
      NoneLost(start.owned, start.transactions, Touches(acts, answers), inputs, released)
  {
    hide Lost, Touches, BeforePruning, Passed, Fate, T.InitialFee;
    var touches := Touches(acts, answers);
    forall x | x in now.owned
      ensures x in now.transactions <==>
        (x in start.owned && x in Passed(start.transactions, inputs.onChainNonce) ==>
           !Lost(x, touches, Passed(start.transactions, inputs.onChainNonce), T.InitialFee(inputs).Some?))
    {
      KeptOne(start, now, touches, inputs, x);
    }
    assert forall x :: x in start.owned.Keys ==> x in now.owned.Keys;
    ListedBeside(now.owned, now.transactions, released);
  }

  lemma ListedBeside(owned: map<TaskId, seq<Hash>>, b: T.Builder, released: set<TaskId>)
    ensures ListedReserved(owned - released, b - released) <==>
      forall x :: x in owned && x !in released ==> x in b
  {
    if x :| x in owned && x !in released && x !in b {
      assert x in owned - released && x !in b - released;
    }
  }

  // ---------------------------------------------------------------------------
  // Over a heartbeat
  // ---------------------------------------------------------------------------

  /** The actions before the first one that does not pass its fence. */
  function Passing(acts: seq<Action>, answers: map<TaskId, Answer>): (p: seq<Action>)
    ensures |p| <= |acts|
  {
    if acts == [] then [] else
      var rest, last := acts[..|acts| - 1], acts[|acts| - 1];
      var passing := Passing(rest, answers);
      if passing == rest && Passes(last, answers) then acts else passing
  }

  lemma {:induction false} PassingIs(acts: seq<Action>, n: nat, answers: map<TaskId, Answer>)
    requires n <= |acts| && (forall j :: 0 <= j < n ==> Passes(acts[j], answers))
    requires n < |acts| ==> !Passes(acts[n], answers)
    ensures Passing(acts, answers) == acts[..n]
  {
    if acts != [] {
      var rest := acts[..|acts| - 1];
      if n < |acts| {
        PassingIs(rest, n, answers);
        assert rest[..n] == acts[..n];
      } else {
        PassingIs(rest, n - 1, answers);
        assert rest[..n - 1] == rest && acts[..n] == acts;
      }
    }
  }

  /** Preparations always pass and touch nothing, so leaving them out changes nothing. */
  lemma {:induction false} PassingSends(acts: seq<Action>, answers: map<TaskId, Answer>)
    ensures Passing(Sends(acts), answers) == Sends(Passing(acts, answers))
    ensures Passing(acts, answers) == acts <==> Passing(Sends(acts), answers) == Sends(acts)
  {
    if acts != [] {
      var rest, last := acts[..|acts| - 1], acts[|acts| - 1];
      PassingSends(rest, answers);
      if last.Submit? || last.CheckReceipt? {
        assert Sends(acts) == Sends(rest) + [last] && Sends(acts)[..|Sends(rest)|] == Sends(rest);
      } else {
        assert Sends(acts) == Sends(rest);
      }
    }
  }

  lemma {:induction false} TouchesSends(acts: seq<Action>, answers: map<TaskId, Answer>)
    ensures Touches(Sends(acts), answers) == Touches(acts, answers)
  {
    if acts != [] {
      var rest, last := acts[..|acts| - 1], acts[|acts| - 1];
      TouchesSends(rest, answers);
      if last.Submit? || last.CheckReceipt? {
        assert Sends(acts)[..|Sends(rest)|] == Sends(rest);
      } else {
        assert Sends(acts) == Sends(rest) && Touches(acts, answers) == Touches(rest, answers);
      }
    }
  }

  /** The handled actions touch what the passing ones of those due touch. */
  lemma HandledTouches(started: seq<Action>, handled: nat, stopped: bool, answers: map<TaskId, Answer>)
    requires handled <= |started| && (!stopped ==> handled == |started|)
    requires forall j :: 0 <= j < handled && (!stopped || j + 1 < handled) ==> Passes(started[j], answers)
    requires stopped ==> handled > 0 && !Passes(started[handled - 1], answers)
    ensures Touches(started[..handled], answers) == Touches(Passing(Sends(started), answers), answers)
  {
    hide Touches, Passing, Sends;
    var n := if stopped then handled - 1 else handled;
    PassingIs(started, n, answers);
    PassingSends(started, answers);
    TouchesSends(started[..n], answers);
    if stopped {
      assert started[..handled] == started[..n] + [started[n]];
      OneMoreAct(started[..n], started[n], answers);
    }
  }

  /** The tasks whose transactions were found to have succeeded. */
  function Confirmed(acts: seq<Action>, answers: map<TaskId, Answer>): set<TaskId>
  {
    set act | act in acts && act.CheckReceipt? && AnswerFor(answers, act.id).receipt == Some(Succeeded) :: act.id
  }

  lemma NoneConfirmed(started: seq<Action>, answers: map<TaskId, Answer>)
    ensures Confirmed(started[..0], answers) == {}
  {
  }

  lemma OneMoreConfirmed(started: seq<Action>, i: nat, answers: map<TaskId, Answer>)
    requires i < |started|
    ensures var act := started[i];
      Confirmed(started[..i + 1], answers) == Confirmed(started[..i], answers) +
        if act.CheckReceipt? && AnswerFor(answers, act.id).receipt == Some(Succeeded) then {act.id} else {}
  {
    assert started[..i + 1] == started[..i] + [started[i]];
  }

  lemma ConfirmedSends(started: seq<Action>, answers: map<TaskId, Answer>)
    ensures Confirmed(Sends(started), answers) == Confirmed(started, answers)
  {
    hide Sends;
    SendsMembers(started);
  }

  /** The tasks found in canonical storage for the first time, which is looked at inside the window only. */
  function Newly(m: Machine, hb: Heartbeat, height: nat): set<TaskId>
  {
    if hb.schedule.Some? && Active(hb.schedule.value, height) && hb.canonicalTasks.Some? then
      hb.canonicalTasks.value - m.canonicalTasks
    else {}
  }

  /** The queued tasks a heartbeat acts on: those not retired, with the proofs that have finished. */
  function Acting(m: Machine, newly: set<TaskId>, inputs: Option<TaskInputs>, finished: map<TaskId, Option<Bytes>>)
    : map<TaskId, Task>
  {
    map id | id in m.executor.tasks && id !in newly ::
      if inputs.Some? && id in m.preparations && id in finished then
        m.executor.tasks[id].(state := Proved(m.preparations[id], inputs.value, finished[id]))
      else m.executor.tasks[id]
  }

  /** The submissions and receipt checks of a heartbeat, from the state it starts in and what it reads. */
  function DueIn(m: Machine, hb: Heartbeat, height: nat): seq<Action>
  {
    Due(m.executor.order, Acting(m, Newly(m, hb, height), hb.inputs, hb.finished), height)
  }

  /** What a complete heartbeat releases: what was staged, retired tasks, expired ones and confirmed ones. */
  function ReleasedIn(m: Machine, hb: Heartbeat, height: nat): set<TaskId>
  {
    m.pendingReleases + Newly(m, hb, height) + ExpiredIds(m.executor, height) +
    Confirmed(DueIn(m, hb, height), hb.answers)
  }

  function HeightOf(hb: Heartbeat): nat
  {
    if hb.header.Header? then hb.header.height else 0
  }

  /** With these actions due, every listed task has a reservation afterwards exactly when none of them is lost. */
  ghost predicate KeptUnlessLost(start: Machine, now: Machine, due: seq<Action>, released: set<TaskId>, hb: Heartbeat)
  {
    var touches := Touches(Passing(due, hb.answers), hb.answers);
    Roomy(hb.pricing, hb.answers, start.transactions, |touches|) && ListedReserved(start.owned, start.transactions) ==>
      (ListedReserved(now.owned, now.transactions) <==>
         NoneLost(start.owned, start.transactions, touches, hb.pricing, released))
  }

  /** The exact condition carried over the releases at the end. */
  lemma ActsDone(start: Machine, acting: Machine, acted: Machine, now: Machine, acts: seq<Action>, due: seq<Action>,
                 released: set<TaskId>, hb: Heartbeat)
    requires acting.owned == start.owned && acting.transactions == start.transactions
    requires TallyOf(acting, acted, acts, hb.answers, hb.pricing)
    requires Touches(acts, hb.answers) == Touches(Passing(due, hb.answers), hb.answers)
    requires now.owned == acted.owned - released && now.transactions == acted.transactions - released
    ensures KeptUnlessLost(start, now, due, released, hb)
  {
    hide Roomy, TallyOf, NoneLost, Touches, ListedReserved, Passing;
    var touches := Touches(acts, hb.answers);
    if Roomy(hb.pricing, hb.answers, start.transactions, |touches|) && ListedReserved(start.owned, start.transactions) {
      KeptExactly(acting, acted, acts, hb.answers, hb.pricing, released);
    }
  }

  // ---------------------------------------------------------------------------
  // The queue a heartbeat acts on
  // ---------------------------------------------------------------------------

  /** One task of the queue after planning and polling. */
  lemma ActingOne(m: Machine, planned: Queue, polled: Queue, inputs: Option<TaskInputs>,
                  finished: map<TaskId, Option<Bytes>>, id: TaskId)
    requires id in m.executor.tasks && id in planned.tasks && planned.tasks[id] == m.executor.tasks[id]
    requires inputs.None? ==> polled == planned
    requires inputs.Some? ==>
      Polled(planned, polled, m.preparations, inputs.value, finished, m.preparations.Keys * finished.Keys)
    ensures id in polled.tasks && id in Acting(m, {}, inputs, finished)
    ensures polled.tasks[id] == Acting(m, {}, inputs, finished)[id]
  {
    if inputs.Some? {
      assert id in polled.tasks.Keys;
      assert id in m.preparations.Keys * finished.Keys <==> id in m.preparations && id in finished;
    }
  }

  /** A task queued just now stays unprepared. */
  lemma ActingNew(m: Machine, planned: Queue, polled: Queue, inputs: Option<TaskInputs>,
                  finished: map<TaskId, Option<Bytes>>, id: TaskId)
    requires id in planned.tasks && planned.tasks[id].state == Unprepared
    requires QueueInv(planned, m.preparations, m.canonicalTasks)
    requires inputs.None? ==> polled == planned
    requires inputs.Some? ==>
      Polled(planned, polled, m.preparations, inputs.value, finished, m.preparations.Keys * finished.Keys)
    ensures id in polled.tasks && polled.tasks[id].state == Unprepared
  {
    if inputs.Some? { assert id in polled.tasks.Keys && id !in m.preparations.Keys * finished.Keys; }
  }

  /** What is due after planning and polling is what was due of the tasks queued before. */
  lemma DueAfterPolling(m: Machine, planned: Queue, polled: Queue, inputs: Option<TaskInputs>,
                        finished: map<TaskId, Option<Bytes>>, height: nat)
    requires Valid(m.executor) && m.executor.order <= planned.order && polled.order == planned.order
    requires QueueInv(planned, m.preparations, m.canonicalTasks)
    requires forall id :: id in m.executor.tasks ==> id in planned.tasks && planned.tasks[id] == m.executor.tasks[id]
    requires forall id :: id in planned.tasks && id !in m.executor.tasks ==> planned.tasks[id].state == Unprepared
    requires inputs.None? ==> polled == planned
    requires inputs.Some? ==>
      Polled(planned, polled, m.preparations, inputs.value, finished, m.preparations.Keys * finished.Keys)
    ensures Due(polled.order, polled.tasks, height) ==
            Due(m.executor.order, Acting(m, {}, inputs, finished), height)
  {
    hide Due, Polled, Acting, Valid;
    var order, more := m.executor.order, planned.order[|m.executor.order|..];
    assert planned.order == order + more;
    var acting := Acting(m, {}, inputs, finished);
    forall id | id in order
      ensures (id in polled.tasks <==> id in acting) && (id in polled.tasks ==> polled.tasks[id] == acting[id])
    {
      InOrder(m.executor, id);
      ActingOne(m, planned, polled, inputs, finished, id);
    }
    DueOfSame(order, polled.tasks, acting, height);
    QueueIsValid(planned, m.preparations, m.canonicalTasks);
    forall id | id in more && id in polled.tasks
      ensures polled.tasks[id].state == Unprepared
    {
      NewlyQueued(m.executor, planned, id);
      ActingNew(m, planned, polled, inputs, finished, id);
    }
    DueBehind(order, more, polled.tasks, height);
  }

  lemma InOrder(q: Queue, id: TaskId)
    requires Valid(q)
    ensures id in q.order <==> id in q.tasks
  {
  }

  /** What comes behind the old order was not queued before. */
  lemma NewlyQueued(q: Queue, planned: Queue, id: TaskId)
    requires Valid(q) && Valid(planned) && q.order <= planned.order && id in planned.order[|q.order|..]
    ensures id in planned.tasks && id !in q.tasks
  {
    var k :| |q.order| <= k < |planned.order| && planned.order[k] == id;
    assert id in planned.order;
  }

  /** Retiring tasks first leaves due what a heartbeat owes the others. */
  lemma DueAfterRetiring(a: Machine, m: Machine, newly: set<TaskId>, inputs: Option<TaskInputs>,
                         finished: map<TaskId, Option<Bytes>>, height: nat)
    requires Retired(a, m, newly)
    ensures Due(m.executor.order, Acting(m, {}, inputs, finished), height) ==
            Due(a.executor.order, Acting(a, newly, inputs, finished), height)
    ensures ExpiredIds(m.executor, height) + newly == ExpiredIds(a.executor, height) + newly
  {
    hide Due, Kept;
    var acting := Acting(m, {}, inputs, finished);
    assert acting == Acting(a, newly, inputs, finished);
    DueOfKept(a.executor.order, m.executor.tasks, acting, height);
  }

  // ---------------------------------------------------------------------------
  // While the chain has passed no listed task
  // ---------------------------------------------------------------------------

  /** Every listed task has a reservation that the chain has not passed. */
  ghost predicate Ahead(owned: map<TaskId, seq<Hash>>, b: T.Builder, onChain: nat)
  {
    forall id :: id in owned ==> id in b && b[id].nonce >= onChain
  }

  lemma AheadStep(m: Machine, n: Machine, act: Action, a: Answer, inputs: T.Inputs)
    requires Ahead(m.owned, m.transactions, inputs.onChainNonce) && Reserves(m, n, act, a, inputs)
    ensures Ahead(n.owned, n.transactions, inputs.onChainNonce)
  {
    if Reaches(act, a) {
      forall id | id in n.owned
        ensures id in n.transactions && n.transactions[id].nonce >= inputs.onChainNonce
      {
        assert id in n.owned.Keys;
        TouchSpares(m.transactions, n.transactions, id, act.id, inputs, a.occupied);
      }
    }
  }

  // ---------------------------------------------------------------------------
  // The actions, one after the other
  // ---------------------------------------------------------------------------

  /** One action: what it does to the reservations, and whether it stages its task for release. */
  ghost predicate Acted(m: Machine, n: Machine, act: Action, a: Answer, inputs: T.Inputs)
  {
    && Reserves(m, n, act, a, inputs) && Grows(m.owned, n.owned)
    && n.pendingReleases ==
       m.pendingReleases + if act.CheckReceipt? && a.receipt == Some(Succeeded) then {act.id} else {}
  }

  /** A submission that stops at the first fence, or goes on to be priced and listed. */
  lemma SubmitActed(m: Machine, n: Machine, id: TaskId, calldata: Bytes, a: Answer, inputs: T.Inputs)
    requires n.pendingReleases == m.pendingReleases && Grows(m.owned, n.owned)
    requires a.fence.Holds? && a.priced && |calldata| >= 4 ==>
      Touched(m.transactions, n.transactions, id, inputs, a.occupied)
    requires a.fence.Holds? && a.priced && |calldata| >= 4 ==>
      n.owned == m.owned || (id in n.transactions && n.owned.Keys == m.owned.Keys + {id})
    requires !(a.fence.Holds? && a.priced && |calldata| >= 4) ==>
      n.transactions == m.transactions && n.owned == m.owned
    ensures Acted(m, n, Submit(id, calldata), a, inputs)
  {
  }

  /** Where the reservations, the list and the staged releases stand after some actions. */
  ghost predicate Progress(start: Machine, now: Machine, acts: seq<Action>, answers: map<TaskId, Answer>,
                           inputs: T.Inputs)
  {
    && TallyOf(start, now, acts, answers, inputs) && Grows(start.owned, now.owned)
    && (Ahead(start.owned, start.transactions, inputs.onChainNonce) ==>
          Ahead(now.owned, now.transactions, inputs.onChainNonce))
    && now.pendingReleases == start.pendingReleases + Confirmed(acts, answers)
    && (Touches(acts, answers) == [] ==> now.owned == start.owned && now.transactions == start.transactions)
  }

  lemma ProgressStart(m: Machine, started: seq<Action>, answers: map<TaskId, Answer>, inputs: T.Inputs)
    ensures Progress(m, m, started[..0], answers, inputs)
  {
    hide TallyOf, Ahead;
    TallyStart(m, started, answers, inputs);
    NoneConfirmed(started, answers);
  }

  lemma ProgressStep(start: Machine, m: Machine, n: Machine, started: seq<Action>, i: nat, answers: map<TaskId, Answer>,
                     inputs: T.Inputs)
    requires i < |started| && DistinctIds(started) && Progress(start, m, started[..i], answers, inputs)
    requires Acted(m, n, started[i], AnswerFor(answers, started[i].id), inputs)
    ensures Progress(start, n, started[..i + 1], answers, inputs)
  {
    hide TallyOf, Ahead, Confirmed, DistinctIds, Reserves, Grows, Touches, Reaches;
    TallyStep(start, m, n, started, i, answers, inputs);
    if Ahead(m.owned, m.transactions, inputs.onChainNonce) {
      AheadStep(m, n, started[i], AnswerFor(answers, started[i].id), inputs);
    }
    OneMoreConfirmed(started, i, answers);
    GrowsOn(start.owned, m.owned, n.owned);
    assert started[..i + 1] == started[..i] + [started[i]];
    OneMoreAct(started[..i], started[i], answers);
    if !Reaches(started[i], AnswerFor(answers, started[i].id)) {
      Bypassed(m, n, started[i], AnswerFor(answers, started[i].id), inputs);
    }
  }

  lemma Bypassed(m: Machine, n: Machine, act: Action, a: Answer, inputs: T.Inputs)
    requires Reserves(m, n, act, a, inputs) && !Reaches(act, a)
    ensures n.owned == m.owned && n.transactions == m.transactions
  {
  }

  lemma AheadReleased(owned: map<TaskId, seq<Hash>>, b: T.Builder, released: set<TaskId>, onChain: nat)
    requires Ahead(owned, b, onChain)
    ensures Ahead(owned - released, b - released, onChain)
  {
  }

  // ---------------------------------------------------------------------------
  // What every heartbeat does about the reservations
  // ---------------------------------------------------------------------------

  predicate NothingToReserve(m: Machine, due: seq<Action>)
  {
    due == [] && m.owned == map[] && m.transactions == map[]
  }

  /**
    Where all was discarded nothing is listed or reserved.  Otherwise, with every listed task reserved at the
    start, a complete heartbeat leaves each one that is still listed a reservation exactly when none is lost in
    the actions due; one that ends early does so too, or stopped before any of them.  Nonces the chain has not
    passed are safe in any case.
   */
  ghost predicate Reservations(start: Machine, t: Trace, now: Machine, u: Trace, due: seq<Action>,
                               released: set<TaskId>, hb: Heartbeat, o: Outcome)
  {
    && u.discards >= t.discards
    && (u.discards > t.discards || NothingToReserve(start, due) ==> now.owned == map[] && now.transactions == map[])
    && (u.discards == t.discards && o.Done? ==> KeptUnlessLost(start, now, due, released, hb))
    && (u.discards == t.discards && !o.Done? ==>
          || (now.owned == start.owned && now.transactions == start.transactions)
          || KeptUnlessLost(start, now, due, {}, hb))
    && (Ahead(start.owned, start.transactions, hb.pricing.onChainNonce) ==>
          Ahead(now.owned, now.transactions, hb.pricing.onChainNonce))
  }

  /** A heartbeat that stopped before any action. */
  lemma StoppedEarly(a: Machine, t: Trace, m: Machine, u: Trace, due: seq<Action>, released: set<TaskId>, hb: Heartbeat,
                     o: Outcome)
    requires u.discards >= t.discards && (o.Done? ==> u.discards > t.discards)
    requires if u.discards == t.discards then m.owned == a.owned && m.transactions == a.transactions
             else m.owned == map[] && m.transactions == map[]
    ensures Reservations(a, t, m, u, due, released, hb, o)
  {
    hide KeptUnlessLost;
  }

  /** A heartbeat that got to its actions, up to the last fence or to where they stopped. */
  lemma ActionsReserved(before: Machine, t: Trace, acting: Machine, acted: Machine, now: Machine, u: Trace,
                        started: seq<Action>, handled: nat, stopped: bool, released: set<TaskId>, hb: Heartbeat,
                        o: Outcome)
    requires acting.owned == before.owned && acting.transactions == before.transactions
    requires handled <= |started| && (!stopped ==> handled == |started|) && u.discards == t.discards
    requires forall j :: 0 <= j < handled && (!stopped || j + 1 < handled) ==> Passes(started[j], hb.answers)
    requires stopped ==> handled > 0 && !Passes(started[handled - 1], hb.answers)
    requires Progress(acting, acted, started[..handled], hb.answers, hb.pricing)
    requires var gone := if o.Done? then released else {};
      now.owned == acted.owned - gone && now.transactions == acted.transactions - gone
    ensures Reservations(before, t, now, u, Sends(started), released, hb, o)
  {
    hide TallyOf, Touches, Passing, Ahead, Passes, Sends, Confirmed, KeptUnlessLost, Grows;
    var gone := if o.Done? then released else {};
    HandledTouches(started, handled, stopped, hb.answers);
    ActsDone(before, acting, acted, now, started[..handled], Sends(started), gone, hb);
    if Ahead(acted.owned, acted.transactions, hb.pricing.onChainNonce) {
      AheadReleased(acted.owned, acted.transactions, gone, hb.pricing.onChainNonce);
    }
    NothingTouched(hb.answers);
  }

  lemma NothingTouched(answers: map<TaskId, Answer>)
    ensures Touches(Passing([], answers), answers) == []
  {
  }

  lemma ProgressFacts(start: Machine, now: Machine, acts: seq<Action>, answers: map<TaskId, Answer>, inputs: T.Inputs)
    requires Progress(start, now, acts, answers, inputs)
    ensures Grows(start.owned, now.owned) && now.pendingReleases == start.pendingReleases + Confirmed(acts, answers)
  {
  }

  lemma NothingGone(m: Machine)
    ensures m.owned - {} == m.owned && m.transactions - {} == m.transactions
  {
    NoneLess(m.owned);
    NoneLess(m.transactions);
  }

  /** Nothing queued, nothing due. */
  lemma NothingToDo(m: Machine, newly: set<TaskId>, inputs: Option<TaskInputs>,
                    finished: map<TaskId, Option<Bytes>>, height: nat)
    requires Emptied(m)
    ensures Due(m.executor.order, Acting(m, newly, inputs, finished), height) == []
  {
  }

  /** A suspended heartbeat has nothing left to reserve. */
  lemma SuspendedReserves(a: Machine, t: Trace, m: Machine, u: Trace, hb: Heartbeat, height: nat, o: Outcome)
    requires Idle(m) && u.discards > t.discards
    ensures Reservations(a, t, m, u, DueIn(a, hb, height), ReleasedIn(a, hb, height), hb, o)
    ensures ReleasedTogether(a, m)
  {
    hide DueIn, ReleasedIn, KeptUnlessLost;
  }

  lemma SameReservations(a: Machine, t: Trace, m: Machine, u: Trace, now: Machine, v: Trace, due: seq<Action>,
                         released: set<TaskId>, hb: Heartbeat, o: Outcome)
    requires u.discards == t.discards && m.owned == a.owned && m.transactions == a.transactions
    requires Reservations(m, u, now, v, due, released, hb, o)
    ensures Reservations(a, t, now, v, due, released, hb, o)
  {
    hide NoneLost, Roomy, Touches, Passing, Ahead, ListedReserved;
  }

  /** What was due behind the earlier phases was due at the start, unless they discarded everything. */
  lemma PhasesReserved(a: Machine, t: Trace, m: Machine, u: Trace, now: Machine, v: Trace, inputs: Option<TaskInputs>,
                       hb: Heartbeat, height: nat, o: Outcome)
    requires RetiresTogether(a, t, m, u, Newly(a, hb, height))
    requires inputs == hb.inputs || m.executor.tasks == map[]
    requires var due := Due(m.executor.order, Acting(m, {}, inputs, hb.finished), height);
      Reservations(m, u, now, v, due,
        m.pendingReleases + ExpiredIds(m.executor, height) + Confirmed(due, hb.answers), hb, o)
    ensures Reservations(a, t, now, v, DueIn(a, hb, height), ReleasedIn(a, hb, height), hb, o)
  {
    hide KeptUnlessLost, Ahead, Confirmed, ExpiredIds, Due, Kept;
    if u.discards == t.discards {
      var newly := Newly(a, hb, height);
      DueAfterRetiring(a, m, newly, hb.inputs, hb.finished, height);
      assert Acting(m, {}, inputs, hb.finished) == Acting(m, {}, hb.inputs, hb.finished);
      var due := DueIn(a, hb, height);
      assert m.pendingReleases + ExpiredIds(m.executor, height) + Confirmed(due, hb.answers) ==
             ReleasedIn(a, hb, height);
      SameReservations(a, t, m, u, now, v, due, ReleasedIn(a, hb, height), hb, o);
    } else {
      NothingToDo(m, {}, inputs, hb.finished, height);
      StoppedEarly(a, t, now, v, DueIn(a, hb, height), ReleasedIn(a, hb, height), hb, o);
    }
  }

  /** The same for phases that leave the queue alone. */
  lemma ReservationsSince(a: Machine, t: Trace, m: Machine, u: Trace, now: Machine, v: Trace, hb: Heartbeat,
                          height: nat, o: Outcome)
    requires GivesUpTogether(a, t, m, u)
    requires Reservations(m, u, now, v, DueIn(m, hb, height), ReleasedIn(m, hb, height), hb, o)
    ensures Reservations(a, t, now, v, DueIn(a, hb, height), ReleasedIn(a, hb, height), hb, o)
  {
    hide KeptUnlessLost, Ahead, Confirmed, ExpiredIds, Due;
    if u.discards == t.discards {
      assert Acting(m, Newly(m, hb, height), hb.inputs, hb.finished) ==
             Acting(a, Newly(a, hb, height), hb.inputs, hb.finished);
      SameReservations(a, t, m, u, now, v, DueIn(a, hb, height), ReleasedIn(a, hb, height), hb, o);
    } else {
      NothingToDo(m, Newly(m, hb, height), hb.inputs, hb.finished, height);
      StoppedEarly(a, t, now, v, DueIn(a, hb, height), ReleasedIn(a, hb, height), hb, o);
    }
  }
}
