/** Steps on the transactions of the DKG runtime: putting them in the pool and giving them up. */
module DkgPoolSteps {
  import opened Basics
  import opened Outcomes
  import opened DkgQueue
  import opened DkgMachine
  import T = DkgTransactions

  // ---------------------------------------------------------------------------
  // Giving up
  // ---------------------------------------------------------------------------

  function HashesOf(owned: map<TaskId, seq<Hash>>): set<Hash>
  {
    set id, h | id in owned && h in owned[id] :: h
  }

  lemma NothingLeft(live: set<Hash>, owned: map<TaskId, seq<Hash>>)
    requires PoolInv(live, owned)
    ensures live - HashesOf(owned) == {}
  {
  }

  lemma StopOwning(owned: map<TaskId, seq<Hash>>, b: T.Builder, lastNonce: map<TaskId, nat>, seenNonce: nat)
    requires NonceInv(owned, b, lastNonce, seenNonce)
    ensures PoolInv({}, map[]) && NonceInv(map[], b, lastNonce, seenNonce)
  {
  }

  function Restrict(owned: map<TaskId, seq<Hash>>, ids: set<TaskId>): map<TaskId, seq<Hash>>
  {
    map id | id in owned && id in ids :: owned[id]
  }

  lemma NothingReleased(owned: map<TaskId, seq<Hash>>)
    ensures HashesOf(Restrict(owned, {})) == {}
  {
  }

  /** Releasing one more task asks for its transactions to be removed and no others. */
  lemma ReleaseStep(live: set<Hash>, owned: map<TaskId, seq<Hash>>, done: set<TaskId>, id: TaskId)
    requires id !in done
    ensures var left := live - HashesOf(Restrict(owned, done));
      && (id in owned ==> left - (set h | h in owned[id]) == live - HashesOf(Restrict(owned, done + {id})))
      && (id !in owned ==> left == live - HashesOf(Restrict(owned, done + {id})))
  {
    var all := Restrict(owned, done + {id});
    if id in owned {
      assert all[id] == owned[id];
      assert forall x :: x in Restrict(owned, done) ==> all[x] == owned[x];
      assert forall h :: h in owned[id] ==> h in HashesOf(all);
      assert HashesOf(all) == HashesOf(Restrict(owned, done)) + (set h | h in owned[id]);
    } else {
      assert all == Restrict(owned, done);
    }
  }

  lemma ReleaseKeeps(live: set<Hash>, owned: map<TaskId, seq<Hash>>, b: T.Builder, lastNonce: map<TaskId, nat>,
                     seenNonce: nat, id: TaskId)
    requires PoolInv(live, owned) && NonceInv(owned, b, lastNonce, seenNonce)
    ensures id in owned ==> PoolInv(live - (set h | h in owned[id]), owned - {id})
    ensures id !in owned ==> PoolInv(live, owned - {id})
    ensures NonceInv(owned - {id}, b - {id}, lastNonce, seenNonce)
  {
    forall h | h in live && (id in owned ==> h !in owned[id])
      ensures exists x :: x in owned - {id} && h in (owned - {id})[x]
    {
      var x :| x in owned && h in owned[x];
      assert x in owned - {id} && h in (owned - {id})[x];
    }
  }

  /** The releases one after the other, in whatever order the set yields them. */
  method ReleaseEach(owned: map<TaskId, seq<Hash>>, b: T.Builder, releases: set<TaskId>, ghost live: set<Hash>,
                     ghost lastNonce: map<TaskId, nat>, ghost seenNonce: nat)
    returns (owned': map<TaskId, seq<Hash>>, b': T.Builder, ghost live': set<Hash>)
    requires PoolInv(live, owned) && NonceInv(owned, b, lastNonce, seenNonce)
    ensures owned' == owned - releases && b' == b - releases
    ensures live' == live - HashesOf(Restrict(owned, releases))
    ensures PoolInv(live', owned') && NonceInv(owned', b', lastNonce, seenNonce)
  {
    hide PoolInv, NonceInv, HashesOf, Restrict;
    var rest := releases;
    owned', b', live' := owned, b, live;
    NothingReleased(owned);
    NoneDone(releases);
    while rest != {}
      invariant rest <= releases
      invariant PoolInv(live', owned') && NonceInv(owned', b', lastNonce, seenNonce)
      invariant owned' == owned - (releases - rest) && b' == b - (releases - rest)
      invariant live' == live - HashesOf(Restrict(owned, releases - rest))
      decreases |rest|
    {
      var id :| id in rest;
      ghost var done := releases - rest;
      OneDone(releases, rest, id);
      rest := rest - {id};
      ReleaseStep(live, owned, done, id);
      ReleaseKeeps(live', owned', b', lastNonce, seenNonce, id);
      OneLess(owned, done, id);
      OneLess(b, done, id);
      if id in owned' {
        live' := live' - set h | h in owned'[id];
      }
      owned', b' := owned' - {id}, T.Release(b', id);
    }
  }

  // ---------------------------------------------------------------------------
  // Submitting
  // ---------------------------------------------------------------------------

  /** Every listed task holds a reservation. */
  ghost predicate ListedReserved(owned: map<TaskId, seq<Hash>>, b: T.Builder)
  {
    forall id :: id in owned ==> id in b
  }

  /**
    When a submission leaves every listed task its reservation: no state was read or no calldata was
    given, or the chain has passed no listed task's nonce; where it has passed this task's own, only an
    unlisted task may lose it.
   */
  ghost predicate NonePassed(owned: map<TaskId, seq<Hash>>, b: T.Builder, id: TaskId, calldata: Bytes, priced: bool,
                             onChain: nat)
    requires ListedReserved(owned, b)
  {
    || !priced || |calldata| < 4
    || (if id in b && b[id].nonce < onChain then id !in owned
        else forall x :: x in owned ==> b[x].nonce >= onChain)
  }

  /**
    What pricing one task does to the reservations: a passed nonce of its own is reported and dropped;
    otherwise all passed ones are pruned and the task keeps its nonce or, if it can pay, gets one.
   */
  ghost predicate Touched(b: T.Builder, b': T.Builder, id: TaskId, inputs: T.Inputs, occupied: set<int>)
  {
    if id in b && b[id].nonce < inputs.onChainNonce then b' == b - {id}
    else
      && (forall x :: x != id ==> (x in b' <==> x in b && b[x].nonce >= inputs.onChainNonce))
      && (forall x :: x != id && x in b' ==> b'[x] == b[x])
      && (id in b ==> id in b' && b'[id].nonce == b[id].nonce)
      && (id !in b && id in b' ==> b'[id].nonce >= inputs.onChainNonce)
      && (id !in b && inputs.onChainNonce + |occupied| + |b| <= MAX_U64 ==>
            (id in b' <==> T.InitialFee(inputs).Some?))
  }

  function Listed(owned: map<TaskId, seq<Hash>>, id: TaskId, hash: Hash): map<TaskId, seq<Hash>>
  {
    owned[id := (if id in owned then owned[id] else []) + [hash]]
  }

  lemma AwayFrom(b: T.Builder, c: T.Builder, id: TaskId)
    requires b - {id} == c - {id}
    ensures forall x :: x != id ==> (x in b <==> x in c) && (x in b ==> b[x] == c[x])
  {
    forall x | x != id
      ensures (x in b <==> x in c) && (x in b ==> b[x] == c[x])
    {
      assert x in b <==> x in b - {id};
      assert x in c <==> x in c - {id};
      if x in b { assert b[x] == (b - {id})[x] == (c - {id})[x] == c[x]; }
    }
  }

  /** A first attempt builds, a later one bumps. */
  method Reserve(b: T.Builder, id: TaskId, calldata: Bytes, inputs: T.Inputs, occupied: set<int>)
    returns (b': T.Builder, request: Result<T.Request, T.BuildError>)
    requires T.DistinctNonces(b)
    ensures T.DistinctNonces(b') && (request.Ok? ==> id in b')
    ensures |calldata| < 4 ==> b' == b && request.Err?
    ensures |calldata| >= 4 ==> Touched(b, b', id, inputs, occupied)
    ensures |calldata| >= 4 && id in b && b[id].nonce < inputs.onChainNonce ==> request.Err?
    ensures forall x :: x != id && x in b' ==> x in b && b'[x] == b[x]
  {
    ghost var pruned := T.Prune(b, inputs.onChainNonce);
    if id in b {
      b', request := T.Bump(b, id, calldata, inputs);
    } else {
      b', request := T.Build(b, id, calldata, inputs, occupied);
    }
    if |calldata| >= 4 && !(id in b && b[id].nonce < inputs.onChainNonce) { AwayFrom(b', pruned, id); }
  }

  lemma NoncesDistinct(owned: map<TaskId, seq<Hash>>, b: T.Builder, lastNonce: map<TaskId, nat>, seenNonce: nat)
    requires NonceInv(owned, b, lastNonce, seenNonce)
    ensures T.DistinctNonces(b)
  {
  }

  /** A reservation step changes this task's reservation and drops only those the chain has passed. */
  lemma Reserving(owned: map<TaskId, seq<Hash>>, b: T.Builder, b': T.Builder, lastNonce: map<TaskId, nat>,
                  seenNonce: nat, id: TaskId, onChain: nat)
    requires NonceInv(owned, b, lastNonce, seenNonce) && T.DistinctNonces(b')
    requires forall x :: x in b' && x != id ==> x in b && b'[x] == b[x]
    requires forall x :: x in b && x != id && x !in b' ==> b[x].nonce < onChain
    requires id in b && id !in b' ==> b[id].nonce < onChain
    ensures NonceInv(owned, b', if id in b' then lastNonce[id := b'[id].nonce] else lastNonce,
                     if seenNonce < onChain then onChain else seenNonce)
  {
  }

  lemma ListOne(live: set<Hash>, owned: map<TaskId, seq<Hash>>, b: T.Builder, lastNonce: map<TaskId, nat>,
                seenNonce: nat, id: TaskId, hash: Hash)
    requires PoolInv(live, owned) && NonceInv(owned, b, lastNonce, seenNonce) && id in b && id in lastNonce
    requires b[id].nonce == lastNonce[id]
    ensures var all := Listed(owned, id, hash);
      && PoolInv(live + {hash}, all) && PoolInv(live + {hash} - {hash}, all)
      && NonceInv(all, b, lastNonce, seenNonce) && Grows(owned, all)
  {
    var all := Listed(owned, id, hash);
    assert hash in all[id];
    forall h | h in live + {hash}
      ensures exists x :: x in all && h in all[x]
    {
      if h in live {
        var x :| x in owned && h in owned[x];
        assert h in all[x];
      }
    }
  }

  lemma TouchedNonces(b: T.Builder, b': T.Builder, id: TaskId, inputs: T.Inputs, occupied: set<int>)
    requires b' == b || Touched(b, b', id, inputs, occupied)
    ensures forall x :: x in b' && x != id ==> x in b && b'[x] == b[x]
    ensures forall x :: x in b && x !in b' ==> b[x].nonce < inputs.onChainNonce
  {
  }

  /** A touch leaves every listed task its reservation exactly when it finds none of them passed. */
  lemma TouchedListed(owned: map<TaskId, seq<Hash>>, b: T.Builder, owned': map<TaskId, seq<Hash>>, b': T.Builder,
                      id: TaskId, calldata: Bytes, inputs: T.Inputs, occupied: set<int>)
    requires ListedReserved(owned, b) && Touched(b, b', id, inputs, occupied) && |calldata| >= 4
    requires owned' == owned || (id in b' && owned'.Keys == owned.Keys + {id})
    ensures ListedReserved(owned', b') <==> NonePassed(owned, b, id, calldata, true, inputs.onChainNonce)
  {
    if id in b && b[id].nonce < inputs.onChainNonce {
      assert id !in b';
    } else if x :| x in owned && b[x].nonce < inputs.onChainNonce {
      assert x in owned' && x !in b';
    }
  }

  lemma NothingPriced(owned: map<TaskId, seq<Hash>>, b: T.Builder, id: TaskId, calldata: Bytes, priced: bool,
                      onChain: nat)
    requires ListedReserved(owned, b) && (!priced || |calldata| < 4)
    ensures NonePassed(owned, b, id, calldata, priced, onChain)
  {
  }

  /** `build_and_submit`: price, reserve, put in the pool, list, and check the head once more. */
  method BuildAndSubmit(owned: map<TaskId, seq<Hash>>, b: T.Builder, id: TaskId, calldata: Bytes, inputs: T.Inputs,
                        a: Answer, ghost live: set<Hash>, ghost lastNonce: map<TaskId, nat>, ghost seenNonce: nat)
    returns (owned': map<TaskId, seq<Hash>>, b': T.Builder, r: Option<Hash>, ghost live': set<Hash>,
             ghost lastNonce': map<TaskId, nat>, ghost seenNonce': nat)
    requires PoolInv(live, owned) && NonceInv(owned, b, lastNonce, seenNonce)
    ensures PoolInv(live', owned') && NonceInv(owned', b', lastNonce', seenNonce') && Grows(owned, owned')
    ensures r.Some? ==>
      && r == a.accepted && a.fenceAfter.Holds? && id in b' && id in owned'
      && owned' == Listed(owned, id, r.value) && live' == live + {r.value}
    ensures r.None? ==> live' <= live
    ensures if a.priced && |calldata| >= 4 then Touched(b, b', id, inputs, a.occupied) else b' == b && owned' == owned
    ensures owned' == owned || (id in b' && owned'.Keys == owned.Keys + {id})
    ensures ListedReserved(owned, b) ==>
      (ListedReserved(owned', b') <==> NonePassed(owned, b, id, calldata, a.priced, inputs.onChainNonce))
  {
    hide PoolInv, NonceInv, Grows, T.DistinctNonces, Touched, ListedReserved, NonePassed;
    AllKept(owned);
    if ListedReserved(owned, b) && (!a.priced || |calldata| < 4) {
      NothingPriced(owned, b, id, calldata, a.priced, inputs.onChainNonce);
    }
    owned', b', r, live', lastNonce', seenNonce' := owned, b, None, live, lastNonce, seenNonce;
    if !a.priced { return; }
    seenNonce' := if seenNonce < inputs.onChainNonce then inputs.onChainNonce else seenNonce;
    assert T.DistinctNonces(b) by { NoncesDistinct(owned, b, lastNonce, seenNonce); }
    var request;
    b', request := Reserve(b, id, calldata, inputs, a.occupied);
    lastNonce' := if id in b' then lastNonce[id := b'[id].nonce] else lastNonce;
    TouchedNonces(b, b', id, inputs, a.occupied);
    Reserving(owned, b, b', lastNonce, seenNonce, id, inputs.onChainNonce);
    if ListedReserved(owned, b) && |calldata| >= 4 {
      TouchedListed(owned, b, owned, b', id, calldata, inputs, a.occupied);
    }
    if request.Err? || a.accepted.None? { return; }
    var hash := a.accepted.value;
    ListOne(live, owned, b', lastNonce', seenNonce', id, hash);
    owned', live' := Listed(owned, id, hash), live + {hash};
    if ListedReserved(owned, b) { TouchedListed(owned, b, owned', b', id, calldata, inputs, a.occupied); }
    if !a.fenceAfter.Holds? {
      live' := live' - {hash};
      return;
    }
    r := Some(hash);
  }

  /** Submitting a second task after the chain passed the first one's nonce costs the first its reservation. */
  method PassedNonceLosesReservation()
    returns (owned: map<TaskId, seq<Hash>>, b: T.Builder, id: TaskId, inputs: T.Inputs, answer: Answer,
             owned': map<TaskId, seq<Hash>>, b': T.Builder)
    ensures ListedReserved(owned, b) && PoolInv({7}, owned) && NonceInv(owned, b, map[TaskId(1, Share, 1) := 5], 5)
    ensures !NonePassed(owned, b, id, [0, 0, 0, 0], answer.priced, inputs.onChainNonce)
    ensures Touched(b, b', id, inputs, answer.occupied) && Grows(owned, owned')
    ensures !ListedReserved(owned', b')
  {
    var first := TaskId(1, Share, 1);
    id, inputs := TaskId(1, Reshare, 1), T.Inputs(6, 1, 1);
    owned, b := map[first := [7]], map[first := T.Reservation(5, T.Fee(2, 1), 0)];
    answer := NO_ANSWER.(priced := true, accepted := Some(8), fenceAfter := Holds);
    assert PoolInv({7}, owned) by { assert 7 in owned[first]; }
    assert first in owned && first in b && b[first].nonce == 5 && id !in b;
    var r;
    ghost var live, lastNonce, seenNonce;
    owned', b', r, live, lastNonce, seenNonce :=
      BuildAndSubmit(owned, b, id, [0, 0, 0, 0], inputs, answer, {7}, map[first := 5], 5);
  }
}
