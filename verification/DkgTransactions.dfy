/** Nonce reservations and replacement fees of DKG transactions. */
module DkgTransactions {
  import opened Basics
  import opened Outcomes
  import opened DkgQueue

  datatype Inputs = Inputs(onChainNonce: nat, baseFee: nat, minimumTip: nat)

  datatype Fee = Fee(cap: nat, tip: nat)

  datatype Reservation = Reservation(nonce: nat, fee: Fee, replacements: nat)

  type Builder = map<TaskId, Reservation>

  datatype Request = Request(requestNonce: nat, requestFee: Fee, requestData: Bytes)

  datatype BuildError =
    | ShortCalldata
    | NonceOverflow
    | FeeOverflow
    | UnknownReservation
    | NonceAlreadyMined(reserved: nat, onChain: nat)
    | ReplacementOverflow

  /** No two tasks share a nonce. */
  ghost predicate DistinctNonces(b: Builder)
  {
    forall x, y :: x in b && y in b && x != y ==> b[x].nonce != b[y].nonce
  }

  /** `prune_canonical_nonces`: drops every reservation whose nonce is already used on chain. */
  function Prune(b: Builder, onChain: nat): Builder
  {
    map id | id in b && b[id].nonce >= onChain :: b[id]
  }

  predicate Reserved(b: Builder, nonce: nat)
  {
    exists id :: id in b && b[id].nonce == nonce
  }

  // ---------------------------------------------------------------------------
  // Fees
  // ---------------------------------------------------------------------------

  function InitialFee(inputs: Inputs): Option<Fee>
  {
    if 2 * inputs.baseFee > MAX_U128 || 2 * inputs.baseFee + inputs.minimumTip > MAX_U128 then None
    else Some(Fee(2 * inputs.baseFee + inputs.minimumTip, inputs.minimumTip))
  }

  function BumpFee(value: nat): Option<nat>
  {
    if value + Max(value / 8, 1) > MAX_U128 then None else Some(value + Max(value / 8, 1))
  }

  function BumpedFee(before: Fee, inputs: Inputs): (r: Option<Fee>)
    ensures r.Some? ==> Outbids(before, r.value) && Covers(inputs, r.value)
  {
    var live, bumpedTip, bumpedCap := InitialFee(inputs), BumpFee(before.tip), BumpFee(before.cap);
    if live.None? || bumpedTip.None? then None else
      var tip := Max(bumpedTip.value, live.value.tip);
      if 2 * inputs.baseFee + tip > MAX_U128 || bumpedCap.None? then None
      else Some(Fee(Max(Max(bumpedCap.value, live.value.cap), 2 * inputs.baseFee + tip), tip))
  }

  /** Both parts rise by an eighth, and by at least one. */
  predicate Outbids(before: Fee, after: Fee)
  {
    && after.cap >= before.cap + Max(before.cap / 8, 1)
    && after.tip >= before.tip + Max(before.tip / 8, 1)
  }

  /** Enough for twice the base fee and the tip. */
  predicate Covers(inputs: Inputs, fee: Fee)
  {
    fee.cap >= 2 * inputs.baseFee + fee.tip && fee.tip >= inputs.minimumTip
  }

  // ---------------------------------------------------------------------------
  // Building
  // ---------------------------------------------------------------------------

  function NoncesOf(b: Builder): set<int>
  {
    set id | id in b :: b[id].nonce
  }

  lemma {:induction false} FewerNonces(b: Builder)
    ensures |NoncesOf(b)| <= |b|
  {
    if b != map[] {
      var id :| id in b;
      var rest := b - {id};
      FewerNonces(rest);
      assert b.Keys == rest.Keys + {id} && |b| == |b.Keys| && |rest| == |rest.Keys|;
      forall x | x in b && x != id
        ensures b[x].nonce in NoncesOf(rest)
      {
        assert rest[x] == b[x];
      }
      SubsetSize(NoncesOf(b), NoncesOf(rest) + {b[id].nonce});
    }
  }

  lemma {:induction false} RangeSize(from: nat, to: nat, s: set<int>)
    requires from <= to && forall n :: from <= n < to ==> n in s
    ensures to - from <= |s|
  {
    if from < to { RangeSize(from, to - 1, s - {to - 1}); }
  }

  /** Nonces taken in a row are no more than the reservations and the pool's together. */
  lemma TakenNonces(b: Builder, occupied: set<int>, from: nat, to: nat)
    requires from <= to && forall n :: from <= n < to ==> Reserved(b, n) || n in occupied
    ensures to - from <= |occupied| + |b|
  {
    FewerNonces(b);
    forall n | from <= n < to
      ensures n in occupied + NoncesOf(b)
    {
      if n !in occupied {
        var id :| id in b && b[id].nonce == n;
      }
    }
    RangeSize(from, to, occupied + NoncesOf(b));
    UnionSize(occupied, NoncesOf(b));
  }

  lemma UnionSize(a: set<int>, b: set<int>)
    ensures |a + b| <= |a| + |b|
  {
    assert a + b == a + (b - a);
    SubsetSize(b - a, b);
  }

  /** The search of a first attempt, upwards from the account nonce; it fails only where no nonce is left. */
  method LowestFree(b: Builder, occupied: set<int>, from: nat) returns (r: Option<nat>)
    ensures r.Some? ==> from <= r.value && !Reserved(b, r.value) && r.value !in occupied
    ensures r.Some? ==> forall n :: from <= n < r.value ==> Reserved(b, n) || n in occupied
    ensures r.None? ==> from + |occupied| + |b| > MAX_U64
  {
    hide Reserved;
    var nonce := from;
    while Reserved(b, nonce) || nonce in occupied
      invariant from <= nonce
      invariant forall n :: from <= n < nonce ==> Reserved(b, n) || n in occupied
      decreases MAX_U64 - nonce
    {
      if nonce >= MAX_U64 {
        TakenNonces(b, occupied, from, nonce + 1);
        return None;
      }
      nonce := nonce + 1;
    }
    r := Some(nonce);
  }

  /**
    `build`: a first attempt takes the lowest nonce that neither another task nor the pool uses, and
    keeps it.
   */
  method Build(b: Builder, id: TaskId, calldata: Bytes, inputs: Inputs, occupied: set<int>)
    returns (after: Builder, r: Result<Request, BuildError>)
    ensures |calldata| < 4 <==> r == Err(ShortCalldata)
    ensures |calldata| < 4 ==> after == b
    ensures |calldata| >= 4 ==> after - {id} == Prune(b, inputs.onChainNonce) - {id}
    ensures r.Err? ==> id !in after || after == b
    ensures r.Ok? ==>
      && id in after && r.value == Request(after[id].nonce, after[id].fee, calldata)
      && inputs.onChainNonce <= after[id].nonce
    ensures r.Ok? && id in Prune(b, inputs.onChainNonce) ==> after == Prune(b, inputs.onChainNonce)
    ensures r.Ok? && id !in Prune(b, inputs.onChainNonce) ==>
      var nonce := after[id].nonce;
      && !Reserved(Prune(b, inputs.onChainNonce), nonce) && nonce !in occupied
      && (forall n :: inputs.onChainNonce <= n < nonce ==> Reserved(Prune(b, inputs.onChainNonce), n) || n in occupied)
      && InitialFee(inputs) == Some(after[id].fee)
    ensures DistinctNonces(b) ==> DistinctNonces(after)
    ensures |calldata| >= 4 && inputs.onChainNonce + |occupied| + |b| <= MAX_U64 ==>
      (r.Ok? <==> id in Prune(b, inputs.onChainNonce) || InitialFee(inputs).Some?)
  {
    hide Reserved;
    if |calldata| < 4 { return b, Err(ShortCalldata); }
    after := Prune(b, inputs.onChainNonce);
    if id in after {
      return after, Ok(Request(after[id].nonce, after[id].fee, calldata));
    }
    var nonce := LowestFree(after, occupied, inputs.onChainNonce);
    PrunedSize(b, inputs.onChainNonce);
    if nonce.None? { return after, Err(NonceOverflow); }
    var fee := InitialFee(inputs);
    if fee.None? { return after, Err(FeeOverflow); }
    if DistinctNonces(b) { OneMoreNonce(after, id, Reservation(nonce.value, fee.value, 0)); }
    after := after[id := Reservation(nonce.value, fee.value, 0)];
    r := Ok(Request(nonce.value, fee.value, calldata));
  }

  lemma PrunedSize(b: Builder, onChainNonce: nat)
    ensures |Prune(b, onChainNonce)| <= |b|
  {
    SubsetSize(Prune(b, onChainNonce).Keys, b.Keys);
    assert |Prune(b, onChainNonce)| == |Prune(b, onChainNonce).Keys| && |b| == |b.Keys|;
  }

  lemma OneMoreNonce(b: Builder, id: TaskId, r: Reservation)
    requires DistinctNonces(b) && !Reserved(b, r.nonce)
    ensures DistinctNonces(b[id := r])
  {
  }

  /** `bump`: the same nonce again at a higher price, unless the chain has passed it. */
  method Bump(b: Builder, id: TaskId, calldata: Bytes, inputs: Inputs)
    returns (after: Builder, r: Result<Request, BuildError>)
    ensures |calldata| < 4 ==> r == Err(ShortCalldata) && after == b
    ensures |calldata| >= 4 && id in b && b[id].nonce < inputs.onChainNonce ==>
      r == Err(NonceAlreadyMined(b[id].nonce, inputs.onChainNonce)) && after == b - {id}
    ensures |calldata| >= 4 && !(id in b && b[id].nonce < inputs.onChainNonce) ==>
      && after - {id} == Prune(b, inputs.onChainNonce) - {id} && (id in after <==> id in b)
      && (id in b ==> after[id].nonce == b[id].nonce)
    ensures r.Ok? ==>
      && id in b && id in after && r.value == Request(b[id].nonce, after[id].fee, calldata)
      && Outbids(b[id].fee, after[id].fee) && Covers(inputs, after[id].fee)
      && after[id].replacements == b[id].replacements + 1
    ensures DistinctNonces(b) ==> DistinctNonces(after)
  {
    if |calldata| < 4 { return b, Err(ShortCalldata); }
    if id in b && b[id].nonce < inputs.onChainNonce {
      return b - {id}, Err(NonceAlreadyMined(b[id].nonce, inputs.onChainNonce));
    }
    after := Prune(b, inputs.onChainNonce);
    if id !in after { return after, Err(UnknownReservation); }
    var reservation := after[id];
    var fee := BumpedFee(reservation.fee, inputs);
    if fee.None? { return after, Err(FeeOverflow); }
    after := after[id := reservation.(fee := fee.value)];
    if reservation.replacements >= MAX_U32 { return after, Err(ReplacementOverflow); }
    after := after[id := Reservation(reservation.nonce, fee.value, reservation.replacements + 1)];
    r := Ok(Request(reservation.nonce, fee.value, calldata));
  }

  function Release(b: Builder, id: TaskId): Builder
  {
    b - {id}
  }

  /** Once built, a reservation keeps its nonce through every later attempt until the chain passes it. */
  method BuildThenBump(b: Builder, id: TaskId, calldata: Bytes, first: Inputs, second: Inputs, occupied: set<int>)
    returns (a: Result<Request, BuildError>, again: Result<Request, BuildError>)
    ensures a.Ok? && again.Ok? ==>
      a.value.requestNonce == again.value.requestNonce && Outbids(a.value.requestFee, again.value.requestFee)
    ensures a.Ok? && a.value.requestNonce < second.onChainNonce ==>
      again == Err(NonceAlreadyMined(a.value.requestNonce, second.onChainNonce))
  {
    var built, rebuilt;
    built, a := Build(b, id, calldata, first, occupied);
    rebuilt, again := Bump(built, id, calldata, second);
  }
}
