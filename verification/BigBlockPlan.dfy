/**
  A big block runs several ordinary blocks ("segments") as one.  This module holds the payload,
  the execution plan derived from it, and the reference behaviour: each block on its own, one
  after the other.
 */
module BigBlockPlan {
  import opened Outcomes

  /** A transaction together with what executing it yields. */
  datatype Tx = Tx(id: nat, gasUsed: nat, blobGasUsed: nat)

  datatype BlockEnv = BlockEnv(number: nat, gasLimit: nat)

  datatype BlockCtx = BlockCtx(parentHash: nat, withdrawals: nat)

  /** One original block inside the payload (`env_switches` entry). */
  datatype ExecData = ExecData(env: BlockEnv, ctx: BlockCtx, txs: seq<Tx>)

  datatype Segment = Segment(startTx: nat, env: BlockEnv, ctx: BlockCtx)

  datatype Phase = Pre | Commit(tx: Tx) | Post

  /** Something executed against the state: under which environment and at which BAL index. */
  datatype Event = Event(phase: Phase, env: BlockEnv, ctx: BlockCtx, bal: nat)

  /** Number of transactions in the first `k` blocks. */
  function Start(bs: seq<ExecData>, k: nat): nat
    requires k <= |bs|
  {
    if k == 0 then 0 else Start(bs, k - 1) + |bs[k - 1].txs|
  }

  function Total(bs: seq<ExecData>): nat { Start(bs, |bs|) }

  /** The flat-mapped transactions of the first `k` blocks. */
  function FlatUpTo(bs: seq<ExecData>, k: nat): seq<Tx>
    requires k <= |bs|
  {
    if k == 0 then [] else FlatUpTo(bs, k - 1) + bs[k - 1].txs
  }

  /** The transaction list the payload iterator yields. */
  function Flat(bs: seq<ExecData>): seq<Tx> { FlatUpTo(bs, |bs|) }

  /** What one block does on its own: pre-execution, its transactions, post-execution. */
  function SegmentTrace(bs: seq<ExecData>, k: nat): seq<Event>
    requires k < |bs|
  {
    PartialSegment(bs, k, |bs[k].txs|) +
    [Event(Post, bs[k].env, bs[k].ctx, Start(bs, k) + |bs[k].txs| + 2 * k + 1)]
  }

  /** The same block stopped after `j` transactions. */
  function PartialSegment(bs: seq<ExecData>, k: nat, j: nat): seq<Event>
    requires k < |bs| && j <= |bs[k].txs|
  {
    if j == 0 then [Event(Pre, bs[k].env, bs[k].ctx, Start(bs, k) + 2 * k)] else
      PartialSegment(bs, k, j - 1) + [CommitEvent(bs, k, j - 1)]
  }

  function CommitEvent(bs: seq<ExecData>, k: nat, j: nat): Event
    requires k < |bs| && j < |bs[k].txs|
  {
    Event(Commit(bs[k].txs[j]), bs[k].env, bs[k].ctx, Start(bs, k) + j + 1 + 2 * k)
  }

  /** The first `k` blocks, each run on its own, one after the other. */
  function TraceUpTo(bs: seq<ExecData>, k: nat): seq<Event>
    requires k <= |bs|
  {
    if k == 0 then [] else TraceUpTo(bs, k - 1) + SegmentTrace(bs, k - 1)
  }

  function CanonicalTrace(bs: seq<ExecData>): seq<Event> { TraceUpTo(bs, |bs|) }

  /**
    The boundary test of the executor runs only after a commit, so a second segment that starts
    at transaction zero is never entered.  This is the condition that rules such payloads out.
   */
  predicate Regular(bs: seq<ExecData>)
  {
    |bs| == 1 || (|bs| > 1 && |bs[0].txs| > 0)
  }

  function SumGas(txs: seq<Tx>): nat
  {
    if txs == [] then 0 else SumGas(txs[..|txs| - 1]) + txs[|txs| - 1].gasUsed
  }

  function SumBlobGas(txs: seq<Tx>): nat
  {
    if txs == [] then 0 else SumBlobGas(txs[..|txs| - 1]) + txs[|txs| - 1].blobGasUsed
  }

  /** Event `p` of a segment is its pre-execution (0) or transaction `p - 1`. */
  lemma {:induction false} PartialSegmentAt(bs: seq<ExecData>, k: nat, j: nat, p: nat)
    requires k < |bs| && j <= |bs[k].txs| && p <= j
    ensures |PartialSegment(bs, k, j)| == j + 1
    ensures PartialSegment(bs, k, j)[p].bal == Start(bs, k) + 2 * k + p
    ensures p > 0 ==> PartialSegment(bs, k, j)[p] == CommitEvent(bs, k, p - 1)
  {
    if j > 0 { PartialSegmentAt(bs, k, j - 1, if p < j then p else 0); }
  }

  /** Closing segment `k`, and opening it. */
  lemma SegmentCloses(bs: seq<ExecData>, k: nat)
    requires k < |bs|
    ensures TraceUpTo(bs, k) + PartialSegment(bs, k, |bs[k].txs|) +
            [Event(Post, bs[k].env, bs[k].ctx, Start(bs, k + 1) + 2 * k + 1)] == TraceUpTo(bs, k + 1)
    ensures PartialSegment(bs, k, 0) == [Event(Pre, bs[k].env, bs[k].ctx, Start(bs, k) + 2 * k)]
  {
    assert Start(bs, k + 1) == Start(bs, k) + |bs[k].txs|;
  }

  // ---------------------------------------------------------------------------
  // Positions
  // ---------------------------------------------------------------------------

  lemma {:induction false} StartMonotone(bs: seq<ExecData>, a: nat, b: nat)
    requires a <= b <= |bs|
    ensures Start(bs, a) <= Start(bs, b)
    decreases b
  {
    if a < b { StartMonotone(bs, a, b - 1); }
  }

  lemma {:induction false} FlatLength(bs: seq<ExecData>, k: nat)
    requires k <= |bs|
    ensures |FlatUpTo(bs, k)| == Start(bs, k)
  {
    if k > 0 { FlatLength(bs, k - 1); }
  }

  lemma {:induction false} FlatPrefix(bs: seq<ExecData>, a: nat, b: nat)
    requires a <= b <= |bs|
    ensures Start(bs, a) <= |FlatUpTo(bs, b)| == Start(bs, b)
    ensures FlatUpTo(bs, b)[..Start(bs, a)] == FlatUpTo(bs, a)
    decreases b
  {
    FlatLength(bs, a);
    FlatLength(bs, b);
    StartMonotone(bs, a, b);
    if a < b {
      FlatPrefix(bs, a, b - 1);
      FlatLength(bs, b - 1);
      StartMonotone(bs, a, b - 1);
      var prev := FlatUpTo(bs, b - 1);
      assert (prev + bs[b - 1].txs)[..Start(bs, a)] == prev[..Start(bs, a)];
    }
  }

  /** Index `Start(k) + j` of the flat list is transaction `j` of block `k`. */
  lemma {:induction false} FlatAt(bs: seq<ExecData>, k: nat, j: nat)
    requires k < |bs| && j < |bs[k].txs|
    ensures Start(bs, k) + j < |Flat(bs)| == Total(bs)
    ensures Flat(bs)[Start(bs, k) + j] == bs[k].txs[j]
  {
    FlatPrefix(bs, k + 1, |bs|);
    FlatLength(bs, k);
    assert FlatUpTo(bs, k + 1)[Start(bs, k) + j] == bs[k].txs[j];
    assert Flat(bs)[..Start(bs, k + 1)][Start(bs, k) + j] == Flat(bs)[Start(bs, k) + j];
  }

  lemma {:induction false} SegmentUnique(bs: seq<ExecData>, k: nat, m: nat, i: nat)
    requires k < |bs| && m < |bs|
    requires Start(bs, k) <= i < Start(bs, k + 1)
    requires Start(bs, m) <= i < Start(bs, m + 1)
    ensures k == m
  {
    if k < m { StartMonotone(bs, k + 1, m); }
    if m < k { StartMonotone(bs, m + 1, k); }
  }

  /** A block-access index is the position of its event in the canonical trace. */
  lemma {:induction false} BalIsPosition(bs: seq<ExecData>, k: nat)
    requires k <= |bs|
    ensures |TraceUpTo(bs, k)| == Start(bs, k) + 2 * k
    ensures forall p :: 0 <= p < |TraceUpTo(bs, k)| ==> TraceUpTo(bs, k)[p].bal == p
  {
    if k > 0 {
      BalIsPosition(bs, k - 1);
      PartialSegmentAt(bs, k - 1, |bs[k - 1].txs|, 0);
      var before := TraceUpTo(bs, k - 1);
      var segment := SegmentTrace(bs, k - 1);
      forall p | 0 <= p < |TraceUpTo(bs, k)| ensures TraceUpTo(bs, k)[p].bal == p {
        if p >= |before| {
          PartialSegmentAt(bs, k - 1, |bs[k - 1].txs|, if p < |before| + |segment| - 1 then p - |before| else 0);
          assert TraceUpTo(bs, k)[p] == segment[p - |before|];
        }
      }
    }
  }

  /** So the indexes of all pre, transaction and post events strictly increase in order. */
  lemma BalStrictlyIncreases(bs: seq<ExecData>)
    ensures |CanonicalTrace(bs)| == Total(bs) + 2 * |bs|
    ensures forall p, q :: 0 <= p < q < |CanonicalTrace(bs)| ==>
      CanonicalTrace(bs)[p].bal < CanonicalTrace(bs)[q].bal
  {
    BalIsPosition(bs, |bs|);
  }

  lemma {:induction false} TracePrefix(bs: seq<ExecData>, a: nat, b: nat)
    requires a <= b <= |bs|
    ensures |TraceUpTo(bs, a)| <= |TraceUpTo(bs, b)|
    ensures TraceUpTo(bs, b)[..|TraceUpTo(bs, a)|] == TraceUpTo(bs, a)
    decreases b
  {
    if a < b {
      TracePrefix(bs, a, b - 1);
      var prev := TraceUpTo(bs, b - 1);
      assert (prev + SegmentTrace(bs, b - 1))[..|TraceUpTo(bs, a)|] == prev[..|TraceUpTo(bs, a)|];
    }
  }

  /** Transaction `i` of segment `k` sits at position, and carries index, `i + 1 + 2k`. */
  lemma {:induction false} TxPosition(bs: seq<ExecData>, k: nat, i: nat)
    requires k < |bs| && Start(bs, k) <= i < Start(bs, k + 1)
    ensures i < |Flat(bs)| && i + 1 + 2 * k < |CanonicalTrace(bs)|
    ensures CanonicalTrace(bs)[i + 1 + 2 * k] ==
            Event(Commit(Flat(bs)[i]), bs[k].env, bs[k].ctx, i + 1 + 2 * k)
  {
    hide FlatUpTo, PartialSegment, Regular;
    var j := i - Start(bs, k);
    var at := i + 1 + 2 * k;
    FlatAt(bs, k, j);
    BalIsPosition(bs, k);
    PartialSegmentAt(bs, k, |bs[k].txs|, j + 1);
    TracePrefix(bs, k + 1, |bs|);
    var through := TraceUpTo(bs, k + 1);
    assert through[at] == SegmentTrace(bs, k)[j + 1] == PartialSegment(bs, k, |bs[k].txs|)[j + 1];
    assert CanonicalTrace(bs)[..|through|][at] == CanonicalTrace(bs)[at];
  }

  /**
    The number BAL workers renumber their raw index to: reads strictly below it see exactly the
    events that precede the worker's transaction.
   */
  lemma WorkerReadsExactlyEarlierEvents(bs: seq<ExecData>, k: nat, i: nat)
    requires k < |bs| && Start(bs, k) <= i < Start(bs, k + 1)
    ensures i < |Flat(bs)| && i + 1 + 2 * k < |CanonicalTrace(bs)|
    ensures CanonicalTrace(bs)[i + 1 + 2 * k].phase == Commit(Flat(bs)[i])
    ensures forall p :: 0 <= p < |CanonicalTrace(bs)| ==>
      (CanonicalTrace(bs)[p].bal < (i + 1) + 2 * k <==> p < i + 1 + 2 * k)
  {
    TxPosition(bs, k, i);
    BalIsPosition(bs, |bs|);
  }

  // ---------------------------------------------------------------------------
  // Building and querying the plan
  // ---------------------------------------------------------------------------

  /** The plan that starts every segment where its transactions start in the flat list. */
  predicate IsPlan(segments: seq<Segment>, bs: seq<ExecData>)
  {
    |segments| == |bs| && IsPlanPrefix(segments, bs)
  }

  predicate IsPlanPrefix(segments: seq<Segment>, bs: seq<ExecData>)
    requires |segments| <= |bs|
  {
    forall k :: 0 <= k < |segments| ==> segments[k] == SegmentOf(bs, k)
  }

  function SegmentOf(bs: seq<ExecData>, k: nat): Segment
    requires k < |bs|
  {
    Segment(Start(bs, k), bs[k].env, bs[k].ctx)
  }

  /** A payload entry with what the ordinary configuration makes of it. */
  datatype Entry = Entry(env: Result<BlockEnv, string>, ctx: Result<BlockCtx, string>, txs: seq<Tx>)

  /** The environment is asked for first. */
  function Failure(entry: Entry): Option<string>
  {
    if entry.env.Err? then Some(entry.env.error) else if entry.ctx.Err? then Some(entry.ctx.error) else None
  }

  /** Entries that are all understood, as these blocks. */
  ghost predicate Understood(entries: seq<Entry>, bs: seq<ExecData>)
  {
    |entries| == |bs| && forall k :: 0 <= k < |bs| ==> entries[k] == Entry(Ok(bs[k].env), Ok(bs[k].ctx), bs[k].txs)
  }

  /** The first entry that is not understood, and why. */
  ghost predicate FailsFirst(entries: seq<Entry>, k: nat, error: string)
  {
    && k < |entries| && Failure(entries[k]) == Some(error)
    && forall m :: 0 <= m < k ==> Failure(entries[m]).None?
  }

  /** The plan of a payload, or the error of its first entry that is not understood. */
  method ContextForPayload(entries: seq<Entry>) returns (r: Result<seq<Segment>, string>)
    ensures r.Ok? <==> forall k :: 0 <= k < |entries| ==> Failure(entries[k]).None?
    ensures forall bs :: Understood(entries, bs) ==> r.Ok? && IsPlan(r.value, bs)
    ensures r.Err? ==> exists k: nat :: FailsFirst(entries, k, r.error)
  {
    hide Start;
    var segments: seq<Segment> := [];
    var currentTx: nat := 0;
    forall bs | Understood(entries, bs) ensures Start(bs, 0) == 0 { StartAtZero(bs); }
    for k := 0 to |entries|
      invariant |segments| == k
      invariant forall m :: 0 <= m < k ==> Failure(entries[m]).None?
      invariant forall bs :: Understood(entries, bs) ==> currentTx == Start(bs, k) && IsPlanPrefix(segments, bs)
    {
      var startTx, entry := currentTx, entries[k];
      if entry.env.Err? {
        assert FailsFirst(entries, k, entry.env.error);
        return Err(entry.env.error);
      }
      if entry.ctx.Err? {
        assert FailsFirst(entries, k, entry.ctx.error);
        return Err(entry.ctx.error);
      }
      currentTx := currentTx + |entry.txs|;
      forall bs | Understood(entries, bs) ensures Start(bs, k + 1) == currentTx { StartNext(bs, k); }
      segments := segments + [Segment(startTx, entry.env.value, entry.ctx.value)];
    }
    r := Ok(segments);
  }

  lemma StartAtZero(bs: seq<ExecData>)
    ensures Start(bs, 0) == 0
  {
  }

  lemma StartNext(bs: seq<ExecData>, k: nat)
    requires k < |bs|
    ensures Start(bs, k + 1) == Start(bs, k) + |bs[k].txs|
  {
  }

  method TxIteratorForPayload(bs: seq<ExecData>) returns (txs: seq<Tx>)
    ensures txs == Flat(bs)
  {
    txs := [];
    for k := 0 to |bs|
      invariant txs == FlatUpTo(bs, k)
    {
      txs := txs + bs[k].txs;
    }
  }

  /**
    Binary search for the segment that holds a transaction (`partition_point` then a saturating
    decrement).  Empty segments sharing a start are skipped in favour of the one that holds it.
   */
  method SegmentIndexForTx(segments: seq<Segment>, ghost bs: seq<ExecData>, txIndex: nat) returns (k: nat)
    requires IsPlan(segments, bs) && |bs| > 0
    ensures k < |bs|
    ensures Start(bs, k) <= txIndex
    ensures txIndex < Total(bs) ==> txIndex < Start(bs, k + 1)
    ensures txIndex >= Total(bs) ==> k == |bs| - 1
  {
    var low, high := 0, |segments|;
    while low < high
      invariant 0 <= low <= high <= |segments|
      invariant forall m :: 0 <= m < low ==> Start(bs, m) <= txIndex
      invariant forall m :: high <= m < |bs| ==> txIndex < Start(bs, m)
    {
      var mid := (low + high) / 2;
      if segments[mid].startTx <= txIndex {
        forall m | 0 <= m <= mid ensures Start(bs, m) <= txIndex { StartMonotone(bs, m, mid); }
        low := mid + 1;
      } else {
        forall m | mid <= m < |bs| ensures txIndex < Start(bs, m) { StartMonotone(bs, mid, m); }
        high := mid;
      }
    }
    // Segment 0 starts at 0, so the decrement never saturates.
    assert Start(bs, 0) <= txIndex;
    k := low - 1;
    if low < |bs| { StartMonotone(bs, low, |bs|); }
  }

  // ---------------------------------------------------------------------------
  // The merged block
  // ---------------------------------------------------------------------------

  datatype Header = Header(number: nat, parentHash: nat, gasUsed: nat, gasLimit: nat)

  datatype SealedBlock = SealedBlock(header: Header, txs: seq<Tx>, hash: nat)

  function SumUsed(blocks: seq<SealedBlock>): nat
  {
    if blocks == [] then 0 else SumUsed(blocks[..|blocks| - 1]) + blocks[|blocks| - 1].header.gasUsed
  }

  function SumLimit(blocks: seq<SealedBlock>): nat
  {
    if blocks == [] then 0 else SumLimit(blocks[..|blocks| - 1]) + blocks[|blocks| - 1].header.gasLimit
  }

  /** Converted blocks that keep the payload's transactions, as the ordinary validator does. */
  ghost predicate Converts(bs: seq<ExecData>, blocks: seq<SealedBlock>)
  {
    |blocks| == |bs| && forall k :: 0 <= k < |bs| ==> blocks[k].txs == bs[k].txs
  }

  predicate IsFirstError(converted: seq<Result<SealedBlock, string>>, k: nat)
  {
    k < |converted| && converted[k].Err? && forall m :: 0 <= m < k ==> converted[m].Ok?
  }

  /** All conversions succeed and are kept in order, or the first failure is reported. */
  method CollectBlocks(converted: seq<Result<SealedBlock, string>>) returns (r: Result<seq<SealedBlock>, string>)
    ensures r.Ok? ==> (|r.value| == |converted| &&
                       forall k :: 0 <= k < |converted| ==> converted[k] == Ok(r.value[k]))
    ensures r.Err? ==> exists k: nat :: IsFirstError(converted, k) && r.error == converted[k].error
  {
    var blocks: seq<SealedBlock> := [];
    for k := 0 to |converted|
      invariant |blocks| == k
      invariant forall m :: 0 <= m < k ==> converted[m] == Ok(blocks[m])
    {
      if converted[k].Err? {
        assert IsFirstError(converted, k);
        return Err(converted[k].error);
      }
      blocks := blocks + [converted[k].value];
    }
    r := Ok(blocks);
  }

  function AllTxs(blocks: seq<SealedBlock>): seq<Tx>
  {
    if blocks == [] then [] else AllTxs(blocks[..|blocks| - 1]) + blocks[|blocks| - 1].txs
  }

  /** The converted blocks hold the payload's transactions in the payload's order. */
  lemma ConvertedTxs(bs: seq<ExecData>, blocks: seq<SealedBlock>)
    requires Converts(bs, blocks)
    ensures AllTxs(blocks) == Flat(bs)
  {
    ConvertedTxsUpTo(bs, blocks, |bs|);
    assert blocks[..|bs|] == blocks;
  }

  lemma {:induction false} ConvertedTxsUpTo(bs: seq<ExecData>, blocks: seq<SealedBlock>, k: nat)
    requires Converts(bs, blocks) && k <= |bs|
    ensures AllTxs(blocks[..k]) == FlatUpTo(bs, k)
  {
    if k > 0 {
      ConvertedTxsUpTo(bs, blocks, k - 1);
      assert blocks[..k][..k - 1] == blocks[..k - 1];
    }
  }

  /**
    Merges the segment blocks into the block the engine tree stores: the last block with the
    payload's number, the first block's parent, the gas totals and every transaction in order.
   */
  method MergeBlocks(blocks: seq<SealedBlock>, blockNumber: nat) returns (merged: SealedBlock)
    requires blocks != []
    ensures merged.txs == AllTxs(blocks)
    ensures merged.hash == blocks[|blocks| - 1].hash
    ensures merged.header == Header(blockNumber, blocks[0].header.parentHash, SumUsed(blocks), SumLimit(blocks))
  {
    var block := blocks[|blocks| - 1];
    var rest := blocks[..|blocks| - 1];
    var header := block.header.(number := blockNumber);
    if |rest| > 0 { header := header.(parentHash := rest[0].header.parentHash); }
    var txs: seq<Tx> := [];
    var used, limit := 0, 0;
    for k := 0 to |rest|
      invariant txs == AllTxs(rest[..k])
      invariant used == SumUsed(rest[..k]) && limit == SumLimit(rest[..k])
    {
      assert rest[..k + 1][..k] == rest[..k];
      txs := txs + rest[k].txs;
      used := used + rest[k].header.gasUsed;
      limit := limit + rest[k].header.gasLimit;
    }
    assert rest[..|rest|] == rest;
    header := header.(gasUsed := header.gasUsed + used, gasLimit := header.gasLimit + limit);
    merged := SealedBlock(header, txs + block.txs, block.hash);
  }

  /** Index `i` of the iterator and of the merged block is the transaction the plan files under segment `k`. */
  lemma SameTransactionEverywhere(bs: seq<ExecData>, segments: seq<Segment>, blocks: seq<SealedBlock>,
                                  merged: SealedBlock, k: nat, i: nat)
    requires IsPlan(segments, bs) && k < |bs| && segments[k].startTx <= i < Start(bs, k + 1)
    requires Converts(bs, blocks) && merged.txs == AllTxs(blocks)
    ensures i < |Flat(bs)| && i < |merged.txs| && i - segments[k].startTx < |bs[k].txs|
    ensures merged.txs[i] == Flat(bs)[i] == bs[k].txs[i - segments[k].startTx]
    ensures forall m :: 0 <= m < |bs| && Start(bs, m) <= i < Start(bs, m + 1) ==> m == k
  {
    hide FlatUpTo, AllTxs, Converts, Start;
    ConvertedTxs(bs, blocks);
    StartNext(bs, k);
    FlatAt(bs, k, i - segments[k].startTx);
    forall m | 0 <= m < |bs| && Start(bs, m) <= i < Start(bs, m + 1) ensures m == k {
      SegmentUnique(bs, k, m, i);
    }
  }
}
