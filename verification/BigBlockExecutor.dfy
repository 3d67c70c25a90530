/**
  The big-block executor: it runs all segments through one stream of transactions, finishing one
  inner executor and starting the next inside `CommitTransaction`.
 */
module BigBlockExecutor {
  import opened Outcomes
  import opened BigBlockPlan
  import opened BlockHashes

  datatype Receipt = Receipt(txId: nat, cumulativeGasUsed: nat)

  /**
    The ordinary block executor, seen through what the wrapper relies on: its gas counters start
    at zero, a commit appends a receipt holding the gas counter, and finishing returns both.
   */
  datatype Inner = Inner(env: BlockEnv, ctx: BlockCtx, gasUsed: nat, blobGasUsed: nat, receipts: seq<Receipt>)
  {
    function CommitTx(tx: Tx): Inner
    {
      this.(gasUsed := gasUsed + tx.gasUsed, blobGasUsed := blobGasUsed + tx.blobGasUsed,
            receipts := receipts + [Receipt(tx.id, gasUsed + tx.gasUsed)])
    }
  }

  /** Execution requests an inner executor derives when it finishes. */
  type RequestRule = (BlockEnv, BlockCtx, seq<Receipt>) -> seq<nat>

  /** `rings` are the block hashes as each segment found them when it opened. */
  datatype BbResult = BbResult(
    log: seq<Event>, receipts: seq<Receipt>, gasUsed: nat, blobGasUsed: nat, requests: seq<nat>, rings: seq<Ring>)

  // ---------------------------------------------------------------------------
  // What the executor must have done after some transactions
  // ---------------------------------------------------------------------------

  /** Receipt `i` carries the gas of transactions `0..=i` of the whole big block. */
  function ReceiptsUpTo(txs: seq<Tx>, n: nat): seq<Receipt>
    requires n <= |txs|
  {
    if n == 0 then [] else ReceiptsUpTo(txs, n - 1) + [Receipt(txs[n - 1].id, SumGas(txs[..n]))]
  }

  lemma {:induction false} ReceiptAt(txs: seq<Tx>, n: nat, i: nat)
    requires i < n <= |txs|
    ensures |ReceiptsUpTo(txs, n)| == n
    ensures ReceiptsUpTo(txs, n)[i] == Receipt(txs[i].id, SumGas(txs[..i + 1]))
  {
    if n > 1 { ReceiptAt(txs, n - 1, if i < n - 1 then i else 0); }
  }

  lemma {:induction false} GasAcross(bs: seq<ExecData>, k: nat, j: nat)
    requires k < |bs| && j <= |bs[k].txs| && Start(bs, k) + j <= |Flat(bs)|
    ensures SumGas(Flat(bs)[..Start(bs, k) + j]) == SumGas(Flat(bs)[..Start(bs, k)]) + SumGas(bs[k].txs[..j])
  {
    hide FlatUpTo, Start;
    if j > 0 {
      GasAcross(bs, k, j - 1);
      FlatAt(bs, k, j - 1);
      var n := Start(bs, k) + j;
      assert Flat(bs)[..n][..n - 1] == Flat(bs)[..n - 1] && bs[k].txs[..j][..j - 1] == bs[k].txs[..j - 1];
    }
  }

  /** A segment's receipts are those of its block run alone, with the gas of all earlier segments on top. */
  lemma ReceiptsAreShifted(bs: seq<ExecData>, k: nat, j: nat)
    requires k < |bs| && j < |bs[k].txs|
    ensures Start(bs, k) + j < |Flat(bs)|
    ensures |ReceiptsUpTo(Flat(bs), |Flat(bs)|)| == |Flat(bs)| && |ReceiptsUpTo(bs[k].txs, |bs[k].txs|)| == |bs[k].txs|
    ensures var alone := ReceiptsUpTo(bs[k].txs, |bs[k].txs|)[j];
      ReceiptsUpTo(Flat(bs), |Flat(bs)|)[Start(bs, k) + j] ==
      alone.(cumulativeGasUsed := alone.cumulativeGasUsed + SumGas(Flat(bs)[..Start(bs, k)]))
  {
    hide FlatUpTo, Start, SumGas, ReceiptsUpTo;
    FlatAt(bs, k, j);
    GasAcross(bs, k, j + 1);
    ReceiptAt(Flat(bs), |Flat(bs)|, Start(bs, k) + j);
    ReceiptAt(bs[k].txs, |bs[k].txs|, j);
    assert Start(bs, k) + j + 1 == Start(bs, k) + (j + 1);
  }

  /**
    The requests of the first `k` segments in segment order, as the executor asks for them: a new inner
    executor starts with the receipts of all earlier segments, so each segment's rule sees those again.
   */
  function RequestsUpTo(bs: seq<ExecData>, rule: RequestRule, k: nat): seq<nat>
    requires k <= |bs|
  {
    if k == 0 then [] else
      RequestsUpTo(bs, rule, k - 1) + SegmentRequests(bs, rule, k - 1)
  }

  function SegmentRequests(bs: seq<ExecData>, rule: RequestRule, k: nat): seq<nat>
    requires k < |bs|
  {
    FlatPrefix(bs, k + 1, |bs|);
    rule(bs[k].env, bs[k].ctx, ReceiptsUpTo(Flat(bs), Start(bs, k + 1)))
  }

  /** The requests of block `k` run on its own: its rule sees its own receipts only. */
  function AloneRequests(bs: seq<ExecData>, rule: RequestRule, k: nat): seq<nat>
    requires k < |bs|
  {
    rule(bs[k].env, bs[k].ctx, ReceiptsUpTo(bs[k].txs, |bs[k].txs|))
  }

  /** The first `k` blocks, each run on its own. */
  function AloneUpTo(bs: seq<ExecData>, rule: RequestRule, k: nat): seq<nat>
    requires k <= |bs|
  {
    if k == 0 then [] else AloneUpTo(bs, rule, k - 1) + AloneRequests(bs, rule, k - 1)
  }

  lemma SegmentAddsRequests(bs: seq<ExecData>, rule: RequestRule, k: nat, n: nat, receipts: seq<Receipt>)
    requires k < |bs| && n == Start(bs, k + 1) && n <= |Flat(bs)|
    requires receipts == ReceiptsUpTo(Flat(bs), n)
    ensures RequestsUpTo(bs, rule, k) + rule(bs[k].env, bs[k].ctx, receipts) == RequestsUpTo(bs, rule, k + 1)
  {
  }

  // ---------------------------------------------------------------------------
  // Requests, against each block run on its own
  // ---------------------------------------------------------------------------

  /** A rule that does not look at receipts. */
  ghost predicate ReadsNoReceipts(rule: RequestRule)
  {
    forall env, ctx, a, b :: rule(env, ctx, a) == rule(env, ctx, b)
  }

  /** Then carrying the receipts over makes no difference. */
  lemma {:induction false} UnreadReceiptsDoNotMatter(bs: seq<ExecData>, rule: RequestRule, k: nat)
    requires ReadsNoReceipts(rule) && k <= |bs|
    ensures RequestsUpTo(bs, rule, k) == AloneUpTo(bs, rule, k)
  {
    hide ReceiptsUpTo, FlatUpTo, Start;
    if k > 0 {
      UnreadReceiptsDoNotMatter(bs, rule, k - 1);
      assert SegmentRequests(bs, rule, k - 1) == AloneRequests(bs, rule, k - 1);
    }
  }

  /** What the logs behind some receipts ask for, receipt by receipt. */
  function Found(found: nat -> seq<nat>, receipts: seq<Receipt>): seq<nat>
  {
    if receipts == [] then [] else
      Found(found, receipts[..|receipts| - 1]) + found(receipts[|receipts| - 1].txId)
  }

  /** A rule that collects from the logs of its receipts, then adds what its block's own calls return. */
  ghost predicate Collects(rule: RequestRule, found: nat -> seq<nat>, own: (BlockEnv, BlockCtx) -> seq<nat>)
  {
    forall env, ctx, receipts :: rule(env, ctx, receipts) == Found(found, receipts) + own(env, ctx)
  }

  function FoundIn(found: nat -> seq<nat>, txs: seq<Tx>, n: nat): seq<nat>
    requires n <= |txs|
  {
    if n == 0 then [] else FoundIn(found, txs, n - 1) + found(txs[n - 1].id)
  }

  lemma {:induction false} FoundInReceipts(found: nat -> seq<nat>, txs: seq<Tx>, n: nat)
    requires n <= |txs|
    ensures Found(found, ReceiptsUpTo(txs, n)) == FoundIn(found, txs, n)
  {
    hide SumGas;
    if n > 0 {
      FoundInReceipts(found, txs, n - 1);
      var before := ReceiptsUpTo(txs, n - 1);
      assert ReceiptsUpTo(txs, n)[..|before|] == before;
    }
  }

  /** What the transactions before segment `k` ask for, and thus what its rule finds once more. */
  function Carried(bs: seq<ExecData>, found: nat -> seq<nat>, k: nat): seq<nat>
    requires k <= |bs|
  {
    FlatPrefix(bs, k, |bs|);
    FoundIn(found, Flat(bs), Start(bs, k))
  }

  lemma {:induction false} FoundAcross(bs: seq<ExecData>, found: nat -> seq<nat>, k: nat, j: nat)
    requires k < |bs| && j <= |bs[k].txs| && Start(bs, k) + j <= |Flat(bs)|
    ensures FoundIn(found, Flat(bs), Start(bs, k) + j) ==
            FoundIn(found, Flat(bs), Start(bs, k)) + FoundIn(found, bs[k].txs, j)
  {
    hide FlatUpTo, Start;
    if j > 0 {
      FoundAcross(bs, found, k, j - 1);
      FlatAt(bs, k, j - 1);
      assert Start(bs, k) + j - 1 == Start(bs, k) + (j - 1);
    }
  }

  lemma SegmentRepeatsCarried(bs: seq<ExecData>, rule: RequestRule, found: nat -> seq<nat>,
                              own: (BlockEnv, BlockCtx) -> seq<nat>, k: nat)
    requires Collects(rule, found, own) && k < |bs|
    ensures SegmentRequests(bs, rule, k) == Carried(bs, found, k) + AloneRequests(bs, rule, k)
    ensures |Carried(bs, found, k)| <= |Carried(bs, found, k + 1)|
  {
    hide FlatUpTo, Start, Found, FoundIn, ReceiptsUpTo;
    StartNext(bs, k);
    FlatPrefix(bs, k, |bs|);
    FlatPrefix(bs, k + 1, |bs|);
    FoundAcross(bs, found, k, |bs[k].txs|);
    FoundInReceipts(found, Flat(bs), Start(bs, k + 1));
    FoundInReceipts(found, bs[k].txs, |bs[k].txs|);
  }

  lemma {:induction false} RepeatsAddUp(bs: seq<ExecData>, rule: RequestRule, found: nat -> seq<nat>,
                                        own: (BlockEnv, BlockCtx) -> seq<nat>, k: nat)
    requires Collects(rule, found, own) && 0 < k <= |bs|
    ensures |RequestsUpTo(bs, rule, k)| >= |AloneUpTo(bs, rule, k)| + |Carried(bs, found, k - 1)|
    ensures Carried(bs, found, k - 1) == [] ==> RequestsUpTo(bs, rule, k) == AloneUpTo(bs, rule, k)
    ensures |Carried(bs, found, k - 1)| <= |Carried(bs, found, k)|
  {
    hide Carried, SegmentRequests, AloneRequests, Collects;
    SegmentRepeatsCarried(bs, rule, found, own, k - 1);
    if k > 1 { RepeatsAddUp(bs, rule, found, own, k - 1); }
  }

  lemma {:induction false} NothingFoundIn(found: nat -> seq<nat>, txs: seq<Tx>, n: nat)
    requires n <= |txs|
    ensures FoundIn(found, txs, n) == [] <==> forall i :: 0 <= i < n ==> found(txs[i].id) == []
  {
    if n > 0 { NothingFoundIn(found, txs, n - 1); }
  }

  /**
    With a collecting rule the requests are those of the blocks run on their own exactly when no
    transaction before the last segment asks for anything; otherwise some are there more than once.
   */
  lemma CollectedOnceExactly(bs: seq<ExecData>, rule: RequestRule, found: nat -> seq<nat>,
                             own: (BlockEnv, BlockCtx) -> seq<nat>)
    requires Collects(rule, found, own) && |bs| > 0
    ensures Start(bs, |bs| - 1) <= |Flat(bs)|
    ensures RequestsUpTo(bs, rule, |bs|) == AloneUpTo(bs, rule, |bs|) <==>
      forall i :: 0 <= i < Start(bs, |bs| - 1) ==> found(Flat(bs)[i].id) == []
  {
    hide RequestsUpTo, AloneUpTo, Collects, FlatUpTo, Start, FoundIn;
    RepeatsAddUp(bs, rule, found, own, |bs|);
    FlatPrefix(bs, |bs| - 1, |bs|);
    NothingFoundIn(found, Flat(bs), Start(bs, |bs| - 1));
  }

  function OneId(id: nat): seq<nat>
  {
    [id]
  }

  /** A rule that reports the transactions whose receipts it sees. */
  function SeenIds(env: BlockEnv, ctx: BlockCtx, receipts: seq<Receipt>): seq<nat>
  {
    Found(OneId, receipts)
  }

  /** Two blocks of one transaction each. */
  function TwoBlocks(env: BlockEnv, ctx: BlockCtx): seq<ExecData>
  {
    [ExecData(env, ctx, [Tx(7, 1, 0)]), ExecData(env, ctx, [Tx(8, 1, 0)])]
  }

  lemma TwoBlocksLaidOut(env: BlockEnv, ctx: BlockCtx)
    ensures var bs := TwoBlocks(env, ctx);
      Regular(bs) && Start(bs, 1) == 1 && Start(bs, 2) == 2 && Flat(bs) == [Tx(7, 1, 0), Tx(8, 1, 0)]
  {
    var bs := TwoBlocks(env, ctx);
    assert Start(bs, 1) == 1 && FlatUpTo(bs, 1) == [Tx(7, 1, 0)];
  }

  lemma IdsSeen(bs: seq<ExecData>, k: nat)
    requires k < |bs| && Start(bs, k + 1) <= |Flat(bs)|
    ensures SegmentRequests(bs, SeenIds, k) == FoundIn(OneId, Flat(bs), Start(bs, k + 1))
    ensures AloneRequests(bs, SeenIds, k) == FoundIn(OneId, bs[k].txs, |bs[k].txs|)
  {
    hide FlatUpTo, Start, FoundIn, ReceiptsUpTo, Found;
    FoundInReceipts(OneId, Flat(bs), Start(bs, k + 1));
    FoundInReceipts(OneId, bs[k].txs, |bs[k].txs|);
  }

  lemma OneOrTwoIds(txs: seq<Tx>)
    ensures |txs| >= 1 ==> FoundIn(OneId, txs, 1) == [txs[0].id]
    ensures |txs| >= 2 ==> FoundIn(OneId, txs, 2) == [txs[0].id, txs[1].id]
  {
    if |txs| >= 1 { assert FoundIn(OneId, txs, 0) == []; }
  }

  /** The second block's rule reports the first one's transaction again. */
  lemma CarriedReceiptsAreReadAgain(env: BlockEnv, ctx: BlockCtx)
    ensures var bs := TwoBlocks(env, ctx);
      Regular(bs) && RequestsUpTo(bs, SeenIds, 2) == [7, 7, 8] && AloneUpTo(bs, SeenIds, 2) == [7, 8]
  {
    hide FlatUpTo, Start, FoundIn, SegmentRequests, AloneRequests;
    var bs := TwoBlocks(env, ctx);
    TwoBlocksLaidOut(env, ctx);
    IdsSeen(bs, 0);
    IdsSeen(bs, 1);
    OneOrTwoIds(Flat(bs));
    OneOrTwoIds(bs[0].txs);
    OneOrTwoIds(bs[1].txs);
    assert RequestsUpTo(bs, SeenIds, 1) == [7] && AloneUpTo(bs, SeenIds, 1) == [7];
  }

  /** What is logged while segment 0 is never left. */
  function StuckLog(bs: seq<ExecData>, flat: seq<Tx>, n: nat): seq<Event>
    requires |bs| > 0 && n <= |flat|
  {
    if n == 0 then [Event(Pre, bs[0].env, bs[0].ctx, 0)] else
      StuckLog(bs, flat, n - 1) + [Event(Commit(flat[n - 1]), bs[0].env, bs[0].ctx, n)]
  }

  lemma {:induction false} StuckLogLength(bs: seq<ExecData>, flat: seq<Tx>, n: nat)
    requires |bs| > 0 && n <= |flat|
    ensures |StuckLog(bs, flat, n)| == n + 1
  {
    if n > 0 { StuckLogLength(bs, flat, n - 1); }
  }

  /** Segment `cur` is open and `n` transactions of the whole payload are committed. */
  ghost predicate Position(bs: seq<ExecData>, cur: nat, n: nat)
  {
    && cur < |bs| && n <= Total(bs)
    && (Regular(bs) ==> Start(bs, cur) <= n <= Start(bs, cur + 1))
    && (!Regular(bs) ==> cur == 0)
  }

  /** No boundary is left to cross. */
  ghost predicate Crossed(bs: seq<ExecData>, cur: nat, n: nat)
    requires Position(bs, cur, n)
  {
    Regular(bs) && cur + 1 < |bs| ==> n < Start(bs, cur + 1)
  }

  /** Between calls the open segment is the one a worker looks up for the next transaction. */
  lemma OpenSegmentHoldsNextTx(bs: seq<ExecData>, cur: nat, n: nat, k: nat)
    requires Regular(bs) && Position(bs, cur, n) && Crossed(bs, cur, n) && n < Total(bs)
    requires k < |bs| && Start(bs, k) <= n < Start(bs, k + 1)
    ensures cur == k
  {
    SegmentUnique(bs, cur, k, n);
  }

  /** Everything executed so far ran in order under its own segment's environment. */
  ghost function LogAt(bs: seq<ExecData>, cur: nat, n: nat): seq<Event>
    requires Position(bs, cur, n)
  {
    FlatLength(bs, |bs|);
    if Regular(bs) then TraceUpTo(bs, cur) + PartialSegment(bs, cur, n - Start(bs, cur))
    else StuckLog(bs, Flat(bs), n)
  }

  /** Offsets plus the inner counters are the totals over all transactions so far. */
  ghost predicate Accounted(flat: seq<Tx>, n: nat, inner: Inner, gasOffset: nat, blobOffset: nat)
  {
    && n <= |flat|
    && gasOffset + inner.gasUsed == SumGas(flat[..n])
    && blobOffset + inner.blobGasUsed == SumBlobGas(flat[..n])
    && inner.receipts == ReceiptsUpTo(flat, n)
  }

  lemma CommitExtendsSegment(bs: seq<ExecData>, cur: nat, n: nat)
    requires cur < |bs| && Start(bs, cur) <= n < Start(bs, cur + 1) && n < |Flat(bs)|
    ensures n - Start(bs, cur) + 1 <= |bs[cur].txs|
    ensures var j := n - Start(bs, cur);
      PartialSegment(bs, cur, j) + [Event(Commit(Flat(bs)[n]), bs[cur].env, bs[cur].ctx, n + 1 + 2 * cur)] ==
      PartialSegment(bs, cur, j + 1)
  {
    hide FlatUpTo;
    FlatAt(bs, cur, n - Start(bs, cur));
  }

  lemma CommitExtendsStuck(bs: seq<ExecData>, n: nat)
    requires |bs| > 0 && n < |Flat(bs)|
    ensures StuckLog(bs, Flat(bs), n) + [Event(Commit(Flat(bs)[n]), bs[0].env, bs[0].ctx, n + 1)] ==
            StuckLog(bs, Flat(bs), n + 1)
  {
    hide FlatUpTo;
  }

  lemma CommitExtendsLog(bs: seq<ExecData>, cur: nat, n: nat)
    requires Position(bs, cur, n) && Crossed(bs, cur, n) && n < Total(bs)
    ensures n < |Flat(bs)| && Position(bs, cur, n + 1)
    ensures LogAt(bs, cur, n) + [Event(Commit(Flat(bs)[n]), bs[cur].env, bs[cur].ctx, n + 1 + 2 * cur)] ==
            LogAt(bs, cur, n + 1)
  {
    hide FlatUpTo, TraceUpTo, PartialSegment, StuckLog, Start;
    FlatLength(bs, |bs|);
    if Regular(bs) {
      assert cur + 1 == |bs| ==> Start(bs, cur + 1) == Total(bs);
      CommitExtendsSegment(bs, cur, n);
    } else {
      CommitExtendsStuck(bs, n);
    }
  }

  lemma BoundaryExtendsLog(bs: seq<ExecData>, cur: nat, n: nat)
    requires Regular(bs) && cur + 1 < |bs| && n == Start(bs, cur + 1) && Position(bs, cur, n)
    ensures Position(bs, cur + 1, n)
    ensures LogAt(bs, cur, n) + [Event(Post, bs[cur].env, bs[cur].ctx, n + 2 * cur + 1)]
              + [Event(Pre, bs[cur + 1].env, bs[cur + 1].ctx, n + 2 * cur + 2)] == LogAt(bs, cur + 1, n)
  {
    hide TraceUpTo, PartialSegment, FlatUpTo, StuckLog, Start;
    StartMonotone(bs, cur + 1, cur + 2);
    StartNext(bs, cur);
    SegmentCloses(bs, cur);
    SegmentCloses(bs, cur + 1);
  }

  lemma LastSegmentCompletesLog(bs: seq<ExecData>, cur: nat, n: nat, last: Event)
    requires Regular(bs) && Position(bs, cur, n) && Crossed(bs, cur, n) && n == Total(bs)
    requires last == Event(Post, bs[cur].env, bs[|bs| - 1].ctx, n + 2 * cur + 1)
    ensures cur == |bs| - 1 && LogAt(bs, cur, n) + [last] == CanonicalTrace(bs)
  {
    hide PartialSegment;
    if cur + 1 < |bs| { StartMonotone(bs, cur + 1, |bs|); }
    SegmentCloses(bs, cur);
  }

  lemma StuckLogAt(bs: seq<ExecData>, n: nat)
    requires !Regular(bs) && Position(bs, 0, n) && n <= |Flat(bs)|
    ensures LogAt(bs, 0, n) == StuckLog(bs, Flat(bs), n)
  {
    hide StuckLog, FlatUpTo;
  }

  lemma StuckLogIsShort(bs: seq<ExecData>, n: nat, last: Event)
    requires |bs| > 0 && !Regular(bs) && n == Total(bs) && n <= |Flat(bs)|
    ensures StuckLog(bs, Flat(bs), n) + [last] != CanonicalTrace(bs)
  {
    hide StuckLog, TraceUpTo, FlatUpTo;
    StuckLogLength(bs, Flat(bs), n);
    BalStrictlyIncreases(bs);
  }

  lemma FinishCompletesLog(bs: seq<ExecData>, cur: nat, n: nat, last: Event)
    requires Position(bs, cur, n) && Crossed(bs, cur, n) && n == Total(bs)
    requires Regular(bs) ==> last == Event(Post, bs[cur].env, bs[|bs| - 1].ctx, n + 2 * cur + 1)
    ensures Regular(bs) ==> cur == |bs| - 1
    ensures LogAt(bs, cur, n) + [last] == CanonicalTrace(bs) <==> Regular(bs)
  {
    hide TraceUpTo, PartialSegment, StuckLog, FlatUpTo, Start;
    if Regular(bs) {
      LastSegmentCompletesLog(bs, cur, n, last);
    } else {
      FlatLength(bs, |bs|);
      StuckLogIsShort(bs, n, last);
    }
  }

  lemma CommitKeepsAccounts(flat: seq<Tx>, n: nat, inner: Inner, gasOffset: nat, blobOffset: nat, committed: Inner)
    requires Accounted(flat, n, inner, gasOffset, blobOffset) && n < |flat|
    requires committed == inner.CommitTx(flat[n]).(receipts :=
      inner.receipts + [Receipt(flat[n].id, inner.gasUsed + flat[n].gasUsed + gasOffset)])
    ensures Accounted(flat, n + 1, committed, gasOffset, blobOffset)
  {
    assert flat[..n + 1][..n] == flat[..n];
  }

  // ---------------------------------------------------------------------------
  // The executor
  // ---------------------------------------------------------------------------

  class BbBlockExecutor {
    ghost const bs: seq<ExecData>
    ghost const known: set<Known>
    ghost const start: Ring
    const segments: seq<Segment>
    const toSeed: seq<Known>
    const rule: RequestRule
    var inner: Inner
    var nextSegment: nat
    var txCounter: nat
    var accumulatedRequests: seq<nat>
    var gasUsedOffset: nat
    var blobGasUsedOffset: nat
    var initialized: bool
    // The database behind the EVM: its BAL index, its block hashes and everything executed against it.
    var balIndex: nat
    var ring: Ring
    var rings: seq<Ring>
    var log: seq<Event>

    constructor (ghost bs: seq<ExecData>, segments: seq<Segment>, toSeed: seq<Known>, ring: Ring, rule: RequestRule)
      requires |bs| > 0 && IsPlan(segments, bs)
      ensures this.bs == bs && this.rule == rule && this.segments == segments
      ensures known == (set x | x in toSeed) && start == ring
      ensures Fresh()
    {
      this.bs := bs;
      this.segments := segments;
      this.toSeed := toSeed;
      this.ring := ring;
      known := set x | x in toSeed;
      start := ring;
      rings := [];
      this.rule := rule;
      inner := Inner(segments[0].env, segments[0].ctx, 0, 0, []);
      nextSegment := 1;
      txCounter := 0;
      accumulatedRequests := [];
      gasUsedOffset := 0;
      blobGasUsedOffset := 0;
      initialized := false;
      balIndex := 0;
      log := [];
    }

    /** Nothing has happened yet. */
    ghost predicate Fresh() reads this
    {
      && |bs| > 0 && IsPlan(segments, bs)
      && known == (set x | x in toSeed) && ring == start && rings == []
      && !initialized && balIndex == 0 && log == []
      && nextSegment == 1 && txCounter == 0 && accumulatedRequests == []
      && gasUsedOffset == 0 && blobGasUsedOffset == 0
      && inner.gasUsed == 0 && inner.blobGasUsed == 0 && inner.receipts == []
    }

    /** Every segment opened so far found the known hashes of its window. */
    ghost predicate HashesSeeded() reads this
    {
      && known == (set x | x in toSeed) && |rings| == nextSegment && nextSegment > 0
      && rings[nextSegment - 1] == ring
      && AllSeeded(start, rings, known, bs)
    }

    ghost predicate Valid() reads this
    {
      && initialized && IsPlan(segments, bs) && HashesSeeded()
      && 1 <= nextSegment && Position(bs, nextSegment - 1, txCounter)
      && inner.env == bs[nextSegment - 1].env && inner.ctx == bs[nextSegment - 1].ctx
      && log == LogAt(bs, nextSegment - 1, txCounter)
      && accumulatedRequests == (if Regular(bs) then RequestsUpTo(bs, rule, nextSegment - 1) else [])
      && Accounted(Flat(bs), txCounter, inner, gasUsedOffset, blobGasUsedOffset)
    }

    /** `n` transactions committed, no boundary pending, BAL index `ahead` of the last event. */
    ghost predicate Ready(n: nat, ahead: nat) reads this
    {
      && Valid() && Crossed(bs, nextSegment - 1, txCounter)
      && txCounter == n && balIndex == n + 2 * (nextSegment - 1) + ahead
    }

    method BumpBalIndex(ghost n: nat)
      requires Ready(n, 0)
      modifies this`balIndex
      ensures Ready(n, 1)
    {
      balIndex := balIndex + 1;
    }

    /**
      First-use setup.  Index 0 selects segment 0 for good; a raw worker index `i + 1` selects the
      segment holding transaction `i` and is renumbered, and is selected afresh on every call.
     */
    method Initialize()
      requires |bs| > 0 && IsPlan(segments, bs)
      modifies this`inner, this`balIndex, this`initialized, this`ring
      ensures if old(initialized) then ring == old(ring)
              else Seeded(old(ring), ring, (set x | x in toSeed), NumberOf(inner.env))
      ensures inner == old(inner).(env := inner.env, ctx := inner.ctx)
      ensures old(initialized) ==> inner == old(inner) && balIndex == old(balIndex) && initialized
      ensures !old(initialized) && old(balIndex) == 0 ==>
        initialized && balIndex == 0 && inner.env == bs[0].env && inner.ctx == bs[0].ctx
      ensures !old(initialized) && 0 < old(balIndex) <= Total(bs) ==>
        !initialized && balIndex < |CanonicalTrace(bs)| && old(balIndex) <= |Flat(bs)| &&
        CanonicalTrace(bs)[balIndex] ==
          Event(Commit(Flat(bs)[old(balIndex) - 1]), inner.env, inner.ctx, balIndex)
    {
      if initialized { return; }
      var k := 0;
      if balIndex > 0 {
        k := SegmentIndexForTx(segments, bs, balIndex - 1);
        if balIndex <= Total(bs) { TxPosition(bs, k, balIndex - 1); }
        balIndex := balIndex + 2 * k;
      } else {
        initialized := true;
      }
      inner := inner.(env := segments[k].env, ctx := segments[k].ctx);
      ring := Reseed(ring, toSeed, NumberOf(inner.env));
    }

    method ApplyPreExecutionChanges()
      requires Fresh()
      modifies this`inner, this`balIndex, this`initialized, this`log, this`ring, this`rings
      ensures Ready(0, 0)
    {
      hide Seeded;
      Initialize();
      OneMoreSeeded(start, [], ring, known, bs);
      rings := rings + [ring];
      log := log + [Event(Pre, inner.env, inner.ctx, balIndex)];
      StartMonotone(bs, 0, 1);
      assert Flat(bs)[..0] == [];
    }

    /** Writes the known hashes of the window of segment `k`, which is about to open. */
    method SeedSegment(ghost k: nat)
      requires 0 < k == |rings| < |bs| && rings[k - 1] == ring && inner.env == bs[k].env
      requires known == (set x | x in toSeed) && AllSeeded(start, rings, known, bs)
      modifies this`ring, this`rings
      ensures rings == old(rings) + [ring] && AllSeeded(start, rings, known, bs)
    {
      hide AllSeeded, Seeded;
      ring := Reseed(ring, toSeed, NumberOf(inner.env));
      OneMoreSeeded(start, rings, ring, known, bs);
      rings := rings + [ring];
    }

    /** Finishes the current segment and opens the next one. */
    method ApplySegmentBoundary()
      requires Valid() && Regular(bs) && balIndex == txCounter + 2 * (nextSegment - 1)
      requires nextSegment < |bs| && txCounter == Start(bs, nextSegment)
      modifies this
      ensures Valid() && balIndex == txCounter + 2 * (nextSegment - 1)
      ensures nextSegment == old(nextSegment) + 1 && txCounter == old(txCounter)
    {
      hide Start, FlatUpTo, LogAt, ReceiptsUpTo, RequestsUpTo, SumGas, SumBlobGas, AllSeeded, Seeded;
      var k := nextSegment;
      BoundaryExtendsLog(bs, k - 1, txCounter);
      SegmentAddsRequests(bs, rule, k - 1, txCounter, inner.receipts);
      nextSegment := nextSegment + 1;
      inner := inner.(ctx := segments[k - 1].ctx);
      balIndex := balIndex + 1;
      log := log + [Event(Post, inner.env, inner.ctx, balIndex)];
      var requests := rule(inner.env, inner.ctx, inner.receipts);
      balIndex := balIndex + 1;
      gasUsedOffset := gasUsedOffset + inner.gasUsed;
      blobGasUsedOffset := blobGasUsedOffset + inner.blobGasUsed;
      accumulatedRequests := accumulatedRequests + requests;
      inner := Inner(segments[k].env, segments[k].ctx, 0, 0, inner.receipts);
      SeedSegment(k);
      log := log + [Event(Pre, inner.env, inner.ctx, balIndex)];
    }

    method CommitInCurrentSegment(tx: Tx)
      requires Ready(txCounter, 1)
      requires txCounter < |Flat(bs)| && tx == Flat(bs)[txCounter]
      modifies this`inner, this`log, this`txCounter
      ensures Valid() && balIndex == txCounter + 2 * (nextSegment - 1)
      ensures txCounter == old(txCounter) + 1
    {
      hide Start, FlatUpTo, LogAt, ReceiptsUpTo, RequestsUpTo, SumGas, SumBlobGas;
      FlatLength(bs, |bs|);
      ghost var before := inner;
      CommitExtendsLog(bs, nextSegment - 1, txCounter);
      log := log + [Event(Commit(tx), inner.env, inner.ctx, balIndex)];
      inner := inner.CommitTx(tx);
      // Make the gas on the receipt just appended global to the big block.
      if gasUsedOffset > 0 && |inner.receipts| > 0 {
        var last := |inner.receipts| - 1;
        var receipt := inner.receipts[last];
        inner := inner.(receipts := inner.receipts[last :=
          receipt.(cumulativeGasUsed := receipt.cumulativeGasUsed + gasUsedOffset)]);
      }
      CommitKeepsAccounts(Flat(bs), txCounter, before, gasUsedOffset, blobGasUsedOffset, inner);
      txCounter := txCounter + 1;
    }

    /** Commits the next transaction, then crosses every segment boundary that starts after it. */
    method CommitTransaction(tx: Tx)
      requires Ready(txCounter, 1)
      requires txCounter < |Flat(bs)| && tx == Flat(bs)[txCounter]
      modifies this
      ensures txCounter == old(txCounter) + 1 && Ready(txCounter, 0)
    {
      hide FlatUpTo, LogAt, ReceiptsUpTo, RequestsUpTo, SumGas, SumBlobGas, Accounted;
      CommitInCurrentSegment(tx);
      while nextSegment < |segments| && txCounter == segments[nextSegment].startTx
        invariant Valid() && balIndex == txCounter + 2 * (nextSegment - 1)
        invariant txCounter == old(txCounter) + 1
        decreases |segments| - nextSegment
      {
        ApplySegmentBoundary();
      }
    }

    /** Ends the last segment and adds the offsets of the earlier ones. */
    method Finish() returns (r: BbResult)
      requires Ready(|Flat(bs)|, 1)
      modifies this`inner, this`log
      ensures r.gasUsed == SumGas(Flat(bs)) && r.blobGasUsed == SumBlobGas(Flat(bs))
      ensures r.receipts == ReceiptsUpTo(Flat(bs), |Flat(bs)|)
      ensures r.log == CanonicalTrace(bs) <==> Regular(bs)
      ensures !Regular(bs) ==>
        (r.log == StuckLog(bs, Flat(bs), |Flat(bs)|) + [Event(Post, bs[0].env, bs[|bs| - 1].ctx, |Flat(bs)| + 1)])
      ensures |r.rings| == (if Regular(bs) then |bs| else 1) && AllSeeded(start, r.rings, known, bs)
      ensures r.requests == if Regular(bs) then RequestsUpTo(bs, rule, |bs|)
                            else rule(bs[0].env, bs[|bs| - 1].ctx, ReceiptsUpTo(Flat(bs), |Flat(bs)|))
    {
      hide FlatUpTo, TraceUpTo, LogAt, ReceiptsUpTo, RequestsUpTo, SumGas, SumBlobGas, StuckLog, AllSeeded;
      FlatLength(bs, |bs|);
      if !Regular(bs) { StuckLogAt(bs, txCounter); }
      assert Flat(bs)[..|Flat(bs)|] == Flat(bs);
      var last := segments[|segments| - 1];
      FinishCompletesLog(bs, nextSegment - 1, txCounter, Event(Post, inner.env, last.ctx, balIndex));
      if Regular(bs) { SegmentAddsRequests(bs, rule, |bs| - 1, txCounter, inner.receipts); }
      inner := inner.(ctx := last.ctx);
      log := log + [Event(Post, inner.env, inner.ctx, balIndex)];
      var requests := rule(inner.env, inner.ctx, inner.receipts);
      if accumulatedRequests != [] { requests := accumulatedRequests + requests; }
      r := BbResult(log, inner.receipts, inner.gasUsed + gasUsedOffset,
                    inner.blobGasUsed + blobGasUsedOffset, requests, rings);
    }
  }

  /** The plan of a payload whose entries are all understood. */
  method PlanOf(bs: seq<ExecData>) returns (segments: seq<Segment>)
    ensures IsPlan(segments, bs)
  {
    var entries := seq(|bs|, k requires 0 <= k < |bs| => Entry(Ok(bs[k].env), Ok(bs[k].ctx), bs[k].txs));
    var r := ContextForPayload(entries);
    assert Understood(entries, bs);
    segments := r.value;
  }

  /**
    The BAL driver: pre-execution, then one index bump before each commit, and one before finishing.
    What is executed is the same as running each block on its own exactly when the payload is
    `Regular`; the gas totals and receipts are right in any case.  The requests are those of the blocks
    on their own for rules that do not read receipts; `CollectedOnceExactly` has the others.
   */
  method ExecuteBigBlock(bs: seq<ExecData>, prior: seq<Known>, ring: Ring, rule: RequestRule)
    returns (r: BbResult)
    requires |bs| > 0
    ensures r.log == CanonicalTrace(bs) <==> Regular(bs)
    ensures !Regular(bs) ==>
      (r.log == StuckLog(bs, Flat(bs), |Flat(bs)|) + [Event(Post, bs[0].env, bs[|bs| - 1].ctx, |Flat(bs)| + 1)])
    ensures |r.rings| == (if Regular(bs) then |bs| else 1) && AllSeeded(ring, r.rings, KnownHashes(bs, prior), bs)
    ensures r.receipts == ReceiptsUpTo(Flat(bs), |Flat(bs)|)
    ensures r.gasUsed == SumGas(Flat(bs)) && r.blobGasUsed == SumBlobGas(Flat(bs))
    ensures Regular(bs) ==> r.requests == RequestsUpTo(bs, rule, |bs|)
    ensures Regular(bs) && ReadsNoReceipts(rule) ==> r.requests == AloneUpTo(bs, rule, |bs|)
    ensures !Regular(bs) ==> r.requests == rule(bs[0].env, bs[|bs| - 1].ctx, r.receipts)
  {
    hide BbBlockExecutor.Valid, FlatUpTo, RequestsUpTo, AloneUpTo, ReadsNoReceipts, TraceUpTo, ReceiptsUpTo, Start;
    hide SumGas, SumBlobGas, Regular, Position, Crossed, IsPlan, StuckLog, KnownHashes, AllSeeded, ByNumber;
    if ReadsNoReceipts(rule) { UnreadReceiptsDoNotMatter(bs, rule, |bs|); }
    var segments := PlanOf(bs);
    var txs := TxIteratorForPayload(bs);
    var toSeed := HashesToSeed(segments, bs, prior);
    var executor := new BbBlockExecutor(bs, segments, toSeed, ring, rule);
    assert executor.known == KnownHashes(bs, prior);
    executor.ApplyPreExecutionChanges();
    for i := 0 to |txs|
      invariant executor.bs == bs && executor.rule == rule && executor.start == ring && executor.Ready(i, 0)
    {
      executor.BumpBalIndex(i);
      executor.CommitTransaction(txs[i]);
    }
    executor.BumpBalIndex(|txs|);
    r := executor.Finish();
  }

  /** The sequential driver bumps after pre-execution and after each transaction instead. */
  method ExecuteSequentially(bs: seq<ExecData>, prior: seq<Known>, ring: Ring, rule: RequestRule)
    returns (r: BbResult)
    requires |bs| > 0
    ensures r.log == CanonicalTrace(bs) <==> Regular(bs)
    ensures !Regular(bs) ==>
      (r.log == StuckLog(bs, Flat(bs), |Flat(bs)|) + [Event(Post, bs[0].env, bs[|bs| - 1].ctx, |Flat(bs)| + 1)])
    ensures |r.rings| == (if Regular(bs) then |bs| else 1) && AllSeeded(ring, r.rings, KnownHashes(bs, prior), bs)
    ensures r.receipts == ReceiptsUpTo(Flat(bs), |Flat(bs)|)
    ensures r.gasUsed == SumGas(Flat(bs)) && r.blobGasUsed == SumBlobGas(Flat(bs))
    ensures Regular(bs) ==> r.requests == RequestsUpTo(bs, rule, |bs|)
    ensures Regular(bs) && ReadsNoReceipts(rule) ==> r.requests == AloneUpTo(bs, rule, |bs|)
    ensures !Regular(bs) ==> r.requests == rule(bs[0].env, bs[|bs| - 1].ctx, r.receipts)
  {
    hide BbBlockExecutor.Valid, FlatUpTo, RequestsUpTo, AloneUpTo, ReadsNoReceipts, TraceUpTo, ReceiptsUpTo, Start;
    hide SumGas, SumBlobGas, Regular, Position, Crossed, IsPlan, StuckLog, KnownHashes, AllSeeded, ByNumber;
    if ReadsNoReceipts(rule) { UnreadReceiptsDoNotMatter(bs, rule, |bs|); }
    var segments := PlanOf(bs);
    var txs := TxIteratorForPayload(bs);
    var toSeed := HashesToSeed(segments, bs, prior);
    var executor := new BbBlockExecutor(bs, segments, toSeed, ring, rule);
    assert executor.known == KnownHashes(bs, prior);
    executor.ApplyPreExecutionChanges();
    executor.BumpBalIndex(0);
    for i := 0 to |txs|
      invariant executor.bs == bs && executor.rule == rule && executor.start == ring && executor.Ready(i, 1)
    {
      executor.CommitTransaction(txs[i]);
      executor.BumpBalIndex(i + 1);
    }
    r := executor.Finish();
  }

  /** A payload the executor gets wrong: an empty first segment hides the second one. */
  lemma EmptyFirstSegmentIsNotRegular(env: BlockEnv, ctx: BlockCtx, tx: Tx)
    ensures var bs := [ExecData(env, ctx, []), ExecData(env, ctx, [tx])];
      !Regular(bs) && |StuckLog(bs, Flat(bs), |Flat(bs)|)| + 1 < |CanonicalTrace(bs)|
  {
    var bs := [ExecData(env, ctx, []), ExecData(env, ctx, [tx])];
    BalStrictlyIncreases(bs);
    FlatLength(bs, |bs|);
    StuckLogLength(bs, Flat(bs), |Flat(bs)|);
    assert Start(bs, 1) == 0 && Start(bs, 2) == 1;
  }
}
