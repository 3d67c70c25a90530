/**
  Whole runs of the in-memory state beside the canonical chain and the chain on disk.  Writers are
  atomic steps; persistence works on its own and only its completed tasks are reported.
 */
module ChainRun {
  import opened Outcomes
  import opened ChainState
  import opened InMemoryState

  datatype Step =
    | Extend(added: seq<Block>)
    | Switch(fork: nat, added: seq<Block>)
    | Unwind(length: nat)
    | EnsureHead
    | SetPending(block: Block)
    | Save(saved: seq<Block>)
    | StartRemoval(keep: nat)
    | FinishRemoval
    | Report(height: nat, until: int)
    | Backfill(synced: seq<Block>)

  /** The canonical chain, the chain on disk, and a removal of disk blocks under way. */
  datatype Node = Node(canon: seq<Block>, disk: seq<Block>, removing: Option<nat>)

  /** A chain that starts at genesis. */
  ghost predicate FromGenesis(c: seq<Block>)
  {
    Linked(c) && (c != [] ==> c[0].parent == Root)
  }

  /** `keep` blocks are common to both chains and no more. */
  predicate IsCommonPrefix(a: seq<Block>, b: seq<Block>, keep: nat)
  {
    && keep <= |a| && keep <= |b| && a[..keep] == b[..keep]
    && (keep < |a| && keep < |b| ==> a[keep] != b[keep])
  }

  ghost predicate Enabled(node: Node, step: Step)
  {
    match step
    case Extend(added) => added != [] && FromGenesis(node.canon + added)
    case Switch(fork, added) => fork <= |node.canon| && added != [] && FromGenesis(node.canon[..fork] + added)
    case Unwind(length) => 0 < length < |node.canon|
    case EnsureHead => node.canon != []
    case SetPending(_) => true
    case Save(saved) => node.removing.None? && FromGenesis(node.disk + saved)
    case StartRemoval(keep) => node.removing.None? && IsCommonPrefix(node.disk, node.canon, keep)
    case FinishRemoval => node.removing.Some? && node.removing.value <= |node.disk|
    case Report(height, _) => node.removing.None? && height < |node.disk|
    case Backfill(synced) => node.removing.None? && FromGenesis(synced)
  }

  /** The step's effect on the chains; `Perform` has the effect on the memory. */
  function Next(node: Node, step: Step): Node
    requires step.Switch? ==> step.fork <= |node.canon|
    requires step.Unwind? ==> step.length <= |node.canon|
    requires step.FinishRemoval? ==> node.removing.Some? && node.removing.value <= |node.disk|
  {
    match step
    case Extend(added) => node.(canon := node.canon + added)
    case Switch(fork, added) => node.(canon := node.canon[..fork] + added)
    case Unwind(length) => node.(canon := node.canon[..length])
    case EnsureHead => node
    case SetPending(_) => node
    case Save(saved) => node.(disk := node.disk + saved)
    case StartRemoval(keep) => node.(removing := Some(keep))
    case FinishRemoval => node.(disk := node.disk[..node.removing.value], removing := None)
    case Report(_, _) => node
    case Backfill(synced) => Node(synced, synced, None)
  }

  /** The memory holds the canonical chain from height `below` on, the disk everything under it. */
  ghost predicate Split(canon: seq<Block>, disk: seq<Block>, memory: seq<Block>, below: nat)
  {
    && FromGenesis(canon) && FromGenesis(disk)
    && below <= |canon| && memory == canon[below..]
    && canon[..below] <= disk
  }

  /** What holds between steps, also once a removal under way is done. */
  ghost predicate Safe(node: Node, memory: seq<Block>)
  {
    && |memory| <= |node.canon|
    && var below := |node.canon| - |memory|;
       && Split(node.canon, node.disk, memory, below)
       && (node.removing.Some? ==> below <= node.removing.value <= |node.disk|)
  }

  // ---------------------------------------------------------------------------
  // Each step keeps every canonical block somewhere
  // ---------------------------------------------------------------------------

  lemma HeightIsNumber(c: seq<Block>, i: nat)
    requires FromGenesis(c) && i < |c|
    ensures Number(c[i]) == i
  {
    NumbersRise(c, i);
  }

  /** Chains with the same block at some height agree up to there. */
  lemma {:induction false} SameBlockSamePast(a: seq<Block>, b: seq<Block>, i: nat)
    requires Linked(a) && Linked(b) && i < |a| && i < |b| && a[i] == b[i]
    ensures a[..i + 1] == b[..i + 1]
  {
    if i > 0 {
      SameBlockSamePast(a, b, i - 1);
      assert a[..i + 1] == a[..i] + [a[i]] && b[..i + 1] == b[..i] + [b[i]];
    }
  }

  /** Another chain with the same first `base` blocks, all of it in memory from there on. */
  lemma Rebased(canon: seq<Block>, disk: seq<Block>, memory: seq<Block>, below: nat, all: seq<Block>, base: nat)
    requires Split(canon, disk, memory, below) && FromGenesis(all)
    requires base <= below && base <= |all| && all[..base] == canon[..base]
    ensures Split(all, disk, all[base..], base)
  {
    hide Linked;
    assert canon[..base] <= canon[..below];
  }

  lemma Shorter(canon: seq<Block>, length: nat)
    requires FromGenesis(canon) && length <= |canon|
    ensures FromGenesis(canon[..length])
  {
  }

  lemma ExtendFits(canon: seq<Block>, disk: seq<Block>, memory: seq<Block>, below: nat, added: seq<Block>)
    requires Split(canon, disk, memory, below) && added != [] && FromGenesis(canon + added)
    ensures Covers(memory, [], |memory|) && Attaches(memory[..|memory|], added, |memory|)
    ensures Split(canon + added, disk, memory + added, below)
  {
    assert canon[..|canon|] == canon;
    SwitchAbove(canon, disk, memory, below, |canon|, added);
    assert memory[..|memory|] == memory && canon[|canon|..] == [];
  }

  /** A switch whose fork point is in memory, or right below it. */
  lemma SwitchAbove(canon: seq<Block>, disk: seq<Block>, memory: seq<Block>, below: nat, fork: nat, added: seq<Block>)
    requires Split(canon, disk, memory, below) && below <= fork <= |canon|
    requires added != [] && FromGenesis(canon[..fork] + added)
    ensures Covers(memory, canon[fork..], fork - below) && Attaches(memory[..fork - below], added, fork - below)
    ensures Split(canon[..fork] + added, disk, memory[..fork - below] + added, below)
  {
    var all, k := canon[..fork] + added, fork - below;
    assert canon[fork..] == memory[k..] && added == all[fork..];
    if k > 0 {
      assert all[fork].parent == all[fork - 1] == memory[k - 1];
    }
    Rebased(canon, disk, memory, below, all, below);
    assert all[below..] == memory[..k] + added;
  }

  /** A switch that also gives up blocks only the disk holds. */
  lemma SwitchBelow(canon: seq<Block>, disk: seq<Block>, memory: seq<Block>, below: nat, fork: nat, added: seq<Block>)
    requires Split(canon, disk, memory, below) && fork < below
    requires added != [] && FromGenesis(canon[..fork] + added)
    ensures Covers(memory, canon[fork..], 0) && Attaches(memory[..0], added, 0)
    ensures Split(canon[..fork] + added, disk, memory[..0] + added, fork)
  {
    var all := canon[..fork] + added;
    OnlyOlderBesides(canon, memory, below, fork);
    Rebased(canon, disk, memory, below, all, fork);
    assert added == all[fork..];
    assert memory[..0] + added == added;
  }

  lemma OnlyOlderBesides(canon: seq<Block>, memory: seq<Block>, below: nat, fork: nat)
    requires FromGenesis(canon) && fork < below <= |canon| && memory == canon[below..]
    ensures Covers(memory, canon[fork..], 0)
  {
    var removed := canon[fork..];
    assert removed == canon[fork..below] + memory;
    assert memory[0..] == memory;
    forall b | b in removed
      ensures b in memory || (memory != [] ==> Number(b) < Number(memory[0]))
    {
      if b in canon[fork..below] && memory != [] {
        var j :| fork <= j < below && canon[j] == b;
        HeightIsNumber(canon, j);
        HeightIsNumber(canon, below);
      }
    }
  }

  /** An unwind to a head in memory puts that head back where it is. */
  lemma UnwindAbove(canon: seq<Block>, disk: seq<Block>, memory: seq<Block>, below: nat, length: nat)
    requires Split(canon, disk, memory, below) && below < length < |canon|
    ensures var m := length - below;
      && Above(memory, length - 1) == memory[m..]
      && Covers(memory, memory[m..], m) && Attaches(memory[..m], [canon[length - 1]], m - 1)
      && Split(canon[..length], disk, memory[..m - 1] + [canon[length - 1]], below)
  {
    var m := length - below;
    HeightIsNumber(canon, below);
    PutBack(memory, m);
    var all := canon[..length];
    Shorter(canon, length);
    Rebased(canon, disk, memory, below, all, below);
    assert all[below..] == memory[..m - 1] + [canon[length - 1]];
  }

  lemma PutBack(memory: seq<Block>, m: nat)
    requires Linked(memory) && 0 < m <= |memory|
    ensures Covers(memory, memory[m..], m) && Attaches(memory[..m], [memory[m - 1]], m - 1)
  {
    assert memory[..m][m - 1..] == [memory[m - 1]];
  }

  /** An unwind to a head on disk loads it and drops the rest. */
  lemma UnwindBelow(canon: seq<Block>, disk: seq<Block>, memory: seq<Block>, below: nat, length: nat)
    requires Split(canon, disk, memory, below) && 0 < length <= below && length < |canon|
    ensures Above(memory, length - 1) == memory
    ensures Covers(memory, memory, 0) && Attaches(memory[..0], [canon[length - 1]], 0)
    ensures Split(canon[..length], disk, memory[..0] + [canon[length - 1]], length - 1)
  {
    if memory != [] { HeightIsNumber(canon, below); }
    var all := canon[..length];
    assert memory[0..] == memory;
    Shorter(canon, length);
    Rebased(canon, disk, memory, below, all, length - 1);
    assert all[length - 1..] == memory[..0] + [canon[length - 1]];
  }

  /** A truthful report never lets go of a canonical block that is not on disk. */
  lemma ReportFits(canon: seq<Block>, disk: seq<Block>, memory: seq<Block>, below: nat, height: nat, limit: int)
    requires Split(canon, disk, memory, below) && height < |disk| && disk[height] in memory && limit <= height
    ensures Split(canon, disk, Above(memory, limit), below + Cut(memory, limit))
  {
    hide FromGenesis, Linked;
    var cut := Cut(memory, limit);
    SharedUpTo(canon, disk, memory, below, height);
    CutBelow(canon, memory, below, limit);
    assert canon[..below + cut] == disk[..height + 1][..below + cut] == disk[..below + cut];
    assert canon[below + cut..] == memory[cut..];
  }

  /** A block of the disk that is in memory shows the two chains agree up to it. */
  lemma SharedUpTo(canon: seq<Block>, disk: seq<Block>, memory: seq<Block>, below: nat, height: nat)
    requires Split(canon, disk, memory, below) && height < |disk| && disk[height] in memory
    ensures below <= height < |canon| && canon[..height + 1] == disk[..height + 1]
  {
    hide Linked;
    var j :| 0 <= j < |memory| && memory[j] == disk[height];
    HeightIsNumber(canon, below + j);
    HeightIsNumber(disk, height);
    SameBlockSamePast(canon, disk, height);
  }

  lemma CutBelow(canon: seq<Block>, memory: seq<Block>, below: nat, limit: int)
    requires FromGenesis(canon) && below <= |canon| && memory == canon[below..] && memory != []
    ensures below + Cut(memory, limit) <= if limit < below then below else limit + 1
  {
    HeightIsNumber(canon, below);
  }

  lemma CommonAtLeast(a: seq<Block>, b: seq<Block>, keep: nat, below: nat)
    requires IsCommonPrefix(a, b, keep) && below <= |b| && b[..below] <= a
    ensures below <= keep
  {
    forall i | 0 <= i < below
      ensures a[i] == b[i]
    {
      assert b[..below][i] == b[i];
    }
  }

  lemma SaveFits(canon: seq<Block>, disk: seq<Block>, memory: seq<Block>, below: nat, saved: seq<Block>)
    requires Split(canon, disk, memory, below) && FromGenesis(disk + saved)
    ensures Split(canon, disk + saved, memory, below)
  {
    hide FromGenesis;
    assert disk <= disk + saved;
  }

  lemma RemovalFits(canon: seq<Block>, disk: seq<Block>, memory: seq<Block>, below: nat, keep: nat)
    requires Split(canon, disk, memory, below) && below <= keep <= |disk|
    ensures Split(canon, disk[..keep], memory, below)
  {
    Shorter(disk, keep);
    assert disk[..keep][..below] == disk[..below];
  }

  /** The disk's own steps, seen from the memory that stays as it is. */
  lemma DiskStepSafe(node: Node, memory: seq<Block>, step: Step)
    requires Safe(node, memory) && Enabled(node, step)
    requires step.Save? || step.StartRemoval? || step.FinishRemoval?
    ensures Safe(Next(node, step), memory)
  {
    hide Split, FromGenesis, IsCommonPrefix;
    var below := |node.canon| - |memory|;
    match step
    case Save(saved) => SaveFits(node.canon, node.disk, memory, below, saved);
    case StartRemoval(keep) => RemovalStarts(node.canon, node.disk, memory, below, keep);
    case FinishRemoval => RemovalFits(node.canon, node.disk, memory, below, node.removing.value);
  }

  lemma RemovalStarts(canon: seq<Block>, disk: seq<Block>, memory: seq<Block>, below: nat, keep: nat)
    requires Split(canon, disk, memory, below) && IsCommonPrefix(disk, canon, keep)
    ensures below <= keep <= |disk|
  {
    CommonAtLeast(disk, canon, keep, below);
  }

  // ---------------------------------------------------------------------------
  // Running the steps
  // ---------------------------------------------------------------------------

  /** `collect_blocks_for_canonical_unwind`: the blocks in memory above the new head. */
  method CollectAbove(mem: CanonicalInMemoryState, length: nat, tip: nat) returns (above: seq<Block>)
    requires mem.Valid() && length <= tip
    requires mem.chain != [] ==> Number(mem.chain[0]) + |mem.chain| == tip
    ensures above == Above(mem.chain, length - 1)
  {
    hide StateOf, BlocksOf, NumbersOf;
    ghost var c := mem.chain;
    above := [];
    for n := length to tip
      invariant above == (if c == [] then [] else c[Cut(c, length - 1)..Cut(c, n - 1)])
    {
      var s := mem.StateByNumber(n);
      if s.Some? {
        LastOfState(c, n - Number(c[0]));
        above := above + [s.value.block];
      }
    }
  }

  lemma LastOfState(c: seq<Block>, i: nat)
    requires i < |c|
    ensures StateOf(c[..i + 1]).block == c[i]
  {
  }

  method PerformSwitch(mem: CanonicalInMemoryState, node: Node, fork: nat, added: seq<Block>)
    requires mem.Valid() && Safe(node, mem.chain) && Enabled(node, Switch(fork, added))
    modifies mem
    ensures mem.Valid() && Safe(Next(node, Switch(fork, added)), mem.chain)
  {
    hide StateOf, BlocksOf, NumbersOf, Covers, Attaches, Linked, Above;
    ghost var memory := mem.chain;
    ghost var below := |node.canon| - |memory|;
    ghost var k := if fork >= below then fork - below else 0;
    if fork >= below {
      SwitchAbove(node.canon, node.disk, memory, below, fork, added);
    } else {
      SwitchBelow(node.canon, node.disk, memory, below, fork, added);
    }
    mem.UpdateChain(Reorg(added, node.canon[fork..]), k, k);
  }

  /** `handle_canonical_chain_unwind`: drops what is above the new head and puts the head in. */
  method PerformUnwind(mem: CanonicalInMemoryState, node: Node, length: nat)
    requires mem.Valid() && Safe(node, mem.chain) && Enabled(node, Unwind(length))
    modifies mem
    ensures mem.Valid() && Safe(Next(node, Unwind(length)), mem.chain)
  {
    hide StateOf, BlocksOf, NumbersOf, Covers, Attaches, Linked, Above, FromGenesis, CanonicalInMemoryState.Valid;
    ghost var memory := mem.chain;
    ghost var below := |node.canon| - |memory|;
    MemoryEndsAtHead(node, memory);
    var removed := CollectAbove(mem, length, |node.canon|);
    var head := node.canon[length - 1];
    ghost var m, k := 0, 0;
    if length > below {
      UnwindAbove(node.canon, node.disk, memory, below, length);
      m, k := length - below, length - below - 1;
    } else {
      UnwindBelow(node.canon, node.disk, memory, below, length);
    }
    mem.UpdateChain(Reorg([head], removed), m, k);
  }

  method PerformReport(mem: CanonicalInMemoryState, node: Node, height: nat, until: int)
    requires mem.Valid() && Safe(node, mem.chain) && Enabled(node, Report(height, until))
    modifies mem
    ensures mem.Valid() && Safe(node, mem.chain)
  {
    hide StateOf, BlocksOf, NumbersOf, Linked;
    ghost var memory := mem.chain;
    ghost var below := |node.canon| - |memory|;
    if node.disk[height] in memory {
      ReportFits(node.canon, node.disk, memory, below, height, if until < height then until else height);
    }
    mem.RemovePersistedBlocksUntil(height, node.disk[height], until);
  }

  method PerformExtend(mem: CanonicalInMemoryState, node: Node, added: seq<Block>)
    requires mem.Valid() && Safe(node, mem.chain) && Enabled(node, Extend(added))
    modifies mem
    ensures mem.Valid() && Safe(Next(node, Extend(added)), mem.chain)
  {
    hide StateOf, BlocksOf, NumbersOf, Covers, Attaches, Linked;
    ghost var memory := mem.chain;
    ExtendFits(node.canon, node.disk, memory, |node.canon| - |memory|, added);
    mem.UpdateChain(Commit(added), |memory|, |memory|);
    assert memory[..|memory|] == memory;
  }

  /** `ensure_block_in_memory` for the current head: loads it when nothing is in memory. */
  method PerformEnsureHead(mem: CanonicalInMemoryState, node: Node)
    requires mem.Valid() && Safe(node, mem.chain) && Enabled(node, EnsureHead)
    modifies mem
    ensures mem.Valid() && Safe(node, mem.chain)
  {
    hide StateOf, BlocksOf, NumbersOf, Covers, Attaches, Linked;
    ghost var memory := mem.chain;
    MemoryEndsAtHead(node, memory);
    var found := mem.StateByNumber(|node.canon| - 1);
    if found.None? {
      EnsureFits(node, memory);
      mem.UpdateChain(Commit([node.canon[|node.canon| - 1]]), 0, 0);
      assert memory[..0] + [node.canon[|node.canon| - 1]] == [node.canon[|node.canon| - 1]];
    }
  }

  /** One step on the real state. */
  method Perform(mem: CanonicalInMemoryState, node: Node, step: Step) returns (next: Node)
    requires mem.Valid() && Safe(node, mem.chain) && Enabled(node, step)
    modifies mem
    ensures mem.Valid() && Safe(next, mem.chain)
    ensures next == Next(node, step)
  {
    hide Split, CanonicalInMemoryState.Valid;
    next := Next(node, step);
    match step {
      case Extend(added) => PerformExtend(mem, node, added);
      case Switch(fork, added) => PerformSwitch(mem, node, fork, added);
      case Unwind(length) => PerformUnwind(mem, node, length);
      case EnsureHead => PerformEnsureHead(mem, node);
      case SetPending(block) => mem.SetPendingBlock(block);
      case Report(height, until) => PerformReport(mem, node, height, until);
      case Backfill(synced) =>
        mem.Clear();
        AllOnDisk(synced);
      case _ =>
        DiskStepSafe(node, mem.chain, step);
    }
  }

  lemma AllOnDisk(chain: seq<Block>)
    requires FromGenesis(chain)
    ensures Split(chain, chain, [], |chain|)
  {
    assert chain[..|chain|] == chain;
  }

  lemma MemoryEndsAtHead(node: Node, memory: seq<Block>)
    requires Safe(node, memory)
    ensures memory != [] ==> Number(memory[0]) + |memory| == |node.canon|
  {
    if memory != [] { HeightIsNumber(node.canon, |node.canon| - |memory|); }
  }

  lemma EnsureFits(node: Node, memory: seq<Block>)
    requires Safe(node, memory) && node.canon != [] && memory == []
    ensures var head := node.canon[|node.canon| - 1];
      Covers(memory, [], 0) && Attaches(memory[..0], [head], 0) && Safe(node, [head])
  {
    var n := |node.canon| - 1;
    assert node.canon[..n] <= node.canon[..n + 1];
    assert node.canon[n..] == [node.canon[n]];
  }

  /** Every step can be taken when its turn comes. */
  ghost predicate IsRun(node: Node, steps: seq<Step>)
    decreases |steps|
  {
    |steps| == 0 || (Enabled(node, steps[0]) && IsRun(Next(node, steps[0]), steps[1..]))
  }

  /** Any run, step by step. */
  method Execute(mem: CanonicalInMemoryState, node: Node, steps: seq<Step>) returns (next: Node)
    requires mem.Valid() && Safe(node, mem.chain) && IsRun(node, steps)
    modifies mem
    ensures mem.Valid() && Safe(next, mem.chain)
    ensures forall i :: 0 <= i < |next.canon| ==>
      next.canon[i] in mem.blocks || (i < |next.disk| && next.disk[i] == next.canon[i])
  {
    hide Enabled, Safe, BlocksOf, Split;
    next := node;
    for i := 0 to |steps|
      invariant mem.Valid() && Safe(next, mem.chain) && IsRun(next, steps[i..])
    {
      assert steps[i..][0] == steps[i] && steps[i..][1..] == steps[i + 1..];
      next := Perform(mem, next, steps[i]);
    }
    forall i | 0 <= i < |next.canon|
      ensures next.canon[i] in mem.blocks || (i < |next.disk| && next.disk[i] == next.canon[i])
    {
      EveryCanonicalBlockKept(next, mem.chain, i);
    }
  }

  /** A run from startup, with everything on disk and nothing in memory. */
  method Run(start: seq<Block>, steps: seq<Step>) returns (mem: CanonicalInMemoryState, next: Node)
    requires FromGenesis(start) && IsRun(Node(start, start, None), steps)
    ensures mem.Valid() && Safe(next, mem.chain)
    ensures forall i :: 0 <= i < |next.canon| ==>
      next.canon[i] in mem.blocks || (i < |next.disk| && next.disk[i] == next.canon[i])
  {
    hide IsRun, Split;
    mem := new CanonicalInMemoryState();
    AllOnDisk(start);
    next := Execute(mem, Node(start, start, None), steps);
  }

  /** In memory or on disk: where every canonical block of a safe node is found. */
  lemma EveryCanonicalBlockKept(node: Node, memory: seq<Block>, i: nat)
    requires Safe(node, memory) && i < |node.canon|
    ensures node.canon[i] in BlocksOf(memory) || (i < |node.disk| && node.disk[i] == node.canon[i])
  {
    var below := |node.canon| - |memory|;
    if i < below {
      assert node.canon[..below][i] == node.canon[i];
    } else {
      assert memory[i - below] == node.canon[i];
      BlocksKeys(memory);
    }
  }

  // ---------------------------------------------------------------------------
  // Reads whose two lock sections have writers in between
  // ---------------------------------------------------------------------------

  /** A parent walk: each state's block is the parent of the one before, one number lower. */
  ghost predicate DescendingWalk(states: seq<BlockState>)
  {
    forall i, j :: 0 <= i < j < |states| && j == i + 1 ==>
      ParentHash(states[i].block) == states[j].block && Number(states[j].block) == Number(states[i].block) - 1
  }

  lemma WalkDescends(c: seq<Block>)
    requires Linked(c) && c != []
    ensures DescendingWalk(Walk(StateOf(c)))
  {
    hide StateOf, Walk;
    var walk := Walk(StateOf(c));
    forall i, j | 0 <= i < j < |walk| && j == i + 1
      ensures ParentHash(walk[i].block) == walk[j].block && Number(walk[j].block) == Number(walk[i].block) - 1
    {
      WalkOfChain(c, 0);
      WalkOfChain(c, i);
      WalkOfChain(c, j);
      var up, down := |c| - 1 - i, |c| - 1 - j;
      assert c[up].parent == c[down];
    }
  }

  /** What a finished read may hand out. */
  ghost predicate SoundRead(hash: Block, r: Option<BlockState>)
  {
    r.Some? ==> r.value.block == hash && DescendingWalk(Walk(r.value))
  }

  /** The second lock section, after any writers. */
  method LookUpLater(mem: CanonicalInMemoryState, hash: Block) returns (r: Option<BlockState>)
    requires mem.Valid()
    ensures SoundRead(hash, r) && (r.Some? <==> hash in mem.chain)
  {
    hide BlocksOf, NumbersOf, Walk;
    r := mem.StateByHash(hash);
    if hash in mem.chain {
      ghost var i :| 0 <= i < |mem.chain| && mem.chain[i] == hash;
      WalkDescends(mem.chain[..i + 1]);
      assert r == Some(StateOf(mem.chain[..i + 1]));
    }
  }

  /** `state_by_number`, with a run of writers between its two reads. */
  method StateByNumberAcross(mem: CanonicalInMemoryState, node: Node, number: int, steps: seq<Step>)
    returns (r: Option<BlockState>, next: Node)
    requires mem.Valid() && Safe(node, mem.chain) && IsRun(node, steps)
    modifies mem
    ensures mem.Valid() && Safe(next, mem.chain)
    ensures r.Some? ==>
      && Number(r.value.block) == number && r.value.block in old(mem.chain) && r.value.block in mem.chain
      && SoundRead(r.value.block, r)
  {
    hide IsRun, Split, Walk, DescendingWalk, BlocksOf, NumbersOf;
    var hash := mem.HashByNumber(number);
    ghost var before := mem.chain;
    next := Execute(mem, node, steps);
    if hash.None? { return None, next; }
    NumbersRise(before, number - Number(before[0]));
    r := LookUpLater(mem, hash.value);
  }

  /** `canonical_chain`, with a run of writers between reading the head hash and the head state. */
  method CanonicalChainAcross(mem: CanonicalInMemoryState, node: Node, steps: seq<Step>)
    returns (states: seq<BlockState>, next: Node)
    requires mem.Valid() && Safe(node, mem.chain) && IsRun(node, steps)
    modifies mem
    ensures mem.Valid() && Safe(next, mem.chain)
    ensures DescendingWalk(states)
    ensures states != [] ==> old(mem.chain) != [] && states[0].block == old(mem.chain)[|old(mem.chain)| - 1]
    ensures forall i :: 0 <= i < |states| ==> states[i].block in mem.chain
  {
    hide IsRun, Split, Walk, DescendingWalk, BlocksOf, NumbersOf, StateOf;
    var hash := mem.HeadHash();
    next := Execute(mem, node, steps);
    states := [];
    NothingDescends();
    if hash.Some? {
      var head := mem.StateByHash(hash.value);
      if head.Some? {
        states := Ancestors(head.value);
        ghost var i :| 0 <= i < |mem.chain| && mem.chain[i] == hash.value;
        WalkDescends(mem.chain[..i + 1]);
        WalkOfPrefix(mem.chain, i);
      }
    }
  }

  lemma NothingDescends()
    ensures DescendingWalk([])
  {
  }

  lemma WalkOfPrefix(c: seq<Block>, i: nat)
    requires i < |c|
    ensures var walk := Walk(StateOf(c[..i + 1]));
      walk != [] && walk[0].block == c[i] && forall j :: 0 <= j < |walk| ==> walk[j].block in c
  {
    var walk := Walk(StateOf(c[..i + 1]));
    WalkOfChain(c[..i + 1], 0);
    forall j | 0 <= j < |walk|
      ensures walk[j].block in c
    {
      WalkOfChain(c[..i + 1], j);
    }
  }
}
