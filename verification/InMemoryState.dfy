/** The canonical in-memory state: two maps and a pending block that stand for one chain. */
module InMemoryState {
  import opened Basics
  import opened Outcomes
  import opened ChainState

  datatype NewCanonicalChain =
    | Commit(added: seq<Block>)
    | Reorg(added: seq<Block>, removed: seq<Block>)

  class CanonicalInMemoryState {
    var blocks: map<Block, BlockState>
    var numbers: map<int, Block>
    var pending: Option<BlockState>
    ghost var chain: seq<Block>

    /** The maps are the ones of the chain, and the pending block is linked to what is kept. */
    ghost predicate Valid()
      reads this
    {
      && Linked(chain)
      && blocks == BlocksOf(chain) && numbers == NumbersOf(chain)
      && (pending.Some? ==> pending.value.parent == Lookup(blocks, ParentHash(pending.value.block)))
    }

    constructor ()
      ensures Valid() && chain == [] && pending.None?
    {
      blocks, numbers, pending, chain := map[], map[], None, [];
    }

    method Clear()
      modifies this
      ensures Valid() && chain == [] && pending.None?
    {
      blocks, numbers, pending, chain := map[], map[], None, [];
    }

    method SetPendingBlock(block: Block)
      requires Valid()
      modifies this`pending
      ensures Valid() && pending.Some? && pending.value.block == block
      ensures forall i :: 0 <= i < |chain| && chain[i] == ParentHash(block) ==>
        pending.value.parent == Some(StateOf(chain[..i + 1]))
      ensures ParentHash(block) !in chain ==> pending.value.parent == None
    {
      hide BlocksOf, NumbersOf, StateOf;
      var parent := StateByHash(ParentHash(block));
      pending := Some(BlockState(block, parent));
    }

    method StateByHash(hash: Block) returns (r: Option<BlockState>)
      requires Valid()
      ensures r == Lookup(blocks, hash)
      ensures forall i :: 0 <= i < |chain| && chain[i] == hash ==> r == Some(StateOf(chain[..i + 1]))
      ensures hash !in chain ==> r == None
    {
      r := Lookup(blocks, hash);
      BlocksKeys(chain);
      forall i | 0 <= i < |chain| && chain[i] == hash
        ensures r == Some(StateOf(chain[..i + 1]))
      {
        BlocksAt(chain, i);
      }
    }

    method HashByNumber(number: int) returns (r: Option<Block>)
      requires Valid()
      ensures r.Some? <==> chain != [] && Number(chain[0]) <= number < Number(chain[0]) + |chain|
      ensures r.Some? ==> r.value == chain[number - Number(chain[0])]
    {
      r := Lookup(numbers, number);
      NumbersKeys(chain, number);
      if r.Some? {
        NumbersRise(chain, number - Number(chain[0]));
        NumbersAt(chain, number - Number(chain[0]));
      }
    }

    method StateByNumber(number: int) returns (r: Option<BlockState>)
      requires Valid()
      ensures r.Some? <==> chain != [] && Number(chain[0]) <= number < Number(chain[0]) + |chain|
      ensures r.Some? ==> r.value == StateOf(chain[..number - Number(chain[0]) + 1])
    {
      hide BlocksOf, NumbersOf, StateOf;
      var hash := HashByNumber(number);
      if hash.None? { return None; }
      r := StateByHash(hash.value);
    }

    /** The hash of the greatest number: the first half of `head_state`. */
    method HeadHash() returns (r: Option<Block>)
      requires Valid()
      ensures r == if chain == [] then None else Some(chain[|chain| - 1])
    {
      hide BlocksOf, NumbersOf, StateOf;
      var last := LastKey(numbers);
      if last.None? {
        EmptyNumbers(chain);
        return None;
      }
      GreatestNumber(chain, last.value);
      r := Some(numbers[last.value]);
    }

    method HeadState() returns (r: Option<BlockState>)
      requires Valid()
      ensures r == if chain == [] then None else Some(StateOf(chain))
    {
      hide BlocksOf, NumbersOf, StateOf;
      var hash := HeadHash();
      if hash.None? { return None; }
      r := StateByHash(hash.value);
      assert chain[..|chain|] == chain;
    }

    /** `canonical_chain`: from the head through the parents, newest first. */
    method CanonicalChain() returns (states: seq<BlockState>)
      requires Valid()
      ensures |states| == |chain|
      ensures forall i :: 0 <= i < |chain| ==>
        states[i] == StateOf(chain[..|chain| - i]) && states[i].block == chain[|chain| - 1 - i]
    {
      hide BlocksOf, NumbersOf, StateOf;
      var head := HeadState();
      if head.None? {
        assert chain == [];
        return [];
      }
      WalkOfChain(chain, 0);
      states := Ancestors(head.value);
      forall i | 0 <= i < |chain|
        ensures states[i] == StateOf(chain[..|chain| - i]) && states[i].block == chain[|chain| - 1 - i]
      {
        WalkOfChain(chain, i);
      }
    }

    /**
      `update_blocks`: removes `reorged`, which covers the chain from position `m` on, then inserts
      `top`, which continues the chain from position `k` and repeats what is left above it.
     */
    method UpdateBlocks(top: seq<Block>, reorged: seq<Block>, ghost m: nat, ghost k: nat)
      requires Valid()
      requires m <= |chain| && Covers(chain, reorged, m) && Attaches(chain[..m], top, k)
      modifies this
      ensures Valid() && pending.None?
      ensures k <= |old(chain)| && chain == old(chain)[..k] + top
    {
      hide BlocksOf, NumbersOf, StateOf, Covers, HashesIn, NumbersIn, Attaches, Grown, Linked;
      ghost var kept := chain[..m];
      NothingRemoved(chain);
      for i := 0 to |reorged|
        invariant chain == old(chain) && Linked(chain)
        invariant blocks == BlocksOf(chain) - HashesIn(reorged[..i])
        invariant numbers == NumbersOf(chain) - NumbersIn(reorged[..i])
      {
        RemovedStep(blocks, numbers, BlocksOf(chain), NumbersOf(chain), reorged, i);
        blocks := blocks - {reorged[i]};
        numbers := numbers - {Number(reorged[i])};
      }
      assert reorged[..|reorged|] == reorged;
      RemoveBlocks(chain, reorged, m);
      RemoveNumbers(chain, reorged, m);
      AttachedResult(chain, kept, m, top, k);
      for i := 0 to |top|
        invariant chain == old(chain) && Linked(kept) && Attaches(kept, top, k) && k <= |kept|
        invariant blocks == BlocksOf(Grown(kept, top, k, i))
        invariant numbers == NumbersOf(Grown(kept, top, k, i))
      {
        GrowStep(kept, top, k, i);
        var block := top[i];
        var parent := Lookup(blocks, ParentHash(block));
        blocks := blocks[block := BlockState(block, parent)];
        numbers := numbers[Number(block) := block];
      }
      pending := None;
      chain := chain[..k] + top;
    }

    method UpdateChain(update: NewCanonicalChain, ghost m: nat, ghost k: nat)
      requires Valid()
      requires var removed := if update.Commit? then [] else update.removed;
        m <= |chain| && Covers(chain, removed, m) && Attaches(chain[..m], update.added, k)
      modifies this
      ensures Valid() && pending.None?
      ensures k <= |old(chain)| && chain == old(chain)[..k] + update.added
    {
      match update {
        case Commit(added) => UpdateBlocks(added, [], m, k);
        case Reorg(added, removed) => UpdateBlocks(added, removed, m, k);
      }
    }

    /**
      `remove_persisted_blocks_until`: nothing when the reported block is not in memory, otherwise
      everything up to the lower of the two heights goes and the rest is linked again.
     */
    method RemovePersistedBlocksUntil(persistedNumber: int, persistedHash: Block, removeUntil: int)
      requires Valid()
      modifies this
      ensures Valid()
      ensures var until := if removeUntil < persistedNumber then removeUntil else persistedNumber;
        chain == if persistedHash in old(chain) then Above(old(chain), until) else old(chain)
      ensures pending.Some? == old(pending).Some?
      ensures pending.Some? ==> pending.value.block == old(pending).value.block
      ensures persistedHash !in old(chain) ==> pending == old(pending)
    {
      hide BlocksOf, NumbersOf, StateOf, Above, Linked;
      var found := StateByHash(persistedHash);
      BlocksKeys(chain);
      if found.None? { return; }
      var until := if removeUntil < persistedNumber then removeUntil else persistedNumber;
      StatesNameTheirBlocks(chain);
      var drained := DrainAbove(blocks, until);
      DrainedDistinct(chain, drained);
      var sorted := SortByNumber(drained);
      SortedDrainIsSuffix(chain, until, sorted);
      AboveMembers(chain, until);
      chain := sorted;
      blocks, numbers := Relink(sorted);
      if pending.Some? {
        var block := pending.value.block;
        pending := Some(BlockState(block, Lookup(blocks, ParentHash(block))));
      }
    }
  }

  /** The greatest key, as an ordered map gives it. */
  method LastKey(numbers: map<int, Block>) returns (last: Option<int>)
    ensures last.None? ==> forall n :: n !in numbers
    ensures last.Some? ==> last.value in numbers && forall n :: n in numbers ==> n <= last.value
  {
    var rest := numbers.Keys;
    last := None;
    while rest != {}
      invariant rest <= numbers.Keys
      invariant last.Some? ==> last.value in numbers
      invariant forall n :: n in numbers && n !in rest ==> last.Some? && n <= last.value
      decreases |rest|
    {
      ghost var some := Member(rest);
      var n :| n in rest;
      rest := rest - {n};
      if last.None? || last.value < n { last := Some(n); }
    }
  }

  /** `iter`: a state and its ancestors, following the parent links. */
  method Ancestors(s: BlockState) returns (states: seq<BlockState>)
    ensures states == Walk(s)
  {
    states := [s];
    var current := s;
    while current.parent.Some?
      invariant states + Walk(current)[1..] == Walk(s)
      decreases current
    {
      current := current.parent.value;
      states := states + [current];
    }
  }

  // ---------------------------------------------------------------------------
  // Steps of the loops
  // ---------------------------------------------------------------------------

  lemma EmptyNumbers(c: seq<Block>)
    requires Linked(c) && forall n :: n !in NumbersOf(c)
    ensures c == []
  {
    if c != [] { NumbersAt(c, 0); }
  }

  lemma GreatestNumber(c: seq<Block>, n: int)
    requires Linked(c) && n in NumbersOf(c) && forall k :: k in NumbersOf(c) ==> k <= n
    ensures c != [] && NumbersOf(c)[n] == c[|c| - 1]
  {
    NumbersKeys(c, n);
    var last := |c| - 1;
    NumbersAt(c, last);
    NumbersRise(c, last);
  }

  lemma NothingRemoved(c: seq<Block>)
    ensures forall bs: seq<Block> :: BlocksOf(c) - HashesIn(bs[..0]) == BlocksOf(c)
    ensures forall bs: seq<Block> :: NumbersOf(c) - NumbersIn(bs[..0]) == NumbersOf(c)
  {
  }

  lemma RemovedStep(blocks: map<Block, BlockState>, numbers: map<int, Block>, allBlocks: map<Block, BlockState>,
                    allNumbers: map<int, Block>, reorged: seq<Block>, i: nat)
    requires i < |reorged|
    requires blocks == allBlocks - HashesIn(reorged[..i]) && numbers == allNumbers - NumbersIn(reorged[..i])
    ensures blocks - {reorged[i]} == allBlocks - HashesIn(reorged[..i + 1])
    ensures numbers - {Number(reorged[i])} == allNumbers - NumbersIn(reorged[..i + 1])
  {
    assert reorged[..i + 1] == reorged[..i] + [reorged[i]];
    assert HashesIn(reorged[..i + 1]) == HashesIn(reorged[..i]) + {reorged[i]};
    assert NumbersIn(reorged[..i + 1]) == NumbersIn(reorged[..i]) + {Number(reorged[i])};
  }

  /** Where the insertions start and end. */
  lemma AttachedResult(c: seq<Block>, kept: seq<Block>, m: nat, top: seq<Block>, k: nat)
    requires Linked(c) && m <= |c| && kept == c[..m] && Attaches(kept, top, k)
    ensures Linked(kept) && k <= |kept|
    ensures Grown(kept, top, k, 0) == kept
    ensures Grown(kept, top, k, |top|) == c[..k] + top && Linked(c[..k] + top)
  {
    AttachedLinks(kept, top, k, |top|);
    assert top[..|top|] == top && kept[..k] == c[..k];
    if k + |top| <= |kept| {
      assert kept[k..] == top;
      assert kept == kept[..k] + kept[k..];
    }
  }

  lemma StatesNameTheirBlocks(c: seq<Block>)
    requires Linked(c)
    ensures forall b :: b in BlocksOf(c) ==> BlocksOf(c)[b].block == b
  {
    BlocksKeys(c);
    forall b | b in BlocksOf(c)
      ensures BlocksOf(c)[b].block == b
    {
      var i :| 0 <= i < |c| && c[i] == b;
      BlocksAt(c, i);
    }
  }

  lemma DrainedDistinct(c: seq<Block>, drained: seq<Block>)
    requires Linked(c) && (forall b :: b in drained ==> b in c)
    requires forall i, j :: 0 <= i < j < |drained| ==> drained[i] != drained[j]
    ensures DistinctNumbers(drained)
  {
    forall i, j | 0 <= i < j < |drained|
      ensures Number(drained[i]) != Number(drained[j])
    {
      assert drained[i] in c && drained[j] in c;
      NumbersMembers(c);
    }
  }

  lemma EmptyMaps(c: seq<Block>)
    ensures BlocksOf(c[..0]) == map[] && NumbersOf(c[..0]) == map[]
  {
  }

  /** The blocks that stay, put back in order so that each finds its parent. */
  method Relink(sorted: seq<Block>) returns (blocks: map<Block, BlockState>, numbers: map<int, Block>)
    requires Linked(sorted)
    ensures blocks == BlocksOf(sorted) && numbers == NumbersOf(sorted)
  {
    hide BlocksOf, NumbersOf, StateOf, Linked, Number;
    numbers, blocks := map[], map[];
    EmptyMaps(sorted);
    for i := 0 to |sorted|
      invariant blocks == BlocksOf(sorted[..i]) && numbers == NumbersOf(sorted[..i])
    {
      ReinsertStep(sorted, i);
      var block := sorted[i];
      var parent := Lookup(blocks, ParentHash(block));
      blocks := blocks[block := BlockState(block, parent)];
      numbers := numbers[Number(block) := block];
    }
    assert sorted[..|sorted|] == sorted;
  }

  lemma ReinsertStep(c: seq<Block>, i: nat)
    requires Linked(c) && i < |c|
    ensures var d, b := c[..i], c[i];
      && BlocksOf(d)[b := BlockState(b, Lookup(BlocksOf(d), ParentHash(b)))] == BlocksOf(c[..i + 1])
      && NumbersOf(d)[Number(b) := b] == NumbersOf(c[..i + 1])
  {
    assert c[..i] + [c[i]] == c[..i + 1];
    InsertOnTop(c[..i], c[i]);
  }

  // ---------------------------------------------------------------------------
  // What the maps of a chain promise
  // ---------------------------------------------------------------------------

  /** Blocks under their own numbers, over one contiguous range, each the parent of the next. */
  ghost predicate Contiguous(numbers: map<int, Block>)
  {
    && (forall n :: n in numbers ==> numbers[n].Child? && Number(numbers[n]) == n)
    && (forall l, n, h :: l in numbers && h in numbers && l <= n <= h ==> n in numbers)
    && (forall n, m :: n in numbers && m in numbers && m == n + 1 ==> ParentHash(numbers[m]) == numbers[n])
  }

  /**
    The two maps are inverse to each other over one linked range of numbers, and every state holds the
    map entry one below it as parent, or none at the lowest number.
   */
  ghost predicate Coherent(blocks: map<Block, BlockState>, numbers: map<int, Block>)
  {
    && Contiguous(numbers)
    && (forall n :: n in numbers ==> numbers[n] in blocks)
    && (forall b :: b in blocks ==> blocks[b].block == b && Number(b) in numbers && numbers[Number(b)] == b)
    && (forall b :: b in blocks ==>
          blocks[b].parent == if Number(b) - 1 in numbers then Some(blocks[numbers[Number(b) - 1]]) else None)
  }

  lemma ChainMapsAreCoherent(c: seq<Block>)
    requires Linked(c)
    ensures Coherent(BlocksOf(c), NumbersOf(c))
  {
    hide BlocksOf, NumbersOf, StateOf, Linked, Number, Contiguous;
    NumbersMembers(c);
    BlocksKeys(c);
    StatesNameTheirBlocks(c);
    ContiguousOf(c);
    ParentEntries(c);
  }

  lemma ContiguousOf(c: seq<Block>)
    requires Linked(c)
    ensures Contiguous(NumbersOf(c))
  {
    hide NumbersOf, Linked, Number, ParentHash;
    ContiguousNumbers(c);
    LinkedNumbers(c);
  }

  lemma LinkedNumbers(c: seq<Block>)
    requires Linked(c)
    ensures forall n :: n in NumbersOf(c) ==> NumbersOf(c)[n].Child? && Number(NumbersOf(c)[n]) == n
    ensures forall n, m :: n in NumbersOf(c) && m in NumbersOf(c) && m == n + 1 ==>
      ParentHash(NumbersOf(c)[m]) == NumbersOf(c)[n]
  {
    hide NumbersOf, Linked, Number, ParentHash;
    NumbersMembers(c);
    forall n | n in NumbersOf(c)
      ensures NumbersOf(c)[n].Child?
    {
      InChain(c, NumbersOf(c)[n]);
    }
    forall n, m | n in NumbersOf(c) && m in NumbersOf(c) && m == n + 1
      ensures ParentHash(NumbersOf(c)[m]) == NumbersOf(c)[n]
    {
      NextNumber(c, n);
    }
  }

  lemma InChain(c: seq<Block>, b: Block)
    requires Linked(c) && b in c
    ensures b.Child?
  {
  }

  lemma NextNumber(c: seq<Block>, n: int)
    requires Linked(c) && n in NumbersOf(c) && n + 1 in NumbersOf(c)
    ensures ParentHash(NumbersOf(c)[n + 1]) == NumbersOf(c)[n]
  {
    hide NumbersOf;
    NumbersKeys(c, n);
    NumbersKeys(c, n + 1);
    var i := n - Number(c[0]);
    NumbersRise(c, i);
    NumbersRise(c, i + 1);
    NumbersAt(c, i);
    NumbersAt(c, i + 1);
  }

  lemma ContiguousNumbers(c: seq<Block>)
    requires Linked(c)
    ensures forall l, n, h :: l in NumbersOf(c) && h in NumbersOf(c) && l <= n <= h ==> n in NumbersOf(c)
  {
    hide NumbersOf, Linked, Number;
    forall l, n, h | l in NumbersOf(c) && h in NumbersOf(c) && l <= n <= h
      ensures n in NumbersOf(c)
    {
      NumbersKeys(c, l);
      NumbersKeys(c, n);
      NumbersKeys(c, h);
    }
  }

  lemma ParentEntries(c: seq<Block>)
    requires Linked(c)
    ensures forall b :: b in BlocksOf(c) ==>
      && (Number(b) - 1 in NumbersOf(c) ==> NumbersOf(c)[Number(b) - 1] in BlocksOf(c))
      && BlocksOf(c)[b].parent ==
         if Number(b) - 1 in NumbersOf(c) then Some(BlocksOf(c)[NumbersOf(c)[Number(b) - 1]]) else None
  {
    hide BlocksOf, NumbersOf, StateOf, Linked, Number;
    BlocksKeys(c);
    forall b | b in BlocksOf(c)
      ensures Number(b) - 1 in NumbersOf(c) ==> NumbersOf(c)[Number(b) - 1] in BlocksOf(c)
      ensures BlocksOf(c)[b].parent ==
        if Number(b) - 1 in NumbersOf(c) then Some(BlocksOf(c)[NumbersOf(c)[Number(b) - 1]]) else None
    {
      var i :| 0 <= i < |c| && c[i] == b;
      ParentEntry(c, i);
    }
  }

  lemma ParentEntry(c: seq<Block>, i: nat)
    requires Linked(c) && i < |c|
    ensures i == 0 ==> Number(c[i]) - 1 !in NumbersOf(c)
    ensures i > 0 ==> Number(c[i]) - 1 in NumbersOf(c) && NumbersOf(c)[Number(c[i]) - 1] == c[i - 1]
    ensures c[i] in BlocksOf(c) && (i > 0 ==> c[i - 1] in BlocksOf(c))
    ensures BlocksOf(c)[c[i]].parent == if i == 0 then None else Some(BlocksOf(c)[c[i - 1]])
  {
    NumbersRise(c, i);
    NumbersKeys(c, Number(c[i]) - 1);
    BlocksAt(c, i);
    if i > 0 {
      NumbersAt(c, i - 1);
      NumbersRise(c, i - 1);
      BlocksAt(c, i - 1);
      assert c[..i + 1][..i] == c[..i];
    }
  }

  lemma {:induction false} Greatest(s: set<int>) returns (n: int)
    requires s != {}
    ensures n in s && forall x :: x in s ==> x <= n
  {
    var some := Member(s);
    n := some;
    if s != {some} {
      assert s - {some} != {};
      var m := Greatest(s - {some});
      assert forall x :: x in s ==> x == some || x in s - {some};
      if m > n { n := m; }
    }
  }

  lemma WithoutGreatest(numbers: map<int, Block>, n: int)
    requires Contiguous(numbers) && n in numbers && forall x :: x in numbers ==> x <= n
    ensures Contiguous(numbers - {n})
  {
    hide Number, ParentHash;
    var rest := numbers - {n};
    assert forall x :: x in rest ==> x in numbers && x < n && rest[x] == numbers[x];
    forall l, x, h | l in rest && h in rest && l <= x <= h
      ensures x in rest
    {
      assert l in numbers && h in numbers && x != n;
    }
  }

  lemma NumberedChild(numbers: map<int, Block>, n: int)
    requires Contiguous(numbers) && n in numbers
    ensures numbers[n].Child? && Number(numbers[n]) == n
  {
    hide Number;
  }

  lemma OneNumberLess(numbers: map<int, Block>, n: int)
    requires n in numbers
    ensures |numbers - {n}| < |numbers|
  {
    assert (numbers - {n}).Keys == numbers.Keys - {n};
    assert |numbers - {n}| == |(numbers - {n}).Keys| && |numbers| == |numbers.Keys|;
  }

  /** The block of the greatest number continues the chain of the others. */
  lemma GreatestOnTop(numbers: map<int, Block>, n: int, c: seq<Block>)
    requires Contiguous(numbers) && n in numbers && (forall x :: x in numbers ==> x <= n)
    requires Linked(c) && numbers - {n} == NumbersOf(c)
    ensures Linked(c + [numbers[n]])
  {
    hide NumbersOf, Contiguous;
    if c != [] {
      var last := c[|c| - 1];
      NumbersAt(c, |c| - 1);
      NumbersKeys(c, n - 1);
      NumbersRise(c, |c| - 1);
      assert Number(last) in numbers - {n};
      OneBelow(numbers, n, Number(last));
      assert numbers[n - 1] == (numbers - {n})[n - 1];
    }
    NumberedChild(numbers, n);
    OnTopLinked(c, numbers[n]);
  }

  lemma OneBelow(numbers: map<int, Block>, n: int, m: int)
    requires Contiguous(numbers) && n in numbers && m in numbers && m < n
    ensures n - 1 in numbers && ParentHash(numbers[n]) == numbers[n - 1]
  {
  }

  lemma OnTopLinked(c: seq<Block>, b: Block)
    requires Linked(c) && b.Child? && (c != [] ==> ParentHash(b) == c[|c| - 1])
    ensures Linked(c + [b])
  {
  }

  /** Linked numbers spell a chain: the blocks read upwards from the lowest. */
  lemma {:induction false} NumbersSpellAChain(numbers: map<int, Block>) returns (c: seq<Block>)
    requires Contiguous(numbers)
    ensures Linked(c) && numbers == NumbersOf(c)
    decreases |numbers|
  {
    hide Contiguous, Linked, NumbersOf, Number;
    if numbers == map[] {
      c := [];
      NothingLinked();
    } else {
      assert numbers.Keys != {};
      var n := Greatest(numbers.Keys);
      NumberedChild(numbers, n);
      WithoutGreatest(numbers, n);
      OneNumberLess(numbers, n);
      var below := NumbersSpellAChain(numbers - {n});
      GreatestOnTop(numbers, n, below);
      c := below + [numbers[n]];
      OnTopNumbers(numbers, n, below);
    }
  }

  lemma NothingLinked()
    ensures Linked([]) && NumbersOf([]) == map[]
  {
  }

  lemma OnTopNumbers(numbers: map<int, Block>, n: int, below: seq<Block>)
    requires n in numbers && Number(numbers[n]) == n && numbers - {n} == NumbersOf(below)
    ensures numbers == NumbersOf(below + [numbers[n]])
  {
    assert (below + [numbers[n]])[..|below|] == below;
    assert numbers == (numbers - {n})[n := numbers[n]];
  }

  /** Coherent maps are the maps of one chain: the numbers in order, read from the lowest. */
  lemma CoherentMapsAreAChain(blocks: map<Block, BlockState>, numbers: map<int, Block>) returns (c: seq<Block>)
    requires Coherent(blocks, numbers)
    ensures Linked(c) && numbers == NumbersOf(c) && blocks == BlocksOf(c)
  {
    c := NumbersSpellAChain(numbers);
    StatesFollowNumbers(blocks, numbers, c);
  }

  lemma StatesFollowNumbers(blocks: map<Block, BlockState>, numbers: map<int, Block>, c: seq<Block>)
    requires Linked(c) && numbers == NumbersOf(c) && Coherent(blocks, numbers)
    ensures blocks == BlocksOf(c)
  {
    hide BlocksOf, NumbersOf, StateOf, Contiguous;
    NumbersMembers(c);
    BlocksKeys(c);
    forall i | 0 <= i < |c|
      ensures c[i] in blocks && blocks[c[i]] == BlocksOf(c)[c[i]]
    {
      SameEntry(blocks, numbers, c, i);
    }
    assert forall b :: b in blocks ==> b in c;
    assert blocks.Keys == BlocksOf(c).Keys;
  }

  /** What coherence says about the entry of one block. */
  lemma EntryOf(blocks: map<Block, BlockState>, numbers: map<int, Block>, b: Block)
    requires Coherent(blocks, numbers) && Number(b) in numbers && numbers[Number(b)] == b
    ensures b in blocks && (Number(b) - 1 in numbers ==> numbers[Number(b) - 1] in blocks)
    ensures blocks[b] ==
      BlockState(b, if Number(b) - 1 in numbers then Some(blocks[numbers[Number(b) - 1]]) else None)
  {
    hide Contiguous;
  }

  lemma {:induction false} SameEntry(blocks: map<Block, BlockState>, numbers: map<int, Block>, c: seq<Block>, i: nat)
    requires Linked(c) && numbers == NumbersOf(c) && Coherent(blocks, numbers) && i < |c|
    ensures c[i] in blocks && c[i] in BlocksOf(c) && blocks[c[i]] == BlocksOf(c)[c[i]]
  {
    hide BlocksOf, NumbersOf, StateOf, Coherent, Linked;
    if i > 0 { SameEntry(blocks, numbers, c, i - 1); }
    NumbersMembers(c);
    ParentEntry(c, i);
    StatesNameTheirBlocks(c);
    EntryOf(blocks, numbers, c[i]);
  }
}
