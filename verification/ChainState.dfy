/**
  Canonical blocks kept in memory.  A block stands for its own hash, so equal hashes mean equal
  blocks and a parent hash names one block (a collision-free hash); `Root` is the zero hash in
  front of genesis.
 */
module ChainState {
  import opened Outcomes

  datatype Block = Root | Child(parent: Block, payload: nat)

  function Number(b: Block): (n: int)
    ensures n >= -1 && (b.Child? ==> n >= 0)
  {
    if b.Root? then -1 else Number(b.parent) + 1
  }

  function ParentHash(b: Block): Block
  {
    if b.Root? then Root else b.parent
  }

  /** A block with the shared state of its parent, when that is in memory. */
  datatype BlockState = BlockState(block: Block, parent: Option<BlockState>)

  /** Blocks in ascending order, each the parent of the next. */
  ghost predicate Linked(c: seq<Block>)
  {
    && (forall i :: 0 <= i < |c| ==> c[i].Child?)
    && (forall i, j :: 0 <= i < j < |c| && j == i + 1 ==> c[j].parent == c[i])
  }

  /** The state of the last block, linked through all the others. */
  function StateOf(c: seq<Block>): BlockState
    requires c != []
  {
    BlockState(c[|c| - 1], if |c| == 1 then None else Some(StateOf(c[..|c| - 1])))
  }

  /** The maps that stand for a chain. */
  function BlocksOf(c: seq<Block>): map<Block, BlockState>
  {
    if c == [] then map[] else BlocksOf(c[..|c| - 1])[c[|c| - 1] := StateOf(c)]
  }

  function NumbersOf(c: seq<Block>): map<int, Block>
  {
    if c == [] then map[] else NumbersOf(c[..|c| - 1])[Number(c[|c| - 1]) := c[|c| - 1]]
  }

  function Lookup<K, V>(m: map<K, V>, k: K): Option<V>
  {
    if k in m then Some(m[k]) else None
  }

  // ---------------------------------------------------------------------------
  // Chains and their maps
  // ---------------------------------------------------------------------------

  lemma {:induction false} NumbersRise(c: seq<Block>, i: nat)
    requires Linked(c) && i < |c|
    ensures Number(c[i]) == Number(c[0]) + i
  {
    if i > 0 { NumbersRise(c, i - 1); }
  }

  lemma SameNumberSameBlock(c: seq<Block>, i: nat, j: nat)
    requires Linked(c) && i < |c| && j < |c| && Number(c[i]) == Number(c[j])
    ensures i == j
  {
    NumbersRise(c, i);
    NumbersRise(c, j);
  }

  lemma {:induction false} BlocksAt(c: seq<Block>, i: nat)
    requires Linked(c) && i < |c|
    ensures c[i] in BlocksOf(c) && BlocksOf(c)[c[i]] == StateOf(c[..i + 1])
  {
    var n := |c| - 1;
    if i < n {
      BlocksAt(c[..n], i);
      assert c[..n][..i + 1] == c[..i + 1];
      if c[i] == c[n] { SameNumberSameBlock(c, i, n); }
    } else {
      assert c[..i + 1] == c;
    }
  }

  lemma {:induction false} BlocksKeys(c: seq<Block>)
    ensures forall b :: b in BlocksOf(c) <==> b in c
  {
    if c != [] {
      BlocksKeys(c[..|c| - 1]);
      assert c == c[..|c| - 1] + [c[|c| - 1]];
    }
  }

  lemma {:induction false} NumbersAt(c: seq<Block>, i: nat)
    requires Linked(c) && i < |c|
    ensures Number(c[i]) in NumbersOf(c) && NumbersOf(c)[Number(c[i])] == c[i]
  {
    var n := |c| - 1;
    if i < n {
      NumbersAt(c[..n], i);
      if Number(c[i]) == Number(c[n]) { SameNumberSameBlock(c, i, n); }
    }
  }

  lemma {:induction false} NumbersKeys(c: seq<Block>, n: int)
    requires Linked(c)
    ensures n in NumbersOf(c) <==> c != [] && Number(c[0]) <= n < Number(c[0]) + |c|
  {
    if c != [] {
      NumbersRise(c, |c| - 1);
      NumbersKeys(c[..|c| - 1], n);
    }
  }

  /** The numbers of a chain, without arithmetic. */
  lemma NumbersMembers(c: seq<Block>)
    requires Linked(c)
    ensures forall n :: n in NumbersOf(c) ==> NumbersOf(c)[n] in c && Number(NumbersOf(c)[n]) == n
    ensures forall b :: b in c ==> Number(b) in NumbersOf(c) && NumbersOf(c)[Number(b)] == b
  {
    forall n | n in NumbersOf(c)
      ensures NumbersOf(c)[n] in c && Number(NumbersOf(c)[n]) == n
    {
      NumbersKeys(c, n);
      var i := n - Number(c[0]);
      NumbersRise(c, i);
      NumbersAt(c, i);
    }
    forall b | b in c
      ensures Number(b) in NumbersOf(c) && NumbersOf(c)[Number(b)] == b
    {
      var i :| 0 <= i < |c| && c[i] == b;
      NumbersAt(c, i);
    }
  }

  /** The parent of a chain's first block is not in the chain. */
  lemma FirstParentOutside(c: seq<Block>)
    requires Linked(c) && c != []
    ensures c[0].parent !in c
  {
    if c[0].parent in c {
      var i :| 0 <= i < |c| && c[i] == c[0].parent;
      NumbersRise(c, i);
      assert false;
    }
  }

  /** What `BlockState::with_parent` stores for block `i` of a chain. */
  lemma StateLink(c: seq<Block>, i: nat)
    requires Linked(c) && i < |c|
    ensures StateOf(c[..i + 1]) == BlockState(c[i], Lookup(BlocksOf(c), ParentHash(c[i])))
  {
    BlocksKeys(c);
    if i == 0 {
      FirstParentOutside(c);
    } else {
      BlocksAt(c, i - 1);
      assert c[..i + 1][..i] == c[..i];
    }
  }

  // ---------------------------------------------------------------------------
  // Inserting and removing
  // ---------------------------------------------------------------------------

  /** A block put on top of a chain, found through its parent hash. */
  lemma InsertOnTop(c: seq<Block>, b: Block)
    requires Linked(c + [b])
    ensures BlocksOf(c)[b := BlockState(b, Lookup(BlocksOf(c), ParentHash(b)))] == BlocksOf(c + [b])
    ensures NumbersOf(c)[Number(b) := b] == NumbersOf(c + [b])
  {
    var d := c + [b];
    assert d[..|d| - 1] == c;
    if c != [] {
      assert d[|c|].parent == d[|c| - 1];
      BlocksAt(c, |c| - 1);
      assert c[..|c|] == c;
    }
  }

  /** Putting a chain's own block back changes nothing. */
  lemma InsertAgain(c: seq<Block>, i: nat)
    requires Linked(c) && i < |c|
    ensures BlocksOf(c)[c[i] := BlockState(c[i], Lookup(BlocksOf(c), ParentHash(c[i])))] == BlocksOf(c)
    ensures NumbersOf(c)[Number(c[i]) := c[i]] == NumbersOf(c)
  {
    StateLink(c, i);
    BlocksAt(c, i);
    NumbersAt(c, i);
  }

  function HashesIn(bs: seq<Block>): set<Block>
  {
    set b | b in bs
  }

  function NumbersIn(bs: seq<Block>): set<int>
  {
    set b | b in bs :: Number(b)
  }

  /**
    `reorged` covers exactly the blocks of `c` from position `m` on; its other blocks, already
    persisted and trimmed, have numbers outside the chain.
   */
  ghost predicate Covers(c: seq<Block>, reorged: seq<Block>, m: nat)
  {
    && m <= |c|
    && (forall i :: m <= i < |c| ==> c[i] in reorged)
    && (forall b :: b in reorged ==> b in c[m..] || (c != [] ==> Number(b) < Number(c[0])))
  }

  lemma CoveredBlocks(c: seq<Block>, reorged: seq<Block>, m: nat, b: Block)
    requires Linked(c) && Covers(c, reorged, m) && b in c
    ensures b in reorged <==> b in c[m..]
    ensures b in c[..m] <==> b !in reorged
    ensures Number(b) in NumbersIn(reorged) <==> b in reorged
  {
    var i :| 0 <= i < |c| && c[i] == b;
    NumbersRise(c, i);
    if b in c[..m] {
      var j :| 0 <= j < m && c[j] == b;
      SameNumberSameBlock(c, i, j);
    }
    if b in c[m..] {
      var j :| m <= j < |c| && c[j] == b;
      SameNumberSameBlock(c, i, j);
    }
    if Number(b) in NumbersIn(reorged) {
      var r :| r in reorged && Number(r) == Number(b);
      assert r in c[m..];
      var j :| m <= j < |c| && c[j] == r;
      SameNumberSameBlock(c, i, j);
    }
  }

  lemma SharedState(c: seq<Block>, m: nat, b: Block)
    requires Linked(c) && m <= |c| && b in c[..m]
    ensures b in BlocksOf(c) && b in BlocksOf(c[..m]) && BlocksOf(c)[b] == BlocksOf(c[..m])[b]
  {
    var j :| 0 <= j < m && c[j] == b;
    BlocksAt(c, j);
    BlocksAt(c[..m], j);
    assert c[..m][..j + 1] == c[..j + 1];
  }

  lemma RemoveBlocks(c: seq<Block>, reorged: seq<Block>, m: nat)
    requires Linked(c) && m <= |c| && Covers(c, reorged, m)
    ensures BlocksOf(c) - HashesIn(reorged) == BlocksOf(c[..m])
  {
    hide BlocksOf, StateOf, Covers, Linked;
    var left, kept := BlocksOf(c) - HashesIn(reorged), BlocksOf(c[..m]);
    BlocksKeys(c);
    BlocksKeys(c[..m]);
    forall b | b in c
      ensures b in left <==> b in kept
      ensures b in kept ==> left[b] == kept[b]
    {
      CoveredBlocks(c, reorged, m, b);
      if b in c[..m] { SharedState(c, m, b); }
    }
    assert forall b :: b in kept ==> b in c;
    assert left.Keys == kept.Keys;
  }

  lemma RemoveNumbers(c: seq<Block>, reorged: seq<Block>, m: nat)
    requires Linked(c) && m <= |c| && Covers(c, reorged, m)
    ensures NumbersOf(c) - NumbersIn(reorged) == NumbersOf(c[..m])
  {
    hide NumbersOf, Covers;
    var left, kept := NumbersOf(c) - NumbersIn(reorged), NumbersOf(c[..m]);
    NumbersMembers(c);
    NumbersMembers(c[..m]);
    forall n | n in NumbersOf(c)
      ensures n in left <==> n in kept
    {
      var b := NumbersOf(c)[n];
      CoveredBlocks(c, reorged, m, b);
      if n in kept {
        assert kept[n] in c && NumbersOf(c)[Number(kept[n])] == kept[n];
      }
    }
    forall n | n in kept
      ensures n in NumbersOf(c) && NumbersOf(c)[n] == kept[n]
    {
      assert kept[n] in c;
    }
    assert left.Keys == kept.Keys;
  }

  // ---------------------------------------------------------------------------
  // Replacing the top of a chain
  // ---------------------------------------------------------------------------

  /** `top` continues `c[..k]` and repeats whatever `c` holds above that. */
  ghost predicate Attaches(c: seq<Block>, top: seq<Block>, k: nat)
  {
    && k <= |c| && Linked(top) && c[k..] <= top
    && (top != [] && k > 0 ==> top[0].parent == c[k - 1])
  }

  /** The chain after `i` insertions. */
  ghost function Grown(c: seq<Block>, top: seq<Block>, k: nat, i: nat): seq<Block>
    requires k <= |c| && i <= |top|
  {
    if k + i <= |c| then c else c[..k] + top[..i]
  }

  lemma AttachedLinks(c: seq<Block>, top: seq<Block>, k: nat, i: nat)
    requires Linked(c) && Attaches(c, top, k) && i <= |top|
    ensures Linked(c[..k] + top[..i])
  {
  }

  lemma GrowStep(c: seq<Block>, top: seq<Block>, k: nat, i: nat)
    requires Linked(c) && Attaches(c, top, k) && i < |top|
    ensures var d, b := Grown(c, top, k, i), top[i];
      && BlocksOf(d)[b := BlockState(b, Lookup(BlocksOf(d), ParentHash(b)))] == BlocksOf(Grown(c, top, k, i + 1))
      && NumbersOf(d)[Number(b) := b] == NumbersOf(Grown(c, top, k, i + 1))
  {
    hide BlocksOf, NumbersOf, StateOf;
    if k + i < |c| {
      assert c[k + i] == c[k..][i] == top[i];
      InsertAgain(c, k + i);
    } else {
      AttachedLinks(c, top, k, i + 1);
      var d := c[..k] + top[..i];
      if k + i == |c| { assert d == c; }
      assert d + [top[i]] == c[..k] + top[..i + 1];
      InsertOnTop(d, top[i]);
    }
  }

  // ---------------------------------------------------------------------------
  // Dropping the bottom of a chain
  // ---------------------------------------------------------------------------

  /** How many blocks of a chain are numbered `until` or less. */
  function Cut(c: seq<Block>, until: int): (n: nat)
    ensures n <= |c|
  {
    if c == [] || until < Number(c[0]) then 0
    else if until - Number(c[0]) + 1 < |c| then until - Number(c[0]) + 1
    else |c|
  }

  /** The blocks numbered above `until`. */
  function Above(c: seq<Block>, until: int): seq<Block>
  {
    c[Cut(c, until)..]
  }

  ghost predicate Rising(bs: seq<Block>)
  {
    forall i, j :: 0 <= i < j < |bs| ==> Number(bs[i]) < Number(bs[j])
  }

  ghost predicate DistinctNumbers(bs: seq<Block>)
  {
    forall i, j :: 0 <= i < j < |bs| ==> Number(bs[i]) != Number(bs[j])
  }

  lemma LinkedRises(c: seq<Block>)
    requires Linked(c)
    ensures Rising(c)
  {
    forall i, j | 0 <= i < j < |c|
      ensures Number(c[i]) < Number(c[j])
    {
      NumbersRise(c, i);
      NumbersRise(c, j);
    }
  }

  lemma RestOfRising(a: seq<Block>, x: Block)
    requires Rising(a) && a != []
    ensures x in a[1..] <==> x in a && x != a[0]
  {
    assert a == [a[0]] + a[1..];
    if x in a[1..] {
      var i :| 0 < i < |a| && a[i] == x;
    }
  }

  lemma {:induction false} SameMembersSameOrder(a: seq<Block>, b: seq<Block>)
    requires Rising(a) && Rising(b) && forall x :: x in a <==> x in b
    ensures a == b
  {
    assert (a == [] || a[0] in a) && (b == [] || b[0] in b);
    if a != [] {
      assert a[0] == b[0];
      forall x
        ensures x in a[1..] <==> x in b[1..]
      {
        RestOfRising(a, x);
        RestOfRising(b, x);
      }
      SameMembersSameOrder(a[1..], b[1..]);
      assert a == [a[0]] + a[1..] && b == [b[0]] + b[1..];
    }
  }

  lemma AboveMembers(c: seq<Block>, until: int)
    requires Linked(c)
    ensures Linked(Above(c, until))
    ensures forall b :: b in Above(c, until) <==> b in c && Number(b) > until
    ensures forall i :: 0 <= i < |c| ==> (i < Cut(c, until) <==> Number(c[i]) <= until)
  {
    forall i | 0 <= i < |c|
      ensures i < Cut(c, until) <==> Number(c[i]) <= until
    {
      NumbersRise(c, i);
    }
  }

  lemma SortedDrainIsSuffix(c: seq<Block>, until: int, sorted: seq<Block>)
    requires Linked(c) && Rising(sorted)
    requires forall b :: b in sorted <==> b in c && Number(b) > until
    ensures sorted == Above(c, until)
  {
    AboveMembers(c, until);
    LinkedRises(Above(c, until));
    SameMembersSameOrder(sorted, Above(c, until));
  }

  /** The blocks of the map numbered above `until`, in whatever order the map yields them. */
  method DrainAbove(blocks: map<Block, BlockState>, until: int) returns (kept: seq<Block>)
    requires forall b :: b in blocks ==> blocks[b].block == b
    ensures forall b :: b in kept <==> b in blocks && Number(b) > until
    ensures forall i, j :: 0 <= i < j < |kept| ==> kept[i] != kept[j]
  {
    var rest := blocks.Keys;
    kept := [];
    while rest != {}
      invariant rest <= blocks.Keys
      invariant forall b :: b in kept <==> b in blocks && b !in rest && Number(b) > until
      invariant forall i, j :: 0 <= i < j < |kept| ==> kept[i] != kept[j]
      decreases |rest|
    {
      var h :| h in rest;
      rest := rest - {h};
      if Number(blocks[h].block) > until {
        kept := kept + [blocks[h].block];
      }
    }
  }

  lemma JoinedRises(low: seq<Block>, high: seq<Block>)
    requires Rising(low) && Rising(high)
    requires forall i, j :: 0 <= i < |low| && 0 <= j < |high| ==> Number(low[i]) < Number(high[j])
    ensures Rising(low + high)
  {
    hide Number;
  }

  lemma InsertedRises(low: seq<Block>, b: Block, high: seq<Block>)
    requires Rising(low) && Rising(high)
    requires forall k :: 0 <= k < |low| ==> Number(low[k]) < Number(b)
    requires forall k :: 0 <= k < |high| ==> Number(high[k]) > Number(b)
    ensures Rising(low + [b] + high)
  {
    hide Number;
    JoinedRises(low, [b]);
    JoinedRises(low + [b], high);
  }

  lemma RisingParts(sorted: seq<Block>, j: nat)
    requires Rising(sorted) && j <= |sorted|
    ensures Rising(sorted[..j]) && Rising(sorted[j..])
    ensures j > 0 ==> forall k :: 0 <= k < j ==> Number(sorted[..j][k]) <= Number(sorted[j - 1])
    ensures forall x :: x in sorted <==> x in sorted[..j] || x in sorted[j..]
  {
    hide Number;
    assert sorted == sorted[..j] + sorted[j..];
  }

  method InsertByNumber(sorted: seq<Block>, b: Block) returns (r: seq<Block>)
    requires Rising(sorted) && forall i :: 0 <= i < |sorted| ==> Number(sorted[i]) != Number(b)
    ensures Rising(r)
    ensures forall x :: x in r <==> x in sorted || x == b
  {
    hide Number, Rising;
    var j := |sorted|;
    while j > 0 && Number(sorted[j - 1]) > Number(b)
      invariant 0 <= j <= |sorted|
      invariant forall k :: j <= k < |sorted| ==> Number(sorted[k]) > Number(b)
    {
      j := j - 1;
    }
    RisingParts(sorted, j);
    InsertedRises(sorted[..j], b, sorted[j..]);
    r := sorted[..j] + [b] + sorted[j..];
  }

  /** The library sort the code calls; with distinct numbers its result is unique. */
  method SortByNumber(bs: seq<Block>) returns (sorted: seq<Block>)
    requires DistinctNumbers(bs)
    ensures Rising(sorted)
    ensures forall b :: b in sorted <==> b in bs
  {
    sorted := [];
    for i := 0 to |bs|
      invariant Rising(sorted)
      invariant forall b :: b in sorted <==> b in bs[..i]
    {
      assert forall k :: 0 <= k < |sorted| ==> sorted[k] in bs[..i];
      assert bs[..i + 1] == bs[..i] + [bs[i]];
      sorted := InsertByNumber(sorted, bs[i]);
    }
    assert bs[..|bs|] == bs;
  }

  // ---------------------------------------------------------------------------
  // Walking from a state to its parents
  // ---------------------------------------------------------------------------

  /** `chain` and `iter`: the state and its ancestors in memory, newest first. */
  function Walk(s: BlockState): seq<BlockState>
  {
    [s] + if s.parent.None? then [] else Walk(s.parent.value)
  }

  /** The walk from a chain's head is the chain, newest first, each state with its own links. */
  lemma {:induction false} WalkOfChain(c: seq<Block>, i: nat)
    requires c != [] && i < |c|
    ensures |Walk(StateOf(c))| == |c|
    ensures Walk(StateOf(c))[i] == StateOf(c[..|c| - i]) && Walk(StateOf(c))[i].block == c[|c| - 1 - i]
  {
    var below := c[..|c| - 1];
    if |c| > 1 {
      WalkOfChain(below, if i == 0 then 0 else i - 1);
      if i > 0 { assert below[..|below| - (i - 1)] == c[..|c| - i]; }
    }
    assert c[..|c|] == c;
  }

  /** `anchor`: the hash and number below the oldest state reached. */
  method Anchor(s: BlockState) returns (number: int, hash: Block)
    ensures var oldest := Walk(s)[|Walk(s)| - 1].block;
      hash == ParentHash(oldest) && number == if Number(oldest) > 0 then Number(oldest) - 1 else 0
  {
    var current := s;
    while current.parent.Some?
      invariant Walk(s)[|Walk(s)| - 1] == Walk(current)[|Walk(current)| - 1]
      decreases current
    {
      current := current.parent.value;
    }
    hash := ParentHash(current.block);
    number := if Number(current.block) > 0 then Number(current.block) - 1 else 0;
  }

  /** From any state of a chain, the anchor is the block just below the lowest one kept. */
  lemma AnchorOfChain(c: seq<Block>, i: nat)
    requires Linked(c) && i < |c|
    ensures var walk := Walk(StateOf(c[..i + 1])); walk[|walk| - 1].block == c[0]
    ensures Number(c[0]) > 0 ==> Number(ParentHash(c[0])) == Number(c[0]) - 1
  {
    WalkOfChain(c[..i + 1], i);
  }
}
