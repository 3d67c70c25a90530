/**
  The block hashes a big block makes available to BLOCKHASH: those known before the payload and those of the
  blocks finished inside it, written into a ring of 256 slots whenever a segment opens.
 */
module BlockHashes {
  import opened Basics
  import opened Outcomes
  import opened BigBlockPlan

  /** A block number with its hash. */
  type Known = (nat, nat)

  /** One entry per slot, the slot of a number being its remainder. */
  type Ring = map<nat, Known>

  const WINDOW: nat := 256

  function Lookup(ring: Ring, number: nat): Option<nat>
  {
    var slot := number % WINDOW;
    if slot in ring && ring[slot].0 == number then Some(ring[slot].1) else None
  }

  /** The block number as the seeding reads it, cut off at 64 bits. */
  function NumberOf(env: BlockEnv): nat
  {
    if env.number <= MAX_U64 then env.number else MAX_U64
  }

  /** The block before a segment, by number and hash; the subtraction wraps at zero. */
  function FinishedBefore(env: BlockEnv, ctx: BlockCtx): Known
  {
    (if NumberOf(env) == 0 then MAX_U64 else NumberOf(env) - 1, ctx.parentHash)
  }

  predicate InWindow(n: nat, number: nat)
  {
    (if n < WINDOW then 0 else n - WINDOW) <= number < n
  }

  // ---------------------------------------------------------------------------
  // The list to seed from
  // ---------------------------------------------------------------------------

  ghost predicate ByNumber(hashes: seq<Known>)
  {
    forall i, j :: 0 <= i < j < |hashes| ==> hashes[i].0 <= hashes[j].0
  }

  /** Everything known about a payload: what came with it, and the block before each segment but the first. */
  function KnownHashes(bs: seq<ExecData>, prior: seq<Known>): set<Known>
  {
    (set x | x in prior) + (set k | 1 <= k < |bs| :: FinishedBefore(bs[k].env, bs[k].ctx))
  }

  /** Where an entry goes among sorted ones. */
  method Place(hashes: seq<Known>, x: Known) returns (r: seq<Known>)
    requires ByNumber(hashes)
    ensures ByNumber(r) && multiset(r) == multiset(hashes) + multiset{x}
  {
    var i := |hashes|;
    while i > 0 && hashes[i - 1].0 > x.0
      invariant 0 <= i <= |hashes|
      invariant forall k :: i <= k < |hashes| ==> hashes[k].0 > x.0
    {
      i := i - 1;
    }
    r := hashes[..i] + [x] + hashes[i..];
    Placed(hashes, x, i);
  }

  lemma Placed(hashes: seq<Known>, x: Known, i: nat)
    requires ByNumber(hashes) && i <= |hashes| && (forall k :: i <= k < |hashes| ==> hashes[k].0 > x.0)
    requires i > 0 ==> hashes[i - 1].0 <= x.0
    ensures ByNumber(hashes[..i] + [x] + hashes[i..])
    ensures multiset(hashes[..i] + [x] + hashes[i..]) == multiset(hashes) + multiset{x}
  {
    PlacedSame(hashes, x, i);
    var r := hashes[..i] + [x] + hashes[i..];
    forall a, b | 0 <= a < b < |r|
      ensures r[a].0 <= r[b].0
    {
      assert a < i ==> r[a] == hashes[a] && r[a].0 <= hashes[i - 1].0;
      assert b > i ==> r[b] == hashes[b - 1];
      assert a > i ==> r[a] == hashes[a - 1];
    }
  }

  lemma PlacedSame(hashes: seq<Known>, x: Known, i: nat)
    requires i <= |hashes|
    ensures multiset(hashes[..i] + [x] + hashes[i..]) == multiset(hashes) + multiset{x}
  {
    assert hashes == hashes[..i] + hashes[i..];
  }

  method SortByNumber(hashes: seq<Known>) returns (r: seq<Known>)
    ensures ByNumber(r) && multiset(r) == multiset(hashes)
  {
    r := [];
    for i := 0 to |hashes|
      invariant ByNumber(r) && multiset(r) == multiset(hashes[..i])
    {
      assert hashes[..i + 1] == hashes[..i] + [hashes[i]];
      r := Place(r, hashes[i]);
    }
    assert hashes[..|hashes|] == hashes;
  }

  /** `BbEvmPlan::new` with the prior hashes added: sorted, and nothing lost or added. */
  method HashesToSeed(segments: seq<Segment>, ghost bs: seq<ExecData>, prior: seq<Known>) returns (r: seq<Known>)
    requires IsPlan(segments, bs)
    ensures ByNumber(r) && forall x :: x in r <==> x in KnownHashes(bs, prior)
  {
    var all: seq<Known> := [];
    for k := 0 to |segments|
      invariant forall x :: x in all <==> exists j :: 1 <= j < k && x == FinishedBefore(bs[j].env, bs[j].ctx)
    {
      if k >= 1 { all := all + [FinishedBefore(segments[k].env, segments[k].ctx)]; }
    }
    all := all + prior;
    r := SortByNumber(all);
    SameMembers(r, all);
  }

  lemma SameMembers(a: seq<Known>, b: seq<Known>)
    requires multiset(a) == multiset(b)
    ensures forall x :: x in a <==> x in b
  {
    forall x
      ensures x in a <==> x in b
    {
      assert x in a <==> x in multiset(a);
      assert x in b <==> x in multiset(b);
    }
  }

  // ---------------------------------------------------------------------------
  // Seeding
  // ---------------------------------------------------------------------------

  function Within(hashes: seq<Known>, n: nat): seq<Known>
  {
    if hashes == [] then [] else
      var last := hashes[|hashes| - 1];
      Within(hashes[..|hashes| - 1], n) + if InWindow(n, last.0) then [last] else []
  }

  lemma {:induction false} WithinMembers(hashes: seq<Known>, n: nat)
    ensures forall x :: x in Within(hashes, n) <==> x in hashes && InWindow(n, x.0)
  {
    if hashes != [] {
      var rest, last := hashes[..|hashes| - 1], hashes[|hashes| - 1];
      WithinMembers(rest, n);
      assert hashes == rest + [last];
    }
  }

  /** `hashes_for_block`: the entries BLOCKHASH can ask for in a block, in their order. */
  method HashesForBlock(hashes: seq<Known>, n: nat) returns (r: seq<Known>)
    ensures r == Within(hashes, n)
    ensures forall x :: x in r <==> x in hashes && InWindow(n, x.0)
  {
    r := [];
    for i := 0 to |hashes|
      invariant r == Within(hashes[..i], n)
    {
      assert hashes[..i + 1][..i] == hashes[..i];
      var min := if n < WINDOW then 0 else n - WINDOW;
      if hashes[i].0 >= min && hashes[i].0 < n { r := r + [hashes[i]]; }
    }
    assert hashes[..|hashes|] == hashes;
    WithinMembers(hashes, n);
  }

  /** What BLOCKHASH finds in a block: a known hash wherever one is known, and what was there before otherwise. */
  ghost predicate Seeded(before: Ring, after: Ring, known: set<Known>, n: nat)
  {
    forall number: nat :: InWindow(n, number) ==>
      if exists x :: x in known && x.0 == number then
        Lookup(after, number).Some? && (number, Lookup(after, number).value) in known
      else Lookup(after, number) == Lookup(before, number)
  }

  /** Numbers of one window have slots of their own. */
  lemma OwnSlots(n: nat, a: nat, b: nat)
    requires InWindow(n, a) && InWindow(n, b) && a % WINDOW == b % WINDOW
    ensures a == b
  {
  }

  lemma SeedStep(before: Ring, ring: Ring, done: set<Known>, x: Known, n: nat)
    requires Seeded(before, ring, done, n) && InWindow(n, x.0)
    ensures Seeded(before, ring[x.0 % WINDOW := x], done + {x}, n)
  {
    var after := ring[x.0 % WINDOW := x];
    forall number: nat | InWindow(n, number)
      ensures if exists y :: y in done + {x} && y.0 == number then
                Lookup(after, number).Some? && (number, Lookup(after, number).value) in done + {x}
              else Lookup(after, number) == Lookup(before, number)
    {
      if number % WINDOW == x.0 % WINDOW {
        OwnSlots(n, number, x.0);
        assert x in done + {x} && x.0 == number;
      } else {
        assert Lookup(after, number) == Lookup(ring, number);
        assert (exists y :: y in done + {x} && y.0 == number) <==> (exists y :: y in done && y.0 == number);
      }
    }
  }

  lemma OnlyTheWindow(before: Ring, after: Ring, some: set<Known>, known: set<Known>, n: nat)
    requires Seeded(before, after, some, n)
    requires forall x :: x in some <==> x in known && InWindow(n, x.0)
    ensures Seeded(before, after, known, n)
  {
    forall number: nat | InWindow(n, number)
      ensures (exists x :: x in known && x.0 == number) <==> (exists x :: x in some && x.0 == number)
    {
      if x :| x in known && x.0 == number { assert x in some; }
    }
  }

  /** `reseed_block_hashes_for`: whatever the ring held, afterwards the window of the block is resolved. */
  method Reseed(ring: Ring, hashes: seq<Known>, n: nat) returns (after: Ring)
    ensures Seeded(ring, after, (set x | x in hashes), n)
  {
    var relevant := HashesForBlock(hashes, n);
    after := ring;
    ghost var done: set<Known> := {};
    for i := 0 to |relevant|
      invariant done == set x | x in relevant[..i]
      invariant Seeded(ring, after, done, n)
    {
      var x := relevant[i];
      assert x in relevant && relevant[..i + 1] == relevant[..i] + [x];
      SeedStep(ring, after, done, x, n);
      after := after[x.0 % WINDOW := x];
      done := done + {x};
    }
    assert relevant[..|relevant|] == relevant;
    OnlyTheWindow(ring, after, done, (set x | x in hashes), n);
  }

  // ---------------------------------------------------------------------------
  // What a segment can look up
  // ---------------------------------------------------------------------------

  /** Every number in the window of a block that has a known hash is found under such a hash. */
  ghost predicate Resolves(ring: Ring, known: set<Known>, n: nat)
  {
    forall x :: x in known && InWindow(n, x.0) ==> Lookup(ring, x.0).Some? && (x.0, Lookup(ring, x.0).value) in known
  }

  lemma SeededResolves(before: Ring, after: Ring, known: set<Known>, n: nat)
    requires Seeded(before, after, known, n)
    ensures Resolves(after, known, n)
  {
  }

  /** Segment `k` found the ring it was given, with the known hashes of its own window. */
  ghost predicate SeededAt(start: Ring, rings: seq<Ring>, known: set<Known>, bs: seq<ExecData>, k: nat)
    requires k < |rings| && k < |bs|
  {
    Seeded(if k == 0 then start else rings[k - 1], rings[k], known, NumberOf(bs[k].env))
  }

  /** The rings of all segments so far, each seeded from the one before. */
  ghost predicate AllSeeded(start: Ring, rings: seq<Ring>, known: set<Known>, bs: seq<ExecData>)
  {
    |rings| <= |bs| && forall k :: 0 <= k < |rings| ==> SeededAt(start, rings, known, bs, k)
  }

  lemma OneMoreSeeded(start: Ring, rings: seq<Ring>, ring: Ring, known: set<Known>, bs: seq<ExecData>)
    requires AllSeeded(start, rings, known, bs) && |rings| < |bs|
    requires Seeded(if rings == [] then start else rings[|rings| - 1], ring, known, NumberOf(bs[|rings|].env))
    ensures AllSeeded(start, rings + [ring], known, bs)
  {
    hide Seeded;
    var all := rings + [ring];
    forall k | 0 <= k < |all|
      ensures SeededAt(start, all, known, bs, k)
    {
      if k < |rings| { assert SeededAt(start, rings, known, bs, k) && (k > 0 ==> all[k - 1] == rings[k - 1]); }
    }
  }

  /** No two hashes for one number. */
  ghost predicate OneHashEach(known: set<Known>)
  {
    forall x, y :: x in known && y in known && x.0 == y.0 ==> x == y
  }

  /**
    In segment `k` the block before any segment, its own first of all, has the hash that segment names as its
    parent, as long as it is among the last 256.
   */
  lemma FinishedBlocksResolve(bs: seq<ExecData>, prior: seq<Known>, start: Ring, rings: seq<Ring>, k: nat, j: nat)
    requires k < |rings| && AllSeeded(start, rings, KnownHashes(bs, prior), bs)
    requires 1 <= j < |bs| && OneHashEach(KnownHashes(bs, prior))
    ensures var n, x := NumberOf(bs[k].env), FinishedBefore(bs[j].env, bs[j].ctx);
      && (InWindow(n, x.0) ==> Lookup(rings[k], x.0) == Some(bs[j].ctx.parentHash))
      && (j == k && n > 0 ==> Lookup(rings[k], n - 1) == Some(bs[k].ctx.parentHash))
  {
    hide Seeded, Lookup;
    assert SeededAt(start, rings, KnownHashes(bs, prior), bs, k);
    SeededResolves(if k == 0 then start else rings[k - 1], rings[k], KnownHashes(bs, prior), NumberOf(bs[k].env));
    var x := FinishedBefore(bs[j].env, bs[j].ctx);
    assert x in KnownHashes(bs, prior);
  }
}
