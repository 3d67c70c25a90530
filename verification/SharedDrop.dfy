/**
  Releasing shared parent chains.  `BlockState` nodes own a counted reference to their parent; a
  node whose last reference goes away is drained iteratively instead of recursively.  Any number of
  releasers run at once, each atomic decrement being one step.
 */
module SharedDrop {
  import opened Outcomes

  type Node = nat

  /**
    `origin[n]` is the parent node `n` was created with; a node keeps that reference until it is
    freed.  `live` are the nodes still allocated and `count` their reference counts.  `handles` are
    the references held outside the forest, `drains` those held by drain loops in progress, and
    `freed` lists the released nodes in order.
   */
  datatype Heap = Heap(
    origin: seq<Option<Node>>,
    live: set<Node>,
    count: map<Node, nat>,
    handles: multiset<Node>,
    drains: multiset<Node>,
    freed: seq<Node>)

  const EMPTY := Heap([], {}, map[], multiset{}, multiset{}, [])

  ghost function Children(h: Heap, n: Node): set<Node>
  {
    set c | c in h.live && c < |h.origin| && h.origin[c] == Some(n)
  }

  /** How often `n` is actually referenced. */
  ghost function References(h: Heap, n: Node): nat
  {
    h.handles[n] + h.drains[n] + |Children(h, n)|
  }

  // ---------------------------------------------------------------------------
  // Steps
  // ---------------------------------------------------------------------------

  function WithoutOne(h: Heap, n: Node): Heap
    requires n in h.count && h.count[n] >= 1
  {
    h.(count := h.count[n := h.count[n] - 1])
  }

  function Freed(h: Heap, n: Node): Heap
  {
    h.(live := h.live - {n}, count := h.count - {n}, freed := h.freed + [n])
  }

  /** Drops one reference; the last one frees the node and leaves a drain holding its parent. */
  function ReleaseReference(h: Heap, n: Node): Heap
    requires n in h.count && n < |h.origin|
  {
    if h.count[n] > 1 then WithoutOne(h, n)
    else if h.origin[n].None? then Freed(h, n)
    else Freed(h, n).(drains := h.drains + multiset{h.origin[n].value})
  }

  function Gained(h: Heap, n: Node): Heap
    requires n in h.count
  {
    h.(handles := h.handles + multiset{n}, count := h.count[n := h.count[n] + 1])
  }

  function Created(h: Heap, p: Option<Node>): Heap
  {
    var n := |h.origin|;
    h.(origin := h.origin + [p], live := h.live + {n}, count := h.count[n := 1],
       handles := (if p.Some? then h.handles - multiset{p.value} else h.handles) + multiset{n})
  }

  datatype Step =
    | New(parent: Option<Node>)       // a node built from a parent handle it takes over
    | CloneHandle(node: Node)
    | CloneParent(node: Node)         // a reader steps from a node it holds to its parent
    | DropHandle(node: Node)
    | DrainOne(node: Node)            // one iteration of some drain loop

  ghost predicate Enabled(h: Heap, s: Step)
  {
    match s
    case New(p) => p.Some? ==> p.value in h.handles
    case CloneHandle(n) => n in h.handles && n in h.count
    case CloneParent(n) => n in h.handles && n < |h.origin| && h.origin[n].Some? && h.origin[n].value in h.count
    case DropHandle(n) => n in h.handles && n in h.count && n < |h.origin|
    case DrainOne(n) => n in h.drains && n in h.count && n < |h.origin|
  }

  ghost function Apply(h: Heap, s: Step): Heap
    requires Enabled(h, s)
  {
    match s
    case New(p) => Created(h, p)
    case CloneHandle(n) => Gained(h, n)
    case CloneParent(n) => Gained(h, h.origin[n].value)
    case DropHandle(n) => ReleaseReference(h.(handles := h.handles - multiset{n}), n)
    case DrainOne(n) => ReleaseReference(h.(drains := h.drains - multiset{n}), n)
  }

  // ---------------------------------------------------------------------------
  // The invariant
  // ---------------------------------------------------------------------------

  /** Everything that is pointed at is allocated, and parents are older than their children. */
  ghost predicate Shape(h: Heap)
  {
    && h.count.Keys == h.live
    && (forall n :: n in h.live ==> n < |h.origin|)
    && (forall n :: n in h.handles ==> n in h.live)
    && (forall n :: n in h.drains ==> n in h.live)
    && (forall n {:trigger h.origin[n]} :: n in h.live && h.origin[n].Some? ==> h.origin[n].value in h.live)
    && (forall n {:trigger h.origin[n]} :: 0 <= n < |h.origin| && h.origin[n].Some? ==> h.origin[n].value < n)
  }

  /** Every node is allocated or was freed, once. */
  ghost predicate Partitioned(h: Heap)
  {
    && (forall n: Node {:trigger n in h.live} {:trigger n in h.freed} :: n < |h.origin| ==> n in h.live || n in h.freed)
    && (forall n :: n in h.freed ==> n < |h.origin| && n !in h.live)
    && (forall i, j :: 0 <= i < j < |h.freed| ==> h.freed[i] != h.freed[j])
  }

  /** Exact books, except for `extra` references to `n` that nobody lists any more. */
  ghost predicate Books(h: Heap, n: Node, extra: nat)
    requires h.count.Keys == h.live
  {
    forall m {:trigger h.count[m]} :: m in h.live ==>
      h.count[m] == References(h, m) + (if m == n then extra else 0) && h.count[m] >= 1
  }

  ghost predicate Inv(h: Heap)
  {
    Shape(h) && Partitioned(h) && Books(h, 0, 0)
  }

  /** A reference to `n` has been taken out of the books and is about to be released. */
  ghost predicate Loose(h: Heap, n: Node)
  {
    Shape(h) && Partitioned(h) && n in h.live && Books(h, n, 1)
  }

  lemma ShapeBasics(h: Heap, n: Node)
    requires Shape(h) && n in h.live
    ensures h.count.Keys == h.live && n < |h.origin|
    ensures h.origin[n].Some? ==> h.origin[n].value in h.live && h.origin[n].value < n
  {
  }

  lemma ShapeKeys(h: Heap)
    requires Shape(h)
    ensures h.count.Keys == h.live
  {
  }

  lemma FreeingShape(h: Heap, n: Node)
    requires Shape(h) && n in h.live && References(h, n) == 0
    ensures Shape(Freed(h, n))
  {
    var r := Freed(h, n);
    forall m {:trigger r.origin[m]} | m in r.live && r.origin[m].Some? ensures r.origin[m].value in r.live {
      assert m !in Children(h, n);
    }
  }

  lemma FreeingPartition(h: Heap, n: Node)
    requires Partitioned(h) && n in h.live && n < |h.origin|
    ensures Partitioned(Freed(h, n))
  {
    var r := Freed(h, n);
    assert n !in h.freed;
    assert r.freed[|h.freed|] == n;
    assert forall m :: m in r.freed <==> m in h.freed || m == n;
  }

  /** Freeing a node removes it from exactly one set of children. */
  lemma FreeingChildren(h: Heap, n: Node, m: Node)
    requires n in h.live && n < |h.origin|
    ensures |Children(Freed(h, n), m)| == |Children(h, m)| - (if h.origin[n] == Some(m) then 1 else 0)
  {
    assert Children(Freed(h, n), m) == Children(h, m) - {n};
    assert n in Children(h, m) <==> h.origin[n] == Some(m);
  }

  /** The heart of the drain: freeing a node leaves the reference to its parent unlisted. */
  lemma FreeingLoosensParent(h: Heap, n: Node)
    requires Loose(h, n) && h.count[n] == 1
    ensures h.origin[n].None? ==> Inv(Freed(h, n))
    ensures h.origin[n].Some? ==> Loose(Freed(h, n), h.origin[n].value)
  {
    hide Shape, Partitioned, Children;
    ShapeBasics(h, n);
    FreeingShape(h, n);
    FreeingPartition(h, n);
    var r, p := Freed(h, n), h.origin[n];
    forall m {:trigger r.count[m]} | m in r.live
      ensures r.count[m] == References(r, m) + (if p == Some(m) then 1 else 0) && r.count[m] >= 1
    {
      assert h.count[m] == References(h, m);
      FreeingChildren(h, n, m);
    }
  }

  lemma ReleaseKeepsInv(h: Heap, n: Node)
    requires Loose(h, n)
    ensures Inv(ReleaseReference(h, n))
  {
    hide Partitioned, Books;
    ShapeBasics(h, n);
    LooseCounts(h, n);
    if h.count[n] == 1 {
      FreeingLoosensParent(h, n);
      if h.origin[n].Some? { ListingReference(Freed(h, n), h.origin[n].value); }
    } else {
      BooksFollow(h, n, 1, WithoutOne(h, n), 0, 0);
      SamePartition(h, WithoutOne(h, n));
    }
  }

  lemma SameChildren(h: Heap, g: Heap, m: Node)
    requires h.live == g.live && h.origin == g.origin
    ensures Children(h, m) == Children(g, m)
  {
  }

  /** Books move from `h` to `g` when each count changes by as much as the listed references do. */
  lemma BooksFollow(h: Heap, a: Node, x: nat, g: Heap, b: Node, y: nat)
    requires h.count.Keys == h.live == g.count.Keys == g.live && h.origin == g.origin && Books(h, a, x)
    requires forall m :: m in h.live ==>
      g.count[m] - g.handles[m] - g.drains[m] - (if m == b then y else 0) ==
      h.count[m] - h.handles[m] - h.drains[m] - (if m == a then x else 0)
    requires forall m :: m in g.live ==> g.count[m] >= 1
    ensures Books(g, b, y)
  {
    hide Children;
    forall m {:trigger g.count[m]} | m in g.live
      ensures g.count[m] == References(g, m) + (if m == b then y else 0)
    {
      SameChildren(h, g, m);
      assert h.count[m] == References(h, m) + (if m == a then x else 0);
    }
  }

  lemma LooseCounts(h: Heap, n: Node)
    requires Loose(h, n)
    ensures forall m :: m in h.live ==> h.count[m] >= 1
  {
  }

  lemma InvCounts(h: Heap)
    requires Inv(h)
    ensures forall m :: m in h.live ==> h.count[m] >= 1
  {
  }

  lemma SamePartition(h: Heap, g: Heap)
    requires h.live == g.live && h.origin == g.origin && h.freed == g.freed && Partitioned(h)
    ensures Partitioned(g)
  {
  }

  /** A drain that takes over the unlisted reference restores the books. */
  lemma ListingReference(h: Heap, n: Node)
    requires Loose(h, n)
    ensures Inv(h.(drains := h.drains + multiset{n}))
  {
    var r := h.(drains := h.drains + multiset{n});
    hide Partitioned, Books;
    LooseCounts(h, n);
    SamePartition(h, r);
    BooksFollow(h, n, 1, r, 0, 0);
  }

  lemma CreatedShape(h: Heap, p: Option<Node>)
    requires Shape(h) && (p.Some? ==> p.value in h.handles)
    ensures Shape(Created(h, p))
  {
    var n, r := |h.origin|, Created(h, p);
    assert r.origin[n] == p;
    assert forall m {:trigger r.origin[m]} :: 0 <= m < n ==> r.origin[m] == h.origin[m];
    assert forall m :: m in r.live ==> m in h.live || m == n;
  }

  lemma CreatedPartition(h: Heap, p: Option<Node>)
    requires Shape(h) && Partitioned(h)
    ensures Partitioned(Created(h, p))
  {
  }

  lemma CreatedChildren(h: Heap, p: Option<Node>, m: Node)
    requires |h.origin| !in h.live
    ensures |Children(Created(h, p), m)| == |Children(h, m)| + (if p == Some(m) then 1 else 0)
  {
    var n, r := |h.origin|, Created(h, p);
    assert n !in Children(h, m);
    assert Children(r, m) == if p == Some(m) then Children(h, m) + {n} else Children(h, m);
  }

  /** Nothing points at a node that does not exist yet. */
  lemma NothingPointsAhead(h: Heap)
    requires Shape(h)
    ensures |h.origin| !in h.live && References(h, |h.origin|) == 0
  {
    assert Children(h, |h.origin|) == {};
  }

  lemma CreatedKeepsInv(h: Heap, p: Option<Node>)
    requires Inv(h) && Enabled(h, New(p))
    ensures Inv(Created(h, p))
  {
    hide Shape, Partitioned, Children;
    ShapeKeys(h);
    CreatedShape(h, p);
    CreatedPartition(h, p);
    NothingPointsAhead(h);
    var n, r := |h.origin|, Created(h, p);
    forall m {:trigger r.count[m]} | m in r.live ensures r.count[m] == References(r, m) && r.count[m] >= 1 {
      CreatedChildren(h, p, m);
      if m != n { assert h.count[m] == References(h, m); }
    }
  }

  lemma GainedKeepsInv(h: Heap, n: Node)
    requires Inv(h) && n in h.live
    ensures Inv(Gained(h, n))
  {
    hide Partitioned, Books;
    InvCounts(h);
    SamePartition(h, Gained(h, n));
    BooksFollow(h, 0, 0, Gained(h, n), 0, 0);
  }

  lemma TakingHandleLoosens(h: Heap, n: Node)
    requires Inv(h) && n in h.handles
    ensures Loose(h.(handles := h.handles - multiset{n}), n)
  {
    var r := h.(handles := h.handles - multiset{n});
    hide Partitioned, Books;
    InvCounts(h);
    SamePartition(h, r);
    BooksFollow(h, 0, 0, r, n, 1);
  }

  lemma TakingDrainLoosens(h: Heap, n: Node)
    requires Inv(h) && n in h.drains
    ensures Loose(h.(drains := h.drains - multiset{n}), n)
  {
    var r := h.(drains := h.drains - multiset{n});
    hide Partitioned, Books;
    InvCounts(h);
    SamePartition(h, r);
    BooksFollow(h, 0, 0, r, n, 1);
  }

  lemma StepKeepsInv(h: Heap, s: Step)
    requires Inv(h) && Enabled(h, s)
    ensures Inv(Apply(h, s))
  {
    match s
    case New(p) => CreatedKeepsInv(h, p);
    case CloneHandle(n) => GainedKeepsInv(h, n);
    case CloneParent(n) => GainedKeepsInv(h, h.origin[n].value);
    case DropHandle(n) =>
      TakingHandleLoosens(h, n);
      ReleaseKeepsInv(h.(handles := h.handles - multiset{n}), n);
    case DrainOne(n) =>
      TakingDrainLoosens(h, n);
      ReleaseKeepsInv(h.(drains := h.drains - multiset{n}), n);
  }

  // ---------------------------------------------------------------------------
  // Runs
  // ---------------------------------------------------------------------------

  /** Any interleaving: each heap follows from the one before by one enabled step. */
  ghost predicate IsRun(heaps: seq<Heap>, steps: seq<Step>)
  {
    && |heaps| == |steps| + 1 && heaps[0] == EMPTY
    && forall i :: 0 <= i < |steps| ==> Follows(heaps[i], steps[i], heaps[i + 1])
  }

  ghost predicate Follows(h: Heap, s: Step, next: Heap)
  {
    Enabled(h, s) && next == Apply(h, s)
  }

  lemma {:induction false} RunKeepsInv(heaps: seq<Heap>, steps: seq<Step>, i: nat)
    requires IsRun(heaps, steps) && i < |heaps|
    ensures Inv(heaps[i])
  {
    if i > 0 {
      RunKeepsInv(heaps, steps, i - 1);
      assert Follows(heaps[i - 1], steps[i - 1], heaps[i]);
      StepKeepsInv(heaps[i - 1], steps[i - 1]);
    }
  }

  /** `n` is `from` or one of its ancestors. */
  ghost predicate Reaches(h: Heap, from: Node, n: Node)
    requires Shape(h) && from < |h.origin|
    decreases from
  {
    from == n || (h.origin[from].Some? && Reaches(h, h.origin[from].value, n))
  }

  /** A live handle reaches `n`. */
  ghost predicate Held(h: Heap, n: Node)
    requires Shape(h)
  {
    exists from :: from in h.handles && Reaches(h, from, n)
  }

  lemma {:induction false} ReachedIsLive(h: Heap, from: Node, n: Node)
    requires Shape(h) && from in h.live && Reaches(h, from, n)
    ensures n in h.live
    decreases from
  {
    if from != n { ReachedIsLive(h, h.origin[from].value, n); }
  }

  lemma {:induction false} ReachesParent(h: Heap, from: Node, n: Node)
    requires Shape(h) && from < |h.origin| && Reaches(h, from, n) && n < |h.origin| && h.origin[n].Some?
    ensures Reaches(h, from, h.origin[n].value)
    decreases from
  {
    if from == n {
      assert Reaches(h, h.origin[n].value, h.origin[n].value);
    } else {
      ReachesParent(h, h.origin[from].value, n);
    }
  }

  /** With no drain in progress an allocated node is held: climb from it to a node with a handle. */
  lemma {:induction false} LiveIsHeld(h: Heap, n: Node)
    requires Inv(h) && h.drains == multiset{} && n in h.live
    ensures Held(h, n)
    decreases |h.origin| - n
  {
    if n in h.handles {
      assert Reaches(h, n, n);
    } else {
      assert h.count[n] == References(h, n);
      assert Children(h, n) != {};
      var c :| c in Children(h, n);
      LiveIsHeld(h, c);
      var from :| from in h.handles && Reaches(h, from, c);
      ReachesParent(h, from, c);
    }
  }

  /**
    Under any interleaving of releasers: no node is freed twice, no node a live handle reaches is
    freed, and once all drains are done exactly the unreachable nodes have been freed.
   */
  lemma DrainIsSafeAndComplete(heaps: seq<Heap>, steps: seq<Step>, i: nat)
    requires IsRun(heaps, steps) && i < |heaps|
    ensures var h := heaps[i];
      && Shape(h)
      && (forall a, b :: 0 <= a < b < |h.freed| ==> h.freed[a] != h.freed[b])
      && (forall n :: Held(h, n) ==> n !in h.freed)
      && (h.drains == multiset{} ==> forall n: Node :: n < |h.origin| ==> (n in h.freed <==> !Held(h, n)))
  {
    RunKeepsInv(heaps, steps, i);
    var h := heaps[i];
    forall n | Held(h, n) ensures n !in h.freed {
      var from :| from in h.handles && Reaches(h, from, n);
      ReachedIsLive(h, from, n);
    }
    if h.drains == multiset{} {
      forall n: Node | n < |h.origin| ensures n in h.freed <==> !Held(h, n) {
        RestIsExact(h, n);
      }
    }
  }

  // ---------------------------------------------------------------------------
  // Coming to rest
  // ---------------------------------------------------------------------------

  /** An upper bound on the drain steps still to come. */
  ghost function Outstanding(h: Heap): nat
  {
    |h.drains| + |h.live|
  }

  /** Drain steps only, of whichever drain loops, in any order. */
  ghost predicate Drains(heaps: seq<Heap>, steps: seq<Step>)
  {
    && |heaps| == |steps| + 1
    && forall i :: 0 <= i < |steps| ==> steps[i].DrainOne? && Follows(heaps[i], steps[i], heaps[i + 1])
  }

  /** Whatever a drain loop holds it can release, and each such step brings rest nearer. */
  lemma DrainStep(h: Heap, n: Node)
    requires Inv(h) && n in h.drains
    ensures Enabled(h, DrainOne(n))
    ensures var g := Apply(h, DrainOne(n));
      Inv(g) && Outstanding(g) < Outstanding(h) && g.handles == h.handles && g.origin == h.origin
  {
    assert Enabled(h, DrainOne(n));
    StepKeepsInv(h, DrainOne(n));
    assert |h.drains - multiset{n}| == |h.drains| - 1;
    assert |h.live - {n}| == |h.live| - 1;
  }

  /** However the drain steps are chosen, there are no more of them than that. */
  lemma {:induction false} DrainingIsBounded(heaps: seq<Heap>, steps: seq<Step>)
    requires Drains(heaps, steps) && Inv(heaps[0])
    ensures var last := heaps[|steps|];
      && Inv(last) && |steps| + Outstanding(last) <= Outstanding(heaps[0])
      && last.handles == heaps[0].handles && last.origin == heaps[0].origin
  {
    hide Inv, Outstanding, Enabled, Apply;
    var n := |steps|;
    if n > 0 {
      DrainingIsBounded(heaps[..n], steps[..n - 1]);
      assert Follows(heaps[n - 1], steps[n - 1], heaps[n]);
      EnabledDrain(heaps[n - 1], steps[n - 1].node);
      DrainStep(heaps[n - 1], steps[n - 1].node);
    }
  }

  lemma EnabledDrain(h: Heap, n: Node)
    requires Enabled(h, DrainOne(n))
    ensures n in h.drains
  {
  }

  /** Rest can be reached from everywhere. */
  lemma {:induction false} RestIsReached(h: Heap) returns (heaps: seq<Heap>, steps: seq<Step>)
    requires Inv(h)
    ensures Drains(heaps, steps) && heaps[0] == h && heaps[|steps|].drains == multiset{}
    decreases Outstanding(h)
  {
    hide Inv, Outstanding, Enabled, Apply;
    if h.drains == multiset{} {
      heaps, steps := [h], [];
    } else {
      var n :| n in h.drains;
      DrainStep(h, n);
      var rest, more := RestIsReached(Apply(h, DrainOne(n)));
      heaps, steps := [h] + rest, [DrainOne(n)] + more;
      forall i | 0 <= i < |steps|
        ensures steps[i].DrainOne? && Follows(heaps[i], steps[i], heaps[i + 1])
      {
        if i > 0 { assert Follows(rest[i - 1], more[i - 1], rest[i]); }
      }
    }
  }

  lemma RestIsExact(h: Heap, n: Node)
    requires Inv(h) && h.drains == multiset{} && n < |h.origin|
    ensures Shape(h) && (n in h.freed <==> !Held(h, n))
  {
    if n in h.live {
      LiveIsHeld(h, n);
    } else if Held(h, n) {
      var from :| from in h.handles && Reaches(h, from, n);
      ReachedIsLive(h, from, n);
    }
  }

  lemma SameHeld(h: Heap, g: Heap, n: Node)
    requires Shape(h) && Shape(g) && h.handles == g.handles && h.origin == g.origin
    ensures Held(h, n) <==> Held(g, n)
  {
    forall from | from in h.handles
      ensures from < |h.origin| && (Reaches(h, from, n) <==> Reaches(g, from, n))
    {
      ReachesAgree(h, g, from, n);
    }
  }

  /**
    From any point of any run: the drain loops alone, in whatever order, are done after at most as many
    steps as there are references in drains and nodes allocated, they can always go on until then, and
    what is freed at the end is exactly what no handle reaches now.
   */
  lemma DrainingFreesExactly(heaps: seq<Heap>, steps: seq<Step>, i: nat, after: seq<Heap>, more: seq<Step>)
    requires IsRun(heaps, steps) && i < |heaps| && Drains(after, more) && after[0] == heaps[i]
    ensures var h, last := heaps[i], after[|more|];
      && Shape(h) && |more| <= |h.drains| + |h.live|
      && (last.drains != multiset{} ==> exists n :: Enabled(last, DrainOne(n)))
      && (last.drains == multiset{} ==> forall n: Node :: n < |h.origin| ==> (n in last.freed <==> !Held(h, n)))
  {
    hide Partitioned, Books, Enabled, Apply, IsRun, Follows;
    RunKeepsInv(heaps, steps, i);
    DrainingIsBounded(after, more);
    var h, last := heaps[i], after[|more|];
    if last.drains == multiset{} {
      forall n: Node | n < |h.origin|
        ensures n in last.freed <==> !Held(h, n)
      {
        RestIsExact(last, n);
        SameHeld(h, last, n);
      }
    } else {
      var n :| n in last.drains;
      DrainStep(last, n);
    }
  }

  // ---------------------------------------------------------------------------
  // Against the recursive drop
  // ---------------------------------------------------------------------------

  /** What the derived drop would do: release the reference and recurse into the parent at once. */
  ghost function RecursiveRelease(h: Heap, n: Node): (r: Heap)
    requires Loose(h, n)
    ensures Inv(r) && r.handles == h.handles && r.drains == h.drains && r.origin == h.origin
    decreases n
  {
    if h.count[n] > 1 then ReleaseKeepsInv(h, n); WithoutOne(h, n)
    else
      FreeingLoosensParent(h, n);
      if h.origin[n].None? then Freed(h, n) else RecursiveRelease(Freed(h, n), h.origin[n].value)
  }

  /**
    `Drop for BlockState`, run on its own: the loop detaches one parent after the other and leaves
    exactly what the recursive drop leaves.
   */
  method DropReference(h: Heap, n: Node) returns (r: Heap)
    requires Loose(h, n)
    ensures r == RecursiveRelease(h, n)
  {
    if h.count[n] > 1 { return WithoutOne(h, n); }
    FreeingLoosensParent(h, n);
    var parent := h.origin[n];
    r := Freed(h, n);
    while parent.Some?
      invariant parent.None? ==> r == RecursiveRelease(h, n)
      invariant parent.Some? ==> Loose(r, parent.value) && RecursiveRelease(r, parent.value) == RecursiveRelease(h, n)
      decreases if parent.Some? then parent.value + 1 else 0
    {
      var state := parent.value;
      // A shared parent is left to its last owner.
      if r.count[state] > 1 {
        r := WithoutOne(r, state);
        break;
      }
      FreeingLoosensParent(r, state);
      parent := r.origin[state];
      r := Freed(r, state);
    }
  }

  /** One step of the reference run: drops are recursive and done in one go, drain steps do nothing. */
  ghost function AtomicStep(before: Heap, s: Step): Heap
    requires Inv(before) && (s.DrainOne? || Enabled(before, s))
  {
    if s.DrainOne? then before
    else if s.DropHandle? then
      TakingHandleLoosens(before, s.node);
      RecursiveRelease(before.(handles := before.handles - multiset{s.node}), s.node)
    else Apply(before, s)
  }

  /** The reference run beside the interleaved one. */
  ghost function Recursively(heaps: seq<Heap>, steps: seq<Step>, i: nat): (r: Heap)
    requires IsRun(heaps, steps) && i < |heaps|
    ensures Inv(r) && r.drains == multiset{}
    ensures r.handles == heaps[i].handles && r.origin == heaps[i].origin
  {
    if i == 0 then EMPTY
    else
      var before := Recursively(heaps, steps, i - 1);
      assert Follows(heaps[i - 1], steps[i - 1], heaps[i]);
      AtomicStepKeepsPace(before, heaps[i - 1], steps[i - 1]);
      AtomicStep(before, steps[i - 1])
  }

  lemma AtomicStepKeepsPace(before: Heap, h: Heap, s: Step)
    requires Inv(before) && before.drains == multiset{} && Enabled(h, s)
    requires before.handles == h.handles && before.origin == h.origin
    ensures s.DrainOne? || Enabled(before, s)
    ensures var r := AtomicStep(before, s);
      && Inv(r) && r.drains == multiset{}
      && r.handles == Apply(h, s).handles && r.origin == Apply(h, s).origin
  {
    hide Shape, Partitioned, Books;
    if s.DrainOne? {
    } else if s.DropHandle? {
      EnabledBeside(before, h, s);
      TakingHandleLoosens(before, s.node);
    } else {
      EnabledBeside(before, h, s);
      StepKeepsInv(before, s);
    }
  }

  lemma EnabledBeside(before: Heap, h: Heap, s: Step)
    requires Inv(before) && Enabled(h, s) && !s.DrainOne?
    requires before.handles == h.handles && before.origin == h.origin
    ensures Enabled(before, s)
  {
  }

  /** Interleaved drains end up freeing the same nodes as recursive drops. */
  lemma DrainMatchesRecursiveDrop(heaps: seq<Heap>, steps: seq<Step>, i: nat)
    requires IsRun(heaps, steps) && i < |heaps| && heaps[i].drains == multiset{}
    ensures forall n: Node :: n in heaps[i].freed <==> n in Recursively(heaps, steps, i).freed
  {
    RunKeepsInv(heaps, steps, i);
    var h, g := heaps[i], Recursively(heaps, steps, i);
    forall n: Node ensures n in h.freed <==> n in g.freed {
      FreedThereFreedHere(h, g, n);
      FreedThereFreedHere(g, h, n);
    }
  }

  lemma {:induction false} ReachesAgree(h: Heap, g: Heap, from: Node, n: Node)
    requires Shape(h) && Shape(g) && h.origin == g.origin && from < |h.origin|
    ensures Reaches(h, from, n) == Reaches(g, from, n)
    decreases from
  {
    if from != n && h.origin[from].Some? { ReachesAgree(h, g, h.origin[from].value, n); }
  }

  lemma FreedThereFreedHere(h: Heap, g: Heap, n: Node)
    requires Inv(h) && Inv(g) && h.drains == multiset{}
    requires h.handles == g.handles && h.origin == g.origin
    ensures n in g.freed ==> n in h.freed
  {
    if n in h.live {
      LiveIsHeld(h, n);
      var from :| from in h.handles && Reaches(h, from, n);
      ReachesAgree(h, g, from, n);
      ReachedIsLive(g, from, n);
    }
  }
}
