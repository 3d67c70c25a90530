/**
  Fork identifiers as in the Specification section of EIP-6122.  The checksum is a free hash: the
  list of numbers folded into it, in order.
 */
module ForkId {
  import opened Outcomes

  datatype ForkCondition =
    | AtBlock(block: nat)
    | TTD(totalDifficulty: nat, forkBlock: Option<nat>)
    | AtTime(time: nat)
    | Never

  datatype Head = Head(number: nat, timestamp: nat)

  datatype Id = Id(hashed: seq<nat>, next: nat)

  /** A fork that counts: activated by height, or by time after genesis. */
  datatype Point = ByHeight(at: nat) | ByTime(at: nat)

  predicate Reached(head: Head, p: Point)
  {
    if p.ByHeight? then head.number >= p.at else head.timestamp >= p.at
  }

  function HeightPoints(conds: seq<ForkCondition>): seq<Point>
  {
    if conds == [] then [] else
      HeightPoints(conds[..|conds| - 1]) + HeightOf(conds[|conds| - 1])
  }

  function HeightOf(cond: ForkCondition): seq<Point>
  {
    match cond
    case AtBlock(block) => [ByHeight(block)]
    case TTD(_, Some(block)) => [ByHeight(block)]
    case _ => []
  }

  function TimePoints(conds: seq<ForkCondition>, genesisTime: nat): seq<Point>
  {
    if conds == [] then [] else
      TimePoints(conds[..|conds| - 1], genesisTime) + TimeOf(conds[|conds| - 1], genesisTime)
  }

  function TimeOf(cond: ForkCondition, genesisTime: nat): seq<Point>
  {
    match cond
    case AtTime(time) => if time > genesisTime then [ByTime(time)] else []
    case _ => []
  }

  /** All block forks first, then the timestamp forks after genesis. */
  function Points(conds: seq<ForkCondition>, genesisTime: nat): seq<Point>
  {
    HeightPoints(conds) + TimePoints(conds, genesisTime)
  }

  /** Drops every value equal to the one before it, starting from zero. */
  function Compress(points: seq<Point>): seq<nat>
  {
    if points == [] then [] else
      var before := Compress(points[..|points| - 1]);
      var v := points[|points| - 1].at;
      if v == Last(before) then before else before + [v]
  }

  function Last(values: seq<nat>): nat
  {
    if values == [] then 0 else values[|values| - 1]
  }

  /** How many points in a row, from the first, the head has reached. */
  function ReachedCount(points: seq<Point>, head: Head): (n: nat)
    ensures n <= |points|
    ensures forall i :: 0 <= i < n ==> Reached(head, points[i])
    ensures n < |points| ==> !Reached(head, points[n])
  {
    if points == [] || !Reached(head, points[0]) then 0
    else
      var n := ReachedCount(points[1..], head);
      assert forall i :: 1 <= i < n + 1 ==> points[i] == points[1..][i - 1];
      assert n < |points| - 1 ==> points[n + 1] == points[1..][n];
      1 + n
  }

  /** The specification: hash the reached points, announce the first one not reached. */
  function IdAt(points: seq<Point>, head: Head): Id
  {
    var n := ReachedCount(points, head);
    Id(Compress(points[..n]), if n < |points| then points[n].at else 0)
  }

  lemma {:induction false} ReachedCountUnique(points: seq<Point>, head: Head, n: nat)
    requires n <= |points|
    requires forall i :: 0 <= i < n ==> Reached(head, points[i])
    requires n < |points| ==> !Reached(head, points[n])
    ensures ReachedCount(points, head) == n
  {
  }

  /** `fork_id`: one loop over the block forks, one over the timestamp forks. */
  method ComputeForkId(conds: seq<ForkCondition>, genesisTime: nat, head: Head) returns (id: Id)
    ensures id == IdAt(Points(conds, genesisTime), head)
  {
    hide HeightPoints, TimePoints, Points, Compress, ReachedCount;
    var hashed: seq<nat> := [];
    var currentApplied := 0;
    ghost var points := Points(conds, genesisTime);
    ghost var done: nat := 0;
    NoPoints(conds, genesisTime);
    for i := 0 to |conds|
      invariant done == |HeightPoints(conds[..i])| <= |points|
      invariant forall k :: 0 <= k < done ==> Reached(head, points[k])
      invariant hashed == Compress(points[..done]) && currentApplied == Last(hashed)
    {
      HeightStep(conds, genesisTime, i);
      var block := match conds[i] case AtBlock(b) => Some(b) case TTD(_, fb) => fb case _ => None;
      if block.Some? {
        if head.number >= block.value {
          CompressStep(points, done);
          if block.value != currentApplied {
            hashed := hashed + [block.value];
            currentApplied := block.value;
          }
          done := done + 1;
        } else {
          ReachedCountUnique(points, head, done);
          return Id(hashed, block.value);
        }
      }
    }
    assert conds[..|conds|] == conds;
    for i := 0 to |conds|
      invariant done == |HeightPoints(conds)| + |TimePoints(conds[..i], genesisTime)| <= |points|
      invariant forall k :: 0 <= k < done ==> Reached(head, points[k])
      invariant hashed == Compress(points[..done]) && currentApplied == Last(hashed)
    {
      TimeStep(conds, genesisTime, i);
      if conds[i].AtTime? && conds[i].time > genesisTime {
        var timestamp := conds[i].time;
        if head.timestamp >= timestamp {
          CompressStep(points, done);
          if timestamp != currentApplied {
            hashed := hashed + [timestamp];
            currentApplied := timestamp;
          }
          done := done + 1;
        } else {
          ReachedCountUnique(points, head, done);
          return Id(hashed, timestamp);
        }
      }
    }
    ReachedCountUnique(points, head, done);
    id := Id(hashed, 0);
  }

  lemma NoPoints(conds: seq<ForkCondition>, genesisTime: nat)
    ensures HeightPoints(conds[..0]) == [] && TimePoints(conds[..0], genesisTime) == []
    ensures forall points: seq<Point> :: Compress(points[..0]) == []
    ensures |Points(conds, genesisTime)| == |HeightPoints(conds)| + |TimePoints(conds, genesisTime)|
  {
  }

  lemma CompressStep(points: seq<Point>, n: nat)
    requires n < |points|
    ensures var before, v := Compress(points[..n]), points[n].at;
      Compress(points[..n + 1]) == if v == Last(before) then before else before + [v]
  {
    assert points[..n + 1][..n] == points[..n];
  }

  lemma {:induction false} HeightPrefix(conds: seq<ForkCondition>, i: nat)
    requires i <= |conds|
    ensures HeightPoints(conds[..i]) <= HeightPoints(conds)
    decreases |conds|
  {
    if i < |conds| {
      HeightPrefix(conds[..|conds| - 1], i);
      assert conds[..|conds| - 1][..i] == conds[..i];
    } else {
      assert conds[..i] == conds;
    }
  }

  lemma HeightStep(conds: seq<ForkCondition>, genesisTime: nat, i: nat)
    requires i < |conds|
    ensures var n, points := |HeightPoints(conds[..i])|, Points(conds, genesisTime);
      && |HeightPoints(conds[..i + 1])| == n + |HeightOf(conds[i])| <= |points|
      && (HeightOf(conds[i]) != [] ==> points[n] == HeightOf(conds[i])[0])
  {
    assert conds[..i + 1][..i] == conds[..i];
    HeightPrefix(conds, i + 1);
  }

  lemma {:induction false} TimePrefix(conds: seq<ForkCondition>, genesisTime: nat, i: nat)
    requires i <= |conds|
    ensures TimePoints(conds[..i], genesisTime) <= TimePoints(conds, genesisTime)
    decreases |conds|
  {
    if i < |conds| {
      TimePrefix(conds[..|conds| - 1], genesisTime, i);
      assert conds[..|conds| - 1][..i] == conds[..i];
    } else {
      assert conds[..i] == conds;
    }
  }

  lemma TimeStep(conds: seq<ForkCondition>, genesisTime: nat, i: nat)
    requires i < |conds|
    ensures var n, points := |HeightPoints(conds)| + |TimePoints(conds[..i], genesisTime)|, Points(conds, genesisTime);
      && |HeightPoints(conds)| + |TimePoints(conds[..i + 1], genesisTime)| ==
         n + |TimeOf(conds[i], genesisTime)| <= |points|
      && (TimeOf(conds[i], genesisTime) != [] ==> points[n] == TimeOf(conds[i], genesisTime)[0])
  {
    assert conds[..i + 1][..i] == conds[..i];
    TimePrefix(conds, genesisTime, i + 1);
  }

  // ---------------------------------------------------------------------------
  // Growth with the head, for fork lists in any order
  // ---------------------------------------------------------------------------

  lemma {:induction false} CompressPrefix(points: seq<Point>, n: nat)
    requires n <= |points|
    ensures Compress(points[..n]) <= Compress(points)
  {
    if n < |points| {
      CompressPrefix(points[..|points| - 1], n);
      assert points[..|points| - 1][..n] == points[..n];
    } else {
      assert points[..n] == points;
    }
  }

  /** Points that may follow each other without being mistaken for duplicates. */
  predicate KindsApart(points: seq<Point>)
  {
    forall i, j :: 0 <= i < |points| && 0 <= j < |points| && points[i].ByHeight? && points[j].ByTime? ==>
      points[i].at != points[j].at
  }

  /** A skipped value equals the last one hashed, so the last one hashed is always the last point. */
  lemma LastIsLastPoint(points: seq<Point>)
    requires points != []
    ensures Last(Compress(points)) == points[|points| - 1].at
  {
  }

  /** No value is hashed twice in a row, and zero is not hashed first. */
  lemma {:induction false} NeighboursDiffer(points: seq<Point>)
    ensures forall i :: 0 <= i < |Compress(points)| ==> Compress(points)[i] != Last(Compress(points)[..i])
  {
    if points != [] { NeighboursDiffer(points[..|points| - 1]); }
  }

  /** A later head has reached at least as many points. */
  lemma ReachedGrows(points: seq<Point>, h1: Head, h2: Head)
    requires h1.number <= h2.number && h1.timestamp <= h2.timestamp
    ensures var n, m := ReachedCount(points, h1), ReachedCount(points, h2);
      n <= m && (n < |points| ==> (n < m <==> Reached(h2, points[n])))
  {
  }

  /**
    A later head hashes an extension of what an earlier head hashes.  Unless it has reached the
    earlier head's `next`, both ids are equal; if it has, that value is the first one added exactly
    when it differs from the last value hashed before.
   */
  lemma ForkIdGrows(points: seq<Point>, h1: Head, h2: Head)
    requires h1.number <= h2.number && h1.timestamp <= h2.timestamp
    ensures var n := ReachedCount(points, h1);
      var id1, id2 := IdAt(points, h1), IdAt(points, h2);
      && id1.hashed <= id2.hashed
      && (n == |points| || !Reached(h2, points[n]) ==> id1 == id2)
      && (n < |points| && Reached(h2, points[n]) ==>
           (id1.hashed + [id1.next] <= id2.hashed <==> id1.next != Last(id1.hashed)))
  {
    hide ReachedCount, Compress;
    var n, m := ReachedCount(points, h1), ReachedCount(points, h2);
    ReachedGrows(points, h1, h2);
    assert points[..m][..n] == points[..n];
    CompressPrefix(points[..m], n);
    if n < m {
      CompressStep(points, n);
      assert points[..m][..n + 1] == points[..n + 1];
      CompressPrefix(points[..m], n + 1);
      NeighboursDiffer(points[..m]);
      AddedExactlyWhenNew(Compress(points[..n]), Compress(points[..m]), points[n].at);
    }
  }

  lemma AddedExactlyWhenNew(a: seq<nat>, b: seq<nat>, v: nat)
    requires a <= b && (v != Last(a) ==> a + [v] <= b)
    requires forall i :: 0 <= i < |b| ==> b[i] != Last(b[..i])
    ensures a + [v] <= b <==> v != Last(a)
  {
    if a + [v] <= b {
      assert b[|a|] == (a + [v])[|a|] == v;
      assert b[..|a|] == a;
    }
  }

  /** When no timestamp fork equals a block-fork number, `next` is always what comes next. */
  lemma NextIsAddedFirst(points: seq<Point>, h1: Head, h2: Head)
    requires h1.number <= h2.number && h1.timestamp <= h2.timestamp
    requires KindsApart(points) && forall i :: 0 <= i < |points| && points[i].ByTime? ==> points[i].at > 0
    ensures var n := ReachedCount(points, h1);
      n < |points| && Reached(h2, points[n]) ==>
        IdAt(points, h1).hashed + [IdAt(points, h1).next] <= IdAt(points, h2).hashed
  {
    var n := ReachedCount(points, h1);
    ForkIdGrows(points, h1, h2);
    if 0 < n < |points| {
      LastIsLastPoint(points[..n]);
      assert Reached(h1, points[n - 1]) && !Reached(h1, points[n]);
    }
  }

  /** The premise is needed: a timestamp fork equal to the last block fork is swallowed. */
  lemma EqualTimestampIsSwallowed()
    ensures var points := [ByHeight(5), ByTime(5), ByTime(9)];
      && Points([AtBlock(5), AtTime(5), AtTime(9)], 0) == points
      && IdAt(points, Head(7, 0)) == Id([5], 5)
      && IdAt(points, Head(7, 9)).hashed == [5, 9]
  {
    hide ReachedCount, Compress, Points;
    ExamplePoints();
    var points := [ByHeight(5), ByTime(5), ByTime(9)];
    ReachedCountUnique(points, Head(7, 0), 1);
    ReachedCountUnique(points, Head(7, 9), 3);
    NoPoints([], 0);
    assert Compress(points[..0]) == [];
    CompressStep(points, 0);
    CompressStep(points, 1);
    CompressStep(points, 2);
  }

  lemma ExamplePoints()
    ensures Points([AtBlock(5), AtTime(5), AtTime(9)], 0) == [ByHeight(5), ByTime(5), ByTime(9)]
  {
    var conds := [AtBlock(5), AtTime(5), AtTime(9)];
    var two, one, none := conds[..2], conds[..1], conds[..0];
    assert two[..1] == one && one[..0] == none;
    assert HeightPoints(none) == [] && TimePoints(none, 0) == [];
    assert HeightPoints(one) == [ByHeight(5)] && TimePoints(one, 0) == [];
    assert HeightPoints(two) == [ByHeight(5)] && TimePoints(two, 0) == [ByTime(5)];
    assert HeightPoints(conds) == [ByHeight(5)];
    assert TimePoints(conds, 0) == [ByTime(5), ByTime(9)];
  }

  // ---------------------------------------------------------------------------
  // From fork lists to points
  // ---------------------------------------------------------------------------

  /** No timestamp fork has the number of a block fork. */
  predicate NoClash(conds: seq<ForkCondition>)
  {
    forall i, j :: 0 <= i < |conds| && 0 <= j < |conds| && HeightOf(conds[i]) != [] && conds[j].AtTime? ==>
      HeightOf(conds[i])[0].at != conds[j].time
  }

  lemma {:induction false} HeightPointsFrom(conds: seq<ForkCondition>, k: nat)
    requires k < |HeightPoints(conds)|
    ensures exists i :: 0 <= i < |conds| && HeightOf(conds[i]) == [HeightPoints(conds)[k]]
    ensures HeightPoints(conds)[k].ByHeight?
  {
    var rest := conds[..|conds| - 1];
    if k < |HeightPoints(rest)| {
      HeightPointsFrom(rest, k);
      var i :| 0 <= i < |rest| && HeightOf(rest[i]) == [HeightPoints(rest)[k]];
      assert HeightOf(conds[i]) == [HeightPoints(conds)[k]];
    } else {
      assert HeightOf(conds[|conds| - 1]) == [HeightPoints(conds)[k]];
    }
  }

  lemma {:induction false} TimePointsFrom(conds: seq<ForkCondition>, genesisTime: nat, k: nat)
    requires k < |TimePoints(conds, genesisTime)|
    ensures var p := TimePoints(conds, genesisTime)[k];
      p.ByTime? && p.at > genesisTime && AtTime(p.at) in conds
  {
    var rest := conds[..|conds| - 1];
    if k < |TimePoints(rest, genesisTime)| {
      TimePointsFrom(rest, genesisTime, k);
    } else {
      assert conds[|conds| - 1] == AtTime(TimePoints(conds, genesisTime)[k].at);
    }
  }

  lemma PointsKeptApart(conds: seq<ForkCondition>, genesisTime: nat)
    requires NoClash(conds)
    ensures KindsApart(Points(conds, genesisTime))
    ensures forall i :: 0 <= i < |Points(conds, genesisTime)| && Points(conds, genesisTime)[i].ByTime? ==>
      Points(conds, genesisTime)[i].at > 0
  {
    var heights, times, points := HeightPoints(conds), TimePoints(conds, genesisTime), Points(conds, genesisTime);
    forall i | 0 <= i < |points|
      ensures points[i].ByHeight? <==> i < |heights|
      ensures points[i].ByTime? ==> points[i].at > 0 && AtTime(points[i].at) in conds
    {
      if i < |heights| { HeightPointsFrom(conds, i); } else { TimePointsFrom(conds, genesisTime, i - |heights|); }
    }
    forall i, j | 0 <= i < |points| && 0 <= j < |points| && points[i].ByHeight? && points[j].ByTime?
      ensures points[i].at != points[j].at
    {
      HeightPointsFrom(conds, i);
    }
  }

  /**
    Fork ids of a chain over time, for fork lists in any order: the earlier list is a prefix of the
    later one, and the announced fork is what the chain hashes next once it is reached.
   */
  lemma ForkIdsAgreeOverTime(conds: seq<ForkCondition>, genesisTime: nat, h1: Head, h2: Head)
    requires NoClash(conds) && h1.number <= h2.number && h1.timestamp <= h2.timestamp
    ensures var points := Points(conds, genesisTime);
      var n, id1, id2 := ReachedCount(points, h1), IdAt(points, h1), IdAt(points, h2);
      && id1.hashed <= id2.hashed
      && if n < |points| && Reached(h2, points[n]) then id1.hashed + [id1.next] <= id2.hashed else id1 == id2
  {
    hide ReachedCount, Compress;
    PointsKeptApart(conds, genesisTime);
    ForkIdGrows(Points(conds, genesisTime), h1, h2);
    NextIsAddedFirst(Points(conds, genesisTime), h1, h2);
  }

  // ---------------------------------------------------------------------------
  // The head that satisfies a condition
  // ---------------------------------------------------------------------------

  /** What the walk over neighbouring forks finds at position `i`, if anything. */
  function BoundaryBlock(conds: seq<ForkCondition>, i: nat): Option<nat>
    requires i < |conds|
  {
    if i + 1 == |conds| then None else
      match conds[i + 1]
      case TTD(_, Some(block)) => Some(block)
      case TTD(_, None) => if conds[i].AtBlock? then Some(conds[i].block) else None
      case AtTime(_) => if conds[i].AtBlock? then Some(conds[i].block) else None
      case _ => None
  }

  /** The first boundary at or after position `i`. */
  function FirstBoundary(conds: seq<ForkCondition>, i: nat): (r: Option<nat>)
    requires i <= |conds|
    decreases |conds| - i
  {
    if i == |conds| then None
    else if BoundaryBlock(conds, i).Some? then BoundaryBlock(conds, i)
    else FirstBoundary(conds, i + 1)
  }

  function OrZero(n: Option<nat>): nat
  {
    if n.Some? then n.value else 0
  }

  /** `last_block_fork_before_merge_or_timestamp`: a walk over neighbouring pairs. */
  method LastBlockForkBeforeMergeOrTimestamp(conds: seq<ForkCondition>) returns (r: Option<nat>)
    ensures r == FirstBoundary(conds, 0)
  {
    for i := 0 to |conds|
      invariant FirstBoundary(conds, 0) == FirstBoundary(conds, i)
    {
      if i + 1 < |conds| {
        match conds[i + 1] {
          case TTD(_, Some(block)) => return Some(block);
          case TTD(_, None) => if conds[i].AtBlock? { return Some(conds[i].block); }
          case AtTime(_) => if conds[i].AtBlock? { return Some(conds[i].block); }
          case _ =>
        }
      }
    }
    r := None;
  }

  /** The earliest head `satisfy` builds for a condition. */
  function SatisfyingHead(conds: seq<ForkCondition>, cond: ForkCondition): Head
  {
    match cond
    case AtBlock(number) => Head(number, 0)
    case TTD(_, forkBlock) => Head(OrZero(forkBlock), 0)
    case AtTime(timestamp) => Head(OrZero(FirstBoundary(conds, 0)), timestamp)
    case Never => Head(0, 0)
  }

  /** `hardfork_fork_id`: the fork id at the head that satisfies the fork's condition. */
  method HardforkForkId(conds: seq<ForkCondition>, genesisTime: nat, cond: ForkCondition) returns (r: Option<Id>)
    ensures r == if cond.Never? then None else Some(IdAt(Points(conds, genesisTime), SatisfyingHead(conds, cond)))
  {
    hide Points, IdAt, FirstBoundary;
    match cond {
      case Never => return None;
      case AtBlock(number) =>
        var id := ComputeForkId(conds, genesisTime, Head(number, 0));
        return Some(id);
      case TTD(_, forkBlock) =>
        var id := ComputeForkId(conds, genesisTime, Head(OrZero(forkBlock), 0));
        return Some(id);
      case AtTime(timestamp) =>
        var found := LastBlockForkBeforeMergeOrTimestamp(conds);
        var id := ComputeForkId(conds, genesisTime, Head(OrZero(found), timestamp));
        return Some(id);
    }
  }
}
