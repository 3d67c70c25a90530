/**
  The fork id of a timestamp fork, for fork lists in the usual shape: block forks in order, at most
  one terminal-difficulty fork, then timestamp forks in order.
 */
module TimestampForks {
  import opened Outcomes
  import opened ForkId

  function Blocks(blocks: seq<nat>): seq<ForkCondition>
  {
    if blocks == [] then [] else Blocks(blocks[..|blocks| - 1]) + [AtBlock(blocks[|blocks| - 1])]
  }

  function Times(times: seq<nat>): seq<ForkCondition>
  {
    if times == [] then [] else Times(times[..|times| - 1]) + [AtTime(times[|times| - 1])]
  }

  /** The terminal-difficulty fork, when there is one: its difficulty and its optional block. */
  function Merge(merge: Option<(nat, Option<nat>)>): seq<ForkCondition>
  {
    if merge.None? then [] else [TTD(merge.value.0, merge.value.1)]
  }

  function MergeBlock(merge: Option<(nat, Option<nat>)>): seq<nat>
  {
    if merge.Some? && merge.value.1.Some? then [merge.value.1.value] else []
  }

  function Schedule(blocks: seq<nat>, merge: Option<(nat, Option<nat>)>, times: seq<nat>): seq<ForkCondition>
  {
    Blocks(blocks) + Merge(merge) + Times(times)
  }

  /** Every height at which a fork activates. */
  function Heights(blocks: seq<nat>, merge: Option<(nat, Option<nat>)>): seq<nat>
  {
    blocks + MergeBlock(merge)
  }

  predicate Sorted(values: seq<nat>)
  {
    forall i, j :: 0 <= i < j < |values| ==> values[i] <= values[j]
  }

  predicate Increasing(values: seq<nat>)
  {
    forall i, j :: 0 <= i < j < |values| ==> values[i] < values[j]
  }

  /** `part` lists the distinct nonzero heights in increasing order. */
  ghost predicate ListsHeights(part: seq<nat>, heights: seq<nat>)
  {
    Increasing(part) && forall v :: v in part <==> v in heights && v != 0
  }

  /** `part` lists the distinct timestamps after genesis and up to `t` in increasing order. */
  ghost predicate ListsTimes(part: seq<nat>, times: seq<nat>, genesisTime: nat, t: nat)
  {
    Increasing(part) && forall v :: v in part <==> v in times && genesisTime < v <= t
  }

  /**
    What a fork id should say at time `t` on a chain past all its block forks: every distinct
    nonzero fork height, then every distinct timestamp after genesis up to `t`, and the first later
    timestamp announced, or zero when there is none.
   */
  ghost predicate IsForkIdAt(id: Id, heights: seq<nat>, times: seq<nat>, genesisTime: nat, t: nat)
  {
    && (exists k :: 0 <= k <= |id.hashed|
                    && ListsHeights(id.hashed[..k], heights)
                    && ListsTimes(id.hashed[k..], times, genesisTime, t))
    && AnnouncesNext(id.next, times, genesisTime, t)
  }

  predicate AnnouncesNext(next: nat, times: seq<nat>, genesisTime: nat, t: nat)
  {
    if exists i :: 0 <= i < |times| && Later(times[i], genesisTime, t) then
      && next in times && Later(next, genesisTime, t)
      && forall i :: 0 <= i < |times| && Later(times[i], genesisTime, t) ==> next <= times[i]
    else next == 0
  }

  predicate Later(v: nat, genesisTime: nat, t: nat)
  {
    v > genesisTime && v > t
  }

  // ---------------------------------------------------------------------------
  // The points of a schedule
  // ---------------------------------------------------------------------------

  function ByHeights(values: seq<nat>): seq<Point>
  {
    if values == [] then [] else ByHeights(values[..|values| - 1]) + [ByHeight(values[|values| - 1])]
  }

  function ByTimes(values: seq<nat>): seq<Point>
  {
    if values == [] then [] else ByTimes(values[..|values| - 1]) + [ByTime(values[|values| - 1])]
  }

  /** The timestamps after genesis. */
  function Late(times: seq<nat>, genesisTime: nat): seq<nat>
  {
    if times == [] then [] else
      var last := times[|times| - 1];
      Late(times[..|times| - 1], genesisTime) + if last > genesisTime then [last] else []
  }

  lemma OneMoreCondition(conds: seq<ForkCondition>, last: ForkCondition, genesisTime: nat)
    ensures HeightPoints(conds + [last]) == HeightPoints(conds) + HeightOf(last)
    ensures TimePoints(conds + [last], genesisTime) == TimePoints(conds, genesisTime) + TimeOf(last, genesisTime)
  {
    assert (conds + [last])[..|conds|] == conds;
  }

  lemma LastApart(a: seq<ForkCondition>, b: seq<ForkCondition>)
    requires b != []
    ensures b == b[..|b| - 1] + [b[|b| - 1]] && a + b == (a + b[..|b| - 1]) + [b[|b| - 1]]
  {
  }

  lemma {:induction false} HeightPointsConcat(a: seq<ForkCondition>, b: seq<ForkCondition>)
    ensures HeightPoints(a + b) == HeightPoints(a) + HeightPoints(b)
  {
    hide HeightPoints, HeightOf;
    NoConditions(0);
    if b == [] {
      assert a + b == a;
    } else {
      var rest, last := b[..|b| - 1], b[|b| - 1];
      HeightPointsConcat(a, rest);
      OneMoreCondition(rest, last, 0);
      OneMoreCondition(a + rest, last, 0);
      LastApart(a, b);
    }
  }

  lemma {:induction false} TimePointsConcat(a: seq<ForkCondition>, b: seq<ForkCondition>, genesisTime: nat)
    ensures TimePoints(a + b, genesisTime) == TimePoints(a, genesisTime) + TimePoints(b, genesisTime)
  {
    hide TimePoints, TimeOf;
    NoConditions(genesisTime);
    if b == [] {
      assert a + b == a;
    } else {
      var rest, last := b[..|b| - 1], b[|b| - 1];
      TimePointsConcat(a, rest, genesisTime);
      OneMoreCondition(rest, last, genesisTime);
      OneMoreCondition(a + rest, last, genesisTime);
      LastApart(a, b);
    }
  }

  lemma NoConditions(genesisTime: nat)
    ensures HeightPoints([]) == [] && TimePoints([], genesisTime) == []
  {
  }

  lemma {:induction false} PointsOfBlocks(blocks: seq<nat>, genesisTime: nat)
    ensures HeightPoints(Blocks(blocks)) == ByHeights(blocks)
    ensures TimePoints(Blocks(blocks), genesisTime) == []
  {
    if blocks != [] {
      var rest := blocks[..|blocks| - 1];
      PointsOfBlocks(rest, genesisTime);
      assert Blocks(blocks)[..|Blocks(blocks)| - 1] == Blocks(rest);
    }
  }

  lemma PointsOfLastTime(conds: seq<ForkCondition>, time: nat, genesisTime: nat)
    ensures HeightPoints(conds + [AtTime(time)]) == HeightPoints(conds)
    ensures TimePoints(conds + [AtTime(time)], genesisTime) ==
      TimePoints(conds, genesisTime) + if time > genesisTime then [ByTime(time)] else []
  {
    var all := conds + [AtTime(time)];
    assert all[..|all| - 1] == conds;
  }

  lemma {:induction false} PointsOfTimes(times: seq<nat>, genesisTime: nat)
    ensures HeightPoints(Times(times)) == []
    ensures TimePoints(Times(times), genesisTime) == ByTimes(Late(times, genesisTime))
  {
    if times != [] {
      var rest, last := times[..|times| - 1], times[|times| - 1];
      PointsOfTimes(rest, genesisTime);
      PointsOfLastTime(Times(rest), last, genesisTime);
      assert Times(times) == Times(rest) + [AtTime(last)];
      if last > genesisTime {
        assert Late(times, genesisTime)[..|Late(times, genesisTime)| - 1] == Late(rest, genesisTime);
      } else {
        assert Late(times, genesisTime) == Late(rest, genesisTime);
      }
    }
  }

  lemma PointsOfMerge(merge: Option<(nat, Option<nat>)>, genesisTime: nat)
    ensures HeightPoints(Merge(merge)) == ByHeights(MergeBlock(merge))
    ensures TimePoints(Merge(merge), genesisTime) == []
  {
    if merge.Some? {
      assert Merge(merge)[..0] == [];
      assert MergeBlock(merge) != [] ==> MergeBlock(merge)[..0] == [];
    }
  }

  lemma PointsOfSchedule(blocks: seq<nat>, merge: Option<(nat, Option<nat>)>, times: seq<nat>, genesisTime: nat)
    ensures Points(Schedule(blocks, merge, times), genesisTime) ==
      ByHeights(Heights(blocks, merge)) + ByTimes(Late(times, genesisTime))
  {
    hide HeightPoints, TimePoints, Blocks, Times, Late, ByTimes, ByHeights, Merge;
    var front := Blocks(blocks) + Merge(merge);
    PointsOfBlocks(blocks, genesisTime);
    PointsOfMerge(merge, genesisTime);
    PointsOfTimes(times, genesisTime);
    HeightPointsConcat(Blocks(blocks), Merge(merge));
    HeightPointsConcat(front, Times(times));
    TimePointsConcat(Blocks(blocks), Merge(merge), genesisTime);
    TimePointsConcat(front, Times(times), genesisTime);
    ByHeightsOfHeights(blocks, merge);
  }

  lemma ByHeightsOfHeights(blocks: seq<nat>, merge: Option<(nat, Option<nat>)>)
    ensures ByHeights(Heights(blocks, merge)) == ByHeights(blocks) + ByHeights(MergeBlock(merge))
  {
    var heights, tail := Heights(blocks, merge), MergeBlock(merge);
    if tail == [] {
      assert heights == blocks;
    } else {
      assert heights[..|heights| - 1] == blocks;
      assert tail[..|tail| - 1] == [];
    }
  }

  lemma {:induction false} ByHeightsAt(values: seq<nat>)
    ensures |ByHeights(values)| == |values|
    ensures forall i :: 0 <= i < |values| ==> ByHeights(values)[i] == ByHeight(values[i])
  {
    if values != [] { ByHeightsAt(values[..|values| - 1]); }
  }

  lemma {:induction false} ByTimesAt(values: seq<nat>)
    ensures |ByTimes(values)| == |values|
    ensures forall i :: 0 <= i < |values| ==> ByTimes(values)[i] == ByTime(values[i])
  {
    if values != [] { ByTimesAt(values[..|values| - 1]); }
  }

  lemma {:induction false} LateMembers(times: seq<nat>, genesisTime: nat)
    ensures forall v :: v in Late(times, genesisTime) <==> v in times && v > genesisTime
  {
    if times != [] {
      var rest, last := times[..|times| - 1], times[|times| - 1];
      LateMembers(rest, genesisTime);
      assert times == rest + [last];
      assert Late(times, genesisTime) == Late(rest, genesisTime) + if last > genesisTime then [last] else [];
    }
  }

  lemma {:induction false} LateIsSorted(times: seq<nat>, genesisTime: nat)
    requires Sorted(times)
    ensures Sorted(Late(times, genesisTime))
  {
    if times != [] {
      var rest, last := times[..|times| - 1], times[|times| - 1];
      LateIsSorted(rest, genesisTime);
      LateMembers(rest, genesisTime);
      var before := Late(rest, genesisTime);
      assert forall i :: 0 <= i < |before| ==> before[i] in before;
      assert Late(times, genesisTime) == Late(rest, genesisTime) + if last > genesisTime then [last] else [];
    }
  }

  // ---------------------------------------------------------------------------
  // Compressing sorted points
  // ---------------------------------------------------------------------------

  /** `values` are the numbers of `points`. */
  predicate Numbers(points: seq<Point>, values: seq<nat>)
  {
    |points| == |values| && forall i :: 0 <= i < |points| ==> points[i].at == values[i]
  }

  function Append(before: seq<nat>, v: nat): seq<nat>
  {
    if v == Last(before) then before else before + [v]
  }

  /** One more point either repeats the last value or adds its own. */
  lemma CompressAppend(points: seq<Point>, p: Point)
    ensures Compress(points + [p]) == Append(Compress(points), p.at)
  {
    assert (points + [p])[..|points|] == points;
  }

  /** `listed` are the distinct nonzero ones of some sorted values, the greatest of which is `top`. */
  ghost predicate ListsUpTo(listed: seq<nat>, values: seq<nat>, top: nat)
  {
    && Increasing(listed) && Last(listed) == top
    && (forall v :: v in listed <==> v in values && v != 0)
    && (forall v :: v in values ==> v <= top)
  }

  lemma AppendMembers(listed: seq<nat>, values: seq<nat>, top: nat, v: nat)
    requires ListsUpTo(listed, values, top) && top <= v
    ensures forall x :: x in Append(listed, v) <==> x in values + [v] && x != 0
  {
    if listed != [] { assert listed[|listed| - 1] in listed; }
  }

  lemma AppendIncreases(listed: seq<nat>, values: seq<nat>, top: nat, v: nat)
    requires ListsUpTo(listed, values, top) && top <= v
    ensures Increasing(Append(listed, v)) && Last(Append(listed, v)) == v
  {
    forall i | 0 <= i < |listed|
      ensures listed[i] <= top
    {
      assert listed[i] in listed;
    }
  }

  lemma {:induction false} CompressSorted(points: seq<Point>, values: seq<nat>)
    requires Numbers(points, values) && Sorted(values)
    ensures ListsUpTo(Compress(points), values, if values == [] then 0 else values[|values| - 1])
  {
    hide Compress, Append, ListsUpTo;
    NothingCompressed(points);
    if points == [] {
      NothingListed();
    } else {
      var n := |points| - 1;
      var top := if n == 0 then 0 else values[n - 1];
      CompressSorted(points[..n], values[..n]);
      AppendLists(Compress(points[..n]), values[..n], top, values[n]);
      CompressAppend(points[..n], points[n]);
      assert points == points[..n] + [points[n]];
      assert values == values[..n] + [values[n]];
    }
  }

  lemma NothingListed()
    ensures ListsUpTo([], [], 0)
  {
  }

  lemma AppendLists(listed: seq<nat>, values: seq<nat>, top: nat, v: nat)
    requires ListsUpTo(listed, values, top) && top <= v
    ensures ListsUpTo(Append(listed, v), values + [v], v)
  {
    hide Append, Increasing;
    AppendMembers(listed, values, top, v);
    AppendIncreases(listed, values, top, v);
  }

  lemma {:induction false} CompressConcat(a: seq<Point>, b: seq<Point>)
    requires b != [] ==> b[0].at != 0 && b[0].at != Last(Compress(a))
    ensures Compress(a + b) == Compress(a) + Compress(b)
    ensures b != [] ==> Compress(b) != []
  {
    hide Compress;
    NothingCompressed(b);
    if b == [] {
      assert a + b == a;
    } else {
      var rest, last := b[..|b| - 1], b[|b| - 1];
      NothingCompressed(rest);
      CompressConcat(a, rest);
      CompressAppend(rest, last);
      CompressAppend(a + rest, last);
      assert b == rest + [last];
      assert a + b == (a + rest) + [last];
      AppendBehind(Compress(a), Compress(rest), last.at);
    }
  }

  lemma AppendBehind(a: seq<nat>, b: seq<nat>, v: nat)
    requires b == [] ==> v != 0 && v != Last(a)
    ensures Append(a + b, v) == a + Append(b, v) && Append(b, v) != []
  {
    assert b == [] ==> a + b == a;
    assert a + (b + [v]) == a + b + [v];
  }

  lemma NothingCompressed(points: seq<Point>)
    ensures points == [] ==> Compress(points) == []
  {
  }

  // ---------------------------------------------------------------------------
  // The head that satisfies a timestamp fork
  // ---------------------------------------------------------------------------

  lemma {:induction false} BlocksAt(blocks: seq<nat>)
    ensures |Blocks(blocks)| == |blocks|
    ensures forall i :: 0 <= i < |blocks| ==> Blocks(blocks)[i] == AtBlock(blocks[i])
  {
    if blocks != [] { BlocksAt(blocks[..|blocks| - 1]); }
  }

  lemma {:induction false} TimesAt(times: seq<nat>)
    ensures |Times(times)| == |times|
    ensures forall i :: 0 <= i < |times| ==> Times(times)[i] == AtTime(times[i])
  {
    if times != [] { TimesAt(times[..|times| - 1]); }
  }

  lemma {:induction false} NoBoundaryBefore(conds: seq<ForkCondition>, i: nat, n: nat)
    requires i <= n <= |conds|
    requires forall k :: i <= k < n ==> BoundaryBlock(conds, k).None?
    ensures FirstBoundary(conds, i) == FirstBoundary(conds, n)
    decreases n - i
  {
    if i < n { NoBoundaryBefore(conds, i + 1, n); }
  }

  /** With a block fork in front the walk stops at the last height; without one it finds nothing. */
  lemma BoundaryOfSchedule(blocks: seq<nat>, merge: Option<(nat, Option<nat>)>, times: seq<nat>)
    requires times != []
    ensures var heights := Heights(blocks, merge);
      FirstBoundary(Schedule(blocks, merge, times), 0) ==
        if blocks == [] then None else Some(heights[|heights| - 1])
  {
    var conds := Schedule(blocks, merge, times);
    BlocksAt(blocks);
    TimesAt(times);
    var stop := if blocks == [] then |conds| else |blocks| - 1;
    assert forall k :: 0 <= k < |blocks| ==> conds[k] == AtBlock(blocks[k]);
    NoBoundaryBefore(conds, 0, stop);
  }

  // ---------------------------------------------------------------------------
  // The main result
  // ---------------------------------------------------------------------------

  /** How many of a sorted list's values are at most `t`. */
  function UpTo(values: seq<nat>, t: nat): (n: nat)
    requires Sorted(values)
    ensures n <= |values|
    ensures forall i :: 0 <= i < |values| ==> (i < n <==> values[i] <= t)
  {
    if values == [] then 0
    else if values[|values| - 1] <= t then |values|
    else UpTo(values[..|values| - 1], t)
  }

  predicate Separate(heights: seq<nat>, times: seq<nat>)
  {
    forall i, j :: 0 <= i < |heights| && 0 <= j < |times| ==> heights[i] != times[j]
  }

  /** Past every height, a sorted schedule's fork id hashes the heights and then the due times. */
  lemma IdPastHeights(heights: seq<nat>, late: seq<nat>, top: nat, t: nat)
    requires Sorted(heights) && Sorted(late) && (forall i :: 0 <= i < |heights| ==> heights[i] <= top)
    requires Separate(heights, late) && (forall i :: 0 <= i < |late| ==> late[i] > 0)
    ensures var id := IdAt(ByHeights(heights) + ByTimes(late), Head(top, t));
      var due := UpTo(late, t);
      && |ByTimes(late)| == |late|
      && id.hashed == Compress(ByHeights(heights)) + Compress(ByTimes(late)[..due])
      && id.next == (if due < |late| then late[due] else 0)
  {
    hide ByHeights, ByTimes, UpTo, Compress, ReachedCount;
    ByHeightsAt(heights);
    ByTimesAt(late);
    var points := ByHeights(heights) + ByTimes(late);
    var due := UpTo(late, t);
    ReachedCountUnique(points, Head(top, t), |heights| + due);
    assert points[..|heights| + due] == ByHeights(heights) + ByTimes(late)[..due];
    CompressSorted(ByHeights(heights), heights);
    CompressConcat(ByHeights(heights), ByTimes(late)[..due]);
  }

  lemma DueTimesListed(times: seq<nat>, genesisTime: nat, t: nat)
    requires Sorted(times)
    ensures var late := Late(times, genesisTime);
      && Sorted(late) && |ByTimes(late)| == |late|
      && ListsTimes(Compress(ByTimes(late)[..UpTo(late, t)]), times, genesisTime, t)
  {
    hide Late, ByTimes, UpTo, Compress;
    LateIsSorted(times, genesisTime);
    LateMembers(times, genesisTime);
    var late := Late(times, genesisTime);
    var due := UpTo(late, t);
    ByTimesAt(late);
    CompressSorted(ByTimes(late)[..due], late[..due]);
    assert forall v :: v in late[..due] <==> v in late && v <= t;
  }

  lemma NextAnnounced(times: seq<nat>, genesisTime: nat, t: nat)
    requires Sorted(times)
    ensures var late := Late(times, genesisTime);
      && Sorted(late)
      && var due := UpTo(late, t);
         AnnouncesNext(if due < |late| then late[due] else 0, times, genesisTime, t)
  {
    hide Late, UpTo;
    LateIsSorted(times, genesisTime);
    LateMembers(times, genesisTime);
    var late := Late(times, genesisTime);
    var due := UpTo(late, t);
    forall i | 0 <= i < |times| && Later(times[i], genesisTime, t)
      ensures due < |late| && late[due] <= times[i]
    {
      assert times[i] in late;
    }
    if due < |late| {
      var next := late[due];
      assert next in late;
      var i :| 0 <= i < |times| && times[i] == next;
      assert Later(times[i], genesisTime, t);
    }
  }

  /**
    The fork id of the fork at time `t` is the expected one exactly when some block fork stands in
    front of the terminal-difficulty fork, or that fork has no block of its own, or it is block zero.
   */
  lemma TimestampForkId(blocks: seq<nat>, merge: Option<(nat, Option<nat>)>, times: seq<nat>,
                        genesisTime: nat, t: nat)
    requires Sorted(Heights(blocks, merge)) && Sorted(times) && t in times
    requires Separate(Heights(blocks, merge), times)
    ensures var conds := Schedule(blocks, merge, times);
      var id := IdAt(Points(conds, genesisTime), SatisfyingHead(conds, AtTime(t)));
      IsForkIdAt(id, Heights(blocks, merge), times, genesisTime, t) <==>
        blocks != [] || MergeBlock(merge) == [] || MergeBlock(merge) == [0]
  {
    hide Points, Schedule, FirstBoundary, Late, ByTimes, ByHeights, UpTo, Compress;
    hide ListsHeights, ListsTimes, AnnouncesNext;
    var heights, late := Heights(blocks, merge), Late(times, genesisTime);
    var conds := Schedule(blocks, merge, times);
    BoundaryOfSchedule(blocks, merge, times);
    PointsOfSchedule(blocks, merge, times, genesisTime);
    LateIsSorted(times, genesisTime);
    LateMembers(times, genesisTime);
    assert forall j :: 0 <= j < |late| ==> late[j] in late;
    if blocks != [] || MergeBlock(merge) == [] || MergeBlock(merge) == [0] {
      var top := OrZero(FirstBoundary(conds, 0));
      IdPastHeights(heights, late, top, t);
      var id := IdAt(Points(conds, genesisTime), Head(top, t));
      DueTimesListed(times, genesisTime, t);
      NextAnnounced(times, genesisTime, t);
      HeightsListed(heights);
      var k := |Compress(ByHeights(heights))|;
      assert id.hashed[..k] == Compress(ByHeights(heights));
      assert id.hashed[k..] == Compress(ByTimes(late)[..UpTo(late, t)]);
    } else {
      StuckBelowMerge(heights[0], late, t);
      assert heights == [heights[0]];
      NothingHashed(heights[0], times, genesisTime, t);
    }
  }

  lemma HeightsListed(heights: seq<nat>)
    requires Sorted(heights)
    ensures ListsHeights(Compress(ByHeights(heights)), heights)
  {
    ByHeightsAt(heights);
    CompressSorted(ByHeights(heights), heights);
  }

  /** Without a block fork in front, the head stays at block zero, before the merge block. */
  lemma StuckBelowMerge(mergeBlock: nat, late: seq<nat>, t: nat)
    requires mergeBlock > 0
    ensures IdAt(ByHeights([mergeBlock]) + ByTimes(late), Head(0, t)) == Id([], mergeBlock)
  {
    var points := ByHeights([mergeBlock]) + ByTimes(late);
    ByHeightsAt([mergeBlock]);
    ReachedCountUnique(points, Head(0, t), 0);
  }

  lemma NothingHashed(mergeBlock: nat, times: seq<nat>, genesisTime: nat, t: nat)
    requires mergeBlock > 0
    ensures !IsForkIdAt(Id([], mergeBlock), [mergeBlock], times, genesisTime, t)
  {
    var none: seq<nat> := [];
    assert mergeBlock in [mergeBlock] && none[..0] == none;
  }

  /** A terminal-difficulty fork with a block of its own and no block fork before it. */
  lemma MergeFirstAnnouncesPassedBlock()
    ensures var conds := Schedule([], Some((1, Some(5))), [9]);
      IdAt(Points(conds, 0), SatisfyingHead(conds, AtTime(9))) == Id([], 5)
  {
    hide Points, Schedule, FirstBoundary, Late, ByTimes, ByHeights;
    assert Heights([], Some((1, Some(5)))) == [5];
    BoundaryOfSchedule([], Some((1, Some(5))), [9]);
    PointsOfSchedule([], Some((1, Some(5))), [9], 0);
    StuckBelowMerge(5, Late([9], 0), 9);
  }
}
