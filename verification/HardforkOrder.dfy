/** Ordering the hardforks of a genesis file by the mainnet order. */
module HardforkOrder {
  import opened Outcomes
  import opened ForkId

  datatype Fork = Fork(name: string, cond: ForkCondition)

  predicate DistinctNames(forks: seq<Fork>)
  {
    forall i, j :: 0 <= i < j < |forks| ==> forks[i].name != forks[j].name
  }

  predicate Distinct(names: seq<string>)
  {
    forall i, j :: 0 <= i < j < |names| ==> names[i] != names[j]
  }

  predicate Names(forks: seq<Fork>, name: string)
  {
    exists i :: 0 <= i < |forks| && forks[i].name == name
  }

  /** The forks whose name is not listed, in their own order. */
  function Without(forks: seq<Fork>, names: seq<string>): seq<Fork>
  {
    if forks == [] then [] else
      var last := forks[|forks| - 1];
      Without(forks[..|forks| - 1], names) + if last.name in names then [] else [last]
  }

  /** The listed names that some fork has, in list order. */
  function Configured(names: seq<string>, forks: seq<Fork>): seq<string>
  {
    if names == [] then [] else
      var last := names[|names| - 1];
      Configured(names[..|names| - 1], forks) + if Names(forks, last) then [last] else []
  }

  function NamesOf(forks: seq<Fork>): seq<string>
  {
    if forks == [] then [] else NamesOf(forks[..|forks| - 1]) + [forks[|forks| - 1].name]
  }

  /** The first fork of that name, as `position` finds it. */
  method Position(forks: seq<Fork>, name: string) returns (pos: Option<nat>)
    ensures pos.Some? ==> pos.value < |forks| && forks[pos.value].name == name
    ensures pos.Some? ==> forall k :: 0 <= k < pos.value ==> forks[k].name != name
    ensures pos.Some? <==> Names(forks, name)
  {
    for i := 0 to |forks|
      invariant forall k :: 0 <= k < i ==> forks[k].name != name
    {
      if forks[i].name == name { return Some(i); }
    }
    pos := None;
  }

  /**
    A stable permutation: for any names nothing is lost or duplicated; when no fork is configured
    twice, the known forks come first, in mainnet order, and the unknown ones follow in their own
    order.
   */
  method OrderHardforks(mainnet: seq<string>, configured: seq<Fork>) returns (ordered: seq<Fork>)
    ensures multiset(ordered) == multiset(configured)
    ensures Distinct(mainnet) && DistinctNames(configured) ==>
      var unknown := Without(configured, mainnet);
      && |unknown| <= |ordered|
      && NamesOf(ordered[..|ordered| - |unknown|]) == Configured(mainnet, configured)
      && ordered[|ordered| - |unknown|..] == unknown
  {
    hide Without, Configured, NamesOf;
    var hardforks := configured;
    ordered := [];
    StartOfOrdering(mainnet, configured);
    for i := 0 to |mainnet|
      invariant multiset(ordered) + multiset(hardforks) == multiset(configured)
      invariant Distinct(mainnet) && DistinctNames(configured) ==> Halfway(mainnet, configured, i, ordered, hardforks)
    {
      var pos := Position(hardforks, mainnet[i]);
      ghost var before, left := ordered, hardforks;
      if pos.Some? {
        var p := pos.value;
        SplitAt(hardforks, p);
        ordered := ordered + [hardforks[p]];
        hardforks := hardforks[..p] + hardforks[p + 1..];
      }
      if Distinct(mainnet) && DistinctNames(configured) {
        OrderingStep(mainnet, configured, i, before, left, pos);
      }
    }
    assert mainnet[..|mainnet|] == mainnet;
    ghost var known := ordered;
    ordered := ordered + hardforks;
    assert ordered[..|known|] == known && ordered[|known|..] == hardforks;
  }

  /** After `i` mainnet names: the forks taken so far, and those left in their own order. */
  ghost predicate Halfway(mainnet: seq<string>, configured: seq<Fork>, i: nat, ordered: seq<Fork>, left: seq<Fork>)
    requires i <= |mainnet|
  {
    NamesOf(ordered) == Configured(mainnet[..i], configured) && left == Without(configured, mainnet[..i])
  }

  lemma StartOfOrdering(mainnet: seq<string>, configured: seq<Fork>)
    ensures Halfway(mainnet, configured, 0, [], configured)
  {
    WithoutNothing(configured);
    assert mainnet[..0] == [];
  }

  lemma {:induction false} WithoutNothing(forks: seq<Fork>)
    ensures Without(forks, []) == forks
  {
    if forks != [] { WithoutNothing(forks[..|forks| - 1]); }
  }

  lemma SplitAt(forks: seq<Fork>, p: nat)
    requires p < |forks|
    ensures multiset(forks) == multiset([forks[p]]) + multiset(forks[..p] + forks[p + 1..])
  {
    assert forks == forks[..p] + [forks[p]] + forks[p + 1..];
  }

  lemma WithoutStep(forks: seq<Fork>, names: seq<string>)
    requires forks != []
    ensures var rest, last := forks[..|forks| - 1], forks[|forks| - 1];
      Without(forks, names) == Without(rest, names) + if last.name in names then [] else [last]
  {
  }

  lemma {:induction false} WithoutMembers(forks: seq<Fork>, names: seq<string>)
    ensures forall f :: f in Without(forks, names) <==> f in forks && f.name !in names
  {
    if forks != [] {
      var rest, last := forks[..|forks| - 1], forks[|forks| - 1];
      WithoutMembers(rest, names);
      assert forks == rest + [last];
      assert Without(forks, names) == Without(rest, names) + if last.name in names then [] else [last];
    }
  }

  /** A fork left after taking out names comes from one of the forks but the last, if it is not the last itself. */
  lemma LeftBefore(forks: seq<Fork>, names: seq<string>, p: nat)
    requires DistinctNames(forks) && forks != [] && p < |Without(forks[..|forks| - 1], names)|
    ensures Without(forks[..|forks| - 1], names)[p].name != forks[|forks| - 1].name
  {
    hide Without;
    var rest := forks[..|forks| - 1];
    WithoutMembers(rest, names);
    var f := Without(rest, names)[p];
    assert f in Without(rest, names);
    var i :| 0 <= i < |rest| && rest[i] == f;
    assert forks[i] == f;
  }

  /** Taking out one more name removes just the fork of that name. */
  lemma {:induction false} WithoutOneMore(forks: seq<Fork>, names: seq<string>, name: string, p: nat)
    requires DistinctNames(forks)
    requires p < |Without(forks, names)| && Without(forks, names)[p].name == name
    ensures var left := Without(forks, names);
      Without(forks, names + [name]) == left[..p] + left[p + 1..]
  {
    hide Without, DistinctNames;
    if forks == [] {
      NothingWithout(names);
    } else {
      var rest, last := forks[..|forks| - 1], forks[|forks| - 1];
      WithoutStep(forks, names);
      WithoutStep(forks, names + [name]);
      FewerDistinct(forks);
      var before := Without(rest, names);
      if p < |before| {
        LeftBefore(forks, names, p);
        WithoutOneMore(rest, names, name, p);
        TakeOut(before, if last.name in names then [] else [last], p);
      } else {
        NameAbsent(rest, names, name);
      }
    }
  }

  lemma NothingWithout(names: seq<string>)
    ensures Without([], names) == []
  {
  }

  lemma FewerDistinct(forks: seq<Fork>)
    requires DistinctNames(forks) && forks != []
    ensures var rest, last := forks[..|forks| - 1], forks[|forks| - 1];
      DistinctNames(rest) && forall i :: 0 <= i < |rest| ==> rest[i].name != last.name
  {
  }

  lemma TakeOut<T>(a: seq<T>, b: seq<T>, p: nat)
    requires p < |a|
    ensures (a + b)[..p] + (a + b)[p + 1..] == a[..p] + a[p + 1..] + b
  {
  }

  lemma {:induction false} NameAbsent(forks: seq<Fork>, names: seq<string>, name: string)
    requires forall i :: 0 <= i < |forks| ==> forks[i].name != name
    ensures Without(forks, names + [name]) == Without(forks, names)
  {
    if forks != [] { NameAbsent(forks[..|forks| - 1], names, name); }
  }

  lemma NamesLeft(forks: seq<Fork>, names: seq<string>, name: string)
    requires name !in names
    ensures Names(Without(forks, names), name) <==> Names(forks, name)
  {
    WithoutMembers(forks, names);
    var left := Without(forks, names);
    if i :| 0 <= i < |forks| && forks[i].name == name {
      assert forks[i] in left;
    }
    if i :| 0 <= i < |left| && left[i].name == name {
      assert left[i] in left;
    }
  }

  lemma ConfiguredStep(names: seq<string>, name: string, forks: seq<Fork>)
    ensures Configured(names + [name], forks) == Configured(names, forks) + if Names(forks, name) then [name] else []
  {
    assert (names + [name])[..|names|] == names;
  }

  lemma NamesOfStep(forks: seq<Fork>, fork: Fork)
    ensures NamesOf(forks + [fork]) == NamesOf(forks) + [fork.name]
  {
    assert (forks + [fork])[..|forks|] == forks;
  }

  lemma NewName(mainnet: seq<string>, i: nat)
    requires i < |mainnet| && Distinct(mainnet)
    ensures mainnet[i] !in mainnet[..i] && mainnet[..i + 1] == mainnet[..i] + [mainnet[i]]
  {
  }

  lemma NobodyNamed(forks: seq<Fork>, name: string)
    requires !Names(forks, name)
    ensures forall i :: 0 <= i < |forks| ==> forks[i].name != name
  {
  }

  lemma OrderingStep(mainnet: seq<string>, configured: seq<Fork>, i: nat, ordered: seq<Fork>, left: seq<Fork>,
                     pos: Option<nat>)
    requires i < |mainnet| && Distinct(mainnet) && DistinctNames(configured)
    requires Halfway(mainnet, configured, i, ordered, left)
    requires pos.Some? ==> pos.value < |left| && left[pos.value].name == mainnet[i]
    requires pos.Some? <==> Names(left, mainnet[i])
    ensures pos.Some? ==> var p := pos.value;
      Halfway(mainnet, configured, i + 1, ordered + [left[p]], left[..p] + left[p + 1..])
    ensures pos.None? ==> Halfway(mainnet, configured, i + 1, ordered, left)
  {
    hide Without, Configured, NamesOf, Names, Distinct, DistinctNames;
    var names, name := mainnet[..i], mainnet[i];
    NewName(mainnet, i);
    ConfiguredStep(names, name, configured);
    NamesLeft(configured, names, name);
    if pos.Some? {
      WithoutOneMore(configured, names, name, pos.value);
      NamesOfStep(ordered, left[pos.value]);
    } else {
      NobodyNamed(configured, name);
      NameAbsent(configured, names, name);
    }
  }
}
