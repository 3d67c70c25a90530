/** The bounded, expiring cache of raw Anti-MEV transactions, keyed by sender and nonce. */
module AntiMevCache {
  import opened Basics
  import opened Outcomes

  type Key = (nat, nat)

  datatype Entry = Entry(raw: Bytes, insertedAt: nat)

  type Entries = map<Key, Entry>

  /** An operation, with the time at which it read the clock. */
  datatype Op =
    | Insert(key: Key, raw: Bytes, now: nat)
    | Get(key: Key, now: nat)
    | Remove(key: Key)

  /** Time differences stop at zero. */
  function Age(now: nat, at: nat): nat
  {
    if now < at then 0 else now - at
  }

  function Unexpired(entries: Entries, lifetime: nat, now: nat): Entries
  {
    map k | k in entries && Age(now, entries[k].insertedAt) <= lifetime :: entries[k]
  }

  ghost predicate Oldest(entries: Entries, k: Key)
  {
    k in entries && forall x :: x in entries ==> entries[k].insertedAt <= entries[x].insertedAt
  }

  /** An insert into a full cache makes room by dropping one entry that none is older than. */
  ghost predicate Inserts(limit: nat, kept: Entries, key: Key, entry: Entry, after: Entries)
  {
    if key !in kept && |kept| >= limit && kept != map[] then
      exists oldest :: Oldest(kept, oldest) && after == (kept - {oldest})[key := entry]
    else after == kept[key := entry]
  }

  ghost predicate Step(limit: nat, lifetime: nat, before: Entries, op: Op, after: Entries)
  {
    match op
    case Insert(key, raw, now) => Inserts(limit, Unexpired(before, lifetime, now), key, Entry(raw, now), after)
    case Get(_, now) => after == Unexpired(before, lifetime, now)
    case Remove(key) => after == before - {key}
  }

  class Cache {
    var entries: Entries
    const maxEntries: nat
    const lifetime: nat

    constructor (maxEntries: nat, lifetime: nat)
      ensures entries == map[] && this.maxEntries == maxEntries && this.lifetime == lifetime
    {
      entries, this.maxEntries, this.lifetime := map[], maxEntries, lifetime;
    }

    method Insert(key: Key, raw: Bytes, now: nat)
      modifies this
      ensures Step(maxEntries, lifetime, old(entries), Op.Insert(key, raw, now), entries)
    {
      entries := Unexpired(entries, lifetime, now);
      ghost var kept := entries;
      if key !in entries && |entries| >= maxEntries {
        var oldest := FindOldest(entries);
        if oldest.Some? {
          entries := entries - {oldest.value};
        }
      }
      entries := entries[key := Entry(raw, now)];
    }

    method Get(key: Key, now: nat) returns (r: Option<Bytes>)
      modifies this
      ensures Step(maxEntries, lifetime, old(entries), Op.Get(key, now), entries)
      ensures r == if key in entries then Some(entries[key].raw) else None
    {
      entries := Unexpired(entries, lifetime, now);
      r := if key in entries then Some(entries[key].raw) else None;
    }

    method Remove(key: Key)
      modifies this
      ensures Step(maxEntries, lifetime, old(entries), Op.Remove(key), entries)
    {
      entries := entries - {key};
    }
  }

  /** An entry of least time, whichever the map yields first. */
  method FindOldest(entries: Entries) returns (oldest: Option<Key>)
    ensures oldest.None? <==> entries == map[]
    ensures oldest.Some? ==> Oldest(entries, oldest.value)
  {
    var rest := entries.Keys;
    oldest := None;
    while rest != {}
      invariant rest <= entries.Keys
      invariant oldest.None? ==> rest == entries.Keys
      invariant oldest.Some? ==> oldest.value in entries
      invariant forall x :: x in entries && x !in rest ==>
        oldest.Some? && entries[oldest.value].insertedAt <= entries[x].insertedAt
      decreases |rest|
    {
      var k :| k in rest;
      rest := rest - {k};
      if oldest.None? || entries[k].insertedAt < entries[oldest.value].insertedAt { oldest := Some(k); }
    }
  }

  // ---------------------------------------------------------------------------
  // Histories
  // ---------------------------------------------------------------------------

  /** The contents before the first operation and after each one. */
  ghost predicate IsHistory(limit: nat, lifetime: nat, ops: seq<Op>, states: seq<Entries>)
  {
    && |states| == |ops| + 1 && states[0] == map[]
    && forall i, j :: 0 <= i < |ops| && j == i + 1 ==> Step(limit, lifetime, states[i], ops[i], states[j])
  }

  /** The cache goes through a history on any operations. */
  method Replay(limit: nat, lifetime: nat, ops: seq<Op>) returns (states: seq<Entries>, answers: seq<Option<Bytes>>)
    ensures IsHistory(limit, lifetime, ops, states)
    ensures |answers| == |ops|
    ensures forall i, j :: 0 <= i < |ops| && j == i + 1 && ops[i].Get? ==>
      answers[i] == if ops[i].key in states[j] then Some(states[j][ops[i].key].raw) else None
  {
    hide Step;
    var cache := new Cache(limit, lifetime);
    states, answers := [cache.entries], [];
    for n := 0 to |ops|
      invariant fresh(cache) && cache.maxEntries == limit && cache.lifetime == lifetime
      invariant |states| == n + 1 && |answers| == n && states[0] == map[] && states[n] == cache.entries
      invariant forall i, j :: 0 <= i < n && j == i + 1 ==> Step(limit, lifetime, states[i], ops[i], states[j])
      invariant forall i, j :: 0 <= i < n && j == i + 1 && ops[i].Get? ==>
        answers[i] == if ops[i].key in states[j] then Some(states[j][ops[i].key].raw) else None
    {
      var answer := None;
      match ops[n] {
        case Insert(key, raw, now) => cache.Insert(key, raw, now);
        case Get(key, now) => answer := cache.Get(key, now);
        case Remove(key) => cache.Remove(key);
      }
      states, answers := states + [cache.entries], answers + [answer];
    }
  }

  /** The latest value inserted for a key, unless it was removed since. */
  function Latest(ops: seq<Op>, k: Key): Option<Entry>
  {
    if ops == [] then None else
      match ops[|ops| - 1]
      case Insert(key, raw, now) => if key == k then Some(Entry(raw, now)) else Latest(ops[..|ops| - 1], k)
      case Get(_, _) => Latest(ops[..|ops| - 1], k)
      case Remove(key) => if key == k then None else Latest(ops[..|ops| - 1], k)
  }

  // ---------------------------------------------------------------------------
  // Size
  // ---------------------------------------------------------------------------

  lemma SubmapSize(a: Entries, b: Entries)
    requires a.Keys <= b.Keys
    ensures |a| <= |b|
  {
    SubsetSize(a.Keys, b.Keys);
    assert |a| == |a.Keys| && |b| == |b.Keys|;
  }

  lemma InsertSize(limit: nat, kept: Entries, key: Key, entry: Entry, after: Entries)
    requires Inserts(limit, kept, key, entry, after) && |kept| <= Max(limit, 1)
    ensures |after| <= Max(limit, 1)
  {
    if key !in kept && |kept| >= limit && kept != map[] {
      var oldest :| Oldest(kept, oldest) && after == (kept - {oldest})[key := entry];
      ReplacedSize(kept, oldest, key, entry);
    } else {
      AddedSize(kept, key, entry);
    }
  }

  lemma ReplacedSize(kept: Entries, oldest: Key, key: Key, entry: Entry)
    requires oldest in kept
    ensures |(kept - {oldest})[key := entry]| <= |kept|
  {
    AddedSize(kept - {oldest}, key, entry);
    assert (kept - {oldest}).Keys == kept.Keys - {oldest};
    assert |kept| == |kept.Keys| && |kept - {oldest}| == |(kept - {oldest}).Keys|;
  }

  lemma AddedSize(kept: Entries, key: Key, entry: Entry)
    ensures |kept[key := entry]| == if key in kept then |kept| else |kept| + 1
  {
    assert kept[key := entry].Keys == kept.Keys + {key};
    assert |kept| == |kept.Keys| && |kept[key := entry]| == |kept[key := entry].Keys|;
  }

  lemma StepSize(limit: nat, lifetime: nat, before: Entries, op: Op, after: Entries)
    requires Step(limit, lifetime, before, op, after) && |before| <= Max(limit, 1)
    ensures |after| <= Max(limit, 1)
  {
    hide Inserts;
    match op
    case Insert(key, raw, now) =>
      var kept := Unexpired(before, lifetime, now);
      SubmapSize(kept, before);
      InsertSize(limit, kept, key, Entry(raw, now), after);
    case Get(_, now) => SubmapSize(after, before);
    case Remove(_) => SubmapSize(after, before);
  }

  /** The cache never holds more than its capacity, or one entry when the capacity is zero. */
  lemma {:induction false} NeverOverCapacity(limit: nat, lifetime: nat, ops: seq<Op>, states: seq<Entries>, n: nat)
    requires IsHistory(limit, lifetime, ops, states) && n < |states|
    ensures |states[n]| <= Max(limit, 1)
  {
    hide Step;
    if n > 0 {
      NeverOverCapacity(limit, lifetime, ops, states, n - 1);
      StepSize(limit, lifetime, states[n - 1], ops[n - 1], states[n]);
    }
  }

  /** Every insert leaves an entry, so capacity zero is the one bound that is not kept. */
  lemma CapacityKeptExactlyFromOne(limit: nat, lifetime: nat, ops: seq<Op>, states: seq<Entries>, n: nat)
    requires IsHistory(limit, lifetime, ops, states) && n < |ops| && ops[n].Insert?
    ensures |states[n + 1]| <= limit <==> limit >= 1
  {
    NeverOverCapacity(limit, lifetime, ops, states, n + 1);
    assert Step(limit, lifetime, states[n], ops[n], states[n + 1]);
    assert ops[n].key in states[n + 1].Keys;
    SubsetSize({ops[n].key}, states[n + 1].Keys);
    assert |states[n + 1]| == |states[n + 1].Keys|;
  }

  // ---------------------------------------------------------------------------
  // Contents
  // ---------------------------------------------------------------------------

  /** Whatever is in the cache is the latest value of its key. */
  lemma {:induction false} EntriesAreLatest(limit: nat, lifetime: nat, ops: seq<Op>, states: seq<Entries>,
                                            n: nat, k: Key)
    requires IsHistory(limit, lifetime, ops, states) && n < |states| && k in states[n]
    ensures Latest(ops[..n], k) == Some(states[n][k])
  {
    if n > 0 {
      var op := ops[n - 1];
      assert Step(limit, lifetime, states[n - 1], op, states[n]);
      assert ops[..n][..n - 1] == ops[..n - 1];
      if !(op.Insert? && op.key == k) {
        EntriesAreLatest(limit, lifetime, ops, states, n - 1, k);
      }
    }
  }

  /** What `get` answers is the latest value, inserted within the lifetime and not removed since. */
  lemma GetAnswersLatest(limit: nat, lifetime: nat, ops: seq<Op>, states: seq<Entries>, n: nat)
    requires IsHistory(limit, lifetime, ops, states) && n < |ops| && ops[n].Get? && ops[n].key in states[n + 1]
    ensures Latest(ops[..n], ops[n].key) == Some(states[n + 1][ops[n].key])
    ensures Age(ops[n].now, states[n + 1][ops[n].key].insertedAt) <= lifetime
  {
    assert Step(limit, lifetime, states[n], ops[n], states[n + 1]);
    EntriesAreLatest(limit, lifetime, ops, states, n, ops[n].key);
  }

  /** Operation `m` pushes out `k`: the cache is full and holds nothing older. */
  ghost predicate PushesOut(limit: nat, lifetime: nat, ops: seq<Op>, states: seq<Entries>, m: nat, k: Key)
    requires m < |ops| && m < |states|
  {
    && ops[m].Insert? && ops[m].key != k
    && var kept := Unexpired(states[m], lifetime, ops[m].now);
       k in states[m] && ops[m].key !in kept && |kept| >= limit && Oldest(kept, k)
  }

  /** How one step can lose an entry. */
  lemma LostInOneStep(limit: nat, lifetime: nat, ops: seq<Op>, states: seq<Entries>, n: nat, k: Key)
    requires IsHistory(limit, lifetime, ops, states) && n < |ops| && k in states[n] && k !in states[n + 1]
    ensures || ops[n] == Remove(k)
            || (!ops[n].Remove? && Age(ops[n].now, states[n][k].insertedAt) > lifetime)
            || PushesOut(limit, lifetime, ops, states, n, k)
  {
    hide IsHistory;
    OneStep(limit, lifetime, ops, states, n);
  }

  /** The clock has not gone back: no operation so far read a later time than `now`. */
  predicate ReadBy(ops: seq<Op>, now: nat)
  {
    forall i :: 0 <= i < |ops| && !ops[i].Remove? ==> ops[i].now <= now
  }

  /** An operation on another key, or a read, leaves the latest value of a key as it was. */
  lemma LatestStep(ops: seq<Op>, n: nat, k: Key)
    requires n < |ops|
    ensures Latest(ops[..n + 1], k) == match ops[n]
      case Insert(key, raw, now) => if key == k then Some(Entry(raw, now)) else Latest(ops[..n], k)
      case Get(_, _) => Latest(ops[..n], k)
      case Remove(key) => if key == k then None else Latest(ops[..n], k)
  {
    assert ops[..n + 1][..n] == ops[..n];
  }

  /** An insert leaves its own key in the cache. */
  lemma InsertStays(limit: nat, lifetime: nat, before: Entries, op: Op, after: Entries)
    requires Step(limit, lifetime, before, op, after) && op.Insert?
    ensures op.key in after
  {
  }

  lemma OneStep(limit: nat, lifetime: nat, ops: seq<Op>, states: seq<Entries>, n: nat)
    requires IsHistory(limit, lifetime, ops, states) && n < |ops|
    ensures Step(limit, lifetime, states[n], ops[n], states[n + 1])
  {
    hide Step;
  }

  /** A latest value that was there before the last operation and is not after it was pushed out by it. */
  lemma PushedOutJustNow(limit: nat, lifetime: nat, ops: seq<Op>, states: seq<Entries>, n: nat, k: Key, now: nat)
    requires IsHistory(limit, lifetime, ops, states) && n < |ops| && ReadBy(ops[..n + 1], now)
    requires k in states[n] && k !in states[n + 1] && ops[n] != Remove(k)
    requires Age(now, states[n][k].insertedAt) <= lifetime
    ensures PushesOut(limit, lifetime, ops, states, n, k)
  {
    hide IsHistory, PushesOut;
    LostInOneStep(limit, lifetime, ops, states, n, k);
    assert ops[..n + 1][n] == ops[n];
  }

  /**
    An inserted value that is neither removed nor expired is gone only because some later insert
    found the cache full and nothing in it older.
   */
  lemma {:induction false} LostOnlyWhenFull(limit: nat, lifetime: nat, ops: seq<Op>, states: seq<Entries>,
                                            n: nat, k: Key, now: nat)
    requires IsHistory(limit, lifetime, ops, states) && n < |states| && ReadBy(ops[..n], now)
    requires Latest(ops[..n], k).Some? && Age(now, Latest(ops[..n], k).value.insertedAt) <= lifetime
    requires k !in states[n]
    ensures exists m :: 0 <= m < n && PushesOut(limit, lifetime, ops, states, m, k) &&
                        states[m][k] == Latest(ops[..n], k).value
  {
    hide Step, PushesOut, Age, Latest, ReadBy;
    if n == 0 {
      NothingLatest(ops[..0], k);
    } else {
      var m := n - 1;
      LatestStep(ops, m, k);
      OneStep(limit, lifetime, ops, states, m);
      if ops[m].Insert? { InsertStays(limit, lifetime, states[m], ops[m], states[n]); }
      if k in states[m] {
        EntriesAreLatest(limit, lifetime, ops, states, m, k);
        PushedOutJustNow(limit, lifetime, ops, states, m, k, now);
      } else {
        ReadByFewer(ops, m, now);
        LostOnlyWhenFull(limit, lifetime, ops, states, m, k, now);
      }
    }
  }

  lemma NothingLatest(ops: seq<Op>, k: Key)
    requires ops == []
    ensures Latest(ops, k).None?
  {
  }

  lemma ReadByFewer(ops: seq<Op>, n: nat, now: nat)
    requires n < |ops| && ReadBy(ops[..n + 1], now)
    ensures ReadBy(ops[..n], now)
  {
    assert forall i :: 0 <= i < n ==> ops[..n][i] == ops[..n + 1][i];
  }
}
