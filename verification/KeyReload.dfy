/** Legacy DKG key reload: a fail-closed follower of the canonical notification stream. */
module KeyReload {
  import opened Basics
  import opened Outcomes

  type Hash = nat

  datatype NumHash = NumHash(number: U64, hash: Hash)

  datatype Header = Header(number: U64, parentHash: Hash, hash: Hash)

  datatype ContinuityError =
    | Empty
    | StartsAtGenesis
    | HeightOverflow(previous: U64)
    | WrongHeight(expected: U64, actual: U64)
    | WrongParent(height: U64, expectedParent: Hash, actualParent: Hash)

  // ---------------------------------------------------------------------------
  // Continuity of a segment
  // ---------------------------------------------------------------------------

  /** Whether one block continues a head. */
  function Check(previous: NumHash, block: Header): Result<NumHash, ContinuityError>
  {
    if previous.number == MAX_U64 then Err(HeightOverflow(previous.number))
    else if block.number != previous.number + 1 then Err(WrongHeight(previous.number + 1, block.number))
    else if block.parentHash != previous.hash then Err(WrongParent(block.number, previous.hash, block.parentHash))
    else Ok(NumHash(block.number, block.hash))
  }

  /** The head after a segment. */
  function Tip(previous: NumHash, blocks: seq<Header>): NumHash
  {
    if blocks == [] then previous else NumHash(blocks[|blocks| - 1].number, blocks[|blocks| - 1].hash)
  }

  /** Block `i` is at its height and names the block before it as its parent. */
  predicate Follows(previous: NumHash, blocks: seq<Header>, i: nat)
    requires i < |blocks|
  {
    && blocks[i].number == previous.number + 1 + i
    && blocks[i].parentHash == if i == 0 then previous.hash else blocks[i - 1].hash
  }

  /** Hash-linked blocks at consecutive heights, starting right after `previous`. */
  ghost predicate Path(previous: NumHash, blocks: seq<Header>)
  {
    forall i :: 0 <= i < |blocks| ==> Follows(previous, blocks, i)
  }

  /** The first block that does not continue the ones before it, and why. */
  ghost predicate BreaksAt(previous: NumHash, blocks: seq<Header>, i: nat, error: ContinuityError)
  {
    i < |blocks| && Path(previous, blocks[..i]) && Check(Tip(previous, blocks[..i]), blocks[i]) == Err(error)
  }

  /** `next_canonical_dkg_head`. */
  method NextCanonicalHead(previous: NumHash, blocks: seq<Header>) returns (r: Result<NumHash, ContinuityError>)
    ensures r.Ok? <==> blocks != [] && Path(previous, blocks)
    ensures r.Ok? ==> r.value == Tip(previous, blocks)
    ensures r.Err? ==> (blocks == [] && r.error == Empty) || exists i: nat :: BreaksAt(previous, blocks, i, r.error)
  {
    var head, seen := previous, false;
    for i := 0 to |blocks|
      invariant Path(previous, blocks[..i]) && head == Tip(previous, blocks[..i])
      invariant seen <==> i > 0
    {
      var number, parentHash, hash := blocks[i].number, blocks[i].parentHash, blocks[i].hash;
      PathStep(previous, blocks, i);
      if head.number == MAX_U64 {
        assert BreaksAt(previous, blocks, i, HeightOverflow(head.number));
        return Err(HeightOverflow(head.number));
      }
      var expected := head.number + 1;
      if number != expected {
        assert BreaksAt(previous, blocks, i, WrongHeight(expected, number));
        return Err(WrongHeight(expected, number));
      }
      if parentHash != head.hash {
        assert BreaksAt(previous, blocks, i, WrongParent(number, head.hash, parentHash));
        return Err(WrongParent(number, head.hash, parentHash));
      }
      head := NumHash(number, hash);
      seen := true;
    }
    assert blocks[..|blocks|] == blocks;
    r := if seen then Ok(head) else Err(Empty);
  }

  lemma TipNumber(previous: NumHash, blocks: seq<Header>)
    requires Path(previous, blocks)
    ensures Tip(previous, blocks).number == previous.number + |blocks|
  {
    if blocks != [] { assert Follows(previous, blocks, |blocks| - 1); }
  }

  /** Whether a block follows is decided by the blocks up to it. */
  lemma SameFollows(previous: NumHash, blocks: seq<Header>, n: nat, i: nat)
    requires i < n <= |blocks|
    ensures Follows(previous, blocks[..n], i) <==> Follows(previous, blocks, i)
  {
  }

  lemma PathPrefix(previous: NumHash, blocks: seq<Header>, i: nat)
    requires i <= |blocks| && Path(previous, blocks)
    ensures Path(previous, blocks[..i])
  {
    forall k | 0 <= k < i
      ensures Follows(previous, blocks[..i], k)
    {
      SameFollows(previous, blocks, i, k);
    }
  }

  lemma FollowsChecked(previous: NumHash, blocks: seq<Header>, i: nat)
    requires i < |blocks| && Path(previous, blocks[..i])
    ensures var checked := Check(Tip(previous, blocks[..i]), blocks[i]);
      && (checked.Ok? <==> Follows(previous, blocks, i))
      && (checked.Ok? ==> checked.value == Tip(previous, blocks[..i + 1]))
  {
    hide Path;
    TipNumber(previous, blocks[..i]);
  }

  /** One more block keeps the path exactly when the check passes. */
  lemma PathStep(previous: NumHash, blocks: seq<Header>, i: nat)
    requires i < |blocks| && Path(previous, blocks[..i])
    ensures var checked := Check(Tip(previous, blocks[..i]), blocks[i]);
      && (Path(previous, blocks[..i + 1]) <==> checked.Ok?)
      && (checked.Ok? ==> checked.value == Tip(previous, blocks[..i + 1]))
      && (checked.Err? ==> !Path(previous, blocks))
  {
    hide Follows, Check, Tip;
    FollowsChecked(previous, blocks, i);
    var longer := blocks[..i + 1];
    SameFollows(previous, blocks, i + 1, i);
    forall k | 0 <= k < i
      ensures Follows(previous, longer, k)
    {
      assert Follows(previous, blocks[..i], k);
      SameFollows(previous, blocks, i, k);
      SameFollows(previous, blocks, i + 1, k);
    }
  }

  lemma NoPathPast(previous: NumHash, blocks: seq<Header>, i: nat, e: ContinuityError, j: nat)
    requires BreaksAt(previous, blocks, i, e) && i < j <= |blocks|
    ensures !Path(previous, blocks[..j])
  {
    hide Path, Check, Tip;
    PathStep(previous, blocks, i);
    assert blocks[..j][..i + 1] == blocks[..i + 1];
    if Path(previous, blocks[..j]) { PathPrefix(previous, blocks[..j], i + 1); }
  }

  /** There is only one first break. */
  lemma OneBreak(previous: NumHash, blocks: seq<Header>, i: nat, e: ContinuityError, j: nat, f: ContinuityError)
    requires BreaksAt(previous, blocks, i, e) && BreaksAt(previous, blocks, j, f)
    ensures i == j && e == f
  {
    if i < j {
      NoPathPast(previous, blocks, i, e, j);
    } else if j < i {
      NoPathPast(previous, blocks, j, f, i);
    }
  }

  /** Two segments one after the other are one segment. */
  lemma PathConcat(previous: NumHash, a: seq<Header>, b: seq<Header>)
    ensures Path(previous, a + b) <==> Path(previous, a) && Path(Tip(previous, a), b)
    ensures Tip(previous, a + b) == Tip(Tip(previous, a), b)
  {
    hide Path;
    var all := a + b;
    assert all[..|a|] == a;
    if Path(previous, all) { PathPrefix(previous, all, |a|); }
    if Path(previous, a) { PathTail(previous, a, b); }
  }

  lemma FollowsTail(previous: NumHash, a: seq<Header>, b: seq<Header>, k: nat)
    requires k < |b| && Tip(previous, a).number == previous.number + |a|
    ensures Follows(previous, a + b, |a| + k) <==> Follows(Tip(previous, a), b, k)
  {
  }

  lemma PathTail(previous: NumHash, a: seq<Header>, b: seq<Header>)
    requires Path(previous, a)
    ensures Path(previous, a + b) <==> Path(Tip(previous, a), b)
  {
    hide Follows, Tip;
    var all := a + b;
    TipNumber(previous, a);
    assert all[..|a|] == a;
    forall k | 0 <= k < |b|
      ensures Follows(previous, all, |a| + k) <==> Follows(Tip(previous, a), b, k)
    {
      FollowsTail(previous, a, b, k);
    }
    forall k | 0 <= k < |a|
      ensures Follows(previous, all, k)
    {
      SameFollows(previous, all, |a|, k);
    }
    if Path(Tip(previous, a), b) {
      forall i | 0 <= i < |all|
        ensures Follows(previous, all, i)
      {
        if i >= |a| { assert Follows(Tip(previous, a), b, i - |a|); }
      }
    }
  }

  lemma BreakInFirst(previous: NumHash, a: seq<Header>, b: seq<Header>, i: nat, e: ContinuityError)
    requires BreaksAt(previous, a, i, e)
    ensures BreaksAt(previous, a + b, i, e)
  {
    assert (a + b)[..i] == a[..i];
  }

  lemma BreakInSecond(previous: NumHash, a: seq<Header>, b: seq<Header>, i: nat, e: ContinuityError)
    requires Path(previous, a) && BreaksAt(Tip(previous, a), b, i, e)
    ensures BreaksAt(previous, a + b, |a| + i, e)
  {
    assert (a + b)[..|a| + i] == a + b[..i];
    PathConcat(previous, a, b[..i]);
  }

  /** Checking two non-empty segments in turn is checking them as one, with the same error if any. */
  method CheckInTurn(previous: NumHash, a: seq<Header>, b: seq<Header>)
    returns (r: Result<NumHash, ContinuityError>, whole: Result<NumHash, ContinuityError>)
    requires a != [] && b != []
    ensures r == whole
  {
    hide Path, Tip, BreaksAt;
    PathConcat(previous, a, b);
    whole := NextCanonicalHead(previous, a + b);
    r := NextCanonicalHead(previous, a);
    if r.Err? {
      ghost var i: nat :| BreaksAt(previous, a, i, r.error);
      BreakInFirst(previous, a, b, i, r.error);
      ghost var j: nat :| BreaksAt(previous, a + b, j, whole.error);
      OneBreak(previous, a + b, i, r.error, j, whole.error);
      return;
    }
    r := NextCanonicalHead(r.value, b);
    if r.Err? {
      ghost var i: nat :| BreaksAt(Tip(previous, a), b, i, r.error);
      BreakInSecond(previous, a, b, i, r.error);
      ghost var j: nat :| BreaksAt(previous, a + b, j, whole.error);
      OneBreak(previous, a + b, |a| + i, r.error, j, whole.error);
    }
  }

  /** `standalone_canonical_dkg_segment_tip`: a segment judged by its own first parent. */
  method StandaloneSegmentTip(blocks: seq<Header>) returns (r: Result<NumHash, ContinuityError>)
    ensures r.Ok? <==> Standalone(blocks)
    ensures r.Ok? ==> r.value == Tip(r.value, blocks)
    ensures blocks == [] ==> r == Err(Empty)
    ensures blocks != [] && blocks[0].number == 0 ==> r == Err(StartsAtGenesis)
  {
    if blocks == [] { return Err(Empty); }
    if blocks[0].number == 0 { return Err(StartsAtGenesis); }
    r := NextCanonicalHead(NumHash(blocks[0].number - 1, blocks[0].parentHash), blocks);
  }

  // ---------------------------------------------------------------------------
  // Reloading
  // ---------------------------------------------------------------------------

  /** What reading the key files against the state at a head gives. */
  datatype KeyFiles = Installable(round: nat) | NoSettledRound | Unusable

  /** The provider during one reload: its canonical mapping at either check, and the key files. */
  datatype Reading = Reading(before: map<int, Hash>, files: KeyFiles, after: map<int, Hash>)

  datatype Loaded = Installed(installedRound: nat) | Inactive

  datatype ReloadError = FenceBroken | LoadFailed

  /** Shares are bound to the round and to the head they were verified at. */
  datatype Epoch = Epoch(epochRound: nat, head: Hash)

  datatype Notification =
    | Committed(blocks: seq<Header>, reading: Reading)
    | Reorged
    | Lagged
    | Closed

  /** While a retry is due a quiet second also wakes the reload. */
  datatype Event = Notified(notification: Notification) | QuietSecond(reading: Reading)

  /** Every head is what the mapping has at its height. */
  predicate Mapped(mapping: map<int, Hash>, heads: seq<NumHash>)
  {
    forall i :: 0 <= i < |heads| ==> heads[i].number in mapping && mapping[heads[i].number] == heads[i].hash
  }

  /** `ensure_canonical_dkg_mapping`. */
  method EnsureCanonicalMapping(mapping: map<int, Hash>, heads: seq<NumHash>) returns (ok: bool)
    ensures ok <==> Mapped(mapping, heads)
  {
    for i := 0 to |heads|
      invariant Mapped(mapping, heads[..i])
    {
      if heads[i].number !in mapping || mapping[heads[i].number] != heads[i].hash { return false; }
    }
    ok := true;
  }

  /** The fence holds around a reload; nothing is installed after a failed load, so nothing is rechecked. */
  predicate FenceHolds(reading: Reading, fence: seq<NumHash>)
  {
    Mapped(reading.before, fence) && (reading.files.Unusable? || Mapped(reading.after, fence))
  }

  /** What a commit must satisfy for the reload to go on. */
  ghost predicate Followable(lastHead: NumHash, blocks: seq<Header>, reading: Reading)
  {
    blocks != [] && Path(lastHead, blocks) && FenceHolds(reading, [lastHead] + HeadsOf(blocks))
  }

  /** A segment that is linked in itself, whatever the current head. */
  ghost predicate Standalone(blocks: seq<Header>)
  {
    blocks != [] && blocks[0].number > 0 && Path(NumHash(blocks[0].number - 1, blocks[0].parentHash), blocks)
  }

  /** What a notification buffered before the snapshot must satisfy for the reload to go on. */
  ghost predicate Reconcilable(snapshot: NumHash, lastHead: NumHash, n: Notification)
  {
    && n.Committed? && Standalone(n.blocks)
    && if Tip(snapshot, n.blocks).number <= snapshot.number then Mapped(n.reading.before, HeadsOf(n.blocks))
       else Followable(lastHead, n.blocks, n.reading)
  }

  function HeadsOf(blocks: seq<Header>): seq<NumHash>
  {
    if blocks == [] then [] else
      HeadsOf(blocks[..|blocks| - 1]) + [NumHash(blocks[|blocks| - 1].number, blocks[|blocks| - 1].hash)]
  }

  lemma {:induction false} TipIsAHead(previous: NumHash, blocks: seq<Header>)
    ensures Tip(previous, blocks) in [previous] + HeadsOf(blocks)
  {
    assert blocks != [] ==> Tip(previous, blocks) in HeadsOf(blocks);
  }

  /** The blocks of the commits that reach beyond the startup snapshot, in order. */
  function Beyond(snapshot: NumHash, buffered: seq<Notification>): seq<Header>
  {
    if buffered == [] then [] else
      Beyond(snapshot, buffered[..|buffered| - 1]) + BeyondOf(snapshot, buffered[|buffered| - 1])
  }

  function BeyondOf(snapshot: NumHash, n: Notification): seq<Header>
  {
    if n.Committed? && Tip(snapshot, n.blocks).number > snapshot.number then n.blocks else []
  }

  /** The blocks of all commits, in order. */
  function Commits(events: seq<Event>): seq<Header>
  {
    if events == [] then [] else Commits(events[..|events| - 1]) + CommitsOf(events[|events| - 1])
  }

  function CommitsOf(e: Event): seq<Header>
  {
    if e.Notified? && e.notification.Committed? then e.notification.blocks else []
  }

  function SharesFor(files: KeyFiles, head: NumHash): Option<Epoch>
  {
    if files.Installable? then Some(Epoch(files.round, head.hash)) else None
  }

  /** The reload task and the signer it feeds. */
  class KeyReloadTask {
    var shares: Option<Epoch>
    var snapshot: NumHash
    var lastHead: NumHash
    var retry: bool
    var disabled: bool
    /** Every block applied since the snapshot. */
    ghost var applied: seq<Header>
    /** The latest provider reading at the last head. */
    ghost var checked: Reading

    /**
      Holds between any two steps of the reload: the signer holds what the latest reading of the last
      head allows, bound to that head, or nothing once disabled.
     */
    ghost predicate Valid()
      reads this
    {
      && Path(snapshot, applied) && lastHead == Tip(snapshot, applied)
      && (disabled ==> shares.None?)
      && (!disabled ==>
            && shares == SharesFor(checked.files, lastHead)
            && (retry <==> checked.files.Unusable?)
            && Mapped(checked.before, [lastHead])
            && (!retry ==> Mapped(checked.after, [lastHead])))
    }

    /** Before the first reload the signer may hold anything. */
    constructor (shares: Option<Epoch>, snapshot: NumHash)
      ensures this.shares == shares && this.snapshot == lastHead == snapshot
      ensures !retry && !disabled && applied == []
    {
      this.shares, this.snapshot, lastHead, retry, disabled := shares, snapshot, snapshot, false, false;
      applied, checked := [], Reading(map[], Unusable, map[]);
    }

    method ClearRoundKeys()
      modifies this`shares
      ensures shares.None?
    {
      shares := None;
    }

    method Disable()
      modifies this`shares, this`disabled
      ensures disabled && shares.None?
    {
      ClearRoundKeys();
      disabled := true;
    }

    /** `reload_dkg_round_keys_at_head`: installs between two checks of the same fence. */
    method ReloadAtHead(reading: Reading, head: NumHash, fence: seq<NumHash>)
      returns (r: Result<Loaded, ReloadError>)
      requires head in fence
      modifies this`shares, this`checked
      ensures checked == reading
      ensures (r.Err? && r.error.FenceBroken?) <==> !FenceHolds(reading, fence)
      ensures r.Err? && r.error.LoadFailed? ==> reading.files.Unusable?
      ensures r.Ok? ==> !reading.files.Unusable? && (r.value.Installed? <==> reading.files.Installable?)
      ensures r.Ok? && r.value.Installed? ==> shares == SharesFor(reading.files, head)
    {
      checked := reading;
      var ok := EnsureCanonicalMapping(reading.before, fence);
      if !ok { return Err(FenceBroken); }
      if reading.files.Unusable? { return Err(LoadFailed); }
      if reading.files.Installable? {
        shares := Some(Epoch(reading.files.round, head.hash));
      }
      ok := EnsureCanonicalMapping(reading.after, fence);
      if !ok { return Err(FenceBroken); }
      r := Ok(if reading.files.Installable? then Installed(reading.files.round) else Inactive);
    }

    /** The first reload, at the snapshot. */
    method Startup(reading: Reading)
      requires applied == [] && lastHead == snapshot && !disabled && !retry
      modifies this`shares, this`checked, this`retry, this`disabled
      ensures Valid() && applied == [] && (disabled <==> !FenceHolds(reading, [snapshot]))
    {
      var r := ReloadAtHead(reading, snapshot, [snapshot]);
      match r {
        case Ok(Installed(_)) =>
        case Ok(Inactive) => ClearRoundKeys();
        case Err(LoadFailed) =>
          retry := true;
          ClearRoundKeys();
        case Err(FenceBroken) => Disable();
      }
    }

    /** `reconcile_dkg_commit` and `record_dkg_commit_reload`: follow one commit, or stop for good. */
    method FollowCommit(blocks: seq<Header>, reading: Reading)
      requires Valid() && !disabled
      modifies this`shares, this`checked, this`lastHead, this`retry, this`disabled, this`applied
      ensures Valid()
      ensures applied == if disabled then old(applied) else old(applied) + blocks
      ensures disabled <==> !Followable(old(lastHead), blocks, reading)
    {
      hide Path, HeadsOf;
      var next := NextCanonicalHead(lastHead, blocks);
      if next.Err? {
        Disable();
        return;
      }
      var head := next.value;
      TipIsAHead(lastHead, blocks);
      var r := ReloadAtHead(reading, head, [lastHead] + HeadsOf(blocks));
      if r.Err? && r.error.FenceBroken? {
        Disable();
        return;
      }
      FenceMember(reading.before, [lastHead] + HeadsOf(blocks), head);
      FenceMember(reading.after, [lastHead] + HeadsOf(blocks), head);
      PathConcat(snapshot, applied, blocks);
      applied := applied + blocks;
      lastHead := head;
      match r {
        case Ok(Installed(_)) => retry := false;
        case Ok(Inactive) =>
          retry := false;
          ClearRoundKeys();
        case Err(_) =>
          retry := true;
          ClearRoundKeys();
      }
    }

    /** One buffered notification during startup. */
    method Reconcile(notification: Notification)
      requires Valid() && !disabled
      modifies this`shares, this`checked, this`lastHead, this`retry, this`disabled, this`applied
      ensures Valid()
      ensures disabled <==> !Reconcilable(snapshot, old(lastHead), notification)
      ensures !disabled ==> applied == old(applied) + BeyondOf(snapshot, notification)
    {
      hide Path;
      if !notification.Committed? {
        Disable();
        return;
      }
      var blocks := notification.blocks;
      var segmentTip := StandaloneSegmentTip(blocks);
      if segmentTip.Err? {
        Disable();
        return;
      }
      if segmentTip.value.number <= snapshot.number {
        var ok := EnsureCanonicalMapping(notification.reading.before, HeadsOf(blocks));
        if !ok { Disable(); }
        return;
      }
      FollowCommit(blocks, notification.reading);
    }

    /** One event of the main loop. */
    method Handle(event: Event)
      requires Valid() && !disabled
      modifies this`shares, this`checked, this`lastHead, this`retry, this`disabled, this`applied
      ensures Valid()
      ensures event.QuietSecond? ==> (disabled <==> old(retry) && !FenceHolds(event.reading, [lastHead]))
      ensures event.Notified? && event.notification.Committed? ==>
        (disabled <==> !Followable(old(lastHead), event.notification.blocks, event.notification.reading))
      ensures event.Notified? && !event.notification.Committed? ==> disabled
      ensures !disabled ==> applied == old(applied) + CommitsOf(event)
    {
      hide Path;
      match event {
        case QuietSecond(reading) =>
          if retry {
            var r := ReloadAtHead(reading, lastHead, [lastHead]);
            match r {
              case Ok(Installed(_)) => retry := false;
              case Ok(Inactive) =>
                retry := false;
                ClearRoundKeys();
              case Err(LoadFailed) => ClearRoundKeys();
              case Err(FenceBroken) => Disable();
            }
          }
        case Notified(Committed(blocks, reading)) => FollowCommit(blocks, reading);
        case Notified(_) => Disable();
      }
    }

    /** The notifications buffered while the snapshot was taken. */
    method ReconcileAll(buffered: seq<Notification>)
      requires Valid() && applied == []
      modifies this`shares, this`checked, this`lastHead, this`retry, this`disabled, this`applied
      ensures Valid()
      ensures !disabled ==> applied == Beyond(snapshot, buffered)
    {
      hide KeyReloadTask.Valid, Reconcilable, BeyondOf;
      for i := 0 to |buffered|
        invariant Valid()
        invariant !disabled ==> applied == Beyond(snapshot, buffered[..i])
      {
        if disabled { return; }
        assert buffered[..i + 1][..i] == buffered[..i];
        Reconcile(buffered[i]);
      }
      assert buffered[..|buffered|] == buffered;
    }

    /** The main loop. */
    method HandleAll(events: seq<Event>)
      requires Valid()
      modifies this`shares, this`checked, this`lastHead, this`retry, this`disabled, this`applied
      ensures Valid()
      ensures !disabled ==> !old(disabled) && applied == old(applied) + Commits(events)
    {
      hide KeyReloadTask.Valid, Followable, FenceHolds, CommitsOf;
      for i := 0 to |events|
        invariant Valid()
        invariant !disabled ==> !old(disabled) && applied == old(applied) + Commits(events[..i])
      {
        if disabled { return; }
        assert events[..i + 1][..i] == events[..i];
        Handle(events[i]);
      }
      assert events[..|events|] == events;
    }

    /** `run_dkg_key_reload`: the snapshot, a first reload, the buffered notifications, then any events. */
    method Run(snapshotRead: bool, first: Reading, buffered: seq<Notification>, events: seq<Event>)
      requires applied == [] && lastHead == snapshot && !disabled && !retry
      modifies this`shares, this`checked, this`lastHead, this`retry, this`disabled, this`applied
      ensures Path(snapshot, applied) && lastHead == Tip(snapshot, applied)
      ensures disabled ==> shares.None?
      ensures shares.Some? ==> shares.value.head == lastHead.hash && !retry
      ensures !disabled ==> shares == SharesFor(checked.files, lastHead) && (retry <==> checked.files.Unusable?)
      ensures !disabled ==> applied == Beyond(snapshot, buffered) + Commits(events)
    {
      hide Path, Mapped, FenceHolds, Beyond, Commits;
      if !snapshotRead {
        Disable();
        NoBlocksPath(snapshot);
        return;
      }
      Startup(first);
      ReconcileAll(buffered);
      HandleAll(events);
    }
  }

  lemma NoBlocksPath(previous: NumHash)
    ensures Path(previous, [])
  {
  }

  lemma FenceMember(mapping: map<int, Hash>, heads: seq<NumHash>, head: NumHash)
    requires head in heads
    ensures Mapped(mapping, heads) ==> Mapped(mapping, [head])
  {
  }
}
