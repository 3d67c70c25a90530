/** The byte encoding behind the digest of settled canonical DKG material. */
module DkgDigest {
  import opened Basics
  import opened Outcomes

  type Byte = n: int | 0 <= n < 256

  /** Bytes as numbers, so that digits can be computed with. */
  type Encoding = seq<Byte>

  /** Length of a commitment, a group element as EIP-2537 writes it. */
  const COMMITMENT_LEN: nat := 128

  datatype Pvss = Pvss(pvssRound: U64, shares: seq<Encoding>, reshares: seq<Encoding>)

  datatype Epoch = Epoch(
    epochRound: U64, selfPvss: Option<Encoding>, aggregated: Option<Encoding>, previous: Option<Encoding>)

  datatype Settled = Settled(round: U64, currentIndex: Option<U64>, pvss: Option<Pvss>, epoch: Option<Epoch>)

  predicate FitsBytes(b: Encoding)
  {
    |b| <= MAX_U64
  }

  predicate FitsMany(items: seq<Encoding>)
  {
    |items| <= MAX_U64 && forall i :: 0 <= i < |items| ==> FitsBytes(items[i])
  }

  predicate FitsEpoch(e: Epoch)
  {
    && (e.selfPvss.Some? ==> FitsBytes(e.selfPvss.value))
    && (e.aggregated.Some? ==> |e.aggregated.value| == COMMITMENT_LEN)
    && (e.previous.Some? ==> |e.previous.value| == COMMITMENT_LEN)
  }

  /** What the types of the program guarantee: lengths fit 64 bits, commitments have one length. */
  predicate Fits(s: Settled)
  {
    && (s.pvss.Some? ==> FitsMany(s.pvss.value.shares) && FitsMany(s.pvss.value.reshares))
    && (s.epoch.Some? ==> FitsEpoch(s.epoch.value))
  }

  // ---------------------------------------------------------------------------
  // Printing
  // ---------------------------------------------------------------------------

  /** Big-endian digits. */
  function Digits(n: nat, width: nat): (b: Encoding)
    ensures |b| == width
  {
    if width == 0 then [] else Digits(n / 256, width - 1) + [n % 256]
  }

  function EncodeU64(n: U64): (b: Encoding)
    ensures |b| == 8
  {
    Digits(n, 8)
  }

  function EncodeBytes(b: Encoding): Encoding
    requires FitsBytes(b)
  {
    EncodeU64(|b|) + b
  }

  function EncodeItems(items: seq<Encoding>): Encoding
    requires forall i :: 0 <= i < |items| ==> FitsBytes(items[i])
  {
    if items == [] then [] else EncodeItems(items[..|items| - 1]) + EncodeBytes(items[|items| - 1])
  }

  function EncodeMany(items: seq<Encoding>): Encoding
    requires FitsMany(items)
  {
    EncodeU64(|items|) + EncodeItems(items)
  }

  function EncodePvss(p: Option<Pvss>): Encoding
    requires p.Some? ==> FitsMany(p.value.shares) && FitsMany(p.value.reshares)
  {
    if p.None? then [0]
    else [1] + EncodeU64(p.value.pvssRound) + EncodeMany(p.value.shares) + EncodeMany(p.value.reshares)
  }

  function EncodeOptionalBytes(b: Option<Encoding>): Encoding
    requires b.Some? ==> FitsBytes(b.value)
  {
    if b.None? then [0] else [1] + EncodeBytes(b.value)
  }

  /** Commitments are written without a length. */
  function EncodeCommitment(c: Option<Encoding>): Encoding
  {
    if c.None? then [0] else [1] + c.value
  }

  function EncodeEpoch(e: Option<Epoch>): Encoding
    requires e.Some? ==> FitsEpoch(e.value)
  {
    if e.None? then [0]
    else [1] + EncodeU64(e.value.epochRound) + EncodeOptionalBytes(e.value.selfPvss)
         + EncodeCommitment(e.value.aggregated) + EncodeCommitment(e.value.previous)
  }

  /** A missing index is written as the greatest number. */
  function IndexNumber(index: Option<U64>): U64
  {
    if index.None? then MAX_U64 else index.value
  }

  function Encode(s: Settled): Encoding
    requires Fits(s)
  {
    EncodeU64(s.round) + EncodeU64(IndexNumber(s.currentIndex)) + EncodePvss(s.pvss) + EncodeEpoch(s.epoch)
  }

  /** `settled_canonical_digest` up to the hash: one buffer, extended field by field. */
  method PrintSettled(s: Settled) returns (buffer: Encoding)
    requires Fits(s)
    ensures buffer == Encode(s)
  {
    hide EncodeU64, EncodeItems, Digits;
    buffer := EncodeU64(s.round);
    buffer := buffer + EncodeU64(IndexNumber(s.currentIndex));
    ghost var index := buffer;
    match s.pvss {
      case Some(pvss) =>
        buffer := buffer + [1];
        buffer := buffer + EncodeU64(pvss.pvssRound);
        buffer := PrintMany(buffer, pvss.shares);
        buffer := PrintMany(buffer, pvss.reshares);
      case None => buffer := buffer + [0];
    }
    assert buffer == index + EncodePvss(s.pvss);
    var tail := PrintEpoch(s.epoch);
    buffer := buffer + tail;
  }

  method PrintMany(buffer: Encoding, items: seq<Encoding>) returns (r: Encoding)
    requires FitsMany(items)
    ensures r == buffer + EncodeMany(items)
  {
    hide EncodeU64, EncodeBytes;
    r := buffer + EncodeU64(|items|);
    ghost var front := r;
    for i := 0 to |items|
      invariant r == front + EncodeItems(items[..i])
    {
      assert items[..i + 1][..i] == items[..i];
      r := r + EncodeBytes(items[i]);
    }
    assert items[..|items|] == items;
  }

  method PrintEpoch(e: Option<Epoch>) returns (buffer: Encoding)
    requires e.Some? ==> FitsEpoch(e.value)
    ensures buffer == EncodeEpoch(e)
  {
    hide EncodeU64, EncodeBytes;
    match e {
      case Some(epoch) =>
        buffer := [1] + EncodeU64(epoch.epochRound);
        match epoch.selfPvss {
          case Some(pvss) => buffer := buffer + ([1] + EncodeBytes(pvss));
          case None => buffer := buffer + [0];
        }
        match epoch.aggregated {
          case Some(commitment) => buffer := buffer + ([1] + commitment);
          case None => buffer := buffer + [0];
        }
        match epoch.previous {
          case Some(commitment) => buffer := buffer + ([1] + commitment);
          case None => buffer := buffer + [0];
        }
      case None => buffer := [0];
    }
  }

  // ---------------------------------------------------------------------------
  // Parsing
  // ---------------------------------------------------------------------------

  /** A value and the bytes after it. */
  datatype Parsed<+T> = Parsed(value: T, rest: Encoding)

  function Value(b: Encoding): nat
  {
    if b == [] then 0 else Value(b[..|b| - 1]) * 256 + b[|b| - 1]
  }

  function Take(b: Encoding, n: int): Option<Parsed<Encoding>>
    requires n >= 0
  {
    if |b| < n then None else Some(Parsed(b[..n], b[n..]))
  }

  function ParseU64(b: Encoding): Option<Parsed<int>>
  {
    if |b| < 8 then None else Some(Parsed(Value(b[..8]), b[8..]))
  }

  function ParseBytes(b: Encoding): Option<Parsed<Encoding>>
  {
    match ParseU64(b)
    case None => None
    case Some(length) => if length.value < 0 then None else Take(length.rest, length.value)
  }

  function ParseItems(b: Encoding, count: int): Option<Parsed<seq<Encoding>>>
    requires count >= 0
    decreases count
  {
    if count == 0 then Some(Parsed([], b)) else
      match ParseBytes(b)
      case None => None
      case Some(first) =>
        match ParseItems(first.rest, count - 1)
        case None => None
        case Some(others) => Some(Parsed([first.value] + others.value, others.rest))
  }

  function ParseMany(b: Encoding): Option<Parsed<seq<Encoding>>>
  {
    match ParseU64(b)
    case None => None
    case Some(count) => if count.value < 0 then None else ParseItems(count.rest, count.value)
  }

  function ParsePvss(b: Encoding): Option<Parsed<Option<Pvss>>>
  {
    if b == [] then None
    else if b[0] == 0 then Some(Parsed(None, b[1..]))
    else
      match ParseU64(b[1..])
      case None => None
      case Some(round) =>
        if !(0 <= round.value <= MAX_U64) then None else
          match ParseMany(round.rest)
          case None => None
          case Some(shares) =>
            match ParseMany(shares.rest)
            case None => None
            case Some(reshares) =>
              Some(Parsed(Some(Pvss(round.value, shares.value, reshares.value)), reshares.rest))
  }

  function ParseOptionalBytes(b: Encoding): Option<Parsed<Option<Encoding>>>
  {
    if b == [] then None
    else if b[0] == 0 then Some(Parsed(None, b[1..]))
    else
      match ParseBytes(b[1..])
      case None => None
      case Some(inner) => Some(Parsed(Some(inner.value), inner.rest))
  }

  function ParseCommitment(b: Encoding): Option<Parsed<Option<Encoding>>>
  {
    if b == [] then None
    else if b[0] == 0 then Some(Parsed(None, b[1..]))
    else
      match Take(b[1..], COMMITMENT_LEN)
      case None => None
      case Some(inner) => Some(Parsed(Some(inner.value), inner.rest))
  }

  function ParseEpoch(b: Encoding): Option<Parsed<Option<Epoch>>>
  {
    if b == [] then None
    else if b[0] == 0 then Some(Parsed(None, b[1..]))
    else
      match ParseU64(b[1..])
      case None => None
      case Some(round) =>
        if !(0 <= round.value <= MAX_U64) then None else
          match ParseOptionalBytes(round.rest)
          case None => None
          case Some(own) =>
            match ParseCommitment(own.rest)
            case None => None
            case Some(aggregated) =>
              match ParseCommitment(aggregated.rest)
              case None => None
              case Some(previous) =>
                Some(Parsed(Some(Epoch(round.value, own.value, aggregated.value, previous.value)), previous.rest))
  }

  function Parse(b: Encoding): Option<Settled>
  {
    match ParseU64(b)
    case None => None
    case Some(round) =>
      match ParseU64(round.rest)
      case None => None
      case Some(index) =>
        match ParsePvss(index.rest)
        case None => None
        case Some(pvss) =>
          match ParseEpoch(pvss.rest)
          case None => None
          case Some(epoch) =>
            if epoch.rest != [] || !(0 <= round.value <= MAX_U64) || !(0 <= index.value <= MAX_U64) then None else
              Some(Settled(round.value, if index.value == MAX_U64 then None else Some(index.value),
                           pvss.value, epoch.value))
  }

  // ---------------------------------------------------------------------------
  // Parsing undoes printing
  // ---------------------------------------------------------------------------

  function Power(width: nat): nat
  {
    if width == 0 then 1 else Power(width - 1) * 256
  }

  lemma {:induction false} DigitsValue(n: nat, width: nat)
    requires n < Power(width)
    ensures Value(Digits(n, width)) == n
  {
    if width > 0 {
      DigitsValue(n / 256, width - 1);
      assert Digits(n, width)[..width - 1] == Digits(n / 256, width - 1);
    }
  }

  lemma EightBytes()
    ensures Power(8) == MAX_U64 + 1
  {
    assert Power(2) == 0x1_0000;
    assert Power(4) == 0x1_0000_0000;
    assert Power(6) == 0x1_0000_0000_0000;
  }

  lemma U64RoundTrip(n: U64, rest: Encoding)
    ensures ParseU64(EncodeU64(n) + rest) == Some(Parsed(n, rest))
  {
    hide Value, Digits, Power;
    EightBytes();
    DigitsValue(n, 8);
    assert (EncodeU64(n) + rest)[..8] == EncodeU64(n);
  }

  lemma BytesRoundTrip(b: Encoding, rest: Encoding)
    requires FitsBytes(b)
    ensures ParseBytes(EncodeBytes(b) + rest) == Some(Parsed(b, rest))
  {
    hide ParseU64, EncodeU64;
    U64RoundTrip(|b|, b + rest);
    assert EncodeBytes(b) + rest == EncodeU64(|b|) + (b + rest);
    assert (b + rest)[..|b|] == b && (b + rest)[|b|..] == rest;
  }

  lemma {:induction false} ItemsFromFront(items: seq<Encoding>)
    requires items != [] && forall i :: 0 <= i < |items| ==> FitsBytes(items[i])
    ensures EncodeItems(items) == EncodeBytes(items[0]) + EncodeItems(items[1..])
  {
    hide EncodeBytes;
    if |items| == 1 {
      assert items[..0] == [] && items[1..] == [];
    } else {
      var front := items[..|items| - 1];
      ItemsFromFront(front);
      assert items[1..][..|items| - 2] == front[1..];
      assert EncodeItems(items) == EncodeItems(front) + EncodeBytes(items[|items| - 1]);
    }
  }

  lemma {:induction false} ItemsRoundTrip(items: seq<Encoding>, rest: Encoding)
    requires forall i :: 0 <= i < |items| ==> FitsBytes(items[i])
    ensures ParseItems(EncodeItems(items) + rest, |items|) == Some(Parsed(items, rest))
    decreases |items|
  {
    hide ParseBytes, EncodeBytes, EncodeItems;
    if items != [] {
      ItemsFromFront(items);
      var others := EncodeItems(items[1..]) + rest;
      assert EncodeItems(items) + rest == EncodeBytes(items[0]) + others;
      BytesRoundTrip(items[0], others);
      ItemsRoundTrip(items[1..], rest);
      assert items == [items[0]] + items[1..];
    } else {
      NoItems(rest);
    }
  }

  lemma NoItems(rest: Encoding)
    ensures EncodeItems([]) + rest == rest
  {
  }

  lemma ManyRoundTrip(items: seq<Encoding>, rest: Encoding)
    requires FitsMany(items)
    ensures ParseMany(EncodeMany(items) + rest) == Some(Parsed(items, rest))
  {
    hide ParseU64, EncodeU64, ParseItems, EncodeItems;
    var tail := EncodeItems(items) + rest;
    U64RoundTrip(|items|, tail);
    assert EncodeMany(items) + rest == EncodeU64(|items|) + tail;
    ItemsRoundTrip(items, rest);
  }

  lemma Regroup4(a: Encoding, b: Encoding, c: Encoding, d: Encoding, rest: Encoding)
    ensures a + b + c + d + rest == a + (b + (c + (d + rest)))
  {
  }

  lemma Regroup5(a: Encoding, b: Encoding, c: Encoding, d: Encoding, e: Encoding, rest: Encoding)
    ensures a + b + c + d + e + rest == a + (b + (c + (d + (e + rest))))
  {
    Regroup4(a, b, c, d, e + rest);
    assert a + b + c + d + e + rest == a + b + c + d + (e + rest);
  }

  lemma AfterFirst(first: Byte, rest: Encoding)
    ensures ([first] + rest)[0] == first && ([first] + rest)[1..] == rest
  {
  }

  lemma PvssRoundTrip(p: Option<Pvss>, rest: Encoding)
    requires p.Some? ==> FitsMany(p.value.shares) && FitsMany(p.value.reshares)
    ensures ParsePvss(EncodePvss(p) + rest) == Some(Parsed(p, rest))
  {
    hide ParseU64, EncodeU64, ParseMany, EncodeMany;
    var b := EncodePvss(p) + rest;
    if p.Some? {
      var tail := EncodeMany(p.value.reshares) + rest;
      var middle := EncodeMany(p.value.shares) + tail;
      Regroup4([1], EncodeU64(p.value.pvssRound), EncodeMany(p.value.shares), EncodeMany(p.value.reshares), rest);
      assert b == [1] + (EncodeU64(p.value.pvssRound) + middle);
      AfterFirst(1, EncodeU64(p.value.pvssRound) + middle);
      U64RoundTrip(p.value.pvssRound, middle);
      ManyRoundTrip(p.value.shares, tail);
      ManyRoundTrip(p.value.reshares, rest);
    } else {
      assert b[1..] == rest;
    }
  }

  lemma OptionalBytesRoundTrip(o: Option<Encoding>, rest: Encoding)
    requires o.Some? ==> FitsBytes(o.value)
    ensures ParseOptionalBytes(EncodeOptionalBytes(o) + rest) == Some(Parsed(o, rest))
  {
    hide ParseBytes, EncodeBytes;
    var b := EncodeOptionalBytes(o) + rest;
    if o.Some? {
      assert b[1..] == EncodeBytes(o.value) + rest;
      BytesRoundTrip(o.value, rest);
    } else {
      assert b[1..] == rest;
    }
  }

  lemma CommitmentRoundTrip(o: Option<Encoding>, rest: Encoding)
    requires o.Some? ==> |o.value| == COMMITMENT_LEN
    ensures ParseCommitment(EncodeCommitment(o) + rest) == Some(Parsed(o, rest))
  {
    var b := EncodeCommitment(o) + rest;
    if o.Some? {
      assert b[1..] == o.value + rest;
      assert (o.value + rest)[..COMMITMENT_LEN] == o.value && (o.value + rest)[COMMITMENT_LEN..] == rest;
    } else {
      assert b[1..] == rest;
    }
  }

  lemma EpochRoundTrip(e: Option<Epoch>, rest: Encoding)
    requires e.Some? ==> FitsEpoch(e.value)
    ensures ParseEpoch(EncodeEpoch(e) + rest) == Some(Parsed(e, rest))
  {
    hide ParseU64, EncodeU64, ParseOptionalBytes, EncodeOptionalBytes, ParseCommitment, EncodeCommitment;
    var b := EncodeEpoch(e) + rest;
    if e.Some? {
      var last := EncodeCommitment(e.value.previous) + rest;
      var third := EncodeCommitment(e.value.aggregated) + last;
      var second := EncodeOptionalBytes(e.value.selfPvss) + third;
      Regroup5([1], EncodeU64(e.value.epochRound), EncodeOptionalBytes(e.value.selfPvss),
               EncodeCommitment(e.value.aggregated), EncodeCommitment(e.value.previous), rest);
      assert b == [1] + (EncodeU64(e.value.epochRound) + second);
      AfterFirst(1, EncodeU64(e.value.epochRound) + second);
      U64RoundTrip(e.value.epochRound, second);
      OptionalBytesRoundTrip(e.value.selfPvss, third);
      CommitmentRoundTrip(e.value.aggregated, last);
      CommitmentRoundTrip(e.value.previous, rest);
    } else {
      assert b[1..] == rest;
    }
  }

  /** The one thing the encoding forgets: index `u64::MAX` reads back as no index. */
  function Forget(s: Settled): Settled
  {
    if s.currentIndex == Some(MAX_U64) then s.(currentIndex := None) else s
  }

  lemma ParseOfEncode(s: Settled)
    requires Fits(s)
    ensures Parse(Encode(s)) == Some(Forget(s))
  {
    hide ParseU64, EncodeU64, ParsePvss, EncodePvss, ParseEpoch, EncodeEpoch;
    var nothing: Encoding := [];
    var third := EncodeEpoch(s.epoch) + nothing;
    var second := EncodePvss(s.pvss) + third;
    var first := EncodeU64(IndexNumber(s.currentIndex)) + second;
    assert Encode(s) == EncodeU64(s.round) + first;
    U64RoundTrip(s.round, first);
    U64RoundTrip(IndexNumber(s.currentIndex), second);
    PvssRoundTrip(s.pvss, third);
    EpochRoundTrip(s.epoch, nothing);
  }

  /** Parsing undoes printing exactly when the index is not `u64::MAX`. */
  lemma RoundTripExactly(s: Settled)
    requires Fits(s)
    ensures Parse(Encode(s)) == Some(s) <==> s.currentIndex != Some(MAX_U64)
  {
    hide Parse, Encode;
    ParseOfEncode(s);
  }

  lemma EncodeForgets(s: Settled)
    requires Fits(s)
    ensures Fits(Forget(s)) && Encode(s) == Encode(Forget(s))
  {
  }

  /** Two settled values print alike exactly when they differ at most in that index. */
  lemma SameBytesExactly(s: Settled, t: Settled)
    requires Fits(s) && Fits(t)
    ensures Encode(s) == Encode(t) <==> Forget(s) == Forget(t)
  {
    hide Parse, Encode;
    ParseOfEncode(s);
    ParseOfEncode(t);
    EncodeForgets(s);
    EncodeForgets(t);
  }

  /** A missing index and index `u64::MAX` print alike. */
  lemma MissingIndexPrintsAsMax()
    ensures var s, t := Settled(1, None, None, None), Settled(1, Some(MAX_U64), None, None);
      s != t && Encode(s) == Encode(t)
  {
    EncodeForgets(Settled(1, Some(MAX_U64), None, None));
  }

  // ---------------------------------------------------------------------------
  // The installation marker
  // ---------------------------------------------------------------------------

  /** What the runtime remembers of the material its shares were installed for. */
  datatype Marker = Marker(markerRound: U64, markerIndex: Option<U64>, digest: nat)

  ghost predicate CollisionFree(hash: Encoding -> nat)
  {
    forall a, b :: hash(a) == hash(b) ==> a == b
  }

  function MarkerOf(hash: Encoding -> nat, s: Settled): Marker
    requires Fits(s)
  {
    Marker(s.round, s.currentIndex, hash(Encode(s)))
  }

  /** With a collision-free hash, equal markers mean equal material. */
  lemma MarkerNamesMaterial(hash: Encoding -> nat, a: Settled, b: Settled)
    requires CollisionFree(hash) && Fits(a) && Fits(b)
    ensures MarkerOf(hash, a) == MarkerOf(hash, b) <==> a == b
  {
    hide Encode;
    SameBytesExactly(a, b);
  }

  predicate InstallationNeeded(installed: Option<Marker>, round: U64, index: Option<U64>, digest: nat)
  {
    installed != Some(Marker(round, index, digest))
  }

  /** Reinstalling is skipped exactly when the settled material is unchanged, index `u64::MAX` included. */
  lemma SkippedExactlyWhenUnchanged(hash: Encoding -> nat, before: Settled, now: Settled)
    requires CollisionFree(hash) && Fits(before) && Fits(now)
    ensures !InstallationNeeded(Some(MarkerOf(hash, before)), now.round, now.currentIndex, hash(Encode(now)))
            <==> before == now
  {
    hide Encode;
    MarkerNamesMaterial(hash, before, now);
  }
}
