/** Words, bytes and small facts about sets that several modules need. */
module Basics {
  const MAX_U32: int := 0xFFFF_FFFF

  const MAX_U64: int := 0xFFFF_FFFF_FFFF_FFFF

  const MAX_U128: int := 0xFFFF_FFFF_FFFF_FFFF_FFFF_FFFF_FFFF_FFFF

  type U64 = n: nat | n <= MAX_U64

  type Bytes = seq<bv8>

  function Max(a: nat, b: nat): nat
  {
    if a < b then b else a
  }

  /** Some element of a set that has one. */
  lemma Member<T>(s: set<T>) returns (x: T)
    requires s != {}
    ensures x in s
  {
    x :| x in s;
  }

  lemma NoneDone<T>(all: set<T>)
    ensures all - all == {} && all - {} == all
  {
  }

  lemma OneDone<T>(all: set<T>, rest: set<T>, x: T)
    requires x in rest && rest <= all
    ensures all - (rest - {x}) == (all - rest) + {x} && rest - {x} <= all && |rest - {x}| < |rest|
  {
  }

  lemma {:induction false} SubsetSize<T>(a: set<T>, b: set<T>)
    requires a <= b
    ensures |a| <= |b|
  {
    if a != {} {
      var x :| x in a;
      SubsetSize(a - {x}, b - {x});
    }
  }
}
