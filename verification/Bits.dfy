/** Machine words as sets of bit positions. */
module Bits {
  const WORD_BITS: nat := 64

  /** The lowest set bit at or above `from`, or `WORD_BITS` when there is none. */
  function LowestFrom(bits: set<nat>, from: nat): (low: nat)
    requires from <= WORD_BITS
    ensures from <= low <= WORD_BITS
    ensures low < WORD_BITS ==> low in bits
    ensures forall b :: b in bits && from <= b < WORD_BITS ==> low <= b
    decreases WORD_BITS - from
  {
    if from == WORD_BITS || from in bits then from else LowestFrom(bits, from + 1)
  }

  function TrailingZeros(bits: set<nat>): (low: nat)
    ensures low <= WORD_BITS
    ensures low < WORD_BITS ==> low in bits
    ensures forall b :: b in bits && b < WORD_BITS ==> low <= b
  {
    LowestFrom(bits, 0)
  }

  /** How far bit `b` is ahead of position `from`, going round the word. */
  function Ahead(b: nat, from: nat): (d: nat)
    requires b < WORD_BITS && from < WORD_BITS
    ensures d < WORD_BITS && (from + d) % WORD_BITS == b
  {
    if b >= from then b - from else b + WORD_BITS - from
  }

  /** Bit `b` of the word moves to position `(b - k) mod 64`. */
  function RotateRight(bits: set<nat>, k: nat): set<nat>
    requires k < WORD_BITS && forall b :: b in bits ==> b < WORD_BITS
  {
    set b | b in bits :: Ahead(b, k)
  }

  /** Rotating position `from` to bit zero makes the lowest set bit the one that
      comes up first going round from there. */
  lemma RotationFindsNearest(bits: set<nat>, from: nat)
    requires from < WORD_BITS && bits != {} && forall b :: b in bits ==> b < WORD_BITS
    ensures var first := (from + TrailingZeros(RotateRight(bits, from))) % WORD_BITS;
            first in bits && forall b :: b in bits ==> Ahead(first, from) <= Ahead(b, from)
  {
    var rotated := RotateRight(bits, from);
    assert forall b :: b in bits ==> Ahead(b, from) in rotated;
    var any :| any in bits;
    assert Ahead(any, from) in rotated;
  }

  /** The bits of a word below position `n`. */
  function Below(bits: set<nat>, n: nat): set<nat> {
    set b | b in bits && b < n
  }
}
