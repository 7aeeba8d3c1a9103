/**
 * Bit strings as the simulator's `boost::dynamic_bitset` holds them: a
 * `seq<bool>` whose index 0 is the least significant bit. A bitset built from
 * an integer keeps its low bits, `to_ulong` reads them back, and `to_string`
 * prints the highest index first.
 */
module Bits {
  /** 2 to the power n. */
  function Pow2(n: nat): (r: nat)
    ensures r >= 1
  {
    if n == 0 then 1 else 2 * Pow2(n - 1)
  }

  /** The value of bit k of v. */
  function Bit(v: nat, k: nat): bool {
    if k == 0 then v % 2 == 1 else Bit(v / 2, k - 1)
  }

  /** The bitset of length n built from v (`dynamic_bitset(n, v)`): the low n bits of v. */
  function NatToBits(v: nat, n: nat): (r: seq<bool>)
    ensures |r| == n
    ensures forall k :: 0 <= k < n ==> r[k] == Bit(v, k)
  {
    if n == 0 then [] else [v % 2 == 1] + NatToBits(v / 2, n - 1)
  }

  /** The integer a bitset stands for (`to_ulong`). */
  function BitsToNat(b: seq<bool>): (r: nat)
    ensures r < Pow2(|b|)
  {
    if |b| == 0 then 0 else (if b[0] then 1 else 0) + 2 * BitsToNat(b[1..])
  }

  /** A value below 2^n survives the round trip through a bitset of length n. */
  lemma {:induction false} ValueRoundTrip(v: nat, n: nat)
    requires v < Pow2(n)
    ensures BitsToNat(NatToBits(v, n)) == v
  {
    if n > 0 {
      var r := NatToBits(v, n);
      assert r[1..] == NatToBits(v / 2, n - 1);
      ValueRoundTrip(v / 2, n - 1);
    }
  }

  /** Building a bitset from the value of a bitset gives the same bitset. */
  lemma {:induction false} BitsRoundTrip(b: seq<bool>)
    ensures NatToBits(BitsToNat(b), |b|) == b
  {
    if |b| > 0 {
      var v := BitsToNat(b);
      assert v % 2 == (if b[0] then 1 else 0);
      assert v / 2 == BitsToNat(b[1..]);
      BitsRoundTrip(b[1..]);
    }
  }

  /** Two bitsets of one length with the same value are equal. */
  lemma BitsToNatInjective(a: seq<bool>, b: seq<bool>)
    requires |a| == |b| && BitsToNat(a) == BitsToNat(b)
    ensures a == b
  {
    BitsRoundTrip(a);
    BitsRoundTrip(b);
  }

  /** `boost::to_string`: one '0' or '1' per bit, the highest index first. */
  function ToBinaryString(b: seq<bool>): (s: string)
    ensures |s| == |b|
    ensures forall k :: 0 <= k < |b| ==> s[k] == (if b[|b| - 1 - k] then '1' else '0')
  {
    if |b| == 0 then "" else ToBinaryString(b[1..]) + [if b[0] then '1' else '0']
  }

  /** A printed bitset holds only the characters '0' and '1'. */
  predicate IsBinaryText(s: string) {
    forall k :: 0 <= k < |s| ==> s[k] == '0' || s[k] == '1'
  }

  lemma ToBinaryStringIsBinary(b: seq<bool>)
    ensures IsBinaryText(ToBinaryString(b))
  {
  }

  /** Printing is injective: different bitsets of one length print differently. */
  lemma ToBinaryStringInjective(a: seq<bool>, b: seq<bool>)
    requires |a| == |b| && ToBinaryString(a) == ToBinaryString(b)
    ensures a == b
  {
    forall k | 0 <= k < |a|
      ensures a[k] == b[k]
    {
      var j := |a| - 1 - k;
      assert ToBinaryString(a)[j] == ToBinaryString(b)[j];
    }
  }

  /** Bit i flipped exactly where the draw for i is below p and i is not protected. */
  function FlipWhere(bits: seq<bool>, draws: seq<real>, p: real, protected: set<int>): (r: seq<bool>)
    requires |draws| == |bits|
    ensures |r| == |bits|
    ensures forall i :: 0 <= i < |bits| ==>
      r[i] == (if i !in protected && draws[i] < p then !bits[i] else bits[i])
  {
    seq(|bits|, i requires 0 <= i < |bits| =>
      if i !in protected && draws[i] < p then !bits[i] else bits[i])
  }

  /** A protected bit is never flipped. */
  lemma FlipWhereKeepsProtected(bits: seq<bool>, draws: seq<real>, p: real, protected: set<int>, i: int)
    requires |draws| == |bits| && 0 <= i < |bits| && i in protected
    ensures FlipWhere(bits, draws, p, protected)[i] == bits[i]
  {
  }

  /** The result differs from the input exactly where some bit was flipped. */
  lemma FlipWhereChanged(bits: seq<bool>, draws: seq<real>, p: real, protected: set<int>)
    requires |draws| == |bits|
    ensures FlipWhere(bits, draws, p, protected) != bits <==>
      exists i :: 0 <= i < |bits| && i !in protected && draws[i] < p
  {
    var r := FlipWhere(bits, draws, p, protected);
    if r != bits {
      var i :| 0 <= i < |bits| && r[i] != bits[i];
      assert i !in protected && draws[i] < p;
    }
    if exists i :: 0 <= i < |bits| && i !in protected && draws[i] < p {
      var i :| 0 <= i < |bits| && i !in protected && draws[i] < p;
      assert r[i] != bits[i];
    }
  }
}
