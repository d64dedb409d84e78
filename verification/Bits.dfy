/** Single bits of an unsigned word. */
module Bits {

  /** (v >> k) & 1 */
  predicate BitSet(v: nat, k: nat) {
    if k == 0 then v % 2 == 1 else BitSet(v / 2, k - 1)
  }

  /** v | (1 << k) */
  function SetBit(v: nat, k: nat): nat {
    if k == 0 then (if v % 2 == 1 then v else v + 1) else 2 * SetBit(v / 2, k - 1) + v % 2
  }

  function Pow2(n: nat): (p: nat)
    ensures 0 < p
  {
    if n == 0 then 1 else 2 * Pow2(n - 1)
  }

  /** Setting a bit sets that bit and no other. */
  lemma {:induction false} SetBitSets(v: nat, k: nat, j: nat)
    ensures BitSet(SetBit(v, k), j) <==> j == k || BitSet(v, j)
    decreases k
  {
    if k == 0 {
      if j > 0 { assert (if v % 2 == 1 then v else v + 1) / 2 == v / 2; }
    } else {
      assert SetBit(v, k) / 2 == SetBit(v / 2, k - 1) && SetBit(v, k) % 2 == v % 2;
      if j > 0 { SetBitSets(v / 2, k - 1, j - 1); }
    }
  }

  lemma HalfPow2(n: nat)
    requires 0 < n
    ensures Pow2(n) == 2 * Pow2(n - 1)
  {
  }

  lemma {:induction false} SetBitBound(v: nat, k: nat, n: nat)
    requires v < Pow2(n) && k < n
    ensures SetBit(v, k) < Pow2(n)
    decreases k
  {
    hide BitSet, Pow2;
    HalfPow2(n);
    if k > 0 { SetBitBound(v / 2, k - 1, n - 1); }
  }

  lemma {:induction false} ZeroBits(k: nat)
    ensures !BitSet(0, k)
  {
    if k > 0 { ZeroBits(k - 1); }
  }

  lemma Pow2Sixteen()
    ensures Pow2(16) == 0x1_0000
  {
    assert Pow2(4) == 16;
    assert Pow2(8) == 16 * Pow2(4);
    assert Pow2(12) == 16 * Pow2(8);
    assert Pow2(16) == 16 * Pow2(12);
  }
}
