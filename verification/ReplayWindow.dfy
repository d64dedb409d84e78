/** The replay check of authenticated RTCP: 64 bits below the highest index stand for a set of indices. */
module ReplayWindow {
  import opened Arith
  import opened Bits
  import opened Bytes

  /** *highest and *window; bit d stands for index highest - d. */
  datatype Window = Window(highest: uint64, bits: uint64)

  const EMPTY := Window(0, 0)

  /** v << k before truncation */
  function ShiftLeft(v: nat, k: nat): nat {
    if k == 0 then v else 2 * ShiftLeft(v, k - 1)
  }

  lemma Pow2SixtyFour()
    ensures Pow2(64) == UINT64
  {
    Pow2Sixteen();
    Pow2Adds(16, 16);
    Pow2Adds(32, 32);
  }

  lemma {:induction false} Pow2Adds(a: nat, b: nat)
    ensures Pow2(a + b) == Pow2(a) * Pow2(b)
  {
    if a > 0 {
      Pow2Adds(a - 1, b);
      assert Pow2(a + b) == 2 * Pow2(a - 1 + b);
      assert Pow2(a) * Pow2(b) == 2 * (Pow2(a - 1) * Pow2(b));
    }
  }

  lemma {:induction false} ShiftedBits(v: nat, k: nat, d: nat)
    ensures BitSet(ShiftLeft(v, k), d) <==> k <= d && BitSet(v, d - k)
  {
    if k > 0 {
      var half := ShiftLeft(v, k - 1);
      assert 2 * half / 2 == half && 2 * half % 2 == 0;
      if d > 0 { ShiftedBits(v, k - 1, d - 1); }
    }
  }

  lemma {:induction false} TruncatedBits(v: nat, n: nat, d: nat)
    requires d < n
    ensures BitSet(v % Pow2(n), d) <==> BitSet(v, d)
    decreases n
  {
    var p := Pow2(n - 1);
    HalfPow2(n);
    TruncatedHalf(v, p);
    if d > 0 { TruncatedBits(v / 2, n - 1, d - 1); }
  }

  lemma TruncatedHalf(v: nat, p: nat)
    requires 0 < p
    ensures v % (2 * p) / 2 == v / 2 % p && v % (2 * p) % 2 == v % 2
  {
    var q, r := v / (2 * p), v % (2 * p);
    assert v == q * (2 * p) + r && 0 <= r < 2 * p;
    assert q * (2 * p) == 2 * (q * p);
    assert v / 2 == q * p + r / 2;
    DivMod(q, r / 2, p);
  }

  // ----- the check -----

  lemma WordKeeps(v: uint64, k: nat)
    requires k < 64
    ensures SetBit(v, k) < UINT64
  {
    hide Pow2, SetBit;
    Pow2SixtyFour();
    SetBitBound(v, k, 64);
  }

  function Checked(w: Window, index: uint64): (bool, Window) {
    if index > w.highest then
      var shift := index - w.highest;
      if shift >= 64 then (true, Window(index, 1))
      else (true, Window(index, SetBit(ShiftLeft(w.bits, shift) % UINT64, 0)))
    else
      var delta := w.highest - index;
      if delta >= 64 || BitSet(w.bits, delta) then (false, w)
      else
        WordKeeps(w.bits, delta);
        (true, w.(bits := SetBit(w.bits, delta)))
  }

  // ----- the set it stands for -----

  /** Bit d is set exactly when index highest - d was accepted; highest is the largest one. */
  ghost predicate StandsFor(w: Window, accepted: set<nat>) {
    && (forall i :: i in accepted ==> i <= w.highest)
    && (accepted == {} ==> w.highest == 0)
    && (accepted != {} ==> w.highest in accepted)
    && forall d: nat :: d < 64 ==> (BitSet(w.bits, d) <==> InWindow(w.highest, accepted, d))
  }

  predicate InWindow(highest: nat, accepted: set<nat>, d: nat) {
    d <= highest && highest - d in accepted
  }

  /** Never accepted before, and above the highest seen or less than 64 below it. */
  predicate Acceptable(highest: nat, accepted: set<nat>, index: nat) {
    index !in accepted && (index > highest || highest - index < 64)
  }

  lemma ShiftedWindow(bits: uint64, shift: nat, d: nat)
    requires shift < 64 && d < 64
    ensures BitSet(SetBit(ShiftLeft(bits, shift) % UINT64, 0), d) <==> d == 0 || (shift <= d && BitSet(bits, d - shift))
  {
    hide SetBit, Pow2;
    Pow2SixtyFour();
    SetBitSets(ShiftLeft(bits, shift) % UINT64, 0, d);
    TruncatedBits(ShiftLeft(bits, shift), 64, d);
    ShiftedBits(bits, shift, d);
  }

  lemma {:induction false} OneHasBitZero(d: nat)
    ensures BitSet(1, d) <==> d == 0
  {
    if d > 0 { ZeroBits(d - 1); }
  }

  /** One check against the set. */
  lemma CheckRefines(w: Window, accepted: set<nat>, index: uint64)
    requires StandsFor(w, accepted)
    ensures Checked(w, index).0 <==> Acceptable(w.highest, accepted, index)
    ensures StandsFor(Checked(w, index).1, if Checked(w, index).0 then accepted + {index} else accepted)
  {
    hide SetBit, ShiftLeft, BitSet;
    var (taken, after) := Checked(w, index);
    if index > w.highest {
      forall d: nat | d < 64
        ensures BitSet(after.bits, d) <==> InWindow(after.highest, accepted + {index}, d)
      {
        if index - w.highest < 64 { ShiftedWindow(w.bits, index - w.highest, d); } else { OneHasBitZero(d); }
        if index - w.highest <= d {
          assert InWindow(w.highest, accepted, d - (index - w.highest)) <==> InWindow(index, accepted, d);
        }
      }
    } else {
      var delta := w.highest - index;
      if delta < 64 {
        assert BitSet(w.bits, delta) <==> InWindow(w.highest, accepted, delta);
        forall d: nat | d < 64 && taken
          ensures BitSet(after.bits, d) <==> InWindow(w.highest, accepted + {index}, d)
        {
          SetBitSets(w.bits, delta, d);
        }
      }
    }
  }

  /** The tail of VerifyAndStripRtcp, once the digest has matched; accepted is what was accepted before. */
  method CheckReplay(w: Window, index: uint64, ghost accepted: set<nat>) returns (ok: bool, after: Window)
    requires StandsFor(w, accepted)
    ensures ok <==> Acceptable(w.highest, accepted, index)
    ensures StandsFor(after, if ok then accepted + {index} else accepted)
    ensures (ok, after) == Checked(w, index)
  {
    hide StandsFor, Acceptable, BitSet, SetBit, ShiftLeft;
    CheckRefines(w, accepted, index);
    if index > w.highest {
      var shift := index - w.highest;
      var bits := if shift >= 64 then 1 else SetBit(ShiftLeft(w.bits, shift) % UINT64, 0);
      return true, Window(index, bits);
    }
    var delta := w.highest - index;
    if delta >= 64 || BitSet(w.bits, delta) { return false, w; }
    WordKeeps(w.bits, delta);
    return true, w.(bits := SetBit(w.bits, delta));
  }

  // ----- runs -----

  function Run(w: Window, indices: seq<uint64>): (bool, Window)
    requires indices != []
  {
    var last := |indices| - 1;
    Checked(if last == 0 then w else Run(w, indices[..last]).1, indices[last])
  }

  /** The indices accepted so far. */
  function Taken(w: Window, indices: seq<uint64>): set<nat> {
    if indices == [] then {}
    else
      var last := |indices| - 1;
      Taken(w, indices[..last]) + if Run(w, indices).0 then {indices[last]} else {}
  }

  function WindowAfter(w: Window, indices: seq<uint64>): Window {
    if indices == [] then w else Run(w, indices).1
  }

  lemma EmptyStandsForNothing()
    ensures StandsFor(EMPTY, {})
  {
    forall d: nat | d < 64 ensures !BitSet(0, d) { ZeroBits(d); }
  }

  lemma {:induction false} RunStandsFor(indices: seq<uint64>)
    ensures StandsFor(WindowAfter(EMPTY, indices), Taken(EMPTY, indices))
  {
    hide Checked, StandsFor;
    if indices == [] {
      EmptyStandsForNothing();
    } else {
      var last := |indices| - 1;
      RunStandsFor(indices[..last]);
      CheckRefines(WindowAfter(EMPTY, indices[..last]), Taken(EMPTY, indices[..last]), indices[last]);
      assert Taken(EMPTY, indices[..last]) + {} == Taken(EMPTY, indices[..last]);
    }
  }

  /** After any run, the next index is accepted exactly when no earlier one equal to it was accepted and
      it is above the highest accepted one or less than 64 below it. */
  lemma ReplayRefinesSet(indices: seq<uint64>, index: uint64)
    ensures Checked(WindowAfter(EMPTY, indices), index).0
       <==> Acceptable(WindowAfter(EMPTY, indices).highest, Taken(EMPTY, indices), index)
    ensures Taken(EMPTY, indices) != {} ==> WindowAfter(EMPTY, indices).highest in Taken(EMPTY, indices)
    ensures forall i :: i in Taken(EMPTY, indices) ==> i <= WindowAfter(EMPTY, indices).highest
  {
    hide Checked, Taken, WindowAfter;
    RunStandsFor(indices);
    CheckRefines(WindowAfter(EMPTY, indices), Taken(EMPTY, indices), index);
  }
}
