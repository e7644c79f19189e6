/**
Bit operations on non-negative integers, as JavaScript's `<<`, `>>>` and masks act
on values below 2^31, and big-endian bit strings with exclusive or. Each is
defined one bit at a time, so every law follows by induction on the bits.
*/
module BitMath {

  function Pow2(k: nat): (r: nat)
    ensures r > 0
  {
    if k == 0 then 1 else 2 * Pow2(k - 1)
  }

  /** `v << k`. */
  function Shl(v: nat, k: nat): nat {
    if k == 0 then v else 2 * Shl(v, k - 1)
  }

  /** `v >>> k`. */
  function Shr(v: nat, k: nat): nat {
    if k == 0 then v else Shr(v / 2, k - 1)
  }

  /** `v & ((1 << k) - 1)`. */
  function Low(v: nat, k: nat): (r: nat)
    ensures r < Pow2(k)
  {
    if k == 0 then 0 else 2 * Low(v / 2, k - 1) + v % 2
  }

  /** The low `k` bits of `v`, most significant first. */
  function ToBits(v: nat, k: nat): (r: Bits)
    ensures |r| == k
  {
    if k == 0 then [] else ToBits(v / 2, k - 1) + [v % 2 == 1]
  }

  function FromBits(bits: Bits): nat {
    if bits == [] then 0
    else 2 * FromBits(bits[..|bits| - 1]) + if bits[|bits| - 1] then 1 else 0
  }

  type Bits = seq<bool>

  function Zeros(n: nat): (r: Bits)
    ensures |r| == n && forall i | 0 <= i < n :: !r[i]
  {
    seq(n, _ => false)
  }

  /** `a ^ b` on values of one width. */
  function Xor(a: Bits, b: Bits): (r: Bits)
    requires |a| == |b|
    ensures |r| == |a| && forall i | 0 <= i < |a| :: r[i] == (a[i] != b[i])
  {
    seq(|a|, i requires 0 <= i < |a| => a[i] != b[i])
  }

  lemma XorLaws(a: Bits, b: Bits)
    requires |a| == |b|
    ensures Xor(a, b) == Xor(b, a)
    ensures Xor(a, Zeros(|a|)) == a
    ensures Xor(a, a) == Zeros(|a|)
    ensures Xor(a, Xor(a, b)) == b
    ensures Xor(a, b) == Zeros(|a|) ==> a == b
  {
    if Xor(a, b) == Zeros(|a|) {
      forall i | 0 <= i < |a| ensures a[i] == b[i] { assert Xor(a, b)[i] == Zeros(|a|)[i]; }
    }
  }

  lemma {:induction false} ZeroBits(k: nat)
    ensures ToBits(0, k) == Zeros(k)
  {
    if k > 0 { ZeroBits(k - 1); }
  }

  // Laws of shifts, masks and bit strings.

  lemma {:induction false} LowOfSmall(v: nat, k: nat)
    requires v < Pow2(k)
    ensures Low(v, k) == v
  {
    if k > 0 { LowOfSmall(v / 2, k - 1); }
  }

  lemma {:induction false} ShrSmall(v: nat, k: nat)
    requires v < Pow2(k)
    ensures Shr(v, k) == 0
  {
    if k > 0 { ShrSmall(v / 2, k - 1); }
  }

  /** A value is its high part and its low part. */
  lemma {:induction false} SplitAt(v: nat, k: nat)
    ensures v == Shl(Shr(v, k), k) + Low(v, k)
  {
    if k > 0 { SplitAt(v / 2, k - 1); }
  }

  lemma {:induction false} ShrBelow(v: nat, k: nat, j: nat)
    requires v < Pow2(j + k)
    ensures Shr(v, k) < Pow2(j)
  {
    if k > 0 { ShrBelow(v / 2, k - 1, j); }
  }

  lemma {:induction false} Reassemble(high: nat, low: nat, k: nat)
    requires low < Pow2(k)
    ensures Shr(Shl(high, k) + low, k) == high && Low(Shl(high, k) + low, k) == low
  {
    if k > 0 { Reassemble(high, low / 2, k - 1); }
  }

  lemma {:induction false} BitsRoundTrip(v: nat, k: nat)
    ensures FromBits(ToBits(v, k)) == Low(v, k)
  {
    if k > 0 { BitsRoundTrip(v / 2, k - 1); }
  }

  lemma {:induction false} FromBitsBelow(bits: Bits)
    ensures FromBits(bits) < Pow2(|bits|)
  {
    if bits != [] { FromBitsBelow(bits[..|bits| - 1]); }
  }

  lemma {:induction false} NumberRoundTrip(bits: Bits)
    ensures ToBits(FromBits(bits), |bits|) == bits
  {
    if bits != [] {
      var front := bits[..|bits| - 1];
      NumberRoundTrip(front);
      assert FromBits(bits) / 2 == FromBits(front);
      assert bits == front + [bits[|bits| - 1]];
    }
  }

  /** The bits of a number split like the number. */
  lemma {:induction false} BitsSplit(v: nat, j: nat, k: nat)
    ensures ToBits(v, j + k) == ToBits(Shr(v, k), j) + ToBits(v, k)
  {
    if k > 0 { BitsSplit(v / 2, j, k - 1); }
  }

  lemma {:induction false} BitsOfLow(v: nat, m: nat, k: nat)
    requires k <= m
    ensures ToBits(Low(v, m), k) == ToBits(v, k)
  {
    if k > 0 {
      BitsOfLow(v / 2, m - 1, k - 1);
      assert Low(v, m) / 2 == Low(v / 2, m - 1);
    }
  }
}
