/** Masks and shifts on words of any width, as arithmetic on natural numbers. */
module Bits {

  function Pow2(n: nat): (p: nat)
    ensures p > 0
  {
    if n == 0 then 1 else 2 * Pow2(n - 1)
  }

  /** Bitwise conjunction, one bit at a time. */
  function And(a: nat, b: nat): nat {
    if a == 0 || b == 0 then 0 else 2 * And(a / 2, b / 2) + (a % 2) * (b % 2)
  }

  function Shl(a: nat, n: nat): nat {
    if n == 0 then a else 2 * Shl(a, n - 1)
  }

  function Shr(a: nat, n: nat): nat {
    if n == 0 then a else Shr(a / 2, n - 1)
  }

  /** Addition of words of `bits` bits, wrapping around. */
  function WrappingAdd(a: nat, b: nat, bits: nat): (r: nat)
    requires a < Pow2(bits) && b < Pow2(bits)
    ensures r < Pow2(bits) && (r == a + b || r + Pow2(bits) == a + b)
  {
    if a + b < Pow2(bits) then a + b else a + b - Pow2(bits)
  }

  /** Subtraction of words of `bits` bits, wrapping around. */
  function WrappingSub(a: nat, b: nat, bits: nat): (r: nat)
    requires a < Pow2(bits) && b < Pow2(bits)
    ensures r < Pow2(bits) && (a == r + b || a + Pow2(bits) == r + b)
  {
    if a >= b then a - b else a - b + Pow2(bits)
  }

  lemma {:induction false} ShiftOut(hi: nat, lo: nat, n: nat)
    requires lo < Pow2(n)
    ensures Shr(Shl(hi, n) + lo, n) == hi
  {
    if n > 0 {
      ShiftOut(hi, lo / 2, n - 1);
      assert (Shl(hi, n) + lo) / 2 == Shl(hi, n - 1) + lo / 2;
    }
  }

  lemma {:induction false} MaskOut(hi: nat, lo: nat, n: nat)
    requires lo < Pow2(n)
    ensures And(Shl(hi, n) + lo, Pow2(n) - 1) == lo
  {
    if n > 0 {
      MaskOut(hi, lo / 2, n - 1);
      var v, h := Shl(hi, n) + lo, Pow2(n - 1);
      assert v / 2 == Shl(hi, n - 1) + lo / 2 && v % 2 == lo % 2;
      assert (2 * h - 1) / 2 == h - 1 && (2 * h - 1) % 2 == 1;
      assert v > 0 ==> And(v, 2 * h - 1) == 2 * And(v / 2, h - 1) + v % 2;
    }
  }

  lemma {:induction false} TestBit(hi: nat, lo: nat, n: nat)
    requires lo < Pow2(n)
    ensures And(Shl(hi, n) + lo, Pow2(n)) == 0 <==> hi % 2 == 0
  {
    var v := Shl(hi, n) + lo;
    if n == 0 {
      assert And(v / 2, 0) == 0;
      assert v > 0 ==> And(v, 1) == v % 2;
    } else {
      TestBit(hi, lo / 2, n - 1);
      var h := Pow2(n - 1);
      assert v / 2 == Shl(hi, n - 1) + lo / 2;
      assert (2 * h) / 2 == h && (2 * h) % 2 == 0;
      assert v > 0 ==> And(v, 2 * h) == 2 * And(v / 2, h);
    }
  }

  /** A word made of a high part `hi` and `n` low bits `lo`: shifting finds the
      high part, masking with `2^n - 1` the low one, and masking with the single
      bit `2^n` tells whether the high part is odd. */
  lemma SplitWord(hi: nat, lo: nat, n: nat)
    requires lo < Pow2(n)
    ensures Shr(Shl(hi, n) + lo, n) == hi
    ensures And(Shl(hi, n) + lo, Pow2(n) - 1) == lo
    ensures And(Shl(hi, n) + lo, Pow2(n)) == 0 <==> hi % 2 == 0
  {
    ShiftOut(hi, lo, n);
    MaskOut(hi, lo, n);
    TestBit(hi, lo, n);
  }

  /** A high part of at most two bits, as a multiple of `2^n`. */
  lemma {:induction false} ShlSmall(hi: nat, n: nat)
    requires hi < 4
    ensures Shl(hi, n) == if hi == 0 then 0 else if hi == 1 then Pow2(n)
                          else if hi == 2 then 2 * Pow2(n) else 3 * Pow2(n)
  {
    if n > 0 {
      ShlSmall(hi, n - 1);
    }
  }
}
