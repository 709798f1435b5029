/** Bitwise operations on natural numbers, bit by bit, and the word operations built from them. */
module Bits {
  import opened Words
  import opened Powers

  function BitOr(p: nat, q: nat): nat { if p == 0 && q == 0 then 0 else 1 }

  function BitXor(p: nat, q: nat): nat { if p == q then 0 else 1 }

  function And(a: nat, b: nat): nat
    decreases a
  {
    if a == 0 then 0 else (a % 2) * (b % 2) + 2 * And(a / 2, b / 2)
  }

  function Or(a: nat, b: nat): nat
    decreases a + b
  {
    if a == 0 && b == 0 then 0 else BitOr(a % 2, b % 2) + 2 * Or(a / 2, b / 2)
  }

  function Xor(a: nat, b: nat): nat
    decreases a + b
  {
    if a == 0 && b == 0 then 0 else BitXor(a % 2, b % 2) + 2 * Xor(a / 2, b / 2)
  }

  // ---- closure ----

  lemma {:induction false} AndBound(a: nat, b: nat)
    ensures And(a, b) <= a
    decreases a
  {
    if a > 0 {
      AndBound(a / 2, b / 2);
    }
  }

  lemma {:induction false} OrBound(a: nat, b: nat, n: nat)
    requires a < Pow2(n) && b < Pow2(n)
    ensures Or(a, b) < Pow2(n)
    decreases n
  {
    if n > 0 {
      OrBound(a / 2, b / 2, n - 1);
    }
  }

  lemma {:induction false} XorBound(a: nat, b: nat, n: nat)
    requires a < Pow2(n) && b < Pow2(n)
    ensures Xor(a, b) < Pow2(n)
    decreases n
  {
    if n > 0 {
      XorBound(a / 2, b / 2, n - 1);
    }
  }

  function And64(a: u64, b: u64): u64 {
    AndBound(a as int, b as int);
    And(a as int, b as int) as u64
  }

  function Or64(a: u64, b: u64): u64 {
    Pow2Values();
    OrBound(a as int, b as int, 64);
    Or(a as int, b as int) as u64
  }

  function Xor64(a: u64, b: u64): u64 {
    Pow2Values();
    XorBound(a as int, b as int, 64);
    Xor(a as int, b as int) as u64
  }

  function And32(a: u32, b: u32): u32 {
    AndBound(a as int, b as int);
    And(a as int, b as int) as u32
  }

  function Or32(a: u32, b: u32): u32 {
    Pow2Values();
    OrBound(a as int, b as int, 32);
    Or(a as int, b as int) as u32
  }

  function Xor32(a: u32, b: u32): u32 {
    Pow2Values();
    XorBound(a as int, b as int, 32);
    Xor(a as int, b as int) as u32
  }

  /** The C shift `x << n`, dropping what leaves the word. */
  function Shl64(x: u64, n: nat): u64 {
    (x as int * Pow2(n) % TWO64) as u64
  }

  /** The C shift `x >> n`. */
  function Shr64(x: u64, n: nat): u64 {
    ShrBound(x as int, n);
    Shr(x as int, n) as u64
  }

  lemma {:induction false} ShrBound(a: nat, n: nat)
    ensures Shr(a, n) <= a
  {
    if n > 0 {
      ShrBound(a / 2, n - 1);
    }
  }

  /** Two's complement negation, wrapping. */
  function Neg64(a: u64): u64 {
    if a == 0 then 0 else 0xffff_ffff_ffff_ffff - a + 1
  }

  /** Subtraction, wrapping. */
  function Sub64(a: u64, b: u64): u64 {
    if a >= b then a - b else 0xffff_ffff_ffff_ffff - (b - a) + 1
  }

  // ---- algebra ----

  lemma {:induction false} XorZero(a: nat)
    ensures Xor(a, 0) == a && Xor(0, a) == a
  {
    if a > 0 {
      XorZero(a / 2);
    }
  }

  lemma XorStep(a: nat, b: nat)
    ensures Xor(a, b) % 2 == BitXor(a % 2, b % 2) && Xor(a, b) / 2 == Xor(a / 2, b / 2)
  {
    var bit, rest := BitXor(a % 2, b % 2), Xor(a / 2, b / 2);
    assert Xor(a, b) == bit + 2 * rest;
    LastBit(Xor(a, b), bit, rest);
  }

  lemma LastBit(x: nat, bit: nat, rest: nat)
    requires bit <= 1 && x == bit + 2 * rest
    ensures x % 2 == bit && x / 2 == rest
  {
  }

  /** Exclusive or undoes itself. */
  lemma {:induction false} XorCancels(a: nat, b: nat)
    ensures Xor(a, Xor(a, b)) == b
    decreases a + b
  {
    if a + b > 0 {
      XorCancels(a / 2, b / 2);
      XorStep(a, b);
      XorStep(a, Xor(a, b));
    }
  }

  lemma {:induction false} XorCommutes(a: nat, b: nat)
    ensures Xor(a, b) == Xor(b, a)
    decreases a + b
  {
    if a + b > 0 {
      XorCommutes(a / 2, b / 2);
    }
  }

  lemma {:induction false} XorAssociates(a: nat, b: nat, c: nat)
    ensures Xor(a, Xor(b, c)) == Xor(Xor(a, b), c)
    decreases a + b + c
  {
    if a + b + c == 0 {
      XorZero(0);
    } else {
      XorAssociates(a / 2, b / 2, c / 2);
      XorStep(a, b);
      XorStep(b, c);
      XorStep(a, Xor(b, c));
      XorStep(Xor(a, b), c);
      hide Xor;
    }
  }

  lemma {:induction false} AndZero(a: nat)
    ensures And(a, 0) == 0 && And(0, a) == 0
    decreases a
  {
    if a > 0 {
      AndZero(a / 2);
    }
  }

  lemma {:induction false} AndOnes(x: nat, n: nat)
    requires x < Pow2(n)
    ensures And(Pow2(n) - 1, x) == x
    decreases n
  {
    if n > 0 {
      AndOnes(x / 2, n - 1);
      assert (Pow2(n) - 1) / 2 == Pow2(n - 1) - 1 && (Pow2(n) - 1) % 2 == 1;
    }
  }

  /** When the operands have no bit in common, or is addition. */
  lemma {:induction false} OrDisjoint(hi: nat, lo: nat, n: nat)
    requires lo < Pow2(n)
    ensures Or(hi * Pow2(n), lo) == hi * Pow2(n) + lo
    decreases n
  {
    if n == 0 {
      OrZero(hi);
    } else {
      var h := hi * Pow2(n);
      assert h == 2 * (hi * Pow2(n - 1));
      OrDisjoint(hi, lo / 2, n - 1);
    }
  }

  lemma {:induction false} XorDisjoint(hi: nat, lo: nat, n: nat)
    requires lo < Pow2(n)
    ensures Xor(hi * Pow2(n), lo) == hi * Pow2(n) + lo
    decreases n
  {
    if n == 0 {
      XorZero(hi);
    } else {
      var h := hi * Pow2(n);
      assert h == 2 * (hi * Pow2(n - 1));
      XorDisjoint(hi, lo / 2, n - 1);
    }
  }

  lemma {:induction false} OrZero(a: nat)
    ensures Or(a, 0) == a && Or(0, a) == a
  {
    if a > 0 {
      OrZero(a / 2);
    }
  }

  lemma {:induction false} OrCommutes(a: nat, b: nat)
    ensures Or(a, b) == Or(b, a)
    decreases a + b
  {
    if a + b > 0 {
      OrCommutes(a / 2, b / 2);
    }
  }

  lemma {:induction false} XorSelf(a: nat, b: nat)
    ensures Xor(a, b) == 0 <==> a == b
    decreases a + b
  {
    if a + b > 0 {
      XorSelf(a / 2, b / 2);
    }
  }

  function Shr(a: nat, n: nat): nat {
    if n == 0 then a else Shr(a / 2, n - 1)
  }

  lemma {:induction false} ShrIsDiv(a: nat, n: nat)
    ensures Shr(a, n) == a / Pow2(n)
    decreases n
  {
    if n > 0 {
      ShrIsDiv(a / 2, n - 1);
      DivDiv(a, 2, Pow2(n - 1));
    }
  }

  /** Dropping low bits commutes with the bitwise operations. */
  lemma {:induction false} ShrXor(a: nat, b: nat, n: nat)
    ensures Shr(Xor(a, b), n) == Xor(Shr(a, n), Shr(b, n))
    decreases n
  {
    if n > 0 {
      ShrXor(a / 2, b / 2, n - 1);
      XorStep(a, b);
      hide Xor;
    }
  }

  lemma {:induction false} ShrOr(a: nat, b: nat, n: nat)
    ensures Shr(Or(a, b), n) == Or(Shr(a, n), Shr(b, n))
    decreases n
  {
    if n > 0 {
      ShrOr(a / 2, b / 2, n - 1);
      LastBit(Or(a, b), BitOr(a % 2, b % 2), Or(a / 2, b / 2));
      hide Or;
    }
  }

  // ---- the mask tricks ----

  /** All ones when the words are equal, else zero. */
  function EqMask(a: u64, b: u64): (c: u64)
  {
    var x := Xor64(a, b);
    var minus_x := Neg64(x);
    var x_or_minus_x := Or64(x, minus_x);
    var xnx := x_or_minus_x / 0x8000_0000_0000_0000;
    Sub64(xnx, 1)
  }

  /** All ones when a is at least b, else zero. */
  function GteMask(a: u64, b: u64): (c: u64)
  {
    var x_xor_y := Xor64(a, b);
    var x_sub_y := Sub64(a, b);
    var x_sub_y_xor_y := Xor64(x_sub_y, b);
    var q := Or64(x_xor_y, x_sub_y_xor_y);
    var x_xor_q := Xor64(a, q);
    Sub64(x_xor_q / 0x8000_0000_0000_0000, 1)
  }

  lemma TopBit(a: u64, b: u64)
    ensures Xor64(a, b) / 0x8000_0000_0000_0000 == if a / 0x8000_0000_0000_0000 == b / 0x8000_0000_0000_0000 then 0 else 1
    ensures Or64(a, b) / 0x8000_0000_0000_0000 == if a / 0x8000_0000_0000_0000 == 0 && b / 0x8000_0000_0000_0000 == 0 then 0 else 1
  {
    Pow2Values();
    ShrXor(a as int, b as int, 63);
    ShrOr(a as int, b as int, 63);
    ShrIsDiv(a as int, 63);
    ShrIsDiv(b as int, 63);
    ShrIsDiv(Xor(a as int, b as int), 63);
    ShrIsDiv(Or(a as int, b as int), 63);
    TopBitOf(a as int / Pow2(63), b as int / Pow2(63));
    hide Xor, Or, Shr, Pow2;
  }

  lemma TopBitOf(p: nat, q: nat)
    requires p <= 1 && q <= 1
    ensures Xor(p, q) == BitXor(p, q) && Or(p, q) == BitOr(p, q)
  {
  }

  lemma EqMaskCorrect(a: u64, b: u64)
    ensures EqMask(a, b) == if a == b then 0xffff_ffff_ffff_ffff else 0
  {
    var x := Xor64(a, b);
    XorSelf(a as int, b as int);
    TopBit(x, Neg64(x));
  }

  lemma GteMaskCorrect(a: u64, b: u64)
    ensures GteMask(a, b) == if a >= b then 0xffff_ffff_ffff_ffff else 0
  {
    var x_xor_y := Xor64(a, b);
    var x_sub_y := Sub64(a, b);
    var x_sub_y_xor_y := Xor64(x_sub_y, b);
    var q := Or64(x_xor_y, x_sub_y_xor_y);
    TopBit(a, b);
    TopBit(x_sub_y, b);
    TopBit(x_xor_y, x_sub_y_xor_y);
    TopBit(a, q);
  }

  /** Masking with a mask of all ones keeps a word, masking with zero clears it. */
  lemma MaskSelects(mask: u64, x: u64)
    ensures mask == 0xffff_ffff_ffff_ffff ==> And64(mask, x) == x && And64(x, mask) == x
    ensures mask == 0 ==> And64(mask, x) == 0 && And64(x, mask) == 0
  {
    Pow2Values();
    AndOnes(x as int, 64);
    AndZero(x as int);
    AndCommutes(mask as int, x as int);
  }

  lemma {:induction false} AndCommutes(a: nat, b: nat)
    ensures And(a, b) == And(b, a)
    decreases a + b
  {
    if a == 0 {
      AndZero(b);
    } else if b == 0 {
      AndZero(a);
    } else {
      AndCommutes(a / 2, b / 2);
    }
  }
}
