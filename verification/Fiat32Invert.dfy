/** Inversion in the 32-bit back end: the same chain as in the 64-bit one, over loose operands. */
module Fiat32Invert {
  import opened Words
  import opened Powers
  import opened Field25519
  import opened Exponents
  import opened Limbs26
  import opened Fiat32

  /** One squaring into `out` and count - 1 more in place. */
  method FeSquareTimes(out: array<u32>, in1: array<u32>, count: u32)
    requires out.Length == 10 && LooseArray(in1) && count >= 1
    modifies out
    ensures TightArray(out)
    ensures Elem(out) == old(FPow(Elem(in1), Pow2(count as int)))
  {
    hide Val, View, Red, FMul, FPow, Pow2, Tight, Loose;
    ghost var z := Elem(in1);
    FeSqr(out, in1);
    PowTwo(z);
    var i: u32 := 1;
    while i < count
      invariant 1 <= i <= count
      invariant TightArray(out)
      invariant Elem(out) == FPow(z, Pow2(i as int))
    {
      TightIsLoose(View(out));
      FeSqr(out, out);
      SquareOfPower(z, i as int);
      i := i + 1;
    }
  }

  /** Multiplication of two tight operands. */
  method FeMulTight(out: array<u32>, in1: array<u32>, in2: array<u32>)
    requires TightArray(in1) && TightArray(in2) && out.Length == 10
    modifies out
    ensures TightArray(out)
    ensures Elem(out) == old(FMul(Elem(in1), Elem(in2)))
  {
    TightIsLoose(View(in1));
    TightIsLoose(View(in2));
    FeMul(out, in1, in2);
  }

  method FeSquareTight(out: array<u32>, in1: array<u32>, count: u32)
    requires out.Length == 10 && TightArray(in1) && count >= 1
    modifies out
    ensures TightArray(out)
    ensures Elem(out) == old(FPow(Elem(in1), Pow2(count as int)))
  {
    TightIsLoose(View(in1));
    FeSquareTimes(out, in1, count);
  }

  lemma TightIsLoose(x: L10)
    requires Tight(x)
    ensures Loose(x)
  {
  }

  /** z^11 in t0 and z^(2^5 - 1) in t1. */
  method InvertStart(t0: array<u32>, t1: array<u32>, t2: array<u32>, z: array<u32>)
    requires t0.Length == 10 && t1.Length == 10 && t2.Length == 10 && LooseArray(z)
    requires t0 != t1 && t0 != t2 && t0 != z && t1 != t2 && t1 != z && t2 != z
    modifies t0, t1, t2
    ensures TightArray(t0) && TightArray(t1)
    ensures Elem(t0) == FPow(Elem(z), 11) && Elem(t1) == FPow(Elem(z), Ones(5))
  {
    ghost var v := Elem(z);
    RedRange(Val(View(z)));
    hide FPow, FMul, Val, View, Red, Tight, Loose;
    PowTwo(v);
    assert Pow2(1) == 2;
    SmallChain(v);
    FeSquareTimes(t0, z, 1);
    FeSquareTight(t1, t0, 2);
    TightIsLoose(View(t1));
    FeMul(t1, z, t1);
    FeMulTight(t0, t0, t1);
    FeSquareTight(t2, t0, 1);
    FeMulTight(t1, t1, t2);
  }

  /** From z^(2^5 - 1) to z^(2^50 - 1), both in t1. */
  method InvertMiddle(t1: array<u32>, t2: array<u32>, t3: array<u32>, ghost v: int)
    requires t2.Length == 10 && t3.Length == 10 && TightArray(t1) && t1 != t2 && t1 != t3 && t2 != t3
    modifies t1, t2, t3
    ensures TightArray(t1)
    ensures old(Elem(t1)) == FPow(v, Ones(5)) ==> Elem(t1) == FPow(v, Ones(50))
  {
    hide FPow, FMul, Val, View, Red, Pow2, Ones, Tight, Loose;
    FeSquareTight(t2, t1, 5);
    OnesChain(v, 5, 5);
    FeMulTight(t1, t2, t1);
    FeSquareTight(t2, t1, 10);
    OnesChain(v, 10, 10);
    FeMulTight(t2, t2, t1);
    FeSquareTight(t3, t2, 20);
    OnesChain(v, 20, 20);
    FeMulTight(t2, t3, t2);
    FeSquareTight(t2, t2, 10);
    OnesChain(v, 40, 10);
    FeMulTight(t1, t2, t1);
  }

  /** From z^(2^50 - 1) in t1 and z^11 in t0 to z^(p - 2). */
  method InvertEnd(out: array<u32>, t0: array<u32>, t1: array<u32>, t2: array<u32>, t3: array<u32>, ghost v: int)
    requires out.Length == 10 && t2.Length == 10 && t3.Length == 10 && TightArray(t1) && TightArray(t0)
    requires t1 != t2 && t1 != t3 && t2 != t3 && t0 != t1 && t0 != t2 && t0 != t3
    modifies out, t1, t2, t3
    ensures TightArray(out)
    ensures old(Elem(t1) == FPow(v, Ones(50)) && Elem(t0) == FPow(v, 11)) ==> Elem(out) == FPow(v, P - 2)
  {
    hide FPow, FMul, Val, View, Red, Pow2, Ones, Tight, Loose;
    FeSquareTight(t2, t1, 50);
    OnesChain(v, 50, 50);
    FeMulTight(t2, t2, t1);
    FeSquareTight(t3, t2, 100);
    OnesChain(v, 100, 100);
    FeMulTight(t2, t3, t2);
    FeSquareTight(t2, t2, 50);
    OnesChain(v, 200, 50);
    FeMulTight(t1, t2, t1);
    FeSquareTight(t1, t1, 5);
    LastStep(v);
    FeMulTight(out, t1, t0);
  }

  method FeLooseInvert(out: array<u32>, z: array<u32>)
    requires out.Length == 10 && LooseArray(z)
    modifies out
    ensures TightArray(out)
    ensures Elem(out) == old(FPow(Elem(z), P - 2))
  {
    hide FPow, FMul, Val, View, Red, Pow2, Ones, Tight, Loose;
    ghost var v := Elem(z);
    var t0 := new u32[10];
    var t1 := new u32[10];
    var t2 := new u32[10];
    var t3 := new u32[10];
    InvertStart(t0, t1, t2, z);
    InvertMiddle(t1, t2, t3, v);
    InvertEnd(out, t0, t1, t2, t3, v);
  }
}
