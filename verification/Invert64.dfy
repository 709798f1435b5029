/** Inversion in the 64-bit back end: z to the power p - 2 by repeated squaring. */
module Invert64 {
  import opened Words
  import opened Powers
  import opened Field25519
  import opened Exponents
  import opened Limbs51
  import opened Curve64

  /** The first part of the chain: z^11 in a and z^(2^5 - 1) in b. */
  method CrecipStart(a: array<u64>, t: array<u64>, b: array<u64>, z: array<u64>)
    requires a.Length == 5 && t.Length == 5 && b.Length == 5 && TightArray(z)
    requires a != t && a != b && a != z && t != b && t != z && b != z
    modifies a, t, b
    ensures TightArray(a) && TightArray(b)
    ensures Elem(a) == FPow(Elem(z), 11) && Elem(b) == FPow(Elem(z), Ones(5))
  {
    ghost var v := Elem(z);
    RedRange(Val(View(z)));
    hide FPow, FMul, Val, View, Red;
    PowTwo(v);
    assert Pow2(1) == 2;
    SmallChain(v);
    FsquareTimes(a, z, 1);
    FsquareTimes(t, a, 2);
    Fmul(b, t, z);
    Fmul(a, b, a);
    FsquareTimes(t, a, 1);
    Fmul(b, t, b);
  }

  /** From z^(2^5 - 1) to z^(2^50 - 1), both in b. */
  method CrecipMiddle(t: array<u64>, b: array<u64>, c: array<u64>, ghost v: int)
    requires t.Length == 5 && c.Length == 5 && TightArray(b) && t != b && t != c && b != c
    modifies t, b, c
    ensures TightArray(b)
    ensures old(Elem(b)) == FPow(v, Ones(5)) ==> Elem(b) == FPow(v, Ones(50))
  {
    hide FPow, FMul, Val, View, Red, Pow2, Ones;
    FsquareTimes(t, b, 5);
    OnesChain(v, 5, 5);
    Fmul(b, t, b);
    FsquareTimes(t, b, 10);
    OnesChain(v, 10, 10);
    Fmul(c, t, b);
    FsquareTimes(t, c, 20);
    OnesChain(v, 20, 20);
    Fmul(t, t, c);
    FsquareTimesInplace(t, 10);
    OnesChain(v, 40, 10);
    Fmul(b, t, b);
  }

  /** From z^(2^50 - 1) in b and z^11 in a to z^(p - 2). */
  method CrecipEnd(output: array<u64>, a: array<u64>, t: array<u64>, b: array<u64>, c: array<u64>, ghost v: int)
    requires output.Length == 5 && t.Length == 5 && c.Length == 5 && TightArray(b) && TightArray(a)
    requires t != b && t != c && b != c && a != t && a != c
    modifies output, t, c
    ensures TightArray(output)
    ensures old(Elem(b) == FPow(v, Ones(50)) && Elem(a) == FPow(v, 11)) ==> Elem(output) == FPow(v, P - 2)
  {
    hide FPow, FMul, Val, View, Red, Pow2, Ones;
    FsquareTimes(t, b, 50);
    OnesChain(v, 50, 50);
    Fmul(c, t, b);
    FsquareTimes(t, c, 100);
    OnesChain(v, 100, 100);
    Fmul(t, t, c);
    FsquareTimesInplace(t, 50);
    OnesChain(v, 200, 50);
    Fmul(t, t, b);
    FsquareTimesInplace(t, 5);
    LastStep(v);
    Fmul(output, t, a);
  }

  method Crecip(output: array<u64>, z: array<u64>)
    requires output.Length == 5 && TightArray(z)
    modifies output
    ensures TightArray(output)
    ensures Elem(output) == old(FPow(Elem(z), P - 2))
  {
    hide FPow, FMul, Val, View, Red, Pow2, Ones;
    ghost var v := Elem(z);
    var a := new u64[5];
    var t := new u64[5];
    var b := new u64[5];
    var c := new u64[5];
    CrecipStart(a, t, b, z);
    CrecipMiddle(t, b, c, v);
    CrecipEnd(output, a, t, b, c, v);
  }
}
