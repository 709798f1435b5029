/** The addition chain for the exponent p - 2 that both back ends follow. */
module Exponents {
  import opened Powers
  import opened Field25519

  /** A number of k one-bits. */
  function Ones(k: nat): nat {
    Pow2(k) - 1
  }

  /** Shifting j ones left by k places and adding k ones gives j + k ones. */
  lemma OnesChain(z: int, j: nat, k: nat)
    ensures FMul(FPow(FPow(z, Ones(j)), Pow2(k)), FPow(z, Ones(k))) == FPow(z, Ones(j + k))
  {
    hide FPow, FMul, Pow2;
    PowMul(z, Ones(j), Pow2(k));
    PowAdd(z, Ones(j) * Pow2(k), Ones(k));
    Pow2Add(j, k);
    OnesProduct(Pow2(j), Pow2(k));
  }

  lemma OnesProduct(p: int, q: int)
    ensures (p - 1) * q + (q - 1) == p * q - 1
  {
  }

  /** The exponents 9, 11 and 31 that start the chain. */
  lemma SmallChain(z: int)
    ensures FPow(FPow(z, 2), Pow2(2)) == FPow(z, 8)
    ensures FMul(FPow(z, 8), Red(z)) == FPow(z, 9) == FMul(Red(z), FPow(z, 8))
    ensures FMul(FPow(z, 9), FPow(z, 2)) == FPow(z, 11) == FMul(FPow(z, 2), FPow(z, 9))
    ensures FPow(FPow(z, 11), Pow2(1)) == FPow(z, 22)
    ensures FMul(FPow(z, 22), FPow(z, 9)) == FPow(z, Ones(5)) == FMul(FPow(z, 9), FPow(z, 22))
  {
    hide FMul;
    assert Pow2(1) == 2 && Pow2(2) == 4 && Pow2(3) == 8;
    assert Ones(5) == 31 by { Pow2Add(2, 3); }
    PowMul(z, 2, 4);
    PowMul(z, 11, 2);
    PowAdd(z, 8, 1);
    PowAdd(z, 9, 2);
    PowAdd(z, 22, 9);
    PowOne(z);
    MulCommutes(FPow(z, 8), Red(z));
    MulCommutes(FPow(z, 9), FPow(z, 2));
    MulCommutes(FPow(z, 22), FPow(z, 9));
  }

  lemma PowOne(z: int)
    ensures FPow(z, 1) == Red(z)
  {
    MulOne(z);
    assert FPow(z, 1) == FMul(z, FPow(z, 0));
  }

  /** Five more squarings of 250 ones and a product with z^11 reach p - 2. */
  lemma LastStep(z: int)
    ensures FMul(FPow(FPow(z, Ones(250)), Pow2(5)), FPow(z, 11)) == FPow(z, P - 2)
  {
    PowMul(z, Ones(250), Pow2(5));
    PowAdd(z, Ones(250) * Pow2(5), 11);
    Pow2Is255();
    Pow2Add(250, 5);
    assert Pow2(5) == 32 by { assert Pow2(4) == 16; }
  }

  lemma Pow2Is255()
    ensures Pow2(255) == P + 19
  {
    Pow2Values();
    Pow2Add(64, 64);
    Pow2Add(128, 64);
    Pow2Add(192, 63);
  }

  lemma SquareOfPower(z: int, i: nat)
    ensures FMul(FPow(z, Pow2(i)), FPow(z, Pow2(i))) == FPow(z, Pow2(i + 1))
  {
    PowAdd(z, Pow2(i), Pow2(i));
  }

  lemma PowTwo(z: int)
    ensures FPow(z, Pow2(1)) == FMul(z, z)
  {
    assert Pow2(1) == 2;
    MulOne(z);
    MulReduceRight(z, z);
    assert FPow(z, 2) == FMul(z, FPow(z, 1)) && FPow(z, 1) == FMul(z, FPow(z, 0));
  }
}
