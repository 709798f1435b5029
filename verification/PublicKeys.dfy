/** What the two back ends compute, as functions of the scalar and base point bytes, and how they compare. */
module PublicKeys {
  import opened Words
  import opened LittleEndian
  import opened Field25519
  import opened Exponents
  import opened X25519
  import opened Scalars
  import PowersOf36

  /** X · Z^(p - 2) */
  function Affine(x: int, z: int): int {
    FMul(x, FPow(z, P - 2))
  }

  /** The u-coordinate of a base point: its top bit is ignored. */
  function BaseU(basepoint: seq<u8>): int {
    Red(LeVal(basepoint) % (P + 19))
  }

  /** X25519 of section 5 of RFC 7748: 255 ladder steps with deferred swaps. */
  function RfcKey(k: seq<u8>, u: seq<u8>): int
    requires |k| == 32
  {
    var s := Rfc7748(BaseU(u), ScalarBits(Clamped(k), 255));
    Affine(s.x2, s.z2)
  }

  /** The projective result of the 64-bit back end: 256 eager steps. */
  function Point64(k: seq<u8>, u: seq<u8>): Ladder
    requires |k| == 32
  {
    Eager(BaseU(u), ScalarBits(Clamped(k), 256))
  }

  function Key64(k: seq<u8>, u: seq<u8>): int
    requires |k| == 32
  {
    var s := Point64(k, u);
    Affine(s.x2, s.z2)
  }

  /** The extra step of the 64-bit ladder multiplies both coordinates by one power of 4u. */
  lemma LeadingStepRescales(k: seq<u8>, u: seq<u8>) returns (i: nat)
    requires |k| == 32
    ensures var a := Point64(k, u);
            var b := Rfc7748(BaseU(u), ScalarBits(Clamped(k), 255));
            var m := FPow(FMul(4, BaseU(u)), i);
            a.x2 == FMul(m, b.x2) && a.z2 == FMul(m, b.z2)
  {
    hide Run, FPow, FMul, ScalarBits, Clamped;
    var x1, bits := BaseU(u), ScalarBits(Clamped(k), 255);
    ClampedBits(k);
    var j;
    i, j := LeadingZeroRescales(x1, bits);
    EagerIsRfc7748(x1, bits);
  }

  /** For every scalar and base point the two ladders end in proportional coordinates: the same projective point,
      unless the factor between them is zero, as for u = 0, where the 64-bit ladder ends in (0, 0). */
  lemma ProjectivelyEqual(k: seq<u8>, u: seq<u8>)
    requires |k| == 32
    ensures var a := Point64(k, u);
            var b := Rfc7748(BaseU(u), ScalarBits(Clamped(k), 255));
            FMul(a.x2, b.z2) == FMul(b.x2, a.z2)
  {
    hide Run, FPow, FMul, Rfc7748, Eager, ScalarBits, Clamped;
    var i := LeadingStepRescales(k, u);
    var b := Rfc7748(BaseU(u), ScalarBits(Clamped(k), 255));
    var m := FPow(FMul(4, BaseU(u)), i);
    MulAssociates(m, b.x2, b.z2);
    MulAssociates(b.x2, m, b.z2);
    MulCommutes(b.x2, m);
    MulAssociates(m, b.x2, b.z2);
  }

  /** A common factor whose (p - 1)-th power is 1 does not show in the affine coordinate. */
  lemma AffineIgnoresFactor(m: int, x: int, z: int)
    requires FPow(m, P - 1) == 1
    ensures Affine(FMul(m, x), FMul(m, z)) == Affine(x, z)
  {
    hide FPow, FMul;
    PowBase(m, z, P - 2);
    MulInterchange(m, x, FPow(m, P - 2), FPow(z, P - 2));
    PowAdd(m, 1, P - 2);
    PowOne(m);
    PowFirst(m);
    OneTimes(x, FPow(z, P - 2));
  }

  lemma PowFirst(m: int)
    ensures FMul(m, FPow(m, P - 2)) == FPow(m, P - 1)
  {
    hide FPow;
    PowAdd(m, 1, P - 2);
    PowOne(m);
    MulReduceLeft(m, FPow(m, P - 2));
  }

  lemma OneTimes(x: int, y: int)
    ensures FMul(1, FMul(x, y)) == FMul(x, y)
  {
    RedRange(Times(x, y));
    hide Red, Times;
    MulOne(FMul(x, y));
  }

  /** The base point 9 as bytes. */
  predicate IsNine(u: seq<u8>) {
    |u| == 32 && LeVal(u) == 9
  }

  lemma NineU(u: seq<u8>)
    requires IsNine(u)
    ensures BaseU(u) == 9
  {
    hide LeVal;
    RedRange(9);
    assert 9 % (P + 19) == 9;
  }

  lemma FourTimesNine()
    ensures FMul(4, 9) == 36
  {
  }

  /** Every power of 36 has (p - 1)-th power 1. */
  lemma FactorVanishes(i: nat)
    ensures FPow(FPow(36, i), P - 1) == 1
  {
    hide FPow;
    PowersOf36.PowerOf36();
    PowMul(36, i, P - 1);
    PowMul(36, P - 1, i);
    assert i * (P - 1) == (P - 1) * i;
    OnePow(i);
  }

  /** With base point 9 both back ends return the X25519 function of the RFC, for every secret key. */
  lemma Key64IsRfcKey(k: seq<u8>, u: seq<u8>)
    requires |k| == 32 && IsNine(u)
    ensures Key64(k, u) == RfcKey(k, u)
  {
    NineU(u);
    FourTimesNine();
    hide Run, FPow, FMul, Red, BaseU, IsNine, Affine, Rfc7748, Eager, ScalarBits, Clamped, LeVal;
    var i := LeadingStepRescales(k, u);
    var b := Rfc7748(BaseU(u), ScalarBits(Clamped(k), 255));
    FactorVanishes(i);
    AffineIgnoresFactor(FPow(36, i), b.x2, b.z2);
  }

  lemma {:induction false} OnePow(i: nat)
    ensures FPow(1, i) == 1
  {
    if i > 0 {
      OnePow(i - 1);
    }
  }
}
