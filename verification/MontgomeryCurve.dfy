/** The ladder step and the scalar in the terms of RFC 7748: the step is doubling and differential addition on the
    curve v^2 = u^3 + 486662 u^2 + u, and the bits are those of the scalar's number. */
module MontgomeryCurve {
  import opened Words
  import opened Powers
  import opened LittleEndian
  import opened Field25519
  import opened X25519
  import opened Scalars
  import opened PublicKeys

  // ---- the step ----

  lemma MulOf(a: int, b: int)
    ensures FMul(Red(a), Red(b)) == Red(a * b)
    ensures FMul(a, b) == Red(a * b) && FMul(a, Red(b)) == Red(a * b)
  {
    MulReduceRight(a, b);
    RedMul(a, b);
    TimesIs(a, b);
    hide Red, Times;
  }

  lemma SumOf(a: int, b: int)
    ensures FAdd(Red(a), Red(b)) == Red(a + b) && FSub(Red(a), Red(b)) == Red(a - b)
    ensures FAdd(a, b) == Red(a + b) && FSub(a, b) == Red(a - b)
  {
    RedAdd(a, b);
    RedSub(a, b);
    hide Red;
  }

  function Square(x: int): int { FMul(x, x) }

  /** The point doubled: X' = (X^2 - Z^2)^2 and Z' = 4XZ (X^2 + 486662 XZ + Z^2). */
  lemma StepDoubles(x1: int, s: Ladder)
    ensures Step(x1, s).x2 == Square(FSub(Square(s.x2), Square(s.z2)))
    ensures var xz := FMul(s.x2, s.z2);
            Step(x1, s).z2 == FMul(4, FMul(xz, FAdd(FAdd(Square(s.x2), FMul(486662, xz)), Square(s.z2))))
  {
    var x, z := s.x2, s.z2;
    var a, b := x + z, x - z;
    var aa, bb, xx, zz, xz := a * a, b * b, x * x, z * z, x * z;
    DoublingIdentities(x, z);
    var e := aa - bb;
    hide FMul, FAdd, FSub, Red;
    // the step
    SumOf(x, z);
    MulOf(a, a);
    MulOf(b, b);
    MulOf(aa, bb);
    SumOf(aa, bb);
    MulOf(A24, e);
    SumOf(aa, A24 * e);
    MulOf(e, aa + A24 * e);
    // the formulas
    MulOf(x, x);
    MulOf(z, z);
    MulOf(x, z);
    SumOf(xx, zz);
    MulOf(xx - zz, xx - zz);
    MulOf(486662, xz);
    SumOf(xx, 486662 * xz);
    SumOf(xx + 486662 * xz, zz);
    MulOf(xz, xx + 486662 * xz + zz);
    MulOf(4, xz * (xx + 486662 * xz + zz));
  }

  lemma DoublingIdentities(x: int, z: int)
    ensures var a, b, xx, zz, xz := x + z, x - z, x * x, z * z, x * z;
            var e := a * a - b * b;
            && (a * a) * (b * b) == (xx - zz) * (xx - zz)
            && e * (a * a + A24 * e) == 4 * (xz * (xx + 486662 * xz + zz))
  {
    var a, b, xx, zz, xz := x + z, x - z, x * x, z * z, x * z;
    assert a * a == xx + 2 * xz + zz && b * b == xx - 2 * xz + zz;
    assert a * b == xx - zz;
    assert (a * a) * (b * b) == (a * b) * (a * b) by { Interchange(a, a, b, b); }
  }

  lemma Interchange(a: int, b: int, c: int, d: int)
    ensures (a * b) * (c * d) == (a * c) * (b * d)
  {
    assert (a * b) * (c * d) == a * (b * c) * d;
    assert (a * c) * (b * d) == a * (b * c) * d;
  }

  /** The two points added, their difference having u-coordinate x1: X' = 4 (X2 X3 - Z2 Z3)^2 and
      Z' = 4 x1 (X2 Z3 - Z2 X3)^2. */
  lemma StepAdds(x1: int, s: Ladder)
    ensures Step(x1, s).x3 == FMul(4, Square(FSub(FMul(s.x2, s.x3), FMul(s.z2, s.z3))))
    ensures Step(x1, s).z3 == FMul(x1, FMul(4, Square(FSub(FMul(s.x2, s.z3), FMul(s.z2, s.x3)))))
  {
    var x2, z2, x3, z3 := s.x2, s.z2, s.x3, s.z3;
    var a, b, c, d := x2 + z2, x2 - z2, x3 + z3, x3 - z3;
    var da, cb, m, n := d * a, c * b, x2 * x3 - z2 * z3, x2 * z3 - z2 * x3;
    AdditionIdentities(x2, z2, x3, z3);
    hide FMul, FAdd, FSub, Red;
    // the step
    SumOf(x2, z2);
    SumOf(x3, z3);
    MulOf(d, a);
    MulOf(c, b);
    SumOf(da, cb);
    MulOf(da + cb, da + cb);
    MulOf(da - cb, da - cb);
    // the formulas
    MulOf(x2, x3);
    MulOf(z2, z3);
    SumOf(x2 * x3, z2 * z3);
    MulOf(m, m);
    MulOf(4, m * m);
    MulOf(x2, z3);
    MulOf(z2, x3);
    SumOf(x2 * z3, z2 * x3);
    MulOf(n, n);
    MulOf(4, n * n);
  }

  lemma AdditionIdentities(x2: int, z2: int, x3: int, z3: int)
    ensures var a, b, c, d := x2 + z2, x2 - z2, x3 + z3, x3 - z3;
            var da, cb, m, n := d * a, c * b, x2 * x3 - z2 * z3, x2 * z3 - z2 * x3;
            (da + cb) * (da + cb) == 4 * (m * m) && (da - cb) * (da - cb) == 4 * (n * n)
  {
    var a, b, c, d := x2 + z2, x2 - z2, x3 + z3, x3 - z3;
    var m, n := x2 * x3 - z2 * z3, x2 * z3 - z2 * x3;
    assert d * a == x2 * x3 + z2 * x3 - x2 * z3 - z2 * z3;
    assert c * b == x2 * x3 - z2 * x3 + x2 * z3 - z2 * z3;
    assert d * a + c * b == 2 * m && d * a - c * b == -2 * n;
    assert (2 * m) * (2 * m) == 4 * (m * m) && (-2 * n) * (-2 * n) == 4 * (n * n);
  }

  // ---- the scalar ----

  /** Bit i of a little-endian string is bit i of its number. */
  lemma BitOfNumber(e: seq<u8>, i: nat)
    requires i < 8 * |e|
    ensures BitAt(e, i) <==> LeVal(e) / Pow2(i) % 2 == 1
  {
    hide *;
    var m, j := i / 8, i % 8;
    var rest := LeVal(e[m..][1..]);
    ByteOfNumber(e, m);
    BitOfByte(e, i, m, j);
    LowBitOfByte(e[m] as int, rest, j);
    BitBelow(LeVal(e), Pow2(8 * m), Pow2(j), Pow2(i), e[m] as int, rest);
  }

  lemma ByteOfNumber(e: seq<u8>, m: nat)
    requires m < |e|
    ensures LeVal(e) / Pow2(8 * m) == e[m] as int + 256 * LeVal(e[m..][1..])
  {
    LeValSplit(e, m);
    hide Pow2;
    assert LeVal(e[m..]) == e[m] as int + 256 * LeVal(e[m..][1..]);
    hide LeVal;
  }

  lemma BitOfByte(e: seq<u8>, i: nat, m: nat, j: nat)
    requires i < 8 * |e| && m == i / 8 && j == i % 8
    ensures BitAt(e, i) <==> e[m] as int / Pow2(j) % 2 == 1
    ensures Pow2(i) == Pow2(8 * m) * Pow2(j)
  {
    Pow2Add(8 * m, j);
    assert i == 8 * m + j;
    hide Pow2;
  }

  lemma BitBelow(v: nat, p: nat, d: nat, pd: nat, b: nat, rest: nat)
    requires p > 0 && d > 0 && pd == p * d && v / p == b + 256 * rest && (b + 256 * rest) / d % 2 == b / d % 2
    ensures pd > 0 && v / pd % 2 == b / d % 2
  {
    DivDiv(v, p, d);
  }

  lemma LowBitOfByte(b: nat, rest: nat, j: nat)
    requires b < 256 && j < 8
    ensures (b + 256 * rest) / Pow2(j) % 2 == b / Pow2(j) % 2
  {
    Pow2Add(j, 8 - j);
    Pow2Values();
    TwicePow(8 - j);
    hide *;
    AboveBit(b, rest, Pow2(j), Pow2(7 - j));
  }

  lemma AboveBit(b: nat, rest: nat, d: nat, e: nat)
    requires d > 0 && d * (2 * e) == 256
    ensures (b + 256 * rest) / d % 2 == b / d % 2
  {
    Evenly(d, 2 * e, e, rest);
    hide *;
    ShiftQuotient(b, d, 2 * (e * rest));
    EvenShift(b / d, e * rest);
  }

  lemma Evenly(d: nat, f: nat, e: nat, c: nat)
    requires d * f == 256 && f == 2 * e
    ensures 2 * (e * c) * d == 256 * c
  {
    assert 2 * (e * c) * d == (d * f) * c;
  }

  /** The number written by bits, most significant first. */
  function BitsValue(bits: seq<bool>): nat {
    if bits == [] then 0 else 2 * BitsValue(bits[..|bits| - 1]) + if bits[|bits| - 1] then 1 else 0
  }

  lemma {:induction false} BitsOfNumber(bits: seq<bool>, v: nat)
    requires forall i: nat :: i < |bits| ==> (bits[i] <==> v / Pow2(|bits| - 1 - i) % 2 == 1)
    ensures BitsValue(bits) == v % Pow2(|bits|)
  {
    hide Pow2;
    var n := |bits|;
    if n == 0 {
      assert Pow2(0) == 1 by { PowSmall(0); }
    } else {
      var front := bits[..n - 1];
      forall i: nat | i < n - 1
        ensures front[i] <==> v / 2 / Pow2(n - 2 - i) % 2 == 1
      {
        HalfBit(v, n - 2 - i);
      }
      BitsOfNumber(front, v / 2);
      assert Pow2(0) == 1 by { PowSmall(0); }
      assert bits[n - 1] <==> v / Pow2(0) % 2 == 1;
      assert Pow2(n) == 2 * Pow2(n - 1) by { TwicePow(n); }
      ModTwice(v, Pow2(n - 1));
    }
  }

  lemma TwicePow(n: nat)
    requires n > 0
    ensures Pow2(n) == 2 * Pow2(n - 1)
  {
  }

  lemma HalfBit(v: nat, i: nat)
    ensures v / Pow2(i + 1) == v / 2 / Pow2(i)
  {
    TwicePow(i + 1);
    DivDiv(v, 2, Pow2(i));
    hide Pow2;
  }

  /** The ladder's bits are the binary digits of the scalar's number, without those from position n on. */
  lemma ScalarBitsValue(e: seq<u8>, n: nat)
    requires n <= 8 * |e|
    ensures BitsValue(ScalarBits(e, n)) == LeVal(e) % Pow2(n)
  {
    hide LeVal, Pow2, BitsValue;
    var bits := ScalarBits(e, n);
    forall i: nat | i < n
      ensures bits[i] <==> LeVal(e) / Pow2(n - 1 - i) % 2 == 1
    {
      BitOfNumber(e, n - 1 - i);
    }
    BitsOfNumber(bits, LeVal(e));
  }

  /** The number the ladder multiplies by: 2^254 plus eight times a number below 2^251, the secret's own bits. */
  lemma LadderScalar(k: seq<u8>)
    requires |k| == 32
    ensures BitsValue(ScalarBits(Clamped(k), 255)) == Pow2(254) + 8 * (LeVal(k) / 8 % Pow2(251))
  {
    hide *;
    ClampedValue(k);
    ScalarBitsValue(Clamped(k), 255);
    TwicePow(255);
    ClampPowers();
    RemainderBelow(LeVal(k) / 8, Pow2(251));
    BelowModulus(LeVal(k) / 8 % Pow2(251), Pow2(251), Pow2(254), Pow2(255));
  }

  lemma BelowModulus(r: nat, p: nat, q: nat, m: nat)
    requires r < p && q == 8 * p && m == 2 * q
    ensures m > 0 && (q + 8 * r) % m == q + 8 * r
  {
    DivUnique(q + 8 * r, m, 0, q + 8 * r);
  }

  lemma RemainderBelow(a: nat, p: nat)
    requires p > 0
    ensures 0 <= a % p < p
  {
  }

  /** What it is for (X : Z) to be the n-th multiple of the base point: any relation that holds of the neutral element
      and of the base point and that the two formulas above respect. */
  ghost predicate Multiples(x1: int, mul: (int, int, nat) -> bool) {
    && mul(1, 0, 0) && mul(x1, 1, 1)
    && (forall s: Ladder, n: nat :: mul(s.x2, s.z2, n) ==> mul(Step(x1, s).x2, Step(x1, s).z2, 2 * n))
    && forall s: Ladder, n: nat, m: nat :: (m == n + 1 || n == m + 1) && mul(s.x2, s.z2, n) && mul(s.x3, s.z3, m) ==>
         mul(Step(x1, s).x3, Step(x1, s).z3, n + m)
  }

  /** Whatever multiples are, the ladder over the bits of n ends with the n-th and the next one. */
  lemma {:induction false} LadderMultiplies(x1: int, bits: seq<bool>, mul: (int, int, nat) -> bool)
    requires Multiples(x1, mul)
    ensures var s, n := Eager(x1, bits), BitsValue(bits); mul(s.x2, s.z2, n) && mul(s.x3, s.z3, n + 1)
  {
    hide Step;
    if bits != [] {
      var front, last := bits[..|bits| - 1], bits[|bits| - 1];
      LadderMultiplies(x1, front, mul);
      var s, n := Eager(x1, front), BitsValue(front);
      var t := CSwap(last, s);
      assert Eager(x1, bits) == CSwap(last, Step(x1, t));
      assert mul(t.x2, t.z2, if last then n + 1 else n) && mul(t.x3, t.z3, if last then n else n + 1);
      assert BitsValue(bits) == 2 * n + if last then 1 else 0;
      assert mul(Step(x1, t).x2, Step(x1, t).z2, 2 * if last then n + 1 else n);
      assert mul(Step(x1, t).x3, Step(x1, t).z3, (if last then n + 1 else n) + if last then n else n + 1);
    }
  }

  /** Before the division, the key is the multiple by the number of LadderScalar. */
  lemma KeyIsMultiple(k: seq<u8>, u: seq<u8>, mul: (int, int, nat) -> bool)
    requires |k| == 32 && Multiples(BaseU(u), mul)
    ensures var s := Rfc7748(BaseU(u), ScalarBits(Clamped(k), 255));
            RfcKey(k, u) == Affine(s.x2, s.z2) && mul(s.x2, s.z2, Pow2(254) + 8 * (LeVal(k) / 8 % Pow2(251)))
  {
    var bits := ScalarBits(Clamped(k), 255);
    LadderMultiplies(BaseU(u), bits, mul);
    EagerIsRfc7748(BaseU(u), bits);
    LadderScalar(k);
    hide Multiples, Rfc7748, Affine, Eager, BitsValue, ScalarBits, Clamped, LeVal, Pow2, BaseU;
  }

  /** The key depends on bits 3 to 253 of the secret and on bits 0 to 254 of the base point only. */
  lemma KeyIgnoresOtherBits(k: seq<u8>, k': seq<u8>, u: seq<u8>, u': seq<u8>)
    requires |k| == 32 && |k'| == 32 && |u| == 32 && |u'| == 32
    requires LeVal(k) / 8 % Pow2(251) == LeVal(k') / 8 % Pow2(251) && LeVal(u) % Pow2(255) == LeVal(u') % Pow2(255)
    ensures RfcKey(k, u) == RfcKey(k', u')
  {
    ClampedValue(k);
    ClampedValue(k');
    PIs();
    hide Clamped, LeVal, Rfc7748, Affine, Pow2;
    LeValInjective(Clamped(k), Clamped(k'));
  }

  lemma PIs()
    ensures P == Pow2(255) - 19
  {
    Pow2Values();
    Pow2Add(64, 64);
    Pow2Add(128, 64);
    Pow2Add(192, 63);
    hide Pow2;
  }
}
