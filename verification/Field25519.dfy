/** The prime field of section 4.1 of RFC 7748, represented by integers reduced modulo 2^255 - 19. */
module Field25519 {
  const P: int := 0x7fff_ffff_ffff_ffff_ffff_ffff_ffff_ffff_ffff_ffff_ffff_ffff_ffff_ffff_ffff_ffed

  function Red(x: int): int {
    x % P
  }

  /** The integer product, as repeated addition: the laws below use it through TimesIs only. */
  function Times(a: int, b: int): int
    decreases if b < 0 then -b else b
  {
    if b == 0 then 0 else if b > 0 then Times(a, b - 1) + a else Times(a, b + 1) - a
  }

  lemma {:induction false} TimesIs(a: int, b: int)
    ensures Times(a, b) == a * b
    decreases if b < 0 then -b else b
  {
    if b > 0 {
      TimesIs(a, b - 1);
      assert a * b == a * (b - 1) + a;
    } else if b < 0 {
      TimesIs(a, b + 1);
      assert a * b == a * (b + 1) - a;
    }
  }

  function FAdd(a: int, b: int): int { Red(a + b) }
  function FSub(a: int, b: int): int { Red(a - b) }
  function FMul(a: int, b: int): int { Red(Times(a, b)) }

  /** a^e in the field, as an e-fold product. */
  function FPow(a: int, e: nat): int {
    if e == 0 then 1 else FMul(a, FPow(a, e - 1))
  }

  lemma MulIs(a: int, b: int)
    ensures FMul(a, b) == a * b % P
  {
    TimesIs(a, b);
  }

  lemma RedUnique(x: int, y: int, k: int)
    requires x == y + k * P
    ensures Red(x) == Red(y)
  {
  }

  lemma RedRange(x: int)
    ensures 0 <= Red(x) < P
    ensures Red(Red(x)) == Red(x)
    ensures 0 <= x < P ==> Red(x) == x
  {
  }

  lemma RedAdd(x: int, y: int)
    ensures Red(Red(x) + Red(y)) == Red(x + y)
  {
  }

  lemma RedSub(x: int, y: int)
    ensures Red(Red(x) - Red(y)) == Red(x - y)
  {
  }

  lemma RedMul(x: int, y: int)
    ensures FMul(Red(x), Red(y)) == FMul(x, y)
  {
    TimesIs(x, y);
    TimesIs(Red(x), Red(y));
    ReducedFactors(x, y, x / P, y / P);
    hide Red;
    RedUnique(x * y, Red(x) * Red(y), Red(x) * (y / P) + (x / P) * Red(y) + (x / P) * (y / P) * P);
  }

  lemma ReducedFactors(x: int, y: int, kx: int, ky: int)
    requires x == Red(x) + kx * P && y == Red(y) + ky * P
    ensures x * y == Red(x) * Red(y) + (Red(x) * ky + kx * Red(y) + kx * ky * P) * P
  {
    hide Red;
    var rx, ry := Red(x), Red(y);
    calc {
      x * y;
      (rx + kx * P) * (ry + ky * P);
      rx * ry + (rx * ky + kx * ry + kx * ky * P) * P;
    }
  }

  lemma MulReduceLeft(x: int, y: int)
    ensures FMul(Red(x), y) == FMul(x, y)
  {
    RedMul(x, y);
    RedMul(Red(x), y);
    RedRange(x);
    hide Red, FMul;
  }

  lemma MulReduceRight(x: int, y: int)
    ensures FMul(x, Red(y)) == FMul(x, y)
  {
    RedMul(x, y);
    RedMul(x, Red(y));
    RedRange(y);
    hide Red, FMul;
  }

  lemma MulCommutes(a: int, b: int)
    ensures FMul(a, b) == FMul(b, a)
  {
    hide Red;
    TimesIs(a, b);
    TimesIs(b, a);
  }

  lemma MulAssociates(a: int, b: int, c: int)
    ensures FMul(FMul(a, b), c) == FMul(a, FMul(b, c))
  {
    hide Red;
    MulReduceLeft(Times(a, b), c);
    MulReduceRight(a, Times(b, c));
    TimesAssociates(a, b, c);
  }

  lemma TimesAssociates(a: int, b: int, c: int)
    ensures Times(Times(a, b), c) == Times(a, Times(b, c))
  {
    hide Times;
    TimesIs(a, b);
    TimesIs(b, c);
    TimesIs(a * b, c);
    TimesIs(a, b * c);
  }

  lemma MulDistributesAdd(c: int, a: int, b: int)
    ensures FAdd(FMul(c, a), FMul(c, b)) == FMul(c, FAdd(a, b))
  {
    RedAdd(Times(c, a), Times(c, b));
    MulReduceRight(c, a + b);
    hide Red;
    TimesIs(c, a);
    TimesIs(c, b);
    TimesIs(c, a + b);
    assert c * a + c * b == c * (a + b);
  }

  lemma MulDistributesSub(c: int, a: int, b: int)
    ensures FSub(FMul(c, a), FMul(c, b)) == FMul(c, FSub(a, b))
  {
    RedSub(Times(c, a), Times(c, b));
    MulReduceRight(c, a - b);
    hide Red;
    TimesIs(c, a);
    TimesIs(c, b);
    TimesIs(c, a - b);
    assert c * a - c * b == c * (a - b);
  }

  /** (a·b)·(c·d) == (a·c)·(b·d) */
  lemma MulInterchange(a: int, b: int, c: int, d: int)
    ensures FMul(FMul(a, b), FMul(c, d)) == FMul(FMul(a, c), FMul(b, d))
  {
    hide Red;
    RedMul(Times(a, b), Times(c, d));
    RedMul(Times(a, c), Times(b, d));
    TimesInterchange(a, b, c, d);
  }

  lemma TimesInterchange(a: int, b: int, c: int, d: int)
    ensures Times(Times(a, b), Times(c, d)) == Times(Times(a, c), Times(b, d))
  {
    TimesIs(a, b);
    TimesIs(c, d);
    TimesIs(a, c);
    TimesIs(b, d);
    TimesIs(a * b, c * d);
    TimesIs(a * c, b * d);
    hide Times;
    calc {
      (a * b) * (c * d);
      a * (b * (c * d));
      a * (c * (b * d));
      (a * c) * (b * d);
    }
  }

  lemma MulOne(a: int)
    ensures FMul(1, a) == Red(a) == FMul(a, 1)
  {
    TimesIs(1, a);
    TimesIs(a, 1);
  }

  lemma PowRange(a: int, e: nat)
    ensures 0 <= FPow(a, e) < P
  {
  }

  lemma {:induction false} PowAdd(a: int, e: nat, f: nat)
    ensures FPow(a, e + f) == FMul(FPow(a, e), FPow(a, f))
  {
    hide FMul;
    if e == 0 {
      PowRange(a, f);
      RedRange(FPow(a, f));
      MulOne(FPow(a, f));
    } else {
      PowAdd(a, e - 1, f);
      MulAssociates(a, FPow(a, e - 1), FPow(a, f));
    }
  }

  lemma {:induction false} PowBase(a: int, b: int, e: nat)
    ensures FPow(FMul(a, b), e) == FMul(FPow(a, e), FPow(b, e))
  {
    hide FMul;
    if e > 0 {
      PowBase(a, b, e - 1);
      MulInterchange(a, b, FPow(a, e - 1), FPow(b, e - 1));
    } else {
      MulOne(1);
      RedRange(1);
    }
  }

  lemma {:induction false} PowMul(a: int, e: nat, f: nat)
    ensures FPow(FPow(a, e), f) == FPow(a, e * f)
  {
    hide FMul;
    if f > 0 {
      PowMul(a, e, f - 1);
      assert e * f == e + e * (f - 1);
      PowAdd(a, e, e * (f - 1));
    } else {
      assert e * f == 0;
    }
  }
}
