/** Field elements in five limbs of 51 bits, and what each carry or reduction step does to their value. */
module Limbs51 {
  import opened Field25519

  datatype L5 = L5(a0: int, a1: int, a2: int, a3: int, a4: int)

  const TWO51: int := 0x8_0000_0000_0000

  /** The operands of a multiplication have limbs below this, the largest bound under which the fold of the top limb
      fits a word whatever the low limb is (SharpBound). Limbs of a subtraction's result are below 2^54 + 2^51 + 2^13. */
  const LOOSE: int := 0x4a_48c3_8947_5ddf
  /** Every product limb is below this. */
  const WIDE: int := 0x20_0000_0000_0000_0000_0000_0000_0000
  /** The largest square of an operand limb. */
  const SQUARE: int := 0x158e_25b9_efd4_d57b_5690_cf8f_0c84

  function Val(x: L5): int {
    x.a0 + TWO51 * x.a1 + 0x40_0000_0000_0000_0000_0000_0000 * x.a2
    + 0x200_0000_0000_0000_0000_0000_0000_0000_0000_0000 * x.a3
    + 0x1000_0000_0000_0000_0000_0000_0000_0000_0000_0000_0000_0000_0000 * x.a4
  }

  predicate Below(x: L5, m: int) {
    0 <= x.a0 < m && 0 <= x.a1 < m && 0 <= x.a2 < m && 0 <= x.a3 < m && 0 <= x.a4 < m
  }

  predicate Loose(x: L5) { Below(x, LOOSE) }

  /** The bounds every multiplication re-establishes. */
  predicate Tight(x: L5) {
    0 <= x.a0 < TWO51 && 0 <= x.a1 < TWO51 + 0x2000 && 0 <= x.a2 < TWO51 && 0 <= x.a3 < TWO51 && 0 <= x.a4 < TWO51
  }

  const ZERO: L5 := L5(0, 0, 0, 0, 0)

  function Scale(x: L5, s: int): L5 { L5(x.a0 * s, x.a1 * s, x.a2 * s, x.a3 * s, x.a4 * s) }
  function Plus(x: L5, y: L5): L5 { L5(x.a0 + y.a0, x.a1 + y.a1, x.a2 + y.a2, x.a3 + y.a3, x.a4 + y.a4) }
  function MulRow(acc: L5, x: L5, s: int): L5 { Plus(acc, Scale(x, s)) }
  function ShiftReduce(x: L5): L5 { L5(19 * x.a4, x.a0, x.a1, x.a2, x.a3) }

  function CarryAt0(t: L5): L5 { L5(t.a0 % TWO51, t.a1 + t.a0 / TWO51, t.a2, t.a3, t.a4) }
  function CarryAt1(t: L5): L5 { L5(t.a0, t.a1 % TWO51, t.a2 + t.a1 / TWO51, t.a3, t.a4) }
  function CarryAt2(t: L5): L5 { L5(t.a0, t.a1, t.a2 % TWO51, t.a3 + t.a2 / TWO51, t.a4) }
  function CarryAt3(t: L5): L5 { L5(t.a0, t.a1, t.a2, t.a3 % TWO51, t.a4 + t.a3 / TWO51) }
  function CarryChain(t: L5): L5 { CarryAt3(CarryAt2(CarryAt1(CarryAt0(t)))) }
  function FoldTop(t: L5): L5 { L5(t.a0 + 19 * (t.a4 / TWO51), t.a1, t.a2, t.a3, t.a4 % TWO51) }

  function MulWide(a: L5, b: L5): L5 {
    var a1 := ShiftReduce(a);
    var a2 := ShiftReduce(a1);
    var a3 := ShiftReduce(a2);
    var a4 := ShiftReduce(a3);
    MulRow(MulRow(MulRow(MulRow(MulRow(ZERO, a, b.a0), a1, b.a1), a2, b.a2), a3, b.a3), a4, b.a4)
  }

  /** The products as the squaring code pairs them. */
  function SquareWide(r: L5): L5 {
    var d0, d1, d2, d419 := r.a0 * 2, r.a1 * 2, r.a2 * 2 * 19, r.a4 * 19;
    var d4 := d419 * 2;
    L5(r.a0 * r.a0 + d4 * r.a1 + d2 * r.a3,
       d0 * r.a1 + d4 * r.a2 + r.a3 * 19 * r.a3,
       d0 * r.a2 + r.a1 * r.a1 + d4 * r.a3,
       d0 * r.a3 + d1 * r.a2 + r.a4 * d419,
       d0 * r.a4 + d1 * r.a3 + r.a2 * r.a2)
  }

  /** The reduction shared by multiplication and squaring. */
  function Reduce(t: L5): L5 { CarryAt0(FoldTop(CarryChain(t))) }

  // ---- values ----

  lemma ScaleValue(x: L5, s: int)
    ensures Val(Scale(x, s)) == Val(x) * s
  {
    calc {
      Val(x) * s;
      x.a0 * s + (TWO51 * x.a1) * s + (0x40_0000_0000_0000_0000_0000_0000 * x.a2) * s
      + (0x200_0000_0000_0000_0000_0000_0000_0000_0000_0000 * x.a3) * s
      + (0x1000_0000_0000_0000_0000_0000_0000_0000_0000_0000_0000_0000_0000 * x.a4) * s;
    }
  }

  lemma ShiftReduceValue(x: L5)
    ensures Val(ShiftReduce(x)) == TWO51 * Val(x) - x.a4 * P
  {
  }

  /** Column by column or row by row, the same sum. */
  lemma MulWideRows(a: L5, b: L5, a1: L5, a2: L5, a3: L5, a4: L5)
    requires a1 == ShiftReduce(a) && a2 == ShiftReduce(a1) && a3 == ShiftReduce(a2) && a4 == ShiftReduce(a3)
    ensures Val(MulWide(a, b)) == Val(Scale(a, b.a0)) + Val(Scale(a1, b.a1)) + Val(Scale(a2, b.a2)) + Val(Scale(a3, b.a3))
                                  + Val(Scale(a4, b.a4))
  {
    hide ShiftReduce;
  }

  lemma ScaledSum(b: L5, v: int)
    ensures v * Val(b) == b.a0 * v + TWO51 * (b.a1 * v) + 0x40_0000_0000_0000_0000_0000_0000 * (b.a2 * v)
                          + 0x200_0000_0000_0000_0000_0000_0000_0000_0000_0000 * (b.a3 * v)
                          + 0x1000_0000_0000_0000_0000_0000_0000_0000_0000_0000_0000_0000_0000 * (b.a4 * v)
  {
    ScaleValue(b, v);
  }

  lemma RowValue(x: L5, v: int, c: int, k: int, s: int)
    requires Val(x) == c * v - k * P
    ensures Val(Scale(x, s)) == c * (s * v) - (k * s) * P
  {
    ScaleValue(x, s);
    calc {
      (c * v - k * P) * s;
      (c * v) * s - (k * P) * s;
      c * (s * v) - (k * s) * P;
    }
  }

  /** The pairing of equal products in the squaring code loses nothing. */
  lemma SquareWideIsMulWide(r: L5)
    ensures SquareWide(r) == MulWide(r, r)
  {
    SquareWideLow(r);
    SquareWideHigh(r);
  }

  lemma SquareWideLow(r: L5)
    ensures SquareWide(r).a0 == MulWide(r, r).a0
    ensures SquareWide(r).a1 == MulWide(r, r).a1
  {
  }

  lemma SquareWideHigh(r: L5)
    ensures SquareWide(r).a2 == MulWide(r, r).a2
    ensures SquareWide(r).a3 == MulWide(r, r).a3
    ensures SquareWide(r).a4 == MulWide(r, r).a4
  {
    SquareMiddle(r.a0, r.a1, r.a2, r.a3, r.a4);
    SquareUpper(r.a0, r.a1, r.a2, r.a3, r.a4);
    SquareTop(r.a0, r.a1, r.a2, r.a3, r.a4);
  }

  lemma SquareMiddle(a: int, b: int, c: int, d: int, e: int)
    ensures a * 2 * c + b * b + e * 19 * 2 * d == 0 + c * a + b * b + a * c + 19 * e * d + 19 * d * e
  {
  }

  lemma SquareUpper(a: int, b: int, c: int, d: int, e: int)
    ensures a * 2 * d + b * 2 * c + e * (e * 19) == 0 + d * a + c * b + b * c + a * d + 19 * e * e
  {
  }

  lemma SquareTop(a: int, b: int, c: int, d: int, e: int)
    ensures a * 2 * e + b * 2 * d + c * c == 0 + e * a + d * b + c * c + b * d + a * e
  {
  }

  lemma CarryChainValue(t: L5)
    ensures Val(CarryChain(t)) == Val(t)
  {
    assert Val(CarryAt0(t)) == Val(t);
    var t1 := CarryAt0(t);
    assert Val(CarryAt1(t1)) == Val(t1);
    var t2 := CarryAt1(t1);
    assert Val(CarryAt2(t2)) == Val(t2);
    var t3 := CarryAt2(t2);
    assert Val(CarryAt3(t3)) == Val(t3);
  }

  lemma FoldTopValue(t: L5)
    ensures Red(Val(FoldTop(t))) == Red(Val(t))
  {
    RedUnique(Val(t), Val(FoldTop(t)), t.a4 / TWO51);
  }

  lemma ReduceValue(t: L5)
    ensures Red(Val(Reduce(t))) == Red(Val(t))
  {
    CarryChainValue(t);
    FoldTopValue(CarryChain(t));
    var u := FoldTop(CarryChain(t));
    assert Val(CarryAt0(u)) == Val(u);
  }

  /** The schoolbook product with its wrap has the value of the product. */
  ghost method ProductValue(a: L5, b: L5)
    ensures Red(Val(MulWide(a, b))) == FMul(Val(a), Val(b))
  {
    hide Val, Scale, MulWide, ShiftReduce, Red, Times;
    var v := Val(a);
    var a1 := ShiftReduce(a);
    var a2 := ShiftReduce(a1);
    var a3 := ShiftReduce(a2);
    var a4 := ShiftReduce(a3);
    ShiftReduceValue(a);
    ShiftReduceValue(a1);
    ShiftReduceValue(a2);
    ShiftReduceValue(a3);
    var k1 := a.a4;
    var k2 := TWO51 * k1 + a1.a4;
    var k3 := TWO51 * k2 + a2.a4;
    var k4 := TWO51 * k3 + a3.a4;
    RowValue(a, v, 1, 0, b.a0);
    RowValue(a1, v, TWO51, k1, b.a1);
    RowValue(a2, v, 0x40_0000_0000_0000_0000_0000_0000, k2, b.a2);
    RowValue(a3, v, 0x200_0000_0000_0000_0000_0000_0000_0000_0000_0000, k3, b.a3);
    RowValue(a4, v, 0x1000_0000_0000_0000_0000_0000_0000_0000_0000_0000_0000_0000_0000, k4, b.a4);
    MulWideRows(a, b, a1, a2, a3, a4);
    var k := k1 * b.a1 + k2 * b.a2 + k3 * b.a3 + k4 * b.a4;
    ScaledSum(b, v);
    TimesIs(v, Val(b));
    RedUnique(Val(MulWide(a, b)), v * Val(b), -k);
  }

  // ---- bounds ----

  lemma ProductBound(x: int, y: int, mx: int, my: int)
    requires 0 <= x <= mx && 0 <= y <= my
    ensures 0 <= x * y <= mx * my
  {
    assert x * y <= mx * y <= mx * my;
  }

  lemma RowBound(acc: L5, x: L5, s: int, ma: int, mx: int, ms: int)
    requires Below(acc, ma + 1) && Below(x, mx + 1) && 0 <= s <= ms
    ensures Below(MulRow(acc, x, s), ma + mx * ms + 1)
  {
    ProductBound(x.a0, s, mx, ms);
    ProductBound(x.a1, s, mx, ms);
    ProductBound(x.a2, s, mx, ms);
    ProductBound(x.a3, s, mx, ms);
    ProductBound(x.a4, s, mx, ms);
  }

  /** No product limb reaches 2^117, at any row of the schoolbook product. */
  lemma MulRowsBound(a: L5, b: L5)
    requires Loose(a) && Loose(b)
    ensures ShiftReduce(a).a4 < LOOSE && ShiftReduce(ShiftReduce(a)).a4 < LOOSE && ShiftReduce(ShiftReduce(ShiftReduce(a))).a4 < LOOSE
    ensures
      var a1 := ShiftReduce(a);
      var a2 := ShiftReduce(a1);
      var a3 := ShiftReduce(a2);
      var r0 := MulRow(ZERO, a, b.a0);
      var r1 := MulRow(r0, a1, b.a1);
      var r2 := MulRow(r1, a2, b.a2);
      var r3 := MulRow(r2, a3, b.a3);
      Below(r0, WIDE) && Below(r1, WIDE) && Below(r2, WIDE) && Below(r3, WIDE) && Below(MulWide(a, b), WIDE)
  {
    var mx, ms, row := 0x7ff_ffff_ffff_ffff, 0x7f_ffff_ffff_ffff, 0x3_ffff_ffff_ffff_f780_0000_0000_0001;
    var a1 := ShiftReduce(a);
    var a2 := ShiftReduce(a1);
    var a3 := ShiftReduce(a2);
    var a4 := ShiftReduce(a3);
    var r0 := MulRow(ZERO, a, b.a0);
    var r1 := MulRow(r0, a1, b.a1);
    var r2 := MulRow(r1, a2, b.a2);
    var r3 := MulRow(r2, a3, b.a3);
    assert Below(a, mx + 1) && Below(a1, mx + 1) && Below(a2, mx + 1) && Below(a3, mx + 1) && Below(a4, mx + 1);
    RowBound(ZERO, a, b.a0, 0, mx, ms);
    RowBound(r0, a1, b.a1, row, mx, ms);
    RowBound(r1, a2, b.a2, 2 * row, mx, ms);
    RowBound(r2, a3, b.a3, 3 * row, mx, ms);
    RowBound(r3, a4, b.a4, 4 * row, mx, ms);
  }

  lemma MulWideBound(a: L5, b: L5)
    requires Loose(a) && Loose(b)
    ensures Below(MulWide(a, b), WIDE)
  {
    MulRowsBound(a, b);
  }

  function Uniform(u: int): L5 { L5(u, u, u, u, u) }

  /** The columns of two uniform operands whose limbs multiply to q. */
  function Peak(q: int): L5 { L5(77 * q, 59 * q, 41 * q, 23 * q, 5 * q) }

  predicate AtMost(s: L5, t: L5) {
    0 <= s.a0 <= t.a0 && 0 <= s.a1 <= t.a1 && 0 <= s.a2 <= t.a2 && 0 <= s.a3 <= t.a3 && 0 <= s.a4 <= t.a4
  }

  /** The columns grow with the limbs. */
  lemma MulWideAtMost(a: L5, b: L5, m: int)
    requires Below(a, m) && Below(b, m)
    ensures AtMost(MulWide(a, b), Peak((m - 1) * (m - 1)))
  {
    UniformPeak(m - 1);
    var u := Uniform(m - 1);
    var a1, u1 := ShiftReduce(a), ShiftReduce(u);
    var a2, u2 := ShiftReduce(a1), ShiftReduce(u1);
    var a3, u3 := ShiftReduce(a2), ShiftReduce(u2);
    var a4, u4 := ShiftReduce(a3), ShiftReduce(u3);
    assert AtMost(a, u) && AtMost(a1, u1) && AtMost(a2, u2) && AtMost(a3, u3) && AtMost(a4, u4);
    var r0, p0 := MulRow(ZERO, a, b.a0), MulRow(ZERO, u, m - 1);
    var r1, p1 := MulRow(r0, a1, b.a1), MulRow(p0, u1, m - 1);
    var r2, p2 := MulRow(r1, a2, b.a2), MulRow(p1, u2, m - 1);
    var r3, p3 := MulRow(r2, a3, b.a3), MulRow(p2, u3, m - 1);
    hide MulRow, AtMost, Peak;
    RowAtMost(ZERO, ZERO, a, u, b.a0, m - 1);
    RowAtMost(r0, p0, a1, u1, b.a1, m - 1);
    RowAtMost(r1, p1, a2, u2, b.a2, m - 1);
    RowAtMost(r2, p2, a3, u3, b.a3, m - 1);
    RowAtMost(r3, p3, a4, u4, b.a4, m - 1);
  }

  lemma RowAtMost(r: L5, p: L5, x: L5, y: L5, s: int, u: int)
    requires AtMost(r, p) && AtMost(x, y) && 0 <= s <= u
    ensures AtMost(MulRow(r, x, s), MulRow(p, y, u))
  {
    ProductBound(x.a0, s, y.a0, u);
    ProductBound(x.a1, s, y.a1, u);
    ProductBound(x.a2, s, y.a2, u);
    ProductBound(x.a3, s, y.a3, u);
    ProductBound(x.a4, s, y.a4, u);
  }

  lemma MulWideTop(a: L5, b: L5)
    requires Loose(a) && Loose(b)
    ensures AtMost(MulWide(a, b), Peak(SQUARE))
  {
    hide MulWide;
    MulWideAtMost(a, b, LOOSE);
  }

  /** The tight spot: nineteen times the carry out of the top product limb still fits 64 bits. */
  lemma ReduceBound(t: L5)
    requires Below(t, WIDE) && AtMost(t, Peak(SQUARE))
    ensures var u := CarryChain(t); Below(u, 0x1_0000_0000_0000_0000_0000_0000_0000_0000) && u.a4 / TWO51 < 0x1_0000_0000_0000_0000
    ensures var u := FoldTop(CarryChain(t)); Below(u, 0x1_0000_0000_0000_0000)
    ensures Tight(Reduce(t))
  {
    var u := CarryChain(t);
    assert 0 <= u.a0 < TWO51 && 0 <= u.a1 < TWO51 && 0 <= u.a2 < TWO51 && 0 <= u.a3 < TWO51;
    CarryAtMost(t, Peak(SQUARE));
    PeakFits();
  }

  lemma CarryAtMost(s: L5, t: L5)
    requires AtMost(s, t)
    ensures 0 <= CarryChain(s).a4 <= CarryChain(t).a4
  {
  }

  lemma PeakFits()
    ensures CarryChain(Peak(SQUARE)).a4 / TWO51 < FOLD_LIMIT
  {
  }

  /** The fold adds 19 times this many units to a low limb below 2^51 without leaving the word, and no more. */
  const FOLD_LIMIT: int := 0xd78_d794_35e5_0d7a

  /** The folded low limb fits a word, if x is what the carries left in it. */
  predicate FoldFits(a: L5, b: L5, x: int) {
    x + 19 * (CarryChain(MulWide(a, b)).a4 / TWO51) < 0x1_0000_0000_0000_0000
  }

  ghost predicate AlwaysFits(m: int) {
    forall a, b, x :: Below(a, m) && Below(b, m) && 0 <= x < TWO51 ==> FoldFits(a, b, x)
  }

  /** Below this bound, and below no larger one, the size of the limbs alone keeps the fold within the word. */
  lemma SharpBound(m: int)
    requires m >= 1
    ensures AlwaysFits(m) <==> m <= LOOSE
  {
    if m <= LOOSE {
      forall a, b, x | Below(a, m) && Below(b, m) && 0 <= x < TWO51
        ensures FoldFits(a, b, x)
      {
        MulWideTop(a, b);
        CarryAtMost(MulWide(a, b), Peak(SQUARE));
        PeakFits();
      }
    } else {
      var u := Uniform(LOOSE);
      UniformPeak(LOOSE);
      PeakOverflows();
      assert Below(u, m) && !FoldFits(u, u, TWO51 - 1);
    }
  }

  lemma UniformPeak(u: int)
    ensures MulWide(Uniform(u), Uniform(u)) == Peak(u * u)
  {
  }

  lemma PeakOverflows()
    ensures CarryChain(Peak(LOOSE * LOOSE)).a4 / TWO51 >= FOLD_LIMIT
  {
  }

  /** A little above the bound, operands of five equal limbs lose a bit: the cast drops 2^64 from the low limb, and the
      rest is not the product. */
  lemma LimbsTooLarge()
    ensures var u := Uniform(0x4a_48c3_8962_f6fb);
            var t := FoldTop(CarryChain(MulWide(u, u)));
            t.a0 >= 0x1_0000_0000_0000_0000
            && Red(Val(t.(a0 := t.a0 % 0x1_0000_0000_0000_0000))) != FMul(Val(u), Val(u))
  {
    hide Times, MulWide;
    UniformPeak(0x4a_48c3_8962_f6fb);
    TooLargeColumns();
    MulIs(Val(Uniform(0x4a_48c3_8962_f6fb)), Val(Uniform(0x4a_48c3_8962_f6fb)));
  }

  lemma TooLargeColumns()
    ensures FoldTop(CarryChain(Peak(0x4a_48c3_8962_f6fb * 0x4a_48c3_8962_f6fb)))
         == L5(0x1_0000_0000_9ce4_09c1, 0x6_d159_fd1e_c924, 0x5_a2b3_5d5a_359e, 0x4_740c_bd95_8219, 0x3_4566_1dd0_ce94)
  {
    var t0 := L5(0x6_7bc1_58f1_f448_2b0f_ffff_deb2_1985, 0x4_f7c2_b1dd_f705_6d76_a63b_be95_c3c3, 0x3_73c4_0ac9_f9c2_afdd_4c77_9e79_6e01, 0x1_efc5_63b5_fc7f_f243_f2b3_7e5d_183f, 0x6bc6_bca1_ff3d_34aa_98ef_5e40_c27d);
    assert Peak(0x4a_48c3_8962_f6fb * 0x4a_48c3_8962_f6fb) == t0;
    var t1 := L5(0x7_ffff_deb2_1985, 0x4_f7c2_b1dd_f706_3cee_d159_fd1e_c924, 0x3_73c4_0ac9_f9c2_afdd_4c77_9e79_6e01, 0x1_efc5_63b5_fc7f_f243_f2b3_7e5d_183f, 0x6bc6_bca1_ff3d_34aa_98ef_5e40_c27d);
    assert CarryAt0(t0) == t1;
    var t2 := L5(0x7_ffff_deb2_1985, 0x6_d159_fd1e_c924, 0x3_73c4_0ac9_f9c3_4ed5_a2b3_5d5a_359e, 0x1_efc5_63b5_fc7f_f243_f2b3_7e5d_183f, 0x6bc6_bca1_ff3d_34aa_98ef_5e40_c27d);
    assert CarryAt1(t1) == t2;
    var t3 := L5(0x7_ffff_deb2_1985, 0x6_d159_fd1e_c924, 0x5_a2b3_5d5a_359e, 0x1_efc5_63b5_fc80_60bc_740c_bd95_8219, 0x6bc6_bca1_ff3d_34aa_98ef_5e40_c27d);
    assert CarryAt2(t2) == t3;
    var t4 := L5(0x7_ffff_deb2_1985, 0x6_d159_fd1e_c924, 0x5_a2b3_5d5a_359e, 0x4_740c_bd95_8219, 0x6bc6_bca1_ff3d_72a3_4566_1dd0_ce94);
    assert CarryAt3(t3) == t4;
    hide Peak, CarryAt0, CarryAt1, CarryAt2, CarryAt3;
  }
}
