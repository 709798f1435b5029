/** Field elements in ten limbs of alternately 26 and 25 bits, and what the steps of the 32-bit back end do to
    their value. */
module Limbs26 {
  import opened Field25519

  datatype L10 = L10(a0: int, a1: int, a2: int, a3: int, a4: int, a5: int, a6: int, a7: int, a8: int, a9: int)

  const TWO26: int := 0x400_0000
  const TWO25: int := 0x200_0000

  function Val(x: L10): int {
    x.a0
    + 0x400_0000 * x.a1
    + 0x8_0000_0000_0000 * x.a2
    + 0x2000_0000_0000_0000_0000 * x.a3
    + 0x40_0000_0000_0000_0000_0000_0000 * x.a4
    + 0x1_0000_0000_0000_0000_0000_0000_0000_0000 * x.a5
    + 0x200_0000_0000_0000_0000_0000_0000_0000_0000_0000 * x.a6
    + 0x8_0000_0000_0000_0000_0000_0000_0000_0000_0000_0000_0000 * x.a7
    + 0x1000_0000_0000_0000_0000_0000_0000_0000_0000_0000_0000_0000_0000 * x.a8
    + 0x40_0000_0000_0000_0000_0000_0000_0000_0000_0000_0000_0000_0000_0000_0000 * x.a9
  }

  /** Even limbs below e, odd limbs below o. */
  predicate Below(x: L10, e: int, o: int) {
    && 0 <= x.a0 < e && 0 <= x.a2 < e && 0 <= x.a4 < e && 0 <= x.a6 < e && 0 <= x.a8 < e
    && 0 <= x.a1 < o && 0 <= x.a3 < o && 0 <= x.a5 < o && 0 <= x.a7 < o && 0 <= x.a9 < o
  }

  /** Limbs up to 1.125 times their nominal size. */
  predicate Tight(x: L10) { Below(x, 0x480_0001, 0x240_0001) }

  /** Limbs up to 3.375 times their nominal size. */
  predicate Loose(x: L10) { Below(x, 0xd80_0001, 0x6c0_0001) }

  function Scale(x: L10, s: int): L10 {
    L10(x.a0 * s, x.a1 * s, x.a2 * s, x.a3 * s, x.a4 * s, x.a5 * s, x.a6 * s, x.a7 * s, x.a8 * s, x.a9 * s)
  }

  // ---- the nineteen columns of a product ----

  function C0(f: L10, g: L10): int {
    (f.a0 * g.a0)
  }

  function C1(f: L10, g: L10): int {
    (f.a0 * g.a1) + (f.a1 * g.a0)
  }

  function C2(f: L10, g: L10): int {
    (f.a0 * g.a2) + 2 * (f.a1 * g.a1) + (f.a2 * g.a0)
  }

  function C3(f: L10, g: L10): int {
    (f.a0 * g.a3) + (f.a1 * g.a2) + (f.a2 * g.a1) + (f.a3 * g.a0)
  }

  function C4(f: L10, g: L10): int {
    (f.a0 * g.a4) + 2 * (f.a1 * g.a3) + (f.a2 * g.a2) + 2 * (f.a3 * g.a1) + (f.a4 * g.a0)
  }

  function C5(f: L10, g: L10): int {
    (f.a0 * g.a5) + (f.a1 * g.a4) + (f.a2 * g.a3) + (f.a3 * g.a2) + (f.a4 * g.a1) + (f.a5 * g.a0)
  }

  function C6(f: L10, g: L10): int {
    (f.a0 * g.a6) + 2 * (f.a1 * g.a5) + (f.a2 * g.a4)
    + 2 * (f.a3 * g.a3) + (f.a4 * g.a2) + 2 * (f.a5 * g.a1) + (f.a6 * g.a0)
  }

  function C7(f: L10, g: L10): int {
    (f.a0 * g.a7) + (f.a1 * g.a6) + (f.a2 * g.a5) + (f.a3 * g.a4)
    + (f.a4 * g.a3) + (f.a5 * g.a2) + (f.a6 * g.a1) + (f.a7 * g.a0)
  }

  function C8(f: L10, g: L10): int {
    (f.a0 * g.a8) + 2 * (f.a1 * g.a7) + (f.a2 * g.a6) + 2 * (f.a3 * g.a5)
    + (f.a4 * g.a4) + 2 * (f.a5 * g.a3) + (f.a6 * g.a2) + 2 * (f.a7 * g.a1) + (f.a8 * g.a0)
  }

  function C9(f: L10, g: L10): int {
    (f.a0 * g.a9) + (f.a1 * g.a8) + (f.a2 * g.a7) + (f.a3 * g.a6) + (f.a4 * g.a5)
    + (f.a5 * g.a4) + (f.a6 * g.a3) + (f.a7 * g.a2) + (f.a8 * g.a1) + (f.a9 * g.a0)
  }

  function C10(f: L10, g: L10): int {
    2 * (f.a1 * g.a9) + (f.a2 * g.a8) + 2 * (f.a3 * g.a7) + (f.a4 * g.a6)
    + 2 * (f.a5 * g.a5) + (f.a6 * g.a4) + 2 * (f.a7 * g.a3) + (f.a8 * g.a2) + 2 * (f.a9 * g.a1)
  }

  function C11(f: L10, g: L10): int {
    (f.a2 * g.a9) + (f.a3 * g.a8) + (f.a4 * g.a7) + (f.a5 * g.a6)
    + (f.a6 * g.a5) + (f.a7 * g.a4) + (f.a8 * g.a3) + (f.a9 * g.a2)
  }

  function C12(f: L10, g: L10): int {
    2 * (f.a3 * g.a9) + (f.a4 * g.a8) + 2 * (f.a5 * g.a7)
    + (f.a6 * g.a6) + 2 * (f.a7 * g.a5) + (f.a8 * g.a4) + 2 * (f.a9 * g.a3)
  }

  function C13(f: L10, g: L10): int {
    (f.a4 * g.a9) + (f.a5 * g.a8) + (f.a6 * g.a7) + (f.a7 * g.a6) + (f.a8 * g.a5) + (f.a9 * g.a4)
  }

  function C14(f: L10, g: L10): int {
    2 * (f.a5 * g.a9) + (f.a6 * g.a8) + 2 * (f.a7 * g.a7) + (f.a8 * g.a6) + 2 * (f.a9 * g.a5)
  }

  function C15(f: L10, g: L10): int {
    (f.a6 * g.a9) + (f.a7 * g.a8) + (f.a8 * g.a7) + (f.a9 * g.a6)
  }

  function C16(f: L10, g: L10): int {
    2 * (f.a7 * g.a9) + (f.a8 * g.a8) + 2 * (f.a9 * g.a7)
  }

  function C17(f: L10, g: L10): int {
    (f.a8 * g.a9) + (f.a9 * g.a8)
  }

  function C18(f: L10, g: L10): int {
    2 * (f.a9 * g.a9)
  }

  /** The columns from the tenth up wrap round with a factor 19. */
  function Folded(f: L10, g: L10): L10 {
    L10(C0(f, g) + 19 * C10(f, g), C1(f, g) + 19 * C11(f, g), C2(f, g) + 19 * C12(f, g), C3(f, g) + 19 * C13(f, g), 
        C4(f, g) + 19 * C14(f, g), C5(f, g) + 19 * C15(f, g), C6(f, g) + 19 * C16(f, g), 
        C7(f, g) + 19 * C17(f, g), C8(f, g) + 19 * C18(f, g), C9(f, g))
  }

  lemma ScaleValue(x: L10, s: int)
    ensures Val(Scale(x, s)) == Val(x) * s
  {
    calc {
      Val(x) * s;
      x.a0 * s
      + (0x400_0000 * x.a1) * s
      + (0x8_0000_0000_0000 * x.a2) * s
      + (0x2000_0000_0000_0000_0000 * x.a3) * s
      + (0x40_0000_0000_0000_0000_0000_0000 * x.a4) * s
      + (0x1_0000_0000_0000_0000_0000_0000_0000_0000 * x.a5) * s
      + (0x200_0000_0000_0000_0000_0000_0000_0000_0000_0000 * x.a6) * s
      + (0x8_0000_0000_0000_0000_0000_0000_0000_0000_0000_0000_0000 * x.a7) * s
      + (0x1000_0000_0000_0000_0000_0000_0000_0000_0000_0000_0000_0000_0000 * x.a8) * s
      + (0x40_0000_0000_0000_0000_0000_0000_0000_0000_0000_0000_0000_0000_0000_0000 * x.a9) * s;
    }
  }

  /** Row by row, the product of two values. */
  lemma RowsValue(f: L10, g: L10)
    ensures Val(f) * Val(g) == Val(Scale(f, g.a0))
            + 0x400_0000 * Val(Scale(f, g.a1))
            + 0x8_0000_0000_0000 * Val(Scale(f, g.a2))
            + 0x2000_0000_0000_0000_0000 * Val(Scale(f, g.a3))
            + 0x40_0000_0000_0000_0000_0000_0000 * Val(Scale(f, g.a4))
            + 0x1_0000_0000_0000_0000_0000_0000_0000_0000 * Val(Scale(f, g.a5))
            + 0x200_0000_0000_0000_0000_0000_0000_0000_0000_0000 * Val(Scale(f, g.a6))
            + 0x8_0000_0000_0000_0000_0000_0000_0000_0000_0000_0000_0000 * Val(Scale(f, g.a7))
            + 0x1000_0000_0000_0000_0000_0000_0000_0000_0000_0000_0000_0000_0000 * Val(Scale(f, g.a8))
            + 0x40_0000_0000_0000_0000_0000_0000_0000_0000_0000_0000_0000_0000_0000_0000 * Val(Scale(f, g.a9))
  {
    ScaleValue(f, g.a0);
    ScaleValue(f, g.a1);
    ScaleValue(f, g.a2);
    ScaleValue(f, g.a3);
    ScaleValue(f, g.a4);
    ScaleValue(f, g.a5);
    ScaleValue(f, g.a6);
    ScaleValue(f, g.a7);
    ScaleValue(f, g.a8);
    ScaleValue(f, g.a9);
    ScaleValue(g, Val(f));
    hide Val, Scale;
    RowsLinear(Val(f), g);
  }

  lemma RowsLinear(v: int, g: L10)
    ensures Val(g) * v == v * g.a0
            + 0x400_0000 * (v * g.a1)
            + 0x8_0000_0000_0000 * (v * g.a2)
            + 0x2000_0000_0000_0000_0000 * (v * g.a3)
            + 0x40_0000_0000_0000_0000_0000_0000 * (v * g.a4)
            + 0x1_0000_0000_0000_0000_0000_0000_0000_0000 * (v * g.a5)
            + 0x200_0000_0000_0000_0000_0000_0000_0000_0000_0000 * (v * g.a6)
            + 0x8_0000_0000_0000_0000_0000_0000_0000_0000_0000_0000_0000 * (v * g.a7)
            + 0x1000_0000_0000_0000_0000_0000_0000_0000_0000_0000_0000_0000_0000 * (v * g.a8)
            + 0x40_0000_0000_0000_0000_0000_0000_0000_0000_0000_0000_0000_0000_0000_0000 * (v * g.a9)
  {
    ScaleValue(g, v);
  }

  /** The columns, weighted, are the product. */
  lemma ColumnsValue(f: L10, g: L10)
    ensures Val(f) * Val(g) == C0(f, g)
            + 0x400_0000 * C1(f, g)
            + 0x8_0000_0000_0000 * C2(f, g)
            + 0x2000_0000_0000_0000_0000 * C3(f, g)
            + 0x40_0000_0000_0000_0000_0000_0000 * C4(f, g)
            + 0x1_0000_0000_0000_0000_0000_0000_0000_0000 * C5(f, g)
            + 0x200_0000_0000_0000_0000_0000_0000_0000_0000_0000 * C6(f, g)
            + 0x8_0000_0000_0000_0000_0000_0000_0000_0000_0000_0000_0000 * C7(f, g)
            + 0x1000_0000_0000_0000_0000_0000_0000_0000_0000_0000_0000_0000_0000 * C8(f, g)
            + 0x40_0000_0000_0000_0000_0000_0000_0000_0000_0000_0000_0000_0000_0000_0000 * C9(f, g)
            + 0x8000_0000_0000_0000_0000_0000_0000_0000_0000_0000_0000_0000_0000_0000_0000_0000 * C10(f, g)
            + 0x200_0000_0000_0000_0000_0000_0000_0000_0000_0000_0000_0000_0000_0000_0000_0000_0000_0000 * C11(f, g)
            + 0x4_0000_0000_0000_0000_0000_0000_0000_0000_0000_0000_0000_0000_0000_0000_0000_0000_0000_0000_0000 * C12(f, g)
            + 0x1000_0000_0000_0000_0000_0000_0000_0000_0000_0000_0000_0000_0000_0000_0000_0000_0000_0000_0000_0000_0000 * C13(f, g)
            + 0x20_0000_0000_0000_0000_0000_0000_0000_0000_0000_0000_0000_0000_0000_0000_0000_0000_0000_0000_0000_0000_0000_0000 * C14(f, g)
            + 0x8000_0000_0000_0000_0000_0000_0000_0000_0000_0000_0000_0000_0000_0000_0000_0000_0000_0000_0000_0000_0000_0000_0000_0000 * C15(f, g)
            + 0x100_0000_0000_0000_0000_0000_0000_0000_0000_0000_0000_0000_0000_0000_0000_0000_0000_0000_0000_0000_0000_0000_0000_0000_0000_0000 * C16(f, g)
            + 0x4_0000_0000_0000_0000_0000_0000_0000_0000_0000_0000_0000_0000_0000_0000_0000_0000_0000_0000_0000_0000_0000_0000_0000_0000_0000_0000_0000 * C17(f, g)
            + 0x800_0000_0000_0000_0000_0000_0000_0000_0000_0000_0000_0000_0000_0000_0000_0000_0000_0000_0000_0000_0000_0000_0000_0000_0000_0000_0000_0000_0000 * C18(f, g)
  {
    RowsValue(f, g);
  }

  lemma FoldedValue(f: L10, g: L10)
    ensures Red(Val(Folded(f, g))) == FMul(Val(f), Val(g))
  {
    ColumnsValue(f, g);
    hide C0, C1, C2, C3, C4, C5, C6, C7, C8, C9, C10, C11, C12, C13, C14, C15, C16, C17, C18;
    var k := Val(L10(C10(f, g), C11(f, g), C12(f, g), C13(f, g), C14(f, g), C15(f, g), C16(f, g), C17(f, g), C18(f, g), 0));
    hide Times, Red;
    TimesIs(Val(f), Val(g));
    RedUnique(Val(f) * Val(g), Val(Folded(f, g)), k);
  }

  // ---- reduction ----

  function K0(t: L10): L10 { t.(a0 := t.a0 % TWO26, a1 := t.a1 + t.a0 / TWO26) }
  function K1(t: L10): L10 { t.(a1 := t.a1 % TWO25, a2 := t.a2 + t.a1 / TWO25) }
  function K2(t: L10): L10 { t.(a2 := t.a2 % TWO26, a3 := t.a3 + t.a2 / TWO26) }
  function K3(t: L10): L10 { t.(a3 := t.a3 % TWO25, a4 := t.a4 + t.a3 / TWO25) }
  function K4(t: L10): L10 { t.(a4 := t.a4 % TWO26, a5 := t.a5 + t.a4 / TWO26) }
  function K5(t: L10): L10 { t.(a5 := t.a5 % TWO25, a6 := t.a6 + t.a5 / TWO25) }
  function K6(t: L10): L10 { t.(a6 := t.a6 % TWO26, a7 := t.a7 + t.a6 / TWO26) }
  function K7(t: L10): L10 { t.(a7 := t.a7 % TWO25, a8 := t.a8 + t.a7 / TWO25) }
  function K8(t: L10): L10 { t.(a8 := t.a8 % TWO26, a9 := t.a9 + t.a8 / TWO26) }
  function FoldTop(t: L10): L10 { t.(a0 := t.a0 + 19 * (t.a9 / TWO25), a9 := t.a9 % TWO25) }
  function Chain(t: L10): L10 { K8(K7(K6(K5(K4(K3(K2(K1(K0(t))))))))) }
  function Reduce(t: L10): L10 { K1(K0(FoldTop(Chain(t)))) }

  lemma ChainValue(t: L10)
    ensures Val(Chain(t)) == Val(t)
  {
    var t1 := K0(t);
    var t2 := K1(t1);
    var t3 := K2(t2);
    var t4 := K3(t3);
    var t5 := K4(t4);
    var t6 := K5(t5);
    var t7 := K6(t6);
    var t8 := K7(t7);
    StepValue0(t);
    StepValue1(t1);
    StepValue2(t2);
    StepValue3(t3);
    StepValue4(t4);
    StepValue5(t5);
    StepValue6(t6);
    StepValue7(t7);
    StepValue8(t8);
    hide Val;
  }

  lemma StepValue0(t: L10)
    ensures Val(K0(t)) == Val(t)
  {
  }

  lemma StepValue1(t: L10)
    ensures Val(K1(t)) == Val(t)
  {
  }

  lemma StepValue2(t: L10)
    ensures Val(K2(t)) == Val(t)
  {
  }

  lemma StepValue3(t: L10)
    ensures Val(K3(t)) == Val(t)
  {
  }

  lemma StepValue4(t: L10)
    ensures Val(K4(t)) == Val(t)
  {
  }

  lemma StepValue5(t: L10)
    ensures Val(K5(t)) == Val(t)
  {
  }

  lemma StepValue6(t: L10)
    ensures Val(K6(t)) == Val(t)
  {
  }

  lemma StepValue7(t: L10)
    ensures Val(K7(t)) == Val(t)
  {
  }

  lemma StepValue8(t: L10)
    ensures Val(K8(t)) == Val(t)
  {
  }

  lemma ReduceValue(t: L10)
    ensures Red(Val(Reduce(t))) == Red(Val(t))
  {
    var u := Chain(t);
    ChainValue(t);
    RedUnique(Val(u), Val(FoldTop(u)), u.a9 / TWO25);
    StepValue0(FoldTop(u));
    StepValue1(K0(FoldTop(u)));
  }

  /** No column total reaches this. */
  const WIDE: int := 0xc000_0000_0000_0000

  lemma ReduceBound(t: L10)
    requires Below(t, WIDE, WIDE)
    ensures var u := Chain(t); Below(u, TWO26, 0xc000_0080_0000_0000) && Below(u.(a9 := 0), TWO26, TWO25)
    ensures Reduce(t).a0 < TWO26 && Reduce(t).a1 < TWO25 && Reduce(t).a2 <= TWO26
    ensures Tight(Reduce(t))
  {
    ChainBound(t);
    FoldBound(Chain(t));
  }

  lemma ChainBound(t: L10)
    requires Below(t, WIDE, WIDE)
    ensures var u := Chain(t); Below(u, TWO26, 0xc000_0080_0000_0000) && Below(u.(a9 := 0), TWO26, TWO25)
  {
  }

  lemma FoldBound(u: L10)
    requires Below(u, TWO26, 0xc000_0080_0000_0000) && Below(u.(a9 := 0), TWO26, TWO25)
    ensures var r := K1(K0(FoldTop(u)));
            r.a0 < TWO26 && r.a1 < TWO25 && r.a2 <= TWO26 && Tight(r)
  {
  }

  lemma ProductBound(x: int, y: int, m: int)
    requires 0 <= x <= m && 0 <= y <= m
    ensures 0 <= x * y <= m * m
  {
    assert x * y <= m * y <= m * m;
  }

  const LIMB: int := 0xd80_0000
  const LIMB2: int := 0xb6_4000_0000_0000

  lemma B0(f: L10, g: L10)
    requires Loose(f) && Loose(g)
    ensures 0 <= C0(f, g) <= 1 * LIMB2
  {
    ProductBound(f.a0, g.a0, LIMB);
  }

  lemma B1(f: L10, g: L10)
    requires Loose(f) && Loose(g)
    ensures 0 <= C1(f, g) <= 2 * LIMB2
  {
    ProductBound(f.a0, g.a1, LIMB);
    ProductBound(f.a1, g.a0, LIMB);
  }

  lemma B2(f: L10, g: L10)
    requires Loose(f) && Loose(g)
    ensures 0 <= C2(f, g) <= 4 * LIMB2
  {
    ProductBound(f.a0, g.a2, LIMB);
    ProductBound(f.a1, g.a1, LIMB);
    ProductBound(f.a2, g.a0, LIMB);
  }

  lemma B3(f: L10, g: L10)
    requires Loose(f) && Loose(g)
    ensures 0 <= C3(f, g) <= 4 * LIMB2
  {
    ProductBound(f.a0, g.a3, LIMB);
    ProductBound(f.a1, g.a2, LIMB);
    ProductBound(f.a2, g.a1, LIMB);
    ProductBound(f.a3, g.a0, LIMB);
  }

  lemma B4(f: L10, g: L10)
    requires Loose(f) && Loose(g)
    ensures 0 <= C4(f, g) <= 7 * LIMB2
  {
    ProductBound(f.a0, g.a4, LIMB);
    ProductBound(f.a1, g.a3, LIMB);
    ProductBound(f.a2, g.a2, LIMB);
    ProductBound(f.a3, g.a1, LIMB);
    ProductBound(f.a4, g.a0, LIMB);
  }

  lemma B5(f: L10, g: L10)
    requires Loose(f) && Loose(g)
    ensures 0 <= C5(f, g) <= 6 * LIMB2
  {
    ProductBound(f.a0, g.a5, LIMB);
    ProductBound(f.a1, g.a4, LIMB);
    ProductBound(f.a2, g.a3, LIMB);
    ProductBound(f.a3, g.a2, LIMB);
    ProductBound(f.a4, g.a1, LIMB);
    ProductBound(f.a5, g.a0, LIMB);
  }

  lemma B6(f: L10, g: L10)
    requires Loose(f) && Loose(g)
    ensures 0 <= C6(f, g) <= 10 * LIMB2
  {
    ProductBound(f.a0, g.a6, LIMB);
    ProductBound(f.a1, g.a5, LIMB);
    ProductBound(f.a2, g.a4, LIMB);
    ProductBound(f.a3, g.a3, LIMB);
    ProductBound(f.a4, g.a2, LIMB);
    ProductBound(f.a5, g.a1, LIMB);
    ProductBound(f.a6, g.a0, LIMB);
  }

  lemma B7(f: L10, g: L10)
    requires Loose(f) && Loose(g)
    ensures 0 <= C7(f, g) <= 8 * LIMB2
  {
    ProductBound(f.a0, g.a7, LIMB);
    ProductBound(f.a1, g.a6, LIMB);
    ProductBound(f.a2, g.a5, LIMB);
    ProductBound(f.a3, g.a4, LIMB);
    ProductBound(f.a4, g.a3, LIMB);
    ProductBound(f.a5, g.a2, LIMB);
    ProductBound(f.a6, g.a1, LIMB);
    ProductBound(f.a7, g.a0, LIMB);
  }

  lemma B8(f: L10, g: L10)
    requires Loose(f) && Loose(g)
    ensures 0 <= C8(f, g) <= 13 * LIMB2
  {
    ProductBound(f.a0, g.a8, LIMB);
    ProductBound(f.a1, g.a7, LIMB);
    ProductBound(f.a2, g.a6, LIMB);
    ProductBound(f.a3, g.a5, LIMB);
    ProductBound(f.a4, g.a4, LIMB);
    ProductBound(f.a5, g.a3, LIMB);
    ProductBound(f.a6, g.a2, LIMB);
    ProductBound(f.a7, g.a1, LIMB);
    ProductBound(f.a8, g.a0, LIMB);
  }

  lemma B9(f: L10, g: L10)
    requires Loose(f) && Loose(g)
    ensures 0 <= C9(f, g) <= 10 * LIMB2
  {
    ProductBound(f.a0, g.a9, LIMB);
    ProductBound(f.a1, g.a8, LIMB);
    ProductBound(f.a2, g.a7, LIMB);
    ProductBound(f.a3, g.a6, LIMB);
    ProductBound(f.a4, g.a5, LIMB);
    ProductBound(f.a5, g.a4, LIMB);
    ProductBound(f.a6, g.a3, LIMB);
    ProductBound(f.a7, g.a2, LIMB);
    ProductBound(f.a8, g.a1, LIMB);
    ProductBound(f.a9, g.a0, LIMB);
  }

  lemma B10(f: L10, g: L10)
    requires Loose(f) && Loose(g)
    ensures 0 <= C10(f, g) <= 14 * LIMB2
  {
    ProductBound(f.a1, g.a9, LIMB);
    ProductBound(f.a2, g.a8, LIMB);
    ProductBound(f.a3, g.a7, LIMB);
    ProductBound(f.a4, g.a6, LIMB);
    ProductBound(f.a5, g.a5, LIMB);
    ProductBound(f.a6, g.a4, LIMB);
    ProductBound(f.a7, g.a3, LIMB);
    ProductBound(f.a8, g.a2, LIMB);
    ProductBound(f.a9, g.a1, LIMB);
  }

  lemma B11(f: L10, g: L10)
    requires Loose(f) && Loose(g)
    ensures 0 <= C11(f, g) <= 8 * LIMB2
  {
    ProductBound(f.a2, g.a9, LIMB);
    ProductBound(f.a3, g.a8, LIMB);
    ProductBound(f.a4, g.a7, LIMB);
    ProductBound(f.a5, g.a6, LIMB);
    ProductBound(f.a6, g.a5, LIMB);
    ProductBound(f.a7, g.a4, LIMB);
    ProductBound(f.a8, g.a3, LIMB);
    ProductBound(f.a9, g.a2, LIMB);
  }

  lemma B12(f: L10, g: L10)
    requires Loose(f) && Loose(g)
    ensures 0 <= C12(f, g) <= 11 * LIMB2
  {
    ProductBound(f.a3, g.a9, LIMB);
    ProductBound(f.a4, g.a8, LIMB);
    ProductBound(f.a5, g.a7, LIMB);
    ProductBound(f.a6, g.a6, LIMB);
    ProductBound(f.a7, g.a5, LIMB);
    ProductBound(f.a8, g.a4, LIMB);
    ProductBound(f.a9, g.a3, LIMB);
  }

  lemma B13(f: L10, g: L10)
    requires Loose(f) && Loose(g)
    ensures 0 <= C13(f, g) <= 6 * LIMB2
  {
    ProductBound(f.a4, g.a9, LIMB);
    ProductBound(f.a5, g.a8, LIMB);
    ProductBound(f.a6, g.a7, LIMB);
    ProductBound(f.a7, g.a6, LIMB);
    ProductBound(f.a8, g.a5, LIMB);
    ProductBound(f.a9, g.a4, LIMB);
  }

  lemma B14(f: L10, g: L10)
    requires Loose(f) && Loose(g)
    ensures 0 <= C14(f, g) <= 8 * LIMB2
  {
    ProductBound(f.a5, g.a9, LIMB);
    ProductBound(f.a6, g.a8, LIMB);
    ProductBound(f.a7, g.a7, LIMB);
    ProductBound(f.a8, g.a6, LIMB);
    ProductBound(f.a9, g.a5, LIMB);
  }

  lemma B15(f: L10, g: L10)
    requires Loose(f) && Loose(g)
    ensures 0 <= C15(f, g) <= 4 * LIMB2
  {
    ProductBound(f.a6, g.a9, LIMB);
    ProductBound(f.a7, g.a8, LIMB);
    ProductBound(f.a8, g.a7, LIMB);
    ProductBound(f.a9, g.a6, LIMB);
  }

  lemma B16(f: L10, g: L10)
    requires Loose(f) && Loose(g)
    ensures 0 <= C16(f, g) <= 5 * LIMB2
  {
    ProductBound(f.a7, g.a9, LIMB);
    ProductBound(f.a8, g.a8, LIMB);
    ProductBound(f.a9, g.a7, LIMB);
  }

  lemma B17(f: L10, g: L10)
    requires Loose(f) && Loose(g)
    ensures 0 <= C17(f, g) <= 2 * LIMB2
  {
    ProductBound(f.a8, g.a9, LIMB);
    ProductBound(f.a9, g.a8, LIMB);
  }

  lemma B18(f: L10, g: L10)
    requires Loose(f) && Loose(g)
    ensures 0 <= C18(f, g) <= 2 * LIMB2
  {
    ProductBound(f.a9, g.a9, LIMB);
  }

  lemma FoldedBound(f: L10, g: L10)
    requires Loose(f) && Loose(g)
    ensures Below(Folded(f, g), WIDE, WIDE)
    ensures 0 <= C10(f, g) && 0 <= C0(f, g)
    ensures 0 <= C11(f, g) && 0 <= C1(f, g)
    ensures 0 <= C12(f, g) && 0 <= C2(f, g)
    ensures 0 <= C13(f, g) && 0 <= C3(f, g)
    ensures 0 <= C14(f, g) && 0 <= C4(f, g)
    ensures 0 <= C15(f, g) && 0 <= C5(f, g)
    ensures 0 <= C16(f, g) && 0 <= C6(f, g)
    ensures 0 <= C17(f, g) && 0 <= C7(f, g)
    ensures 0 <= C18(f, g) && 0 <= C8(f, g)
  {
    B0(f, g);
    B1(f, g);
    B2(f, g);
    B3(f, g);
    B4(f, g);
    B5(f, g);
    B6(f, g);
    B7(f, g);
    B8(f, g);
    B9(f, g);
    B10(f, g);
    B11(f, g);
    B12(f, g);
    B13(f, g);
    B14(f, g);
    B15(f, g);
    B16(f, g);
    B17(f, g);
    B18(f, g);
    hide C0, C1, C2, C3, C4, C5, C6, C7, C8, C9, C10, C11, C12, C13, C14, C15, C16, C17, C18;
  }
}
