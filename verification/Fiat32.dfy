/** The 32-bit back end's field operations, on arrays of ten 32-bit limbs with 64-bit products. */
module Fiat32 {
  import opened Words
  import opened Field25519
  import opened Limbs26

  function View(a: array<u32>): L10
    requires a.Length == 10
    reads a
  {
    L10(a[0] as int, a[1] as int, a[2] as int, a[3] as int, a[4] as int,
        a[5] as int, a[6] as int, a[7] as int, a[8] as int, a[9] as int)
  }

  function Elem(a: array<u32>): int
    requires a.Length == 10
    reads a
  {
    Red(Val(View(a)))
  }

  predicate TightArray(a: array<u32>)
    reads a
  {
    a.Length == 10 && Tight(View(a))
  }

  predicate LooseArray(a: array<u32>)
    reads a
  {
    a.Length == 10 && Loose(View(a))
  }

  /** The 64-bit product of two limbs. */
  function Prod(x: u32, y: u32): (r: u64)
    requires x <= 0x1b00_0000 && y <= 0x1b00_0000
    ensures r as int == x as int * y as int && r <= 0x2d9_0000_0000_0000
  {
    ProductBound(x as int, y as int, 0x1b00_0000);
    x as u64 * y as u64
  }

  method MulColumnsA(in1: array<u32>, in2: array<u32>) returns (x40: u64, x41: u64, x42: u64, x43: u64, x44: u64)
    requires LooseArray(in1) && LooseArray(in2)
    ensures x40 as int == C0(View(in1), View(in2))
    ensures x41 as int == C1(View(in1), View(in2))
    ensures x42 as int == C2(View(in1), View(in2))
    ensures x43 as int == C3(View(in1), View(in2))
    ensures x44 as int == C4(View(in1), View(in2))
  {
    var x5, x7, x9, x11, x13 := in1[0], in1[1], in1[2], in1[3], in1[4];
    var x23, x25, x27, x29, x31 := in2[0], in2[1], in2[2], in2[3], in2[4];
    x40 := Prod(x23, x5);
    x41 := Prod(x23, x7) + Prod(x25, x5);
    x42 := Prod(2 * x25, x7) + Prod(x23, x9) + Prod(x27, x5);
    x43 := Prod(x25, x9) + Prod(x27, x7) + Prod(x23, x11) + Prod(x29, x5);
    x44 := Prod(x27, x9) + 2 * (Prod(x25, x11) + Prod(x29, x7)) + Prod(x23, x13) + Prod(x31, x5);
  }

  method MulColumnsB(in1: array<u32>, in2: array<u32>) returns (x45: u64, x46: u64, x47: u64)
    requires LooseArray(in1) && LooseArray(in2)
    ensures x45 as int == C5(View(in1), View(in2))
    ensures x46 as int == C6(View(in1), View(in2))
    ensures x47 as int == C7(View(in1), View(in2))
  {
    var x5, x7, x9, x11, x13, x15, x17, x19 := in1[0], in1[1], in1[2], in1[3], in1[4], in1[5], in1[6], in1[7];
    var x23, x25, x27, x29, x31, x33, x35, x37 := in2[0], in2[1], in2[2], in2[3], in2[4], in2[5], in2[6], in2[7];
    x45 := Prod(x27, x11) + Prod(x29, x9) + Prod(x25, x13) + Prod(x31, x7) + Prod(x23, x15) + Prod(x33, x5);
    x46 := 2 * (Prod(x29, x11) + Prod(x25, x15) + Prod(x33, x7)) + Prod(x27, x13) + Prod(x31, x9)
      + Prod(x23, x17) + Prod(x35, x5);
    x47 := Prod(x29, x13) + Prod(x31, x11) + Prod(x27, x15) + Prod(x33, x9) + Prod(x25, x17) + Prod(x35, x7)
      + Prod(x23, x19) + Prod(x37, x5);
  }

  method MulColumnsC(in1: array<u32>, in2: array<u32>) returns (x48: u64, x49: u64)
    requires LooseArray(in1) && LooseArray(in2)
    ensures x48 as int == C8(View(in1), View(in2))
    ensures x49 as int == C9(View(in1), View(in2))
  {
    var x5, x7, x9, x11, x13, x15, x17, x19, x21, x20 := in1[0], in1[1], in1[2], in1[3], in1[4], in1[5], in1[6], in1[7], in1[8], in1[9];
    var x23, x25, x27, x29, x31, x33, x35, x37, x39, x38 := in2[0], in2[1], in2[2], in2[3], in2[4], in2[5], in2[6], in2[7], in2[8], in2[9];
    x48 := Prod(x31, x13) + 2 * (Prod(x29, x15) + Prod(x33, x11) + Prod(x25, x19) + Prod(x37, x7))
      + Prod(x27, x17) + Prod(x35, x9) + Prod(x23, x21) + Prod(x39, x5);
    x49 := Prod(x31, x15) + Prod(x33, x13) + Prod(x29, x17) + Prod(x35, x11) + Prod(x27, x19) + Prod(x37, x9)
      + Prod(x25, x21) + Prod(x39, x7) + Prod(x23, x20) + Prod(x38, x5);
  }

  method MulColumnsD(in1: array<u32>, in2: array<u32>) returns (x50: u64, x51: u64)
    requires LooseArray(in1) && LooseArray(in2)
    ensures x50 as int == C10(View(in1), View(in2))
    ensures x51 as int == C11(View(in1), View(in2))
  {
    var x7, x9, x11, x13, x15, x17, x19, x21, x20 := in1[1], in1[2], in1[3], in1[4], in1[5], in1[6], in1[7], in1[8], in1[9];
    var x25, x27, x29, x31, x33, x35, x37, x39, x38 := in2[1], in2[2], in2[3], in2[4], in2[5], in2[6], in2[7], in2[8], in2[9];
    x50 := 2 * (Prod(x33, x15) + Prod(x29, x19) + Prod(x37, x11) + Prod(x25, x20) + Prod(x38, x7))
      + Prod(x31, x17) + Prod(x35, x13) + Prod(x27, x21) + Prod(x39, x9);
    x51 := Prod(x33, x17) + Prod(x35, x15) + Prod(x31, x19) + Prod(x37, x13) + Prod(x29, x21)
      + Prod(x39, x11) + Prod(x27, x20) + Prod(x38, x9);
  }

  method MulColumnsE(in1: array<u32>, in2: array<u32>) returns (x52: u64, x53: u64, x54: u64)
    requires LooseArray(in1) && LooseArray(in2)
    ensures x52 as int == C12(View(in1), View(in2))
    ensures x53 as int == C13(View(in1), View(in2))
    ensures x54 as int == C14(View(in1), View(in2))
  {
    var x11, x13, x15, x17, x19, x21, x20 := in1[3], in1[4], in1[5], in1[6], in1[7], in1[8], in1[9];
    var x29, x31, x33, x35, x37, x39, x38 := in2[3], in2[4], in2[5], in2[6], in2[7], in2[8], in2[9];
    x52 := Prod(x35, x17) + 2 * (Prod(x33, x19) + Prod(x37, x15) + Prod(x29, x20) + Prod(x38, x11))
      + Prod(x31, x21) + Prod(x39, x13);
    x53 := Prod(x35, x19) + Prod(x37, x17) + Prod(x33, x21) + Prod(x39, x15) + Prod(x31, x20) + Prod(x38, x13);
    x54 := 2 * (Prod(x37, x19) + Prod(x33, x20) + Prod(x38, x15)) + Prod(x35, x21) + Prod(x39, x17);
  }

  method MulColumnsF(in1: array<u32>, in2: array<u32>) returns (x55: u64, x56: u64, x57: u64, x58: u64)
    requires LooseArray(in1) && LooseArray(in2)
    ensures x55 as int == C15(View(in1), View(in2))
    ensures x56 as int == C16(View(in1), View(in2))
    ensures x57 as int == C17(View(in1), View(in2))
    ensures x58 as int == C18(View(in1), View(in2))
  {
    var x17, x19, x21, x20 := in1[6], in1[7], in1[8], in1[9];
    var x35, x37, x39, x38 := in2[6], in2[7], in2[8], in2[9];
    x55 := Prod(x37, x21) + Prod(x39, x19) + Prod(x35, x20) + Prod(x38, x17);
    x56 := Prod(x39, x21) + 2 * (Prod(x37, x20) + Prod(x38, x19));
    x57 := Prod(x39, x20) + Prod(x38, x21);
    x58 := Prod(2 * x38, x20);
  }

  method SquareColumnsA(in1: array<u32>) returns (x19: u64, x20: u64, x21: u64, x22: u64, x23: u64, x24: u64)
    requires LooseArray(in1)
    ensures x19 as int == C0(View(in1), View(in1))
    ensures x20 as int == C1(View(in1), View(in1))
    ensures x21 as int == C2(View(in1), View(in1))
    ensures x22 as int == C3(View(in1), View(in1))
    ensures x23 as int == C4(View(in1), View(in1))
    ensures x24 as int == C5(View(in1), View(in1))
  {
    var x2, x4, x6, x8, x10, x12 := in1[0], in1[1], in1[2], in1[3], in1[4], in1[5];
    x19 := Prod(x2, x2);
    x20 := Prod(2 * x2, x4);
    x21 := 2 * (Prod(x4, x4) + Prod(x2, x6));
    x22 := 2 * (Prod(x4, x6) + Prod(x2, x8));
    x23 := Prod(x6, x6) + Prod(4 * x4, x8) + Prod(2 * x2, x10);
    x24 := 2 * (Prod(x6, x8) + Prod(x4, x10) + Prod(x2, x12));
  }

  method SquareColumnsB(in1: array<u32>) returns (x25: u64, x26: u64, x27: u64)
    requires LooseArray(in1)
    ensures x25 as int == C6(View(in1), View(in1))
    ensures x26 as int == C7(View(in1), View(in1))
    ensures x27 as int == C8(View(in1), View(in1))
  {
    var x2, x4, x6, x8, x10, x12, x14, x16, x18 := in1[0], in1[1], in1[2], in1[3], in1[4], in1[5], in1[6], in1[7], in1[8];
    x25 := 2 * (Prod(x8, x8) + Prod(x6, x10) + Prod(x2, x14) + Prod(2 * x4, x12));
    x26 := 2 * (Prod(x8, x10) + Prod(x6, x12) + Prod(x4, x14) + Prod(x2, x16));
    x27 := Prod(x10, x10) + 2 * (Prod(x6, x14) + Prod(x2, x18) + 2 * (Prod(x4, x16) + Prod(x8, x12)));
  }

  method SquareColumnsC(in1: array<u32>) returns (x28: u64, x29: u64)
    requires LooseArray(in1)
    ensures x28 as int == C9(View(in1), View(in1))
    ensures x29 as int == C10(View(in1), View(in1))
  {
    var x2, x4, x6, x8, x10, x12, x14, x16, x18, x17 := in1[0], in1[1], in1[2], in1[3], in1[4], in1[5], in1[6], in1[7], in1[8], in1[9];
    x28 := 2 * (Prod(x10, x12) + Prod(x8, x14) + Prod(x6, x16) + Prod(x4, x18) + Prod(x2, x17));
    x29 := 2 * (Prod(x12, x12) + Prod(x10, x14) + Prod(x6, x18) + 2 * (Prod(x8, x16) + Prod(x4, x17)));
  }

  method SquareColumnsD(in1: array<u32>) returns (x30: u64, x31: u64, x32: u64)
    requires LooseArray(in1)
    ensures x30 as int == C11(View(in1), View(in1))
    ensures x31 as int == C12(View(in1), View(in1))
    ensures x32 as int == C13(View(in1), View(in1))
  {
    var x2, x6, x8, x10, x12, x14, x16, x18, x17 := in1[0], in1[2], in1[3], in1[4], in1[5], in1[6], in1[7], in1[8], in1[9];
    x30 := 2 * (Prod(x12, x14) + Prod(x10, x16) + Prod(x8, x18) + Prod(x6, x17));
    x31 := Prod(x14, x14) + 2 * (Prod(x10, x18) + 2 * (Prod(x12, x16) + Prod(x8, x17)));
    x32 := 2 * (Prod(x14, x16) + Prod(x12, x18) + Prod(x10, x17));
  }

  method SquareColumnsE(in1: array<u32>) returns (x33: u64, x34: u64)
    requires LooseArray(in1)
    ensures x33 as int == C14(View(in1), View(in1))
    ensures x34 as int == C15(View(in1), View(in1))
  {
    var x12, x14, x16, x18, x17 := in1[5], in1[6], in1[7], in1[8], in1[9];
    x33 := 2 * (Prod(x16, x16) + Prod(x14, x18) + Prod(2 * x12, x17));
    x34 := 2 * (Prod(x16, x18) + Prod(x14, x17));
  }

  method SquareColumnsF(in1: array<u32>) returns (x35: u64, x36: u64, x37: u64)
    requires LooseArray(in1)
    ensures x35 as int == C16(View(in1), View(in1))
    ensures x36 as int == C17(View(in1), View(in1))
    ensures x37 as int == C18(View(in1), View(in1))
  {
    var x16, x18, x17 := in1[7], in1[8], in1[9];
    x35 := Prod(x18, x18) + Prod(4 * x16, x17);
    x36 := Prod(2 * x18, x17);
    x37 := Prod(2 * x17, x17);
  }

  /** c + 19·d, as the C code adds it. */
  method Fold19(c: u64, d: u64) returns (r: u64)
    requires c as int + 19 * d as int < TWO64
    ensures r as int == c as int + 19 * d as int
  {
    r := c + d * 16;
    r := r + d * 2;
    r := r + d;
  }

  /** The carries out of the first four columns. */
  method CarryLow(x85: u64, x82: u64, x79: u64, x76: u64, x73: u64, ghost t: L10)
    returns (x87: u32, x90: u32, x93: u32, x96: u32, x97: u64)
    requires Below(t, WIDE, WIDE)
    requires t.a0 == x85 as int && t.a1 == x82 as int && t.a2 == x79 as int && t.a3 == x76 as int && t.a4 == x73 as int
    ensures K3(K2(K1(K0(t)))) == L10(x87 as int, x90 as int, x93 as int, x96 as int, x97 as int, t.a5, t.a6, t.a7, t.a8, t.a9)
    ensures x97 as int < WIDE + 0x80_0000_0000
    ensures x87 as int < TWO26 && x90 as int < TWO25 && x93 as int < TWO26 && x96 as int < TWO25
  {
    var x86, x89, x92, x95: u64;
    x86, x87 := Split26(x85);
    var x88 := x86 + x82;
    x89, x90 := Split25(x88);
    var x91 := x89 + x79;
    x92, x93 := Split26(x91);
    var x94 := x92 + x76;
    x95, x96 := Split25(x94);
    x97 := x95 + x73;
  }

  /** The carries out of columns four to eight. */
  method CarryHigh(x97: u64, x70: u64, x67: u64, x64: u64, x61: u64, x49: u64, ghost t: L10)
    returns (x99: u32, x102: u32, x105: u32, x108: u32, x111: u32, x112: u64)
    requires 0 <= t.a4 < WIDE + 0x80_0000_0000 && t.a5 < WIDE && t.a6 < WIDE && t.a7 < WIDE && t.a8 < WIDE && t.a9 < WIDE
    requires t.a4 == x97 as int && t.a5 == x70 as int && t.a6 == x67 as int && t.a7 == x64 as int && t.a8 == x61 as int
    requires t.a9 == x49 as int
    ensures K8(K7(K6(K5(K4(t))))) == L10(t.a0, t.a1, t.a2, t.a3, x99 as int, x102 as int, x105 as int, x108 as int,
                                         x111 as int, x112 as int)
  {
    var x98, x101, x104, x107, x110: u64;
    x98, x99 := Split26(x97);
    var x100 := x98 + x70;
    x101, x102 := Split25(x100);
    var x103 := x101 + x67;
    x104, x105 := Split26(x103);
    var x106 := x104 + x64;
    x107, x108 := Split25(x106);
    var x109 := x107 + x61;
    x110, x111 := Split26(x109);
    x112 := x110 + x49;
  }

  /** The carry out of the top column returns to the bottom, times 19, and is carried once more. */
  method CarryTop(x87: u32, x90: u32, x93: u32, x112: u64, ghost t: L10)
    returns (x117: u32, x120: u32, x121: u32, x114: u32)
    requires x87 as int < TWO26 && x90 as int < TWO25 && x93 as int < TWO26 && x112 as int < 0xc000_0080_0000_0000
    requires t.a0 == x87 as int && t.a1 == x90 as int && t.a2 == x93 as int && t.a9 == x112 as int
    ensures K1(K0(FoldTop(t))) == L10(x117 as int, x120 as int, x121 as int, t.a3, t.a4, t.a5, t.a6, t.a7, t.a8, x114 as int)
  {
    var x113, x116: u64;
    x113, x114 := Split25(x112);
    var x115 := x87 as u64 + 0x13 * x113;
    x116, x117 := Split26(x115);
    var x118 := x116 as u32 + x90;
    x121 := x118 / 0x200_0000 + x93;
    x120 := x118 % 0x200_0000;
  }

  /** Carries the ten columns down to limbs. */
  method CarryColumns(out: array<u32>, x85: u64, x82: u64, x79: u64, x76: u64, x73: u64,
                      x70: u64, x67: u64, x64: u64, x61: u64, x49: u64, ghost t: L10)
    requires out.Length == 10 && Below(t, WIDE, WIDE)
    requires t == L10(x85 as int, x82 as int, x79 as int, x76 as int, x73 as int,
                      x70 as int, x67 as int, x64 as int, x61 as int, x49 as int)
    modifies out
    ensures View(out) == Reduce(t)
  {
    ChainBound(t);
    var x87, x90, x93, x96, x97 := CarryLow(x85, x82, x79, x76, x73, t);
    ghost var u := K3(K2(K1(K0(t))));
    var x99, x102, x105, x108, x111, x112 := CarryHigh(x97, x70, x67, x64, x61, x49, u);
    ghost var v := K8(K7(K6(K5(K4(u)))));
    assert v == Chain(t);
    hide K0, K1, K2, K3, K4, K5, K6, K7, K8, FoldTop, Chain;
    var x117, x120, x121, x114 := CarryTop(x87, x90, x93, x112, v);
    out[0] := x117;
    out[1] := x120;
    out[2] := x121;
    out[3] := x96;
    out[4] := x99;
    out[5] := x102;
    out[6] := x105;
    out[7] := x108;
    out[8] := x111;
    out[9] := x114;
  }

  /** A column's carry, and its low 26 bits taken after the cast to 32 bits. */
  method Split26(x: u64) returns (carry: u64, low: u32)
    ensures carry as int == x as int / TWO26 && low as int == x as int % TWO26
  {
    carry := x / 0x400_0000;
    low := (x % 0x1_0000_0000) as u32 % 0x400_0000;
  }

  method Split25(x: u64) returns (carry: u64, low: u32)
    ensures carry as int == x as int / TWO25 && low as int == x as int % TWO25
  {
    carry := x / 0x200_0000;
    low := (x % 0x1_0000_0000) as u32 % 0x200_0000;
  }

  method FeMul(out: array<u32>, in1: array<u32>, in2: array<u32>)
    requires LooseArray(in1) && LooseArray(in2) && out.Length == 10
    modifies out
    ensures TightArray(out)
    ensures Elem(out) == old(FMul(Elem(in1), Elem(in2)))
  {
    ghost var f, g := View(in1), View(in2);
    FoldedBound(f, g);
    hide C0, C1, C2, C3, C4, C5, C6, C7, C8, C9, C10, C11, C12, C13, C14, C15, C16, C17, C18, Val, Loose, Red, Chain, Reduce, Tight;
    var x40, x41, x42, x43, x44 := MulColumnsA(in1, in2);
    var x45, x46, x47 := MulColumnsB(in1, in2);
    var x48, x49 := MulColumnsC(in1, in2);
    var x50, x51 := MulColumnsD(in1, in2);
    var x52, x53, x54 := MulColumnsE(in1, in2);
    var x55, x56, x57, x58 := MulColumnsF(in1, in2);
    var t0 := Fold19(x40, x50);
    var t1 := Fold19(x41, x51);
    var t2 := Fold19(x42, x52);
    var t3 := Fold19(x43, x53);
    var t4 := Fold19(x44, x54);
    var t5 := Fold19(x45, x55);
    var t6 := Fold19(x46, x56);
    var t7 := Fold19(x47, x57);
    var t8 := Fold19(x48, x58);
    CarryColumns(out, t0, t1, t2, t3, t4, t5, t6, t7, t8, x49, Folded(f, g));
    ReduceBound(Folded(f, g));
    ReduceValue(Folded(f, g));
    FoldedValue(f, g);
    RedMul(Val(f), Val(g));
  }

  method FeSqr(out: array<u32>, in1: array<u32>)
    requires LooseArray(in1) && out.Length == 10
    modifies out
    ensures TightArray(out)
    ensures Elem(out) == old(FMul(Elem(in1), Elem(in1)))
  {
    ghost var f := View(in1);
    FoldedBound(f, f);
    hide C0, C1, C2, C3, C4, C5, C6, C7, C8, C9, C10, C11, C12, C13, C14, C15, C16, C17, C18, Val, Loose, Red, Chain, Reduce, Tight;
    var x19, x20, x21, x22, x23, x24 := SquareColumnsA(in1);
    var x25, x26, x27 := SquareColumnsB(in1);
    var x28, x29 := SquareColumnsC(in1);
    var x30, x31, x32 := SquareColumnsD(in1);
    var x33, x34 := SquareColumnsE(in1);
    var x35, x36, x37 := SquareColumnsF(in1);
    var t0 := Fold19(x19, x29);
    var t1 := Fold19(x20, x30);
    var t2 := Fold19(x21, x31);
    var t3 := Fold19(x22, x32);
    var t4 := Fold19(x23, x33);
    var t5 := Fold19(x24, x34);
    var t6 := Fold19(x25, x35);
    var t7 := Fold19(x26, x36);
    var t8 := Fold19(x27, x37);
    CarryColumns(out, t0, t1, t2, t3, t4, t5, t6, t7, t8, x28, Folded(f, f));
    ReduceBound(Folded(f, f));
    ReduceValue(Folded(f, f));
    FoldedValue(f, f);
    RedMul(Val(f), Val(f));
  }

  /** The multiplication with its second operand fixed at 121666, 0, 0, ...: the C function consists of the same
      word operations as the general one, and differs only in where the ten words of that operand come from. */
  method FeMul121666(out: array<u32>, in1: array<u32>)
    requires LooseArray(in1) && out.Length == 10
    modifies out
    ensures TightArray(out)
    ensures Elem(out) == old(FMul(Elem(in1), 121666))
  {
    var in2 := new u32[] [121666, 0, 0, 0, 0, 0, 0, 0, 0, 0];
    assert View(in2) == L10(121666, 0, 0, 0, 0, 0, 0, 0, 0, 0);
    RedRange(121666);
    FeMul(out, in1, in2);
  }

  method Store(out: array<u32>, v0: u32, v1: u32, v2: u32, v3: u32, v4: u32, v5: u32, v6: u32, v7: u32, v8: u32, v9: u32)
    requires out.Length == 10
    modifies out
    ensures View(out) == L10(v0 as int, v1 as int, v2 as int, v3 as int, v4 as int,
                             v5 as int, v6 as int, v7 as int, v8 as int, v9 as int)
  {
    out[0], out[1], out[2], out[3], out[4] := v0, v1, v2, v3, v4;
    out[5], out[6], out[7], out[8], out[9] := v5, v6, v7, v8, v9;
  }

  method FeAdd(out: array<u32>, in1: array<u32>, in2: array<u32>)
    requires TightArray(in1) && TightArray(in2) && out.Length == 10
    modifies out
    ensures LooseArray(out)
    ensures Elem(out) == old(FAdd(Elem(in1), Elem(in2)))
  {
    hide Val, Red;
    ghost var f, g := View(in1), View(in2);
    var v0, v1, v2, v3, v4 := in1[0] + in2[0], in1[1] + in2[1], in1[2] + in2[2], in1[3] + in2[3], in1[4] + in2[4];
    var v5, v6, v7, v8, v9 := in1[5] + in2[5], in1[6] + in2[6], in1[7] + in2[7], in1[8] + in2[8], in1[9] + in2[9];
    Store(out, v0, v1, v2, v3, v4, v5, v6, v7, v8, v9);
    SumElem(f, g, View(out));
  }

  lemma SumElem(f: L10, g: L10, s: L10)
    requires s == L10(f.a0 + g.a0, f.a1 + g.a1, f.a2 + g.a2, f.a3 + g.a3, f.a4 + g.a4,
                      f.a5 + g.a5, f.a6 + g.a6, f.a7 + g.a7, f.a8 + g.a8, f.a9 + g.a9)
    ensures Red(Val(s)) == FAdd(Red(Val(f)), Red(Val(g)))
  {
    RedAdd(Val(f), Val(g));
    assert Val(s) == Val(f) + Val(g);
  }

  /** Adds twice the modulus before subtracting, so that no limb goes negative. */
  method FeSub(out: array<u32>, in1: array<u32>, in2: array<u32>)
    requires TightArray(in1) && TightArray(in2) && out.Length == 10
    modifies out
    ensures LooseArray(out)
    ensures Elem(out) == old(FSub(Elem(in1), Elem(in2)))
  {
    hide Val, Red, FSub;
    ghost var f, g := View(in1), View(in2);
    var v0, v1, v2, v3, v4 := 0x7ff_ffda + in1[0] - in2[0], 0x3ff_fffe + in1[1] - in2[1],
      0x7ff_fffe + in1[2] - in2[2], 0x3ff_fffe + in1[3] - in2[3], 0x7ff_fffe + in1[4] - in2[4];
    var v5, v6, v7, v8, v9 := 0x3ff_fffe + in1[5] - in2[5], 0x7ff_fffe + in1[6] - in2[6],
      0x3ff_fffe + in1[7] - in2[7], 0x7ff_fffe + in1[8] - in2[8], 0x3ff_fffe + in1[9] - in2[9];
    Store(out, v0, v1, v2, v3, v4, v5, v6, v7, v8, v9);
    DifferenceElem(f, g, View(out));
  }

  lemma DifferenceElem(f: L10, g: L10, d: L10)
    requires d == L10(0x7ff_ffda + f.a0 - g.a0, 0x3ff_fffe + f.a1 - g.a1, 0x7ff_fffe + f.a2 - g.a2, 0x3ff_fffe + f.a3 - g.a3,
                      0x7ff_fffe + f.a4 - g.a4, 0x3ff_fffe + f.a5 - g.a5, 0x7ff_fffe + f.a6 - g.a6, 0x3ff_fffe + f.a7 - g.a7,
                      0x7ff_fffe + f.a8 - g.a8, 0x3ff_fffe + f.a9 - g.a9)
    ensures Red(Val(d)) == FSub(Red(Val(f)), Red(Val(g)))
  {
    RedSub(Val(f), Val(g));
    RedUnique(Val(d), Val(f) - Val(g), 2);
  }
}
