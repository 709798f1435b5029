/** Bytes to limbs and back in the 32-bit back end. */
module Fiat32Format {
  import opened Words
  import opened Powers
  import opened Bits
  import opened LittleEndian
  import opened ByteWords
  import opened Field25519
  import opened Limbs26
  import opened Fiat32

  const P0: u32 := 0x3ff_ffed
  const ONES26: u32 := 0x3ff_ffff
  const ONES25: u32 := 0x1ff_ffff

  // ---- from bytes ----

  method GetLe32(p: array<u8>, off: nat) returns (v: u32)
    requires off + 4 <= p.Length
    ensures v as int == LeVal(p[off..off + 4])
  {
    Pow2Values();
    WeightValues();
    v := p[off] as u32;
    OrByte(v as int, p[off + 1], 8);
    v := Or32(v, p[off + 1] as u32 * 0x100);
    OrByte(v as int, p[off + 2], 16);
    v := Or32(v, p[off + 2] as u32 * 0x1_0000);
    OrByte(v as int, p[off + 3], 24);
    v := Or32(v, p[off + 3] as u32 * 0x100_0000);
    FourBytes(p[off..off + 4]);
  }

  lemma FourBytes(b: seq<u8>)
    requires |b| == 4
    ensures LeVal(b) == b[0] as int + 0x100 * b[1] as int + 0x1_0000 * b[2] as int + 0x100_0000 * b[3] as int
  {
    LeTail(b, 3);
    LeTail(b, 2);
    LeTail(b, 1);
  }

  /** hi << n | lo, with nothing shifted out of the word. */
  function Join(hi: u32, lo: u32, n: nat, m: u32): (r: u32)
    requires m as int == Pow2(n) && lo < m && hi as int * m as int < TWO32
    ensures r as int == hi as int * m as int + lo as int
  {
    hide Pow2, Or;
    OrDisjoint(hi as int, lo as int, n);
    OrCommutes(hi as int * m as int, lo as int);
    Or32(lo, hi * m)
  }

  lemma JoinPowers()
    ensures Pow2(1) == 2 && Pow2(2) == 4 && Pow2(3) == 8 && Pow2(4) == 0x10 && Pow2(5) == 0x20 && Pow2(6) == 0x40
    ensures Pow2(7) == 0x80 && Pow2(13) == 0x2000 && Pow2(19) == 0x8_0000 && Pow2(20) == 0x10_0000
  {
    assert Pow2(3) == 8;
    Pow2Add(3, 3);
    Pow2Add(3, 4);
    Pow2Add(6, 7);
    Pow2Add(6, 13);
    Pow2Add(1, 19);
  }

  method FeFromBytes(h: array<u32>, s: array<u8>)
    requires h.Length == 10 && s.Length == 32
    modifies h
    ensures Below(View(h), TWO26, TWO25)
    ensures Val(View(h)) == old(LeVal(s[..])) % (P + 19)
  {
    hide LeVal, Val, Pow2;
    ghost var b := s[..];
    var a0 := GetLe32(s, 0);
    var a1 := GetLe32(s, 4);
    var a2 := GetLe32(s, 8);
    var a3 := GetLe32(s, 12);
    var a4 := GetLe32(s, 16);
    var a5 := GetLe32(s, 20);
    var a6 := GetLe32(s, 24);
    var a7 := GetLe32(s, 28);
    WordsOf(b);
    assert b[0..4] == s[0..4] && b[4..8] == s[4..8] && b[8..12] == s[8..12] && b[12..16] == s[12..16];
    assert b[16..20] == s[16..20] && b[20..24] == s[20..24] && b[24..28] == s[24..28] && b[28..32] == s[28..32];
    var h0, h1, h2, h3, h4 := LowLimbs(a0, a1, a2, a3);
    var h5, h6, h7, h8, h9 := HighLimbs(a4, a5, a6, a7);
    Store(h, h0, h1, h2, h3, h4, h5, h6, h7, h8, h9);
    LimbsOfWords(View(h), LeVal(b),
                 a0 as int + 0x1_0000_0000 * a1 as int + 0x1_0000_0000_0000_0000 * a2 as int
                 + 0x1_0000_0000_0000_0000_0000_0000 * a3 as int,
                 a4 as int + 0x1_0000_0000 * a5 as int + 0x1_0000_0000_0000_0000 * a6 as int
                 + 0x1_0000_0000_0000_0000_0000_0000 * a7 as int, a7 as int / 0x8000_0000);
  }

  /** The first four words fill exactly five limbs. */
  method LowLimbs(a0: u32, a1: u32, a2: u32, a3: u32) returns (h0: u32, h1: u32, h2: u32, h3: u32, h4: u32)
    ensures h0 as int < TWO26 && h1 as int < TWO25 && h2 as int < TWO26 && h3 as int < TWO25 && h4 as int < TWO26
    ensures h0 as int + 0x400_0000 * h1 as int + 0x8_0000_0000_0000 * h2 as int + 0x2000_0000_0000_0000_0000 * h3 as int
            + 0x40_0000_0000_0000_0000_0000_0000 * h4 as int
         == a0 as int + 0x1_0000_0000 * a1 as int + 0x1_0000_0000_0000_0000 * a2 as int
            + 0x1_0000_0000_0000_0000_0000_0000 * a3 as int
  {
    JoinPowers();
    h0 := a0 % 0x400_0000;
    h1 := Join(a1 % 0x8_0000, a0 / 0x400_0000, 6, 0x40);
    h2 := Join(a2 % 0x2000, a1 / 0x8_0000, 13, 0x2000);
    h3 := Join(a3 % 0x40, a2 / 0x2000, 19, 0x8_0000);
    h4 := a3 / 0x40;
  }

  /** The last four words, without the top bit, fill the other five. */
  method HighLimbs(a4: u32, a5: u32, a6: u32, a7: u32) returns (h5: u32, h6: u32, h7: u32, h8: u32, h9: u32)
    ensures h5 as int < TWO25 && h6 as int < TWO26 && h7 as int < TWO25 && h8 as int < TWO26 && h9 as int < TWO25
    ensures h5 as int + 0x200_0000 * h6 as int + 0x8_0000_0000_0000 * h7 as int + 0x1000_0000_0000_0000_0000 * h8 as int
            + 0x40_0000_0000_0000_0000_0000_0000 * h9 as int
            + 0x8000_0000_0000_0000_0000_0000_0000_0000 * (a7 as int / 0x8000_0000)
         == a4 as int + 0x1_0000_0000 * a5 as int + 0x1_0000_0000_0000_0000 * a6 as int
            + 0x1_0000_0000_0000_0000_0000_0000 * a7 as int
  {
    hide Pow2;
    JoinPowers();
    h5 := a4 % 0x200_0000;
    h6 := Join(a5 % 0x8_0000, a4 / 0x200_0000, 7, 0x80);
    h7 := Join(a6 % 0x1000, a5 / 0x8_0000, 13, 0x2000);
    h8 := Join(a7 % 0x40, a6 / 0x1000, 20, 0x10_0000);
    h9 := a7 / 0x40 % 0x200_0000;
    TopWord(a7 as int);
  }

  lemma TopWord(a: nat)
    requires a < TWO32
    ensures a == a % 0x40 + 0x40 * (a / 0x40 % 0x200_0000) + 0x8000_0000 * (a / 0x8000_0000)
  {
  }

  lemma WordsOf(b: seq<u8>)
    requires |b| == 32
    ensures LeVal(b) == LeVal(b[0..4]) + 0x1_0000_0000 * LeVal(b[4..8]) + 0x1_0000_0000_0000_0000 * LeVal(b[8..12])
                      + 0x1_0000_0000_0000_0000_0000_0000 * LeVal(b[12..16])
                      + 0x1_0000_0000_0000_0000_0000_0000_0000_0000
                        * (LeVal(b[16..20]) + 0x1_0000_0000 * LeVal(b[20..24]) + 0x1_0000_0000_0000_0000 * LeVal(b[24..28])
                           + 0x1_0000_0000_0000_0000_0000_0000 * LeVal(b[28..32]))
  {
    hide LeVal;
    ValueOfWords(b);
    TwoWords(b, 0);
    TwoWords(b, 8);
    TwoWords(b, 16);
    TwoWords(b, 24);
  }

  lemma TwoWords(b: seq<u8>, k: nat)
    requires k + 8 <= |b|
    ensures LeVal(b[k..k + 8]) == LeVal(b[k..k + 4]) + 0x1_0000_0000 * LeVal(b[k + 4..k + 8])
  {
    hide LeVal;
    Pow2Values();
    assert b[k..k + 8] == b[k..k + 4] + b[k + 4..k + 8];
    LeValAppend(b[k..k + 4], b[k + 4..k + 8]);
  }

  lemma LimbsOfWords(h: L10, n: nat, lo: int, hi: int, top: nat)
    requires Below(h, TWO26, TWO25) && n == lo + 0x1_0000_0000_0000_0000_0000_0000_0000_0000 * hi
    requires h.a0 + 0x400_0000 * h.a1 + 0x8_0000_0000_0000 * h.a2 + 0x2000_0000_0000_0000_0000 * h.a3
             + 0x40_0000_0000_0000_0000_0000_0000 * h.a4 == lo
    requires h.a5 + 0x200_0000 * h.a6 + 0x8_0000_0000_0000 * h.a7 + 0x1000_0000_0000_0000_0000 * h.a8
             + 0x40_0000_0000_0000_0000_0000_0000 * h.a9 + 0x8000_0000_0000_0000_0000_0000_0000_0000 * top == hi
    ensures Val(h) == n % (P + 19)
  {
    assert n == top * (P + 19) + Val(h);
    DivUnique(n, P + 19, top, Val(h));
  }

  // ---- the canonical representative ----

  method AddCarry25(c: u8, a: u32, b: u32) returns (low: u32, carry: u8)
    requires c <= 1 && a < 0x200_0000 && b < 0x200_0000
    ensures a as int + b as int + c as int == low as int + TWO25 * carry as int && low < 0x200_0000 && carry <= 1
  {
    var x := a + b + c as u32;
    low := x % 0x200_0000;
    carry := (x / 0x200_0000 % 2) as u8;
  }

  method AddCarry26(c: u8, a: u32, b: u32) returns (low: u32, carry: u8)
    requires c <= 1 && a < 0x400_0000 && b < 0x400_0000
    ensures a as int + b as int + c as int == low as int + TWO26 * carry as int && low < 0x400_0000 && carry <= 1
  {
    var x := a + b + c as u32;
    low := x % 0x400_0000;
    carry := (x / 0x400_0000 % 2) as u8;
  }

  /** The difference wraps round the 32-bit word; its top bit is the borrow. */
  method SubBorrow25(c: u8, a: u32, b: u32) returns (low: u32, borrow: u8)
    requires c <= 1 && b < 0x200_0000 && a as int - b as int < TWO25
    ensures a as int - b as int - c as int == low as int - TWO25 * borrow as int && low < 0x200_0000 && borrow <= 1
  {
    var x := ((a as int - b as int - c as int) % TWO32) as u32;
    low := x % 0x200_0000;
    borrow := (x / 0x8000_0000) as u8;
  }

  method SubBorrow26(c: u8, a: u32, b: u32) returns (low: u32, borrow: u8)
    requires c <= 1 && b < 0x400_0000 && a as int - b as int < TWO26
    ensures a as int - b as int - c as int == low as int - TWO26 * borrow as int && low < 0x400_0000 && borrow <= 1
  {
    var x := ((a as int - b as int - c as int) % TWO32) as u32;
    low := x % 0x400_0000;
    borrow := (x / 0x8000_0000) as u8;
  }

  /** nz if t is not zero, else z, by masking. */
  method CmovNonzero32(t: u32, z: u32, nz: u32) returns (r: u32)
    ensures r == if t != 0 then nz else z
  {
    var mask: u32 := if t != 0 then 0xffff_ffff else 0;
    Mask32(mask, nz);
    Mask32(0xffff_ffff - mask, z);
    OrZero(nz as int);
    OrZero(z as int);
    r := Or32(And32(mask, nz), And32(0xffff_ffff - mask, z));
  }

  lemma Mask32(mask: u32, x: u32)
    ensures mask == 0xffff_ffff ==> And32(mask, x) == x && And32(x, mask) == x
    ensures mask == 0 ==> And32(mask, x) == 0 && And32(x, mask) == 0
  {
    Pow2Values();
    AndOnes(x as int, 32);
    AndZero(x as int);
    AndCommutes(mask as int, x as int);
  }

  /** Subtracts the modulus, digit by digit. */
  method SubtractModulus(h: array<u32>, in1: array<u32>) returns (borrow: u8)
    requires h.Length == 10 && TightArray(in1) && h != in1
    modifies h
    ensures borrow <= 1 && Below(View(h), TWO26, TWO25)
    ensures Val(View(h)) == Val(View(in1)) - P + (P + 19) * borrow as int
  {
    var x20, x21 := SubBorrow26(0, in1[0], P0);
    var x23, x24 := SubBorrow25(x21, in1[1], ONES25);
    var x26, x27 := SubBorrow26(x24, in1[2], ONES26);
    var x29, x30 := SubBorrow25(x27, in1[3], ONES25);
    var x32, x33 := SubBorrow26(x30, in1[4], ONES26);
    var x35, x36 := SubBorrow25(x33, in1[5], ONES25);
    var x38, x39 := SubBorrow26(x36, in1[6], ONES26);
    var x41, x42 := SubBorrow25(x39, in1[7], ONES25);
    var x44, x45 := SubBorrow26(x42, in1[8], ONES26);
    var x47, x48 := SubBorrow25(x45, in1[9], ONES25);
    borrow := x48;
    Store(h, x20, x23, x26, x29, x32, x35, x38, x41, x44, x47);
  }

  /** Five limbs, the first of 26 bits, with a masked addend. */
  method AddLow(x49: u32, c0: u32, h0: u32, h1: u32, h2: u32, h3: u32, h4: u32)
    returns (x52: u32, x56: u32, x60: u32, x64: u32, x68: u32, carry: u8)
    requires x49 == 0 || x49 == 0xffff_ffff
    requires h0 < 0x400_0000 && h1 < 0x200_0000 && h2 < 0x400_0000 && h3 < 0x200_0000 && h4 < 0x400_0000 && c0 < 0x400_0000
    ensures x52 < 0x400_0000 && x56 < 0x200_0000 && x60 < 0x400_0000 && x64 < 0x200_0000 && x68 < 0x400_0000 && carry <= 1
    ensures Low128(x52, x56, x60, x64, x68) + 0x1_0000_0000_0000_0000_0000_0000_0000_0000 * carry as int
         == Low128(h0, h1, h2, h3, h4) + if x49 == 0 then 0 else Low128(c0, ONES25, ONES26, ONES25, ONES26)
  {
    Mask32(x49, c0);
    Mask32(x49, ONES25);
    Mask32(x49, ONES26);
    hide And32;
    var x53, x57, x61, x65: u8;
    x52, x53 := AddCarry26(0, h0, And32(x49, c0));
    x56, x57 := AddCarry25(x53, h1, And32(x49, ONES25));
    x60, x61 := AddCarry26(x57, h2, And32(x49, ONES26));
    x64, x65 := AddCarry25(x61, h3, And32(x49, ONES25));
    x68, carry := AddCarry26(x65, h4, And32(x49, ONES26));
  }

  function Low128(h0: u32, h1: u32, h2: u32, h3: u32, h4: u32): int {
    h0 as int + 0x400_0000 * h1 as int + 0x8_0000_0000_0000 * h2 as int
    + 0x2000_0000_0000_0000_0000 * h3 as int + 0x40_0000_0000_0000_0000_0000_0000 * h4 as int
  }

  /** The other five, starting with 25 bits and with a carry coming in. */
  method AddHigh(x49: u32, x69: u8, h5: u32, h6: u32, h7: u32, h8: u32, h9: u32)
    returns (x72: u32, x76: u32, x80: u32, x84: u32, x88: u32, ghost carry: u8)
    requires x69 <= 1 && (x49 == 0 || x49 == 0xffff_ffff)
    requires h5 < 0x200_0000 && h6 < 0x400_0000 && h7 < 0x200_0000 && h8 < 0x400_0000 && h9 < 0x200_0000
    ensures x72 < 0x200_0000 && x76 < 0x400_0000 && x80 < 0x200_0000 && x84 < 0x400_0000 && x88 < 0x200_0000 && carry <= 1
    ensures High127(x72, x76, x80, x84, x88) + 0x8000_0000_0000_0000_0000_0000_0000_0000 * carry as int
         == High127(h5, h6, h7, h8, h9) + x69 as int
            + if x49 == 0 then 0 else High127(ONES25, ONES26, ONES25, ONES26, ONES25)
  {
    Mask32(x49, ONES25);
    Mask32(x49, ONES26);
    hide And32;
    var x73, x77, x81, x85, x89: u8;
    x72, x73 := AddCarry25(x69, h5, And32(x49, ONES25));
    x76, x77 := AddCarry26(x73, h6, And32(x49, ONES26));
    x80, x81 := AddCarry25(x77, h7, And32(x49, ONES25));
    x84, x85 := AddCarry26(x81, h8, And32(x49, ONES26));
    x88, x89 := AddCarry25(x85, h9, And32(x49, ONES25));
    carry := x89;
  }

  function High127(h5: u32, h6: u32, h7: u32, h8: u32, h9: u32): int {
    h5 as int + 0x200_0000 * h6 as int + 0x8_0000_0000_0000 * h7 as int
    + 0x1000_0000_0000_0000_0000 * h8 as int + 0x40_0000_0000_0000_0000_0000_0000 * h9 as int
  }

  /** Adds the modulus back when the mask is set, dropping the carry out of the top. */
  method AddModulus(out: array<u32>, h: array<u32>, x49: u32) returns (ghost carry: u8)
    requires out.Length == 10 && h.Length == 10 && Below(View(h), TWO26, TWO25) && (x49 == 0 || x49 == 0xffff_ffff)
    modifies out
    ensures carry <= 1 && Below(View(out), TWO26, TWO25)
    ensures Val(View(out)) == old(Val(View(h))) + (if x49 == 0 then 0 else P) - (P + 19) * carry as int
  {
    var x52, x56, x60, x64, x68, x69 := AddLow(x49, P0, h[0], h[1], h[2], h[3], h[4]);
    var x72, x76, x80, x84, x88;
    x72, x76, x80, x84, x88, carry := AddHigh(x49, x69, h[5], h[6], h[7], h[8], h[9]);
    Store(out, x52, x56, x60, x64, x68, x72, x76, x80, x84, x88);
  }

  /** The representative below the modulus. */
  method FeFreeze(out: array<u32>, in1: array<u32>)
    requires out.Length == 10 && TightArray(in1)
    modifies out
    ensures Below(View(out), TWO26, TWO25)
    ensures Val(View(out)) == old(Elem(in1))
  {
    ghost var v := Val(View(in1));
    TightValue(View(in1));
    hide Val, Tight, View;
    var h := new u32[10];
    var x48 := SubtractModulus(h, in1);
    DigitValue(View(h));
    var x49 := CmovNonzero32(x48 as u32, 0, 0xffff_ffff);
    ghost var carry := AddModulus(out, h, x49);
    DigitValue(View(out));
    FrozenValue(v, x48 as int, carry as int, Val(View(out)));
  }

  lemma TightValue(t: L10)
    requires Tight(t)
    ensures 0 <= Val(t) < 2 * P
  {
  }

  lemma DigitValue(t: L10)
    requires Below(t, TWO26, TWO25)
    ensures 0 <= Val(t) < P + 19
  {
  }

  lemma FrozenValue(v: int, borrow: int, carry: int, r: int)
    requires 0 <= v < 2 * P && 0 <= borrow <= 1 && 0 <= carry <= 1
    requires 0 <= v - P + (P + 19) * borrow < P + 19
    requires r == v - P + (P + 19) * borrow + (if borrow == 0 then 0 else P) - (P + 19) * carry && 0 <= r < P + 19
    ensures r == Red(v)
  {
    DivUnique(v, P, if borrow == 0 then 1 else 0, r);
  }

  // ---- to bytes ----

  /** The byte that holds the last bits of one limb and the first bits of the next. */
  method Straddle(lo: u32, hi: u32, n: nat, m: u32, k: u32) returns (b: u8)
    requires m as int == Pow2(n) && lo < m && m as int * k as int == 256 && hi < 0x400_0000 && n <= 6
    ensures b as int == (hi as int % k as int) * m as int + lo as int
  {
    StraddleRange(hi as int, m as int, n);
    hide Pow2;
    var x := Join(hi, lo, n, m);
    StraddleByte(hi as int, lo as int, m as int, k as int);
    b := (x % 256) as u8;
  }

  lemma StraddleByte(hi: nat, lo: nat, m: nat, k: nat)
    requires lo < m && m * k == 256
    ensures (hi * m + lo) % 256 == (hi % k) * m + lo
  {
    var h, l := hi / k, hi % k;
    Regroup(h, l, m, k);
    BelowProduct(l, m, k);
    DivUnique(hi * m + lo, 256, h, l * m + lo);
  }

  lemma BelowProduct(l: nat, m: nat, k: nat)
    requires l < k
    ensures l * m <= m * k - m
  {
    assert l * m <= (k - 1) * m;
  }

  lemma StraddleRange(hi: nat, m: nat, n: nat)
    requires hi < TWO26 && m == Pow2(n) && n <= 6
    ensures hi * m < TWO32
  {
    JoinPowers();
    assert Pow2(0) == 1;
    assert m <= 64;
    assert hi * m <= hi * 64;
  }

  /** Bytes 0 to 15 hold limbs 0 to 4. */
  method LowBytes(h0: u32, h1: u32, h2: u32, h3: u32, h4: u32)
    returns (s0: u8, s1: u8, s2: u8, s3: u8, s4: u8, s5: u8, s6: u8, s7: u8,
             s8: u8, s9: u8, s10: u8, s11: u8, s12: u8, s13: u8, s14: u8, s15: u8)
    requires h0 < 0x400_0000 && h1 < 0x200_0000 && h2 < 0x400_0000 && h3 < 0x200_0000 && h4 < 0x400_0000
    ensures Bytes16(s0 as int, s1 as int, s2 as int, s3 as int, s4 as int, s5 as int, s6 as int, s7 as int,
                    s8 as int, s9 as int, s10 as int, s11 as int, s12 as int, s13 as int, s14 as int, s15 as int)
         == h0 as int + 0x400_0000 * h1 as int + 0x8_0000_0000_0000 * h2 as int
            + 0x2000_0000_0000_0000_0000 * h3 as int + 0x40_0000_0000_0000_0000_0000_0000 * h4 as int
  {
    hide Pow2, Bytes16, ByteAt;
    JoinPowers();
    s3 := Straddle(h0 / 0x100_0000, h1, 2, 4, 64);
    s6 := Straddle(h1 / 0x40_0000, h2, 3, 8, 32);
    s9 := Straddle(h2 / 0x20_0000, h3, 5, 32, 8);
    s12 := Straddle(h3 / 0x8_0000, h4, 6, 64, 4);
    s0, s1, s2 := ByteAt(h0, 1), ByteAt(h0, 0x100), ByteAt(h0, 0x1_0000);
    s4, s5 := ByteAt(h1, 0x40), ByteAt(h1, 0x4000);
    s7, s8 := ByteAt(h2, 0x20), ByteAt(h2, 0x2000);
    s10, s11 := ByteAt(h3, 8), ByteAt(h3, 0x800);
    s13, s14, s15 := ByteAt(h4, 4), ByteAt(h4, 0x400), ByteAt(h4, 0x4_0000);
    LowDigits(h0 as int, h1 as int, h2 as int, h3 as int, h4 as int);
  }

  method PutLow(s: array<u8>, h0: u32, h1: u32, h2: u32, h3: u32, h4: u32)
    requires s.Length == 32
    requires h0 < 0x400_0000 && h1 < 0x200_0000 && h2 < 0x400_0000 && h3 < 0x200_0000 && h4 < 0x400_0000
    modifies s
    ensures s[16..] == old(s[16..])
    ensures LeVal(s[..16]) == h0 as int + 0x400_0000 * h1 as int + 0x8_0000_0000_0000 * h2 as int
            + 0x2000_0000_0000_0000_0000 * h3 as int + 0x40_0000_0000_0000_0000_0000_0000 * h4 as int
  {
    hide LeVal, Bytes16;
    var s0, s1, s2, s3, s4, s5, s6, s7,
        s8, s9, s10, s11, s12, s13, s14, s15 := LowBytes(h0, h1, h2, h3, h4);
    s[0], s[1], s[2], s[3] := s0, s1, s2, s3;
    s[4], s[5], s[6], s[7] := s4, s5, s6, s7;
    s[8], s[9], s[10], s[11] := s8, s9, s10, s11;
    s[12], s[13], s[14], s[15] := s12, s13, s14, s15;
    SixteenBytes(s[..16]);
  }

  lemma LowDigits(h0: nat, h1: nat, h2: nat, h3: nat, h4: nat)
    requires h0 < 0x400_0000 && h1 < 0x200_0000 && h2 < 0x400_0000 && h3 < 0x200_0000 && h4 < 0x400_0000
    ensures Bytes16(h0 % 256, h0 / 0x100 % 256, h0 / 0x1_0000 % 256, h1 % 64 * 4 + h0 / 0x100_0000,
                    h1 / 0x40 % 256, h1 / 0x4000 % 256, h2 % 32 * 8 + h1 / 0x40_0000, h2 / 0x20 % 256,
                    h2 / 0x2000 % 256, h3 % 8 * 32 + h2 / 0x20_0000, h3 / 8 % 256, h3 / 0x800 % 256,
                    h4 % 4 * 64 + h3 / 0x8_0000, h4 / 4 % 256, h4 / 0x400 % 256, h4 / 0x4_0000)
         == h0 + 0x400_0000 * h1 + 0x8_0000_0000_0000 * h2 + 0x2000_0000_0000_0000_0000 * h3
            + 0x40_0000_0000_0000_0000_0000_0000 * h4
  {
    Digits(h0, 0x100, 0x1_0000, 0x100_0000);
    Digits(h1, 0x40, 0x4000, 0x40_0000);
    Digits(h2, 0x20, 0x2000, 0x20_0000);
    Digits(h3, 8, 0x800, 0x8_0000);
    Digits(h4, 4, 0x400, 0x4_0000);
    JoinLow(h0, h0 % 0x100, h0 / 0x100 % 256, h0 / 0x1_0000 % 256, h0 / 0x100_0000,
            h1, h1 % 0x40, h1 / 0x40 % 256, h1 / 0x4000 % 256, h1 / 0x40_0000,
            h2, h2 % 0x20, h2 / 0x20 % 256, h2 / 0x2000 % 256, h2 / 0x20_0000,
            h3, h3 % 8, h3 / 8 % 256, h3 / 0x800 % 256, h3 / 0x8_0000,
            h4, h4 % 4, h4 / 4 % 256, h4 / 0x400 % 256, h4 / 0x4_0000);
  }

  /** Bytes 16 to 31 hold limbs 5 to 9. */
  method HighBytes(h5: u32, h6: u32, h7: u32, h8: u32, h9: u32)
    returns (s16: u8, s17: u8, s18: u8, s19: u8, s20: u8, s21: u8, s22: u8, s23: u8,
             s24: u8, s25: u8, s26: u8, s27: u8, s28: u8, s29: u8, s30: u8, s31: u8)
    requires h5 < 0x200_0000 && h6 < 0x400_0000 && h7 < 0x200_0000 && h8 < 0x400_0000 && h9 < 0x200_0000
    ensures Bytes16(s16 as int, s17 as int, s18 as int, s19 as int, s20 as int, s21 as int, s22 as int, s23 as int,
                    s24 as int, s25 as int, s26 as int, s27 as int, s28 as int, s29 as int, s30 as int, s31 as int)
         == h5 as int + 0x200_0000 * h6 as int + 0x8_0000_0000_0000 * h7 as int
            + 0x1000_0000_0000_0000_0000 * h8 as int + 0x40_0000_0000_0000_0000_0000_0000 * h9 as int
  {
    hide Pow2, Bytes16, ByteAt;
    JoinPowers();
    s19 := Straddle(h5 / 0x100_0000, h6, 1, 2, 128);
    s22 := Straddle(h6 / 0x80_0000, h7, 3, 8, 32);
    s25 := Straddle(h7 / 0x20_0000, h8, 4, 16, 16);
    s28 := Straddle(h8 / 0x10_0000, h9, 6, 64, 4);
    s16, s17, s18 := ByteAt(h5, 1), ByteAt(h5, 0x100), ByteAt(h5, 0x1_0000);
    s20, s21 := ByteAt(h6, 0x80), ByteAt(h6, 0x8000);
    s23, s24 := ByteAt(h7, 0x20), ByteAt(h7, 0x2000);
    s26, s27 := ByteAt(h8, 0x10), ByteAt(h8, 0x1000);
    s29, s30, s31 := ByteAt(h9, 4), ByteAt(h9, 0x400), ByteAt(h9, 0x4_0000);
    HighDigits(h5 as int, h6 as int, h7 as int, h8 as int, h9 as int);
  }

  method PutHigh(s: array<u8>, h5: u32, h6: u32, h7: u32, h8: u32, h9: u32)
    requires s.Length == 32
    requires h5 < 0x200_0000 && h6 < 0x400_0000 && h7 < 0x200_0000 && h8 < 0x400_0000 && h9 < 0x200_0000
    modifies s
    ensures s[..16] == old(s[..16])
    ensures LeVal(s[16..]) == h5 as int + 0x200_0000 * h6 as int + 0x8_0000_0000_0000 * h7 as int
            + 0x1000_0000_0000_0000_0000 * h8 as int + 0x40_0000_0000_0000_0000_0000_0000 * h9 as int
  {
    hide LeVal, Bytes16;
    var s16, s17, s18, s19, s20, s21, s22, s23,
        s24, s25, s26, s27, s28, s29, s30, s31 := HighBytes(h5, h6, h7, h8, h9);
    s[16], s[17], s[18], s[19] := s16, s17, s18, s19;
    s[20], s[21], s[22], s[23] := s20, s21, s22, s23;
    s[24], s[25], s[26], s[27] := s24, s25, s26, s27;
    s[28], s[29], s[30], s[31] := s28, s29, s30, s31;
    SixteenBytes(s[16..]);
  }

  /** The byte of a limb that starts at weight a. */
  function ByteAt(h: u32, a: u32): (r: u8)
    requires 0 < a
    ensures r as int == h as int / a as int % 256
  {
    QuotientRange(h as int, a as int);
    (h / a % 256) as u8
  }

  lemma QuotientRange(h: nat, a: nat)
    requires 0 < a
    ensures 0 <= h / a <= h
  {
    SameSign(a, h / a);
  }

  lemma SameSign(a: nat, q: int)
    requires 0 < a
    ensures if q >= 0 then a * q >= q else a * q <= 0 - a
  {
    if q >= 0 {
      assert (a - 1) * q >= 0;
    }
  }

  lemma HighDigits(h5: nat, h6: nat, h7: nat, h8: nat, h9: nat)
    requires h5 < 0x200_0000 && h6 < 0x400_0000 && h7 < 0x200_0000 && h8 < 0x400_0000 && h9 < 0x200_0000
    ensures Bytes16(h5 % 256, h5 / 0x100 % 256, h5 / 0x1_0000 % 256, h6 % 128 * 2 + h5 / 0x100_0000,
                    h6 / 0x80 % 256, h6 / 0x8000 % 256, h7 % 32 * 8 + h6 / 0x80_0000, h7 / 0x20 % 256,
                    h7 / 0x2000 % 256, h8 % 16 * 16 + h7 / 0x20_0000, h8 / 0x10 % 256, h8 / 0x1000 % 256,
                    h9 % 4 * 64 + h8 / 0x10_0000, h9 / 4 % 256, h9 / 0x400 % 256, h9 / 0x4_0000)
         == h5 + 0x200_0000 * h6 + 0x8_0000_0000_0000 * h7 + 0x1000_0000_0000_0000_0000 * h8
            + 0x40_0000_0000_0000_0000_0000_0000 * h9
  {
    Digits(h5, 0x100, 0x1_0000, 0x100_0000);
    Digits(h6, 0x80, 0x8000, 0x80_0000);
    Digits(h7, 0x20, 0x2000, 0x20_0000);
    Digits(h8, 0x10, 0x1000, 0x10_0000);
    Digits(h9, 4, 0x400, 0x4_0000);
    JoinHigh(h5, h5 % 0x100, h5 / 0x100 % 256, h5 / 0x1_0000 % 256, h5 / 0x100_0000,
            h6, h6 % 0x80, h6 / 0x80 % 256, h6 / 0x8000 % 256, h6 / 0x80_0000,
            h7, h7 % 0x20, h7 / 0x20 % 256, h7 / 0x2000 % 256, h7 / 0x20_0000,
            h8, h8 % 0x10, h8 / 0x10 % 256, h8 / 0x1000 % 256, h8 / 0x10_0000,
            h9, h9 % 4, h9 / 4 % 256, h9 / 0x400 % 256, h9 / 0x4_0000);
  }

  lemma Digits(h: nat, a: nat, b: nat, c: nat)
    requires a > 0 && b == a * 256 && c == b * 256
    ensures h == h % a + a * (h / a % 256) + b * (h / b % 256) + c * (h / c)
  {
    NextDigit(h, a);
    NextDigit(h, b);
    Nested(h, a, h % a, h / a % 256, h / b % 256, h / c);
  }

  lemma Nested(h: int, a: int, l: int, d: int, e: int, t: int)
    requires h == l + a * (d + 256 * (e + 256 * t))
    ensures h == l + a * d + a * 256 * e + a * 256 * 256 * t
  {
  }

  lemma JoinLow(h0: int, l0: int, d0: int, e0: int, t0: int, h1: int, l1: int, d1: int, e1: int, t1: int,
                    h2: int, l2: int, d2: int, e2: int, t2: int, h3: int, l3: int, d3: int, e3: int, t3: int,
                    h4: int, l4: int, d4: int, e4: int, t4: int)
    requires h0 == l0 + 0x100 * d0 + 0x1_0000 * e0 + 0x100_0000 * t0
    requires h1 == l1 + 0x40 * d1 + 0x4000 * e1 + 0x40_0000 * t1
    requires h2 == l2 + 0x20 * d2 + 0x2000 * e2 + 0x20_0000 * t2
    requires h3 == l3 + 8 * d3 + 0x800 * e3 + 0x8_0000 * t3
    requires h4 == l4 + 4 * d4 + 0x400 * e4 + 0x4_0000 * t4
    ensures Bytes16(l0, d0, e0, l1 * 4 + t0, d1, e1, l2 * 8 + t1, d2,
                    e2, l3 * 32 + t2, d3, e3, l4 * 64 + t3, d4, e4, t4)
         == h0 + 0x400_0000 * h1 + 0x8_0000_0000_0000 * h2 + 0x2000_0000_0000_0000_0000 * h3 + 0x40_0000_0000_0000_0000_0000_0000 * h4
  {
  }

  lemma JoinHigh(h5: int, l5: int, d5: int, e5: int, t5: int, h6: int, l6: int, d6: int, e6: int, t6: int,
                    h7: int, l7: int, d7: int, e7: int, t7: int, h8: int, l8: int, d8: int, e8: int, t8: int,
                    h9: int, l9: int, d9: int, e9: int, t9: int)
    requires h5 == l5 + 0x100 * d5 + 0x1_0000 * e5 + 0x100_0000 * t5
    requires h6 == l6 + 0x80 * d6 + 0x8000 * e6 + 0x80_0000 * t6
    requires h7 == l7 + 0x20 * d7 + 0x2000 * e7 + 0x20_0000 * t7
    requires h8 == l8 + 0x10 * d8 + 0x1000 * e8 + 0x10_0000 * t8
    requires h9 == l9 + 4 * d9 + 0x400 * e9 + 0x4_0000 * t9
    ensures Bytes16(l5, d5, e5, l6 * 2 + t5, d6, e6, l7 * 8 + t6, d7,
                    e7, l8 * 16 + t7, d8, e8, l9 * 64 + t8, d9, e9, t9)
         == h5 + 0x200_0000 * h6 + 0x8_0000_0000_0000 * h7 + 0x1000_0000_0000_0000_0000 * h8 + 0x40_0000_0000_0000_0000_0000_0000 * h9
  {
  }

  function Bytes16(b0: int, b1: int, b2: int, b3: int, b4: int, b5: int, b6: int, b7: int,
                   b8: int, b9: int, b10: int, b11: int, b12: int, b13: int, b14: int, b15: int): int
  {
    b0 + 0x100 * b1 + 0x1_0000 * b2 + 0x100_0000 * b3 + 0x1_0000_0000 * b4 + 0x100_0000_0000 * b5
    + 0x1_0000_0000_0000 * b6 + 0x100_0000_0000_0000 * b7
    + 0x1_0000_0000_0000_0000 * (b8 + 0x100 * b9 + 0x1_0000 * b10 + 0x100_0000 * b11 + 0x1_0000_0000 * b12
                                 + 0x100_0000_0000 * b13 + 0x1_0000_0000_0000 * b14 + 0x100_0000_0000_0000 * b15)
  }

  lemma SixteenBytes(b: seq<u8>)
    requires |b| == 16
    ensures LeVal(b) == Bytes16(b[0] as int, b[1] as int, b[2] as int, b[3] as int, b[4] as int, b[5] as int, b[6] as int,
                                b[7] as int, b[8] as int, b[9] as int, b[10] as int, b[11] as int, b[12] as int,
                                b[13] as int, b[14] as int, b[15] as int)
  {
    hide LeVal;
    LeValSplitFirst(b);
    EightBytes(b[..8]);
    EightBytes(b[8..]);
  }

  method FeToBytes(s: array<u8>, f: array<u32>)
    requires s.Length == 32 && TightArray(f)
    modifies s
    ensures LeVal(s[..]) == old(Elem(f))
  {
    hide Tight, LeVal, Pow2, Red;
    var h := new u32[10];
    FeFreeze(h, f);
    PutLow(s, h[0], h[1], h[2], h[3], h[4]);
    ghost var low := s[..16];
    PutHigh(s, h[5], h[6], h[7], h[8], h[9]);
    assert s[..] == s[..16] + s[16..];
    Pow2At128();
    LeValAppend(s[..16], s[16..]);
  }

  lemma Pow2At128()
    ensures Pow2(128) == 0x1_0000_0000_0000_0000_0000_0000_0000_0000
  {
    Pow2Values();
    Pow2Add(64, 64);
  }
}
