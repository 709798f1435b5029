/** Bytes to limbs and back in the 64-bit back end. */
module Format64 {
  import opened Words
  import opened Powers
  import opened Bits
  import opened LittleEndian
  import opened ByteWords
  import opened Field25519
  import opened Limbs51
  import opened Curve64

  const P0: u64 := 0x7_ffff_ffff_ffed
  const ONES51: u64 := 0x7_ffff_ffff_ffff

  /** x << 8k of a byte. */
  function ByteAt(x: u8, weight: nat): u64
    requires weight <= 0x100_0000_0000_0000
  {
    x as u64 * weight as u64
  }

  method GetLe64(p: array<u8>, off: nat) returns (v: u64)
    requires off + 8 <= p.Length
    ensures v as int == LeVal(p[off..off + 8])
  {
    Pow2Values();
    WeightValues();
    v := p[off] as u64;
    OrByte(v as int, p[off + 1], 8);
    v := Or64(v, ByteAt(p[off + 1], 0x100));
    OrByte(v as int, p[off + 2], 16);
    v := Or64(v, ByteAt(p[off + 2], 0x1_0000));
    OrByte(v as int, p[off + 3], 24);
    v := Or64(v, ByteAt(p[off + 3], 0x100_0000));
    OrByte(v as int, p[off + 4], 32);
    v := Or64(v, ByteAt(p[off + 4], 0x1_0000_0000));
    OrByte(v as int, p[off + 5], 40);
    v := Or64(v, ByteAt(p[off + 5], 0x100_0000_0000));
    OrByte(v as int, p[off + 6], 48);
    v := Or64(v, ByteAt(p[off + 6], 0x1_0000_0000_0000));
    OrByte(v as int, p[off + 7], 56);
    v := Or64(v, ByteAt(p[off + 7], 0x100_0000_0000_0000));
    EightBytes(p[off..off + 8]);
  }

  // ---- expand ----

  method Fexpand(output: array<u64>, input: array<u8>)
    requires output.Length == 5 && input.Length == 32
    modifies output
    ensures Below(View(output), TWO51)
    ensures Val(View(output)) == old(LeVal(input[..])) % (P + 19)
  {
    ghost var b := input[..];
    var i0 := GetLe64(input, 0);
    var i1 := GetLe64(input, 6);
    var i2 := GetLe64(input, 12);
    var i3 := GetLe64(input, 19);
    var i4 := GetLe64(input, 24);
    assert b[0..8] == input[0..8] && b[6..14] == input[6..14] && b[12..20] == input[12..20];
    assert b[19..27] == input[19..27] && b[24..32] == input[24..32];
    output[0] := i0 % 0x8_0000_0000_0000;
    output[1] := i1 / 8 % 0x8_0000_0000_0000;
    output[2] := i2 / 64 % 0x8_0000_0000_0000;
    output[3] := i3 / 2 % 0x8_0000_0000_0000;
    output[4] := i4 / 4096 % 0x8_0000_0000_0000;
    ExpandedDigits(b);
  }

  /** The five overlapping 64-bit reads, shifted and masked, are the digits of the whole number. */
  lemma ExpandedDigits(b: seq<u8>)
    requires |b| == 32
    ensures Val(L5(LeVal(b[0..8]) % TWO51, LeVal(b[6..14]) / 8 % TWO51, LeVal(b[12..20]) / 64 % TWO51,
                   LeVal(b[19..27]) / 2 % TWO51, LeVal(b[24..32]) / 4096 % TWO51)) == LeVal(b) % (P + 19)
  {
    hide LeVal, Val, Pow2;
    var n := LeVal(b);
    SliceOf(b, 0);
    SliceOf(b, 6);
    SliceOf(b, 12);
    SliceOf(b, 19);
    SliceOf(b, 24);
    OffsetValues();
    Window(n / Pow2(0), 1, 0x1_0000_0000_0000_0000 / TWO51);
    Window(n / Pow2(48), 8, 0x2000_0000_0000_0000 / TWO51);
    Window(n / Pow2(96), 64, 0x400_0000_0000_0000 / TWO51);
    Window(n / Pow2(152), 2, 0x8000_0000_0000_0000 / TWO51);
    Window(n / Pow2(192), 4096, 0x10_0000_0000_0000 / TWO51);
    DigitOffsets(n);
    LimbDigits(n);
  }

  lemma SliceOf(b: seq<u8>, off: nat)
    requires off + 8 <= |b|
    ensures LeVal(b[off..off + 8]) == LeVal(b) / Pow2(8 * off) % TWO64
  {
    Pow2Values();
    LeValSlice(b, off, 8);
  }

  lemma OffsetValues()
    ensures Pow2(0) == 1 && Pow2(48) == 0x1_0000_0000_0000 && Pow2(96) == 0x1_0000_0000_0000_0000_0000_0000
    ensures Pow2(152) == 0x100_0000_0000_0000_0000_0000_0000_0000_0000_0000
    ensures Pow2(192) == 0x1_0000_0000_0000_0000_0000_0000_0000_0000_0000_0000_0000_0000
  {
    WeightValues();
    Pow2Add(48, 48);
    Pow2Add(96, 56);
    Pow2Add(96, 96);
  }

  /** Shifting a 64-bit window of x down by s and keeping 51 bits gives the digit of x at s. */
  lemma Window(x: nat, s: nat, k: nat)
    requires s > 0 && s * (k * TWO51) == TWO64
    ensures x % TWO64 / s % TWO51 == x / s % TWO51
  {
    var q, r := x / TWO64, x % TWO64;
    var m := q * k;
    Regroup3(q, s, k);
    DivUnique(x, s, m * TWO51 + r / s, r % s);
  }

  lemma Regroup3(q: int, s: int, k: int)
    ensures q * (s * (k * TWO51)) == (q * k * TWO51) * s
  {
  }

  lemma DigitOffsets(n: nat)
    ensures n / Pow2(48) / 8 == n / Pow2(51) && n / Pow2(96) / 64 == n / Pow2(51) / Pow2(51)
    ensures n / Pow2(152) / 2 == n / Pow2(51) / Pow2(51) / Pow2(51)
    ensures n / Pow2(192) / 4096 == n / Pow2(51) / Pow2(51) / Pow2(51) / Pow2(51)
    ensures Pow2(51) == TWO51
  {
    var b := Pow2(51);
    OffsetValues();
    Pow2Add(48, 3);
    assert Pow2(3) == 8 && Pow2(6) == 64 && Pow2(12) == 4096 by { Pow2Add(3, 3); Pow2Add(6, 6); }
    Pow2Add(51, 51);
    Pow2Add(102, 51);
    Pow2Add(153, 51);
    DivDiv(n, Pow2(48), 8);
    DivDiv(n, Pow2(96), 64);
    DivDiv(n, Pow2(152), 2);
    DivDiv(n, Pow2(192), 4096);
    DivDiv(n, b, b);
    DivDiv(n, b * b, b);
    DivDiv(n, b * b * b, b);
  }

  /** Five digits in base 2^51. */
  lemma LimbDigits(n: nat)
    ensures var n1 := n / TWO51; var n2 := n1 / TWO51; var n3 := n2 / TWO51; var n4 := n3 / TWO51;
            Val(L5(n % TWO51, n1 % TWO51, n2 % TWO51, n3 % TWO51, n4 % TWO51)) == n % (P + 19)
  {
    var n1 := n / TWO51;
    var n2 := n1 / TWO51;
    var n3 := n2 / TWO51;
    var n4 := n3 / TWO51;
    var v := Val(L5(n % TWO51, n1 % TWO51, n2 % TWO51, n3 % TWO51, n4 % TWO51));
    assert n == n4 / TWO51 * (P + 19) + v;
    DivUnique(n, P + 19, n4 / TWO51, v);
  }

  // ---- contract ----

  method CarryPass(input: array<u64>)
    requires input.Length == 5 && Below(View(input), 0x8000_0000_0000_0000)
    modifies input
    ensures View(input) == old(CarryChain(View(input)))
  {
    var t0, t1, t2, t3, t4 := input[0], input[1], input[2], input[3], input[4];
    var t1' := t1 + t0 / 0x8_0000_0000_0000;
    var t0' := t0 % 0x8_0000_0000_0000;
    var t2' := t2 + t1' / 0x8_0000_0000_0000;
    var t1'' := t1' % 0x8_0000_0000_0000;
    var t3' := t3 + t2' / 0x8_0000_0000_0000;
    var t2'' := t2' % 0x8_0000_0000_0000;
    var t4' := t4 + t3' / 0x8_0000_0000_0000;
    var t3'' := t3' % 0x8_0000_0000_0000;
    input[0] := t0';
    input[1] := t1'';
    input[2] := t2'';
    input[3] := t3'';
    input[4] := t4';
  }

  method ModuloCarryTop(b: array<u64>)
    requires b.Length == 5 && View(b).a0 < TWO51
    modifies b
    ensures View(b) == old(FoldTop(View(b)))
  {
    var b4 := b[4];
    var b0 := b[0];
    var b4' := b4 % 0x8_0000_0000_0000;
    var b0' := b0 + 19 * (b4 / 0x8_0000_0000_0000);
    b[4] := b4';
    b[0] := b0';
  }

  /** One full pass leaves every limb below 2^51 except the lowest, which exceeds it by less than 2^18. */
  lemma FirstPass(t: L5)
    requires Below(t, 0x8000_0000_0000_0000)
    ensures var u := CarryChain(t); Below(u, 0x8000_0000_0000_0000 + 0x2000) && u.a0 < TWO51
    ensures var u := FoldTop(CarryChain(t)); Below(u, TWO51 + 0x4_0000) && Below(u.(a0 := 0), TWO51)
    ensures Red(Val(FoldTop(CarryChain(t)))) == Red(Val(t))
  {
    CarryChainValue(t);
    FoldTopValue(CarryChain(t));
  }

  /** A second pass and the final carry leave every limb below 2^51: a carry out of the top can only come with
      nothing but a small low limb. */
  lemma SecondPass(t: L5)
    requires Below(t, TWO51 + 0x4_0000) && Below(t.(a0 := 0), TWO51)
    ensures var u := FoldTop(CarryChain(t)); Below(u, TWO51 + 19)
    ensures Below(CarryAt0(FoldTop(CarryChain(t))), TWO51)
  {
    ChainBounds(t);
    if CarryChain(t).a4 >= TWO51 {
      TopCarryMeansSmall(t);
    }
    FoldBounds(CarryChain(t));
  }

  lemma ChainBounds(t: L5)
    requires Below(t, TWO51 + 0x4_0000) && Below(t.(a0 := 0), TWO51)
    ensures var c := CarryChain(t); Below(c.(a4 := 0), TWO51) && 0 <= c.a4 <= TWO51
  {
  }

  lemma FoldBounds(c: L5)
    requires Below(c.(a4 := 0), TWO51) && 0 <= c.a4 <= TWO51
    requires c.a4 == TWO51 ==> c.a0 < 0x4_0000 && c.a1 == 0
    ensures var u := FoldTop(c); Below(u, TWO51 + 19) && Below(CarryAt0(u), TWO51)
  {
  }

  lemma SecondPassValue(t: L5)
    ensures Red(Val(CarryAt0(FoldTop(CarryChain(t))))) == Red(Val(t))
  {
    CarryChainValue(t);
    FoldTopValue(CarryChain(t));
    LowCarryValue(FoldTop(CarryChain(t)));
  }

  lemma LowCarryValue(u: L5)
    ensures Val(CarryAt0(u)) == Val(u)
  {
  }

  lemma TopCarryMeansSmall(t: L5)
    requires Below(t, TWO51 + 0x4_0000) && Below(t.(a0 := 0), TWO51) && CarryChain(t).a4 >= TWO51
    ensures CarryChain(t).a0 < 0x4_0000 && CarryChain(t).a1 == 0
  {
  }

  method CarryFull(input: array<u64>)
    requires input.Length == 5 && Below(View(input), 0x8000_0000_0000_0000)
    modifies input
    ensures View(input) == old(FoldTop(CarryChain(View(input))))
  {
    FirstPass(View(input));
    CarryPass(input);
    ModuloCarryTop(input);
  }

  method SecondCarryFull(input: array<u64>)
    requires input.Length == 5 && Below(View(input), TWO51 + 0x4_0000) && Below(View(input).(a0 := 0), TWO51)
    modifies input
    ensures Below(View(input), TWO51)
    ensures Elem(input) == old(Elem(input))
  {
    ghost var t := View(input);
    SecondPass(t);
    SecondPassValue(t);
    CarryPass(input);
    ModuloCarryTop(input);
    var i0 := input[0];
    var i1 := input[1];
    var i0' := i0 % 0x8_0000_0000_0000;
    var i1' := i1 + i0 / 0x8_0000_0000_0000;
    input[0] := i0';
    input[1] := i1';
    assert View(input) == CarryAt0(FoldTop(CarryChain(t)));
  }

  /** Subtracts the modulus once, without branching, when the value has reached it. */
  method Trim(input: array<u64>)
    requires input.Length == 5 && Below(View(input), TWO51)
    modifies input
    ensures Below(View(input), TWO51)
    ensures Val(View(input)) == old(Elem(input))
  {
    ghost var t := View(input);
    var a0, a1, a2, a3, a4 := input[0], input[1], input[2], input[3], input[4];
    var mask0 := GteMask(a0, P0);
    var mask1 := EqMask(a1, ONES51);
    var mask2 := EqMask(a2, ONES51);
    var mask3 := EqMask(a3, ONES51);
    var mask4 := EqMask(a4, ONES51);
    var mask := CombineMasks(mask0, mask1, mask2, mask3, mask4, a0, a1, a2, a3, a4);
    MaskSelects(mask, P0);
    MaskSelects(mask, ONES51);
    input[0] := a0 - And64(P0, mask);
    input[1] := a1 - And64(ONES51, mask);
    input[2] := a2 - And64(ONES51, mask);
    input[3] := a3 - And64(ONES51, mask);
    input[4] := a4 - And64(ONES51, mask);
    TrimmedValue(t);
  }

  predicate ReachesModulus(t: L5) {
    t.a0 >= P0 as int && t.a1 == ONES51 as int && t.a2 == ONES51 as int && t.a3 == ONES51 as int && t.a4 == ONES51 as int
  }

  method CombineMasks(mask0: u64, mask1: u64, mask2: u64, mask3: u64, mask4: u64,
                      a0: u64, a1: u64, a2: u64, a3: u64, a4: u64) returns (mask: u64)
    requires mask0 == GteMask(a0, P0) && mask1 == EqMask(a1, ONES51) && mask2 == EqMask(a2, ONES51)
    requires mask3 == EqMask(a3, ONES51) && mask4 == EqMask(a4, ONES51)
    ensures mask == if ReachesModulus(L5(a0 as int, a1 as int, a2 as int, a3 as int, a4 as int)) then 0xffff_ffff_ffff_ffff else 0
  {
    hide GteMask, EqMask, And64;
    GteMaskCorrect(a0, P0);
    EqMaskCorrect(a1, ONES51);
    EqMaskCorrect(a2, ONES51);
    EqMaskCorrect(a3, ONES51);
    EqMaskCorrect(a4, ONES51);
    MaskSelects(mask0, mask1);
    mask := And64(mask0, mask1);
    MaskSelects(mask, mask2);
    mask := And64(mask, mask2);
    MaskSelects(mask, mask3);
    mask := And64(mask, mask3);
    MaskSelects(mask, mask4);
    mask := And64(mask, mask4);
  }

  lemma TrimmedValue(t: L5)
    requires Below(t, TWO51)
    ensures ReachesModulus(t) ==> Val(t) - P == Red(Val(t))
    ensures !ReachesModulus(t) ==> Val(t) == Red(Val(t))
  {
    assert ReachesModulus(t) <==> Val(t) >= P;
    assert 0 <= Val(t) < 2 * P;
    if Val(t) >= P {
      DivUnique(Val(t), P, 1, Val(t) - P);
    } else {
      DivUnique(Val(t), P, 0, Val(t));
    }
  }

  lemma ShlDropsHigh(x: nat, p: nat, q: nat)
    requires p > 0 && q > 0 && p * q == TWO64
    ensures x * p % TWO64 == (x % q) * p
  {
    var h, l := x / q, x % q;
    assert x * p == h * TWO64 + l * p by { Regroup(h, l, p, q); }
    assert l * p <= (q - 1) * p == TWO64 - p;
    DivUnique(x * p, TWO64, h, l * p);
  }

  lemma ShlOr(hi: u64, lo: u64, n: nat)
    requires n <= 64 && lo as int < Pow2(n)
    ensures Or64(Shl64(hi, n), lo) as int == (hi as int % Pow2(64 - n)) * Pow2(n) + lo as int
  {
    hide Or;
    Pow2Values();
    Pow2Add(n, 64 - n);
    ShlDropsHigh(hi as int, Pow2(n), Pow2(64 - n));
    OrDisjoint(hi as int % Pow2(64 - n), lo as int, n);
  }

  lemma StorePowers()
    ensures Pow2(51) == TWO51 && Pow2(13) == 0x2000 && Pow2(38) == 0x40_0000_0000 && Pow2(26) == 0x400_0000
    ensures Pow2(25) == 0x200_0000 && Pow2(39) == 0x80_0000_0000 && Pow2(12) == 0x1000 && Pow2(52) == 0x10_0000_0000_0000
  {
    assert Pow2(12) == 4096 && Pow2(13) == 8192;
    Pow2Add(12, 13);
    Pow2Add(13, 13);
    Pow2Add(13, 26);
    Pow2Add(12, 26);
    Pow2Add(13, 38);
    Pow2Add(26, 26);
  }

  method PutLe64(v: u64, p: array<u8>, off: nat)
    requires off + 8 <= p.Length
    modifies p
    ensures LeVal(p[off..off + 8]) == v as int
    ensures p[..off] == old(p[..off]) && p[off + 8..] == old(p[off + 8..])
  {
    p[off] := (v % 256) as u8;
    p[off + 1] := (v / 0x100 % 256) as u8;
    p[off + 2] := (v / 0x1_0000 % 256) as u8;
    p[off + 3] := (v / 0x100_0000 % 256) as u8;
    p[off + 4] := (v / 0x1_0000_0000 % 256) as u8;
    p[off + 5] := (v / 0x100_0000_0000 % 256) as u8;
    p[off + 6] := (v / 0x1_0000_0000_0000 % 256) as u8;
    p[off + 7] := (v / 0x100_0000_0000_0000 % 256) as u8;
    EightBytes(p[off..off + 8]);
    EightDigits(v as int);
  }

  lemma EightDigits(v: nat)
    requires v < TWO64
    ensures v == v % 256 + 0x100 * (v / 0x100 % 256) + 0x1_0000 * (v / 0x1_0000 % 256) + 0x100_0000 * (v / 0x100_0000 % 256)
               + 0x1_0000_0000 * (v / 0x1_0000_0000 % 256) + 0x100_0000_0000 * (v / 0x100_0000_0000 % 256)
               + 0x1_0000_0000_0000 * (v / 0x1_0000_0000_0000 % 256) + 0x100_0000_0000_0000 * (v / 0x100_0000_0000_0000 % 256)
  {
    NextDigit(v, 1);
    NextDigit(v, 0x100);
    NextDigit(v, 0x1_0000);
    NextDigit(v, 0x100_0000);
    NextDigit(v, 0x1_0000_0000);
    NextDigit(v, 0x100_0000_0000);
    NextDigit(v, 0x1_0000_0000_0000);
    Unnested(v, v % 256, v / 0x100, v / 0x100 % 256, v / 0x1_0000, v / 0x1_0000 % 256, v / 0x100_0000, v / 0x100_0000 % 256,
             v / 0x1_0000_0000, v / 0x1_0000_0000 % 256, v / 0x100_0000_0000, v / 0x100_0000_0000 % 256,
             v / 0x1_0000_0000_0000, v / 0x1_0000_0000_0000 % 256, v / 0x100_0000_0000_0000);
  }

  lemma Unnested(v: int, d0: int, q1: int, d1: int, q2: int, d2: int, q3: int, d3: int, q4: int, d4: int, q5: int, d5: int,
                 q6: int, d6: int, q7: int)
    requires v == d0 + 0x100 * q1 && q1 == d1 + 0x100 * q2 && q2 == d2 + 0x100 * q3 && q3 == d3 + 0x100 * q4
    requires q4 == d4 + 0x100 * q5 && q5 == d5 + 0x100 * q6 && q6 == d6 + 0x100 * q7
    ensures v == d0 + 0x100 * d1 + 0x1_0000 * d2 + 0x100_0000 * d3 + 0x1_0000_0000 * d4 + 0x100_0000_0000 * d5
               + 0x1_0000_0000_0000 * d6 + 0x100_0000_0000_0000 * q7
  {
  }

  /** The four words written are the value of the limbs. */
  method Store(output: array<u8>, input: array<u64>)
    requires output.Length == 32 && input.Length == 5 && Below(View(input), TWO51)
    modifies output
    ensures LeVal(output[..]) == Val(View(input))
  {
    var t0, t1, t2, t3, t4 := input[0], input[1], input[2], input[3], input[4];
    StorePowers();
    ShlOr(t1, t0, 51);
    ShlOr(t2, t1 / 0x2000, 38);
    ShlOr(t3, t2 / 0x400_0000, 25);
    ShlOr(t4, t3 / 0x80_0000_0000, 12);
    var o0 := Or64(Shl64(t1, 51), t0);
    var o1 := Or64(Shl64(t2, 38), t1 / 0x2000);
    var o2 := Or64(Shl64(t3, 25), t2 / 0x400_0000);
    var o3 := Or64(Shl64(t4, 12), t3 / 0x80_0000_0000);
    FourWords(View(input), o0 as int, o1 as int, o2 as int, o3 as int);
    PutFourWords(output, o0, o1, o2, o3);
  }

  lemma FourWords(t: L5, o0: int, o1: int, o2: int, o3: int)
    requires Below(t, TWO51)
    requires o0 == (t.a1 % 0x2000) * TWO51 + t.a0
    requires o1 == (t.a2 % 0x400_0000) * 0x40_0000_0000 + t.a1 / 0x2000
    requires o2 == (t.a3 % 0x80_0000_0000) * 0x200_0000 + t.a2 / 0x400_0000
    requires o3 == (t.a4 % 0x10_0000_0000_0000) * 0x1000 + t.a3 / 0x80_0000_0000
    ensures Val(t) == o0 + TWO64 * o1 + TWO64 * TWO64 * o2 + TWO64 * TWO64 * TWO64 * o3
  {
  }

  method PutFourWords(output: array<u8>, o0: u64, o1: u64, o2: u64, o3: u64)
    requires output.Length == 32
    modifies output
    ensures LeVal(output[..]) == o0 as int + TWO64 * o1 as int + TWO64 * TWO64 * o2 as int + TWO64 * TWO64 * TWO64 * o3 as int
  {
    PutLe64(o0, output, 0);
    ghost var w0 := output[0..8];
    assert w0 == output[..8];
    PutLe64(o1, output, 8);
    ghost var w1 := output[8..16];
    assert output[..16] == w0 + w1;
    PutLe64(o2, output, 16);
    ghost var w2 := output[16..24];
    assert output[..24] == w0 + w1 + w2;
    PutLe64(o3, output, 24);
    ghost var w3 := output[24..32];
    assert output[..] == w0 + w1 + w2 + w3;
    ghost var b := output[..];
    assert b[0..8] == w0 && b[8..16] == w1 && b[16..24] == w2 && b[24..32] == w3;
    ValueOfWords(b);
  }

  /** Writes the one little-endian encoding of the element that lies below the modulus. */
  method Fcontract(output: array<u8>, input: array<u64>)
    requires output.Length == 32 && input.Length == 5 && Below(View(input), 0x8000_0000_0000_0000)
    modifies output, input
    ensures LeVal(output[..]) == old(Elem(input))
  {
    FirstPass(View(input));
    CarryFull(input);
    SecondCarryFull(input);
    Trim(input);
    Store(output, input);
  }

  /** Contracting what was expanded gives back the bytes exactly when they were the canonical encoding. */
  lemma ExpandThenContract(b: seq<u8>, t: L5, c: seq<u8>)
    requires |b| == 32 && |c| == 32
    requires Val(t) == LeVal(b) % (P + 19)
    requires LeVal(c) == Red(Val(t))
    ensures c == b <==> LeVal(b) < P
  {
    RedRange(Val(t));
    if LeVal(b) < P {
      LeValInjective(b, c);
    }
  }
}
