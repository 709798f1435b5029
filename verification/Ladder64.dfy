/** The 64-bit ladder: additions without carries, the masked swap, one double-and-add, and the byte and bit
    loops that alternate between two pairs of points. */
module Ladder64 {
  import opened Words
  import opened Powers
  import opened Bits
  import opened Exponents
  import opened Field25519
  import opened X25519
  import opened Limbs51
  import opened Curve64

  /** One u64[10] of the C code: the limbs of X, then those of Z. */
  datatype Point = Point(x: array<u64>, z: array<u64>)

  method Fsum(a: array<u64>, b: array<u64>)
    requires a.Length == 5 && b.Length == 5 && a != b
    requires Below(View(a), 0x10_0000_0000_4000) && Below(View(b), 0x10_0000_0000_4000)
    modifies a
    ensures Below(View(a), 0x20_0000_0000_8000)
    ensures Elem(a) == old(FAdd(Elem(a), Elem(b)))
  {
    ghost var x, y := View(a), View(b);
    a[0] := a[0] + b[0];
    a[1] := a[1] + b[1];
    a[2] := a[2] + b[2];
    a[3] := a[3] + b[3];
    a[4] := a[4] + b[4];
    assert View(a) == Plus(x, y);
    PlusElem(x, y);
  }

  lemma PlusElem(x: L5, y: L5)
    ensures Red(Val(Plus(x, y))) == FAdd(Red(Val(x)), Red(Val(y)))
  {
    RedAdd(Val(x), Val(y));
  }

  /** Replaces a by b - a. A multiple of the modulus is added first so that no limb goes negative. */
  method Fdifference(a: array<u64>, b: array<u64>)
    requires TightArray(a) && TightArray(b) && a != b
    modifies a
    ensures LooseArray(a)
    ensures Elem(a) == old(FSub(Elem(b), Elem(a)))
  {
    ghost var x, y := View(a), View(b);
    var tmp := new u64[] [b[0], b[1], b[2], b[3], b[4]];
    tmp[0] := tmp[0] + 0x3f_ffff_ffff_ff68;
    tmp[1] := tmp[1] + 0x3f_ffff_ffff_fff8;
    tmp[2] := tmp[2] + 0x3f_ffff_ffff_fff8;
    tmp[3] := tmp[3] + 0x3f_ffff_ffff_fff8;
    tmp[4] := tmp[4] + 0x3f_ffff_ffff_fff8;
    a[0] := tmp[0] - a[0];
    a[1] := tmp[1] - a[1];
    a[2] := tmp[2] - a[2];
    a[3] := tmp[3] - a[3];
    a[4] := tmp[4] - a[4];
    assert View(a) == Difference(x, y);
    DifferenceElem(x, y);
  }

  function Difference(x: L5, y: L5): L5 {
    L5(y.a0 + 0x3f_ffff_ffff_ff68 - x.a0, y.a1 + 0x3f_ffff_ffff_fff8 - x.a1, y.a2 + 0x3f_ffff_ffff_fff8 - x.a2,
       y.a3 + 0x3f_ffff_ffff_fff8 - x.a3, y.a4 + 0x3f_ffff_ffff_fff8 - x.a4)
  }

  lemma DifferenceElem(x: L5, y: L5)
    ensures Red(Val(Difference(x, y))) == FSub(Red(Val(y)), Red(Val(x)))
  {
    RedSub(Val(y), Val(x));
    RedUnique(Val(Difference(x, y)), Val(y) - Val(x), 8);
  }

  lemma ScaleBound(x: L5, s: int)
    requires Loose(x) && 0 <= s < 0x2_0000
    ensures Below(Scale(x, s), 0x100_0000_0000_0000_0000)
  {
    ProductBound(x.a0, s, LOOSE - 1, 0x1_ffff);
    ProductBound(x.a1, s, LOOSE - 1, 0x1_ffff);
    ProductBound(x.a2, s, LOOSE - 1, 0x1_ffff);
    ProductBound(x.a3, s, LOOSE - 1, 0x1_ffff);
    ProductBound(x.a4, s, LOOSE - 1, 0x1_ffff);
  }

  method Fscalar(output: array<u64>, b: array<u64>, s: u64)
    requires LooseArray(b) && output.Length == 5 && s < 0x2_0000
    modifies output
    ensures Below(View(output), 0x10_0000_0000_0000)
    ensures Elem(output) == old(FMul(s as int, Elem(b)))
  {
    hide Val, Red, Times;
    ghost var x := View(b);
    ScaleBound(x, s as int);
    var tmp := new u128[] [Mul(b[0], s), Mul(b[1], s), Mul(b[2], s), Mul(b[3], s), Mul(b[4], s)];
    assert Wide(tmp) == Scale(x, s as int);
    CarryWide(tmp);
    ScaledBound(Scale(x, s as int));
    FoldAndCopy(output, tmp);
    FoldedElem(Scale(x, s as int));
    ScaleValue(x, s as int);
    MulReduceRight(s as int, Val(x));
    TimesIs(s as int, Val(x));
  }

  lemma FoldedElem(t: L5)
    ensures Red(Val(FoldTop(CarryChain(t)))) == Red(Val(t))
  {
    CarryChainValue(t);
    FoldTopValue(CarryChain(t));
  }

  lemma ScaledBound(t: L5)
    requires Below(t, 0x100_0000_0000_0000_0000)
    ensures CarryChain(t).a4 < 0x101_0000_0000_0000_0000
    ensures Below(FoldTop(CarryChain(t)), 0x10_0000_0000_0000)
  {
  }

  // ---- the masked swap ----

  method SwapConditionalStep(a: array<u64>, b: array<u64>, swap1: u64, ctr: u32)
    requires a.Length == 5 && b.Length == 5 && a != b && 1 <= ctr <= 5
    requires swap1 == 0 || swap1 == 0xffff_ffff_ffff_ffff
    modifies a, b
    ensures a[..] == if swap1 == 0 then old(a[..]) else old(a[..][(ctr - 1) as int := b[(ctr - 1) as int]])
    ensures b[..] == if swap1 == 0 then old(b[..]) else old(b[..][(ctr - 1) as int := a[(ctr - 1) as int]])
  {
    var i := ctr - 1;
    var ai := a[i];
    var bi := b[i];
    var x := And64(swap1, Xor64(ai, bi));
    MaskSelects(swap1, Xor64(ai, bi));
    XorCancels(ai as int, bi as int);
    XorCancels(bi as int, ai as int);
    XorCommutes(ai as int, bi as int);
    XorZero(ai as int);
    XorZero(bi as int);
    var ai1 := Xor64(ai, x);
    var bi1 := Xor64(bi, x);
    a[i] := ai1;
    b[i] := bi1;
  }

  method SwapConditional5(a: array<u64>, b: array<u64>, swap1: u64)
    requires a.Length == 5 && b.Length == 5 && a != b
    requires swap1 == 0 || swap1 == 0xffff_ffff_ffff_ffff
    modifies a, b
    ensures a[..] == old(if swap1 == 0 then a[..] else b[..])
    ensures b[..] == old(if swap1 == 0 then b[..] else a[..])
  {
    SwapConditionalStep(a, b, swap1, 5);
    SwapConditionalStep(a, b, swap1, 4);
    SwapConditionalStep(a, b, swap1, 3);
    SwapConditionalStep(a, b, swap1, 2);
    SwapConditionalStep(a, b, swap1, 1);
  }

  // ---- points ----

  predicate Off(p: Point, a: array<u64>) { p.x != p.z && p.x != a && p.z != a }

  predicate Apart(p: Point, q: Point) {
    p.x != q.x && p.x != q.z && p.z != q.x && p.z != q.z
  }

  /** The four working points and the base point occupy different memory. */
  predicate Separate(nq: Point, nqpq: Point, nq2: Point, nqpq2: Point, q: array<u64>) {
    && Off(nq, q) && Off(nqpq, q) && Off(nq2, q) && Off(nqpq2, q)
    && Apart(nq, nqpq) && Apart(nq, nq2) && Apart(nq, nqpq2)
    && Apart(nqpq, nq2) && Apart(nqpq, nqpq2) && Apart(nq2, nqpq2)
  }

  predicate Sized(p: Point) {
    p.x.Length == 5 && p.z.Length == 5
  }

  predicate TightPoint(p: Point)
    reads p.x, p.z
  {
    TightArray(p.x) && TightArray(p.z)
  }

  /** The ladder state two points stand for. */
  function State(nq: Point, nqpq: Point): Ladder
    requires Sized(nq) && Sized(nqpq)
    reads nq.x, nq.z, nqpq.x, nqpq.z
  {
    Ladder(Elem(nq.x), Elem(nq.z), Elem(nqpq.x), Elem(nqpq.z))
  }

  method PointSwapConditional(a: Point, b: Point, iswap: u64)
    requires Sized(a) && Sized(b) && a.x != a.z && b.x != b.z && Apart(a, b) && iswap <= 1
    modifies a.x, a.z, b.x, b.z
    ensures State(a, b) == old(CSwap(iswap == 1, State(a, b)))
    ensures old(TightPoint(a) && TightPoint(b)) ==> TightPoint(a) && TightPoint(b)
  {
    var swap1 := Neg64(iswap);
    SwapConditional5(a.x, b.x, swap1);
    SwapConditional5(a.z, b.z, swap1);
  }

  method CopyElem(dst: array<u64>, src: array<u64>)
    requires dst.Length == 5 && src.Length == 5
    modifies dst
    ensures View(dst) == old(View(src))
  {
    dst[0], dst[1], dst[2], dst[3], dst[4] := src[0], src[1], src[2], src[3], src[4];
  }

  /** Replaces (x, z) by (x + z, x - z), with a copy of x in orig. */
  method SumAndDifference(p: Point, orig: array<u64>)
    requires TightPoint(p) && Off(p, orig) && orig.Length == 5
    modifies p.x, p.z, orig
    ensures LooseArray(p.x) && LooseArray(p.z)
    ensures Elem(p.x) == old(FAdd(Elem(p.x), Elem(p.z))) && Elem(p.z) == old(FSub(Elem(p.x), Elem(p.z)))
  {
    CopyElem(orig, p.x);
    Fsum(p.x, p.z);
    Fdifference(p.z, orig);
  }

  /** One double-and-add: pp receives the doubled point, ppq the sum; p and pq are used as scratch space. */
  method AddAndDouble(pp: Point, ppq: Point, p: Point, pq: Point, qx: array<u64>)
    requires Separate(p, pq, pp, ppq, qx) && Sized(pp) && Sized(ppq)
    requires TightPoint(p) && TightPoint(pq) && TightArray(qx)
    modifies pp.x, pp.z, ppq.x, ppq.z, p.x, p.z, pq.x, pq.z
    ensures TightPoint(pp) && TightPoint(ppq)
    ensures State(pp, ppq) == old(Step(Elem(qx), State(p, pq)))
  {
    ghost var s := State(p, pq);
    ghost var x1 := Elem(qx);
    var origx := new u64[5];
    var origxprime := new u64[5];
    var xxprime := new u64[5];
    var zzprime := new u64[5];
    SumAndDifference(p, origx);
    SumAndDifference(pq, origxprime);
    Fmul(xxprime, pq.x, p.z);
    Fmul(zzprime, p.x, pq.z);
    MulCommutes(FSub(s.x3, s.z3), FAdd(s.x2, s.z2));
    AddSecondHalf(ppq, xxprime, zzprime, origxprime, qx);
    DoubleSecondHalf(pp, p);
  }

  /** The x3 and z3 outputs, from CB in xxprime and DA in zzprime. */
  method AddSecondHalf(ppq: Point, xxprime: array<u64>, zzprime: array<u64>, origxprime: array<u64>, qx: array<u64>)
    requires Off(ppq, qx) && Off(ppq, xxprime) && Off(ppq, zzprime) && Sized(ppq) && TightArray(qx)
    requires xxprime != zzprime && xxprime != origxprime && zzprime != origxprime && origxprime.Length == 5
    requires qx != xxprime && qx != zzprime && qx != origxprime
    requires TightArray(xxprime) && TightArray(zzprime)
    modifies ppq.x, ppq.z, xxprime, zzprime, origxprime
    ensures TightPoint(ppq)
    ensures var CB, DA := old(Elem(xxprime)), old(Elem(zzprime));
            var sum, diff := FAdd(DA, CB), FSub(DA, CB);
            Elem(ppq.x) == FMul(sum, sum) && Elem(ppq.z) == FMul(Elem(qx), FMul(diff, diff))
  {
    ghost var CB, DA := Elem(xxprime), Elem(zzprime);
    var zzzprime := new u64[5];
    CopyElem(origxprime, xxprime);
    Fsum(xxprime, zzprime);
    Fdifference(zzprime, origxprime);
    FsquareTimes(ppq.x, xxprime, 1);
    FsquareTimes(zzzprime, zzprime, 1);
    Fmul(ppq.z, zzzprime, qx);
    SquareOfOpposite(DA, CB);
    MulCommutes(FMul(FSub(DA, CB), FSub(DA, CB)), Elem(qx));
    assert FAdd(CB, DA) == FAdd(DA, CB);
    PowTwo(FAdd(CB, DA));
    PowTwo(FSub(CB, DA));
  }

  /** The x2 and z2 outputs, from A in p.x and B in p.z. */
  method DoubleSecondHalf(pp: Point, p: Point)
    requires pp.x != pp.z && p.x != p.z && Apart(pp, p) && Sized(pp) && LooseArray(p.x) && LooseArray(p.z)
    modifies pp.x, pp.z
    ensures TightPoint(pp)
    ensures var A, B := Elem(p.x), Elem(p.z);
            var AA, BB := FMul(A, A), FMul(B, B);
            var E := FSub(AA, BB);
            Elem(pp.x) == FMul(AA, BB) && Elem(pp.z) == FMul(E, FAdd(AA, FMul(A24, E)))
  {
    ghost var A, B := Elem(p.x), Elem(p.z);
    var xx := new u64[5];
    var zz := new u64[5];
    var zzz := new u64[5];
    FsquareTimes(xx, p.x, 1);
    FsquareTimes(zz, p.z, 1);
    PowTwo(A);
    PowTwo(B);
    Fmul(pp.x, xx, zz);
    Fdifference(zz, xx);
    var scalar: u64 := 121665;
    Fscalar(zzz, zz, scalar);
    ghost var AA := Elem(xx);
    ghost var E := Elem(zz);
    Fsum(zzz, xx);
    assert Elem(zzz) == FAdd(FMul(A24, E), AA) == FAdd(AA, FMul(A24, E));
    Fmul(pp.z, zzz, zz);
    MulCommutes(FAdd(AA, FMul(A24, E)), E);
  }

  lemma SquareOfOpposite(a: int, b: int)
    ensures FMul(FSub(a, b), FSub(a, b)) == FMul(FSub(b, a), FSub(b, a))
  {
    RedMul(a - b, a - b);
    RedMul(b - a, b - a);
    TimesIs(a - b, a - b);
    TimesIs(b - a, b - a);
    assert (a - b) * (a - b) == (b - a) * (b - a);
  }

  // ---- the loops ----

  /** The C shift `byt << n` of a byte. */
  function ShlByte(b: u8, n: nat): u8 {
    (b as int * Pow2(n) % 0x100) as u8
  }

  /** Adding an even multiple of d leaves the bit at d alone. */
  lemma BitIgnoresHigher(y: nat, m: nat, d: nat)
    requires d > 0 && m % 2 == 0
    ensures (m * d + y) / d % 2 == y / d % 2
  {
    DivUnique(m * d + y, d, m + y / d, y % d);
  }

  lemma ShlOnce(b: u8)
    ensures ShlByte(b, 1) as int == 2 * (b as int % 128) && b as int == b as int % 128 + (if b >= 128 then 128 else 0)
  {
    assert Pow2(1) == 2;
  }

  /** A left shift by one moves each bit that stays inside the byte. */
  lemma ShlByteBit(b: u8, k: nat)
    requires 1 <= k < 8
    ensures ByteBit(ShlByte(b, 1), k) == ByteBit(b, k - 1)
  {
    var y, d := b as int % 128, Pow2(k - 1);
    ShlOnce(b);
    hide ShlByte, Pow2;
    DivDiv(2 * y, 2, d);
    ByteSplit(k);
    BitIgnoresHigher(y, if b >= 128 then Pow2(8 - k) else 0, d);
  }

  lemma ByteSplit(k: nat)
    requires 1 <= k < 8
    ensures Pow2(8 - k) * Pow2(k - 1) == 128 && Pow2(8 - k) % 2 == 0
    ensures 2 * Pow2(k - 1) == Pow2(k)
  {
    Pow2Add(8 - k, k - 1);
    assert Pow2(4) == 16;
    Pow2Add(3, 4);
  }

  lemma ShlTwice(b: u8)
    ensures ShlByte(b, 2) == ShlByte(ShlByte(b, 1), 1)
  {
    assert Pow2(1) == 2 && Pow2(2) == 4;
    hide Pow2;
    TwoShifts(b as int);
  }

  lemma TwoShifts(x: nat)
    ensures x * 4 % 0x100 == x * 2 % 0x100 * 2 % 0x100
  {
    var q, r := x * 2 / 0x100, x * 2 % 0x100;
    DivUnique(x * 4, 0x100, 2 * q + r * 2 / 0x100, r * 2 % 0x100);
  }

  lemma ShlByteBits(b: u8)
    ensures ByteBits(ShlByte(b, 1))[0] == ByteBits(b)[1]
    ensures ByteBits(ShlByte(b, 2))[..6] == ByteBits(b)[2..]
  {
    hide ByteBit, ShlByte;
    ShlByteBit(b, 7);
    ShlTwice(b);
    forall j: nat | j < 6
      ensures ByteBits(ShlByte(b, 2))[..6][j] == ByteBits(b)[2..][j]
    {
      ShlByteBit(ShlByte(b, 1), 7 - j);
      ShlByteBit(b, 6 - j);
    }
  }

  lemma TopByteBit(b: u8)
    ensures ByteBits(b)[0] == (b / 128 == 1)
  {
    assert Pow2(7) == 128 by {
      assert Pow2(4) == 16;
      Pow2Add(3, 4);
    }
  }

  method SmallLoopStep(nq: Point, nqpq: Point, nq2: Point, nqpq2: Point, q: array<u64>, byt: u8)
    requires Separate(nq, nqpq, nq2, nqpq2, q) && Sized(nq2) && Sized(nqpq2)
    requires TightPoint(nq) && TightPoint(nqpq) && TightArray(q)
    modifies nq.x, nq.z, nqpq.x, nqpq.z, nq2.x, nq2.z, nqpq2.x, nqpq2.z
    ensures TightPoint(nq2) && TightPoint(nqpq2)
    ensures State(nq2, nqpq2)
         == old(CSwap(ByteBits(byt)[0], Step(Elem(q), CSwap(ByteBits(byt)[0], State(nq, nqpq)))))
  {
    hide Step;
    TopByteBit(byt);
    var bit0 := (byt / 128) as u64;
    PointSwapConditional(nq, nqpq, bit0);
    AddAndDouble(nq2, nqpq2, nq, nqpq, q);
    var bit := (byt / 128) as u64;
    PointSwapConditional(nq2, nqpq2, bit);
  }

  method SmallLoopDoubleStep(nq: Point, nqpq: Point, nq2: Point, nqpq2: Point, q: array<u64>, byt: u8)
    requires Separate(nq, nqpq, nq2, nqpq2, q) && Sized(nq2) && Sized(nqpq2)
    requires TightPoint(nq) && TightPoint(nqpq) && TightArray(q)
    modifies nq.x, nq.z, nqpq.x, nqpq.z, nq2.x, nq2.z, nqpq2.x, nqpq2.z
    ensures TightPoint(nq) && TightPoint(nqpq)
    ensures State(nq, nqpq) == old(Run(Elem(q), State(nq, nqpq), ByteBits(byt)[..2]))
  {
    hide Step, ByteBits, ShlByte;
    ghost var s := State(nq, nqpq);
    ghost var bits := ByteBits(byt);
    SmallLoopStep(nq, nqpq, nq2, nqpq2, q, byt);
    var byt1 := ShlByte(byt, 1);
    ShlByteBits(byt);
    SmallLoopStep(nq2, nqpq2, nq, nqpq, q, byt1);
    assert bits[..2][..1] == bits[..1] && bits[..1][..0] == [];
    assert Run(Elem(q), s, bits[..1]) == CSwap(bits[0], Step(Elem(q), CSwap(bits[0], s)));
  }

  /** What is left of the byte after k bits have been shifted out. */
  predicate Remaining(byt: u8, byte: u8, k: nat, n: nat)
    requires k + n <= 8
  {
    forall j :: 0 <= j < n ==> ByteBits(byt)[j] == ByteBits(byte)[k + j]
  }

  lemma RemainingStep(byt: u8, byte: u8, k: nat, n: nat)
    requires k + n + 2 <= 8 && Remaining(byt, byte, k, n + 2)
    ensures ByteBits(byt)[..2] == ByteBits(byte)[k..k + 2]
    ensures Remaining(ShlByte(byt, 2), byte, k + 2, n)
  {
    hide ByteBits, ShlByte;
    var cur, all, next := ByteBits(byt), ByteBits(byte), ByteBits(ShlByte(byt, 2));
    assert cur[0] == all[k + 0] && cur[1] == all[k + 1];
    ShlByteBits(byt);
    forall j | 0 <= j < n
      ensures next[j] == all[k + 2 + j]
    {
      assert next[j] == next[..6][j] == cur[2..][j] == cur[j + 2];
    }
  }

  lemma RunTwoMore(x1: int, s: Ladder, all: seq<bool>, k: nat)
    requires k + 2 <= |all|
    ensures Run(x1, Run(x1, s, all[..k]), all[k..k + 2]) == Run(x1, s, all[..k + 2])
  {
    RunAppend(x1, s, all[..k], all[k..k + 2]);
    assert all[..k] + all[k..k + 2] == all[..k + 2];
  }

  method SmallLoop(nq: Point, nqpq: Point, nq2: Point, nqpq2: Point, q: array<u64>, byte: u8, count: u32)
    requires Separate(nq, nqpq, nq2, nqpq2, q) && Sized(nq2) && Sized(nqpq2) && count <= 4
    requires TightPoint(nq) && TightPoint(nqpq) && TightArray(q)
    modifies nq.x, nq.z, nqpq.x, nqpq.z, nq2.x, nq2.z, nqpq2.x, nqpq2.z
    ensures TightPoint(nq) && TightPoint(nqpq)
    ensures State(nq, nqpq) == old(Run(Elem(q), State(nq, nqpq), ByteBits(byte)[..2 * count as int]))
  {
    hide Run, ByteBits, ShlByte, Elem, View, Tight, Remaining;
    ghost var s := State(nq, nqpq);
    ghost var x1 := Elem(q);
    var i := count;
    var byt := byte;
    RunNothing(x1, s);
    RemainingAll(byte, 2 * count as int);
    assert ByteBits(byte)[..0] == [];
    while i != 0
      invariant i <= count
      invariant TightPoint(nq) && TightPoint(nqpq)
      invariant Remaining(byt, byte, 2 * (count - i) as int, 2 * i as int)
      invariant State(nq, nqpq) == Run(x1, s, ByteBits(byte)[..2 * (count - i) as int])
      decreases i
    {
      ghost var k := 2 * (count - i) as int;
      i := i - 1;
      SmallLoopDoubleStep(nq, nqpq, nq2, nqpq2, q, byt);
      RemainingStep(byt, byte, k, 2 * i as int);
      RunTwoMore(x1, s, ByteBits(byte), k);
      byt := ShlByte(byt, 2);
    }
  }

  lemma RemainingAll(byte: u8, n: nat)
    requires n <= 8
    ensures Remaining(byte, byte, 0, n)
  {
  }

  method BigLoop(n1: array<u8>, nq: Point, nqpq: Point, nq2: Point, nqpq2: Point, q: array<u64>, count: u32)
    requires Separate(nq, nqpq, nq2, nqpq2, q) && Sized(nq2) && Sized(nqpq2) && n1.Length == count as int
    requires TightPoint(nq) && TightPoint(nqpq) && TightArray(q)
    modifies nq.x, nq.z, nqpq.x, nqpq.z, nq2.x, nq2.z, nqpq2.x, nqpq2.z
    ensures TightPoint(nq) && TightPoint(nqpq)
    ensures State(nq, nqpq) == old(Run(Elem(q), State(nq, nqpq), ScalarBits(n1[..], 8 * n1.Length)))
  {
    hide Run, ByteBits, ScalarBits, Elem, View, Tight;
    ghost var x1, s0 := Elem(q), State(nq, nqpq);
    RunNothing(x1, s0);
    ghost var bits := ScalarBits(n1[..], 8 * n1.Length);
    var i := count;
    assert bits[..0] == [];
    while i != 0
      invariant i <= count
      invariant n1[..] == old(n1[..])
      invariant TightPoint(nq) && TightPoint(nqpq)
      invariant State(nq, nqpq) == Run(x1, s0, bits[..8 * (count - i) as int])
      decreases i
    {
      ghost var m := (count - i) as int;
      i := i - 1;
      var byte := n1[i];
      SmallLoop(nq, nqpq, nq2, nqpq2, q, byte, 4);
      ScalarBitsOfByte(n1[..], m);
      assert ByteBits(byte)[..8] == bits[8 * m..8 * m + 8];
      RunAppend(x1, s0, bits[..8 * m], bits[8 * m..8 * m + 8]);
      assert bits[..8 * m] + bits[8 * m..8 * m + 8] == bits[..8 * m + 8];
    }
    assert bits[..8 * n1.Length] == bits;
  }

  /** The neutral point (1 : 0) and the base point. */
  method StartPoints(nq: Point, nqpq: Point, q: Point)
    requires Sized(nq) && Sized(nqpq) && nq.x != nq.z && nqpq.x != nqpq.z && Apart(nq, nqpq) && Apart(nq, q) && Apart(nqpq, q)
    requires View(nq.x) == View(nq.z) == ZERO && TightPoint(q) && Elem(q.z) == 1
    modifies nq.x, nqpq.x, nqpq.z
    ensures TightPoint(nq) && TightPoint(nqpq) && State(nq, nqpq) == Start(Elem(q.x))
  {
    CopyElem(nqpq.x, q.x);
    CopyElem(nqpq.z, q.z);
    nq.x[0] := 1;
    assert View(nq.x) == ZERO.(a0 := 1);
  }

  method NewPoint() returns (p: Point)
    ensures Sized(p) && p.x != p.z && fresh(p.x) && fresh(p.z)
    ensures View(p.x) == View(p.z) == ZERO
  {
    var x := new u64[5](i => 0);
    var z := new u64[5](i => 0);
    p := Point(x, z);
  }

  /** The ladder on freshly cleared working points. */
  method LadderPoints(n1: array<u8>, q: Point) returns (nq: Point)
    requires n1.Length == 32 && TightPoint(q) && Elem(q.z) == 1
    ensures fresh(nq.x) && fresh(nq.z) && TightPoint(nq)
    ensures var s := Eager(Elem(q.x), ScalarBits(n1[..], 256)); Elem(nq.x) == s.x2 && Elem(nq.z) == s.z2
  {
    hide Run, ScalarBits, View, Val, Red, Tight;
    nq := NewPoint();
    var nqpq := NewPoint();
    var nq2 := NewPoint();
    var nqpq2 := NewPoint();
    StartPoints(nq, nqpq, q);
    BigLoop(n1, nq, nqpq, nq2, nqpq2, q.x, 32);
  }

  method LadderCmult(result: Point, n1: array<u8>, q: Point)
    requires Sized(result) && result.x != result.z && n1.Length == 32
    requires TightPoint(q) && Elem(q.z) == 1
    modifies result.x, result.z
    ensures TightPoint(result)
    ensures var s := old(Eager(Elem(q.x), ScalarBits(n1[..], 256)));
            Elem(result.x) == s.x2 && Elem(result.z) == s.z2
  {
    hide ScalarBits, View, Val, Red, Tight, Eager;
    var nq := LadderPoints(n1, q);
    CopyElem(result.x, nq.x);
    CopyElem(result.z, nq.z);
  }
}
