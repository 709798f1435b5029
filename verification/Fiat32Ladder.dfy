/** The Montgomery ladder of the 32-bit back end: 255 steps with deferred swaps, on five arrays. */
module Fiat32Ladder {
  import opened Words
  import opened Powers
  import opened Bits
  import opened Field25519
  import opened X25519
  import opened Limbs26
  import opened Fiat32
  import Invert = Fiat32Invert
  import Format = Fiat32Format

  // ---- the masked swap ----

  method SwapLimb(x: u32, y: u32, mask: u32) returns (x': u32, y': u32)
    requires mask == 0 || mask == 0xffff_ffff
    ensures x' == (if mask == 0 then x else y) && y' == (if mask == 0 then y else x)
  {
    var d := And32(Xor32(x, y), mask);
    Format.Mask32(mask, Xor32(x, y));
    XorCancels(x as int, y as int);
    XorCancels(y as int, x as int);
    XorCommutes(x as int, y as int);
    XorZero(x as int);
    XorZero(y as int);
    x' := Xor32(x, d);
    y' := Xor32(y, d);
  }

  method FeCswap(f: array<u32>, g: array<u32>, b: u32)
    requires f.Length == 10 && g.Length == 10 && f != g && b <= 1
    modifies f, g
    ensures f[..] == old(if b == 1 then g[..] else f[..])
    ensures g[..] == old(if b == 1 then f[..] else g[..])
  {
    var mask := ((0 - b as int) % TWO32) as u32;
    var i := 0;
    while i < 10
      invariant 0 <= i <= 10
      invariant forall k :: 0 <= k < i ==> f[k] == old(if b == 1 then g[k] else f[k])
      invariant forall k :: 0 <= k < i ==> g[k] == old(if b == 1 then f[k] else g[k])
      invariant forall k :: i <= k < 10 ==> f[k] == old(f[k]) && g[k] == old(g[k])
    {
      var x, y := SwapLimb(f[i], g[i], mask);
      f[i] := x;
      g[i] := y;
      i := i + 1;
    }
  }

  // ---- one step ----

  predicate Distinct(x2: array<u32>, z2: array<u32>, x3: array<u32>, z3: array<u32>) {
    x2 != z2 && x2 != x3 && x2 != z3 && z2 != x3 && z2 != z3 && x3 != z3
  }

  predicate TightState(x2: array<u32>, z2: array<u32>, x3: array<u32>, z3: array<u32>)
    reads x2, z2, x3, z3
  {
    TightArray(x2) && TightArray(z2) && TightArray(x3) && TightArray(z3)
  }

  function State(x2: array<u32>, z2: array<u32>, x3: array<u32>, z3: array<u32>): Ladder
    requires x2.Length == 10 && z2.Length == 10 && x3.Length == 10 && z3.Length == 10
    reads x2, z2, x3, z3
  {
    Ladder(Elem(x2), Elem(z2), Elem(x3), Elem(z3))
  }

  method CswapState(x2: array<u32>, z2: array<u32>, x3: array<u32>, z3: array<u32>, swap: u32)
    requires Distinct(x2, z2, x3, z3) && TightState(x2, z2, x3, z3) && swap <= 1
    modifies x2, z2, x3, z3
    ensures TightState(x2, z2, x3, z3)
    ensures State(x2, z2, x3, z3) == old(CSwap(swap == 1, State(x2, z2, x3, z3)))
  {
    hide Tight, Val, Red;
    FeCswap(x2, x3, swap);
    FeCswap(z2, z3, swap);
  }

  method FeSquare(out: array<u32>, in1: array<u32>)
    requires LooseArray(in1) && out.Length == 10
    modifies out
    ensures TightArray(out)
    ensures Elem(out) == old(FMul(Elem(in1), Elem(in1)))
  {
    FeSqr(out, in1);
  }

  /** DA in z3, CB in z2, BB and AA in the two temporaries. */
  method CrossProducts(x2: array<u32>, z2: array<u32>, x3: array<u32>, z3: array<u32>, tmp0: array<u32>, tmp1: array<u32>)
    requires Distinct(x2, z2, x3, z3) && TightState(x2, z2, x3, z3)
    requires tmp0.Length == 10 && tmp1.Length == 10 && tmp0 != tmp1
    requires {tmp0, tmp1} !! {x2, z2, x3, z3}
    modifies z2, z3, tmp0, tmp1
    ensures TightArray(z2) && TightArray(z3) && TightArray(tmp0) && TightArray(tmp1)
    ensures Elem(z3) == old(FMul(FSub(Elem(x3), Elem(z3)), FAdd(Elem(x2), Elem(z2))))
    ensures Elem(z2) == old(FMul(FAdd(Elem(x3), Elem(z3)), FSub(Elem(x2), Elem(z2))))
    ensures Elem(tmp0) == old(FMul(FSub(Elem(x2), Elem(z2)), FSub(Elem(x2), Elem(z2))))
    ensures Elem(tmp1) == old(FMul(FAdd(Elem(x2), Elem(z2)), FAdd(Elem(x2), Elem(z2))))
  {
    hide View, Val, Red, FMul, FAdd, FSub, Tight, Loose;
    var tmp0l := new u32[10];
    var tmp1l := new u32[10];
    var x2l := new u32[10];
    var z2l := new u32[10];
    FeSub(tmp0l, x3, z3);
    FeSub(tmp1l, x2, z2);
    FeAdd(x2l, x2, z2);
    FeAdd(z2l, x3, z3);
    FeMul(z3, tmp0l, x2l);
    FeMul(z2, z2l, tmp1l);
    FeSquare(tmp0, tmp1l);
    FeSquare(tmp1, x2l);
  }

  /** AA·BB, and the sum, the difference and E in fresh arrays. */
  method Differences(x2: array<u32>, z2: array<u32>, z3: array<u32>, tmp0: array<u32>, tmp1: array<u32>)
    returns (x3l: array<u32>, z2l: array<u32>, tmp1l: array<u32>)
    requires x2.Length == 10 && x2 !in {z2, z3, tmp0, tmp1}
    requires TightArray(z2) && TightArray(z3) && TightArray(tmp0) && TightArray(tmp1)
    modifies x2
    ensures fresh(x3l) && fresh(z2l) && fresh(tmp1l) && x3l != z2l && x3l != tmp1l && z2l != tmp1l
    ensures TightArray(x2) && LooseArray(x3l) && LooseArray(z2l) && LooseArray(tmp1l)
    ensures Elem(x2) == FMul(Elem(tmp1), Elem(tmp0)) && Elem(tmp1l) == FSub(Elem(tmp1), Elem(tmp0))
    ensures Elem(x3l) == FAdd(Elem(z3), Elem(z2)) && Elem(z2l) == FSub(Elem(z3), Elem(z2))
  {
    hide View, Val, Red, FMul, FAdd, FSub, Tight, Loose;
    x3l := new u32[10];
    z2l := new u32[10];
    tmp1l := new u32[10];
    FeAdd(x3l, z3, z2);
    FeSub(z2l, z3, z2);
    Invert.FeMulTight(x2, tmp1, tmp0);
    FeSub(tmp1l, tmp1, tmp0);
  }

  /** The remaining three coordinates. */
  method Finish(x1: array<u32>, z2: array<u32>, x3: array<u32>, z3: array<u32>,
                x3l: array<u32>, z2l: array<u32>, tmp1l: array<u32>, tmp0: array<u32>)
    requires z2.Length == 10 && x3.Length == 10 && z3.Length == 10 && z2 != x3 && z2 != z3 && x3 != z3
    requires {x1, x3l, z2l, tmp1l, tmp0} !! {z2, x3, z3}
    requires TightArray(x1) && TightArray(tmp0) && LooseArray(x3l) && LooseArray(z2l) && LooseArray(tmp1l)
    modifies z2, x3, z3
    ensures TightArray(z2) && TightArray(x3) && TightArray(z3)
    ensures Elem(z2) == FMul(Elem(tmp1l), FAdd(Elem(tmp0), FMul(Elem(tmp1l), 121666)))
    ensures Elem(x3) == FMul(Elem(x3l), Elem(x3l))
    ensures Elem(z3) == FMul(Elem(x1), FMul(Elem(z2l), Elem(z2l)))
  {
    hide View, Val, Red, FMul, FAdd, FSub, Tight, Loose;
    var tmp0l := new u32[10];
    FeSquare(z2, z2l);
    FeMul121666(z3, tmp1l);
    FeSquare(x3, x3l);
    FeAdd(tmp0l, tmp0, z3);
    Invert.FeMulTight(z3, x1, z2);
    FeMul(z2, tmp1l, tmp0l);
  }

  /** BB + 121666·E is AA + 121665·E, because AA is BB + E. */
  lemma EitherConstant(AA: int, BB: int)
    ensures var E := FSub(AA, BB); FAdd(BB, FMul(E, 121666)) == FAdd(AA, FMul(A24, E))
  {
    var E, k := FSub(AA, BB), (AA - BB) / P;
    assert AA - BB == k * P + E;
    hide Red, Times;
    TimesIs(E, 121666);
    TimesIs(A24, E);
    RedOfSum(BB, E * 121666);
    RedOfSum(AA, A24 * E);
    RedUnique(AA + A24 * E, BB + E * 121666, k);
  }

  lemma RedOfSum(x: int, y: int)
    ensures FAdd(x, Red(y)) == Red(x + y)
  {
    var k := y / P;
    assert y == k * P + Red(y);
    RedUnique(x + y, x + Red(y), k);
  }

  method LadderStep(x1: array<u32>, x2: array<u32>, z2: array<u32>, x3: array<u32>, z3: array<u32>)
    requires Distinct(x2, z2, x3, z3) && x1 !in {x2, z2, x3, z3} && TightArray(x1) && TightState(x2, z2, x3, z3)
    modifies x2, z2, x3, z3
    ensures TightState(x2, z2, x3, z3)
    ensures State(x2, z2, x3, z3) == old(Step(Elem(x1), State(x2, z2, x3, z3)))
  {
    hide View, Val, Red, FMul, FAdd, FSub, Tight, Loose;
    var tmp0 := new u32[10];
    var tmp1 := new u32[10];
    CrossProducts(x2, z2, x3, z3, tmp0, tmp1);
    EitherConstant(Elem(tmp1), Elem(tmp0));
    var x3l, z2l, tmp1l := Differences(x2, z2, z3, tmp0, tmp1);
    Finish(x1, z2, x3, z3, x3l, z2l, tmp1l, tmp0);
  }

  // ---- the whole ladder ----

  /** Bit pos of the scalar, as the C code extracts it. */
  method ScalarBit(e: array<u8>, pos: nat) returns (b: u32)
    requires e.Length == 32 && pos < 256
    ensures b == if BitAt(e[..], pos) then 1 else 0
  {
    ShrIsDiv(e[pos / 8] as int, pos % 8);
    ShiftedByte(e[pos / 8], pos % 8);
    b := (Shr(e[pos / 8] as int, pos % 8) % 2) as u32;
  }

  lemma ShiftedByte(x: u8, k: nat)
    ensures (x as int / Pow2(k) % 2 == 1) == ByteBit(x, k)
  {
  }

  method Ladder255(e: array<u8>, x1: array<u32>, x2: array<u32>, z2: array<u32>, x3: array<u32>, z3: array<u32>)
    requires e.Length == 32 && TightArray(x1) && TightState(x2, z2, x3, z3)
    requires Distinct(x2, z2, x3, z3) && x1 !in {x2, z2, x3, z3}
    modifies x2, z2, x3, z3
    ensures TightState(x2, z2, x3, z3)
    ensures old(State(x2, z2, x3, z3) == Start(Elem(x1))) ==>
              State(x2, z2, x3, z3) == Rfc7748(Elem(x1), ScalarBits(e[..], 255))
  {
    hide View, Val, Red, FMul, FAdd, FSub, Tight, Loose, BitAt, Step, State;
    ghost var u := Elem(x1);
    ghost var bits := ScalarBits(e[..], 255);
    ghost var started := State(x2, z2, x3, z3) == Start(u);
    var swap: u32 := 0;
    var pos := 255;
    while pos > 0
      invariant 0 <= pos <= 255 && swap <= 1
      invariant TightArray(x1) && Elem(x1) == u && TightState(x2, z2, x3, z3)
      invariant started ==> (State(x2, z2, x3, z3), swap == 1) == Deferred(u, bits[..255 - pos])
    {
      pos := pos - 1;
      ghost var done := 254 - pos;
      var b := ScalarBit(e, pos);
      var swap' := XorBit(swap, b);
      assert bits[..done + 1][..done] == bits[..done];
      assert bits[done] == BitAt(e[..], pos);
      CswapState(x2, z2, x3, z3, swap');
      swap := b;
      LadderStep(x1, x2, z2, x3, z3);
    }
    assert bits[..255] == bits;
    CswapState(x2, z2, x3, z3, swap);
  }

  method XorBit(p: u32, q: u32) returns (r: u32)
    requires p <= 1 && q <= 1
    ensures r == if p == q then 0 else 1
  {
    r := Xor32(p, q);
    XorZero(0);
  }
}
