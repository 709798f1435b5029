/** The Montgomery ladder of section 5 of RFC 7748 over field elements, with the RFC's deferred swaps, and the
    same ladder with each swap undone at once. */
module X25519 {
  import opened Words
  import opened Field25519
  import opened Powers

  datatype Ladder = Ladder(x2: int, z2: int, x3: int, z3: int)

  const A24: int := 121665

  function Start(x1: int): Ladder { Ladder(1, 0, x1, 1) }

  function CSwap(swap: bool, s: Ladder): Ladder {
    if swap then Ladder(s.x3, s.z3, s.x2, s.z2) else s
  }

  /** One iteration of the RFC's loop body, after the conditional swap. */
  function Step(x1: int, s: Ladder): Ladder {
    var A, B := FAdd(s.x2, s.z2), FSub(s.x2, s.z2);
    var AA, BB := FMul(A, A), FMul(B, B);
    var E := FSub(AA, BB);
    var C, D := FAdd(s.x3, s.z3), FSub(s.x3, s.z3);
    var DA, CB := FMul(D, A), FMul(C, B);
    var sum, diff := FAdd(DA, CB), FSub(DA, CB);
    Ladder(FMul(AA, BB), FMul(E, FAdd(AA, FMul(A24, E))), FMul(sum, sum), FMul(x1, FMul(diff, diff)))
  }

  /** The RFC's loop: `swap` is the pending swap, `bits` the scalar's bits, most significant first. */
  function Deferred(x1: int, bits: seq<bool>): (Ladder, bool) {
    if bits == [] then (Start(x1), false)
    else
      var n := |bits| - 1;
      var (s, swap) := Deferred(x1, bits[..n]);
      (Step(x1, CSwap(swap != bits[n], s)), bits[n])
  }

  /** The RFC's result: the last pending swap is carried out after the loop. */
  function Rfc7748(x1: int, bits: seq<bool>): Ladder {
    var (s, swap) := Deferred(x1, bits);
    CSwap(swap, s)
  }

  /** A ladder that swaps before each step and swaps back after it, started in state s. */
  function Run(x1: int, s: Ladder, bits: seq<bool>): Ladder {
    if bits == [] then s
    else
      var n := |bits| - 1;
      CSwap(bits[n], Step(x1, CSwap(bits[n], Run(x1, s, bits[..n]))))
  }

  function Eager(x1: int, bits: seq<bool>): Ladder {
    Run(x1, Start(x1), bits)
  }

  lemma {:induction false} RunAppend(x1: int, s: Ladder, a: seq<bool>, b: seq<bool>)
    ensures Run(x1, s, a + b) == Run(x1, Run(x1, s, a), b)
  {
    if b == [] {
      assert a + b == a;
    } else {
      var n := |b| - 1;
      assert (a + b)[..|a| + n] == a + b[..n];
      RunAppend(x1, s, a, b[..n]);
    }
  }

  /** Swapping back at once or leaving the swap pending makes no difference. */
  lemma {:induction false} EagerIsRfc7748(x1: int, bits: seq<bool>)
    ensures Eager(x1, bits) == Rfc7748(x1, bits)
  {
    if bits != [] {
      EagerIsRfc7748(x1, bits[..|bits| - 1]);
    }
  }

  // ---- scalars ----

  predicate ByteBit(b: u8, k: nat) {
    b as int / Pow2(k) % 2 == 1
  }

  predicate BitAt(e: seq<u8>, i: nat)
    requires i / 8 < |e|
  {
    ByteBit(e[i / 8], i % 8)
  }

  /** Bits n-1 down to 0 of a little-endian scalar. */
  function ScalarBits(e: seq<u8>, n: nat): (bits: seq<bool>)
    requires n <= 8 * |e|
    ensures |bits| == n
  {
    seq(n, i requires 0 <= i < n => BitAt(e, n - 1 - i))
  }

  /** The bits of a byte, most significant first. */
  function ByteBits(b: u8): (bits: seq<bool>)
    ensures |bits| == 8
  {
    seq(8, j requires 0 <= j < 8 => ByteBit(b, 7 - j))
  }

  lemma ScalarBitOfByte(e: seq<u8>, m: nat, j: nat)
    requires m < |e| && j < 8
    ensures ScalarBits(e, 8 * |e|)[8 * m + j] == ByteBit(e[|e| - 1 - m], 7 - j)
  {
    var i := 8 * |e| - 1 - (8 * m + j);
    DivUnique(i, 8, |e| - 1 - m, 7 - j);
    assert ScalarBits(e, 8 * |e|)[8 * m + j] == BitAt(e, i);
  }

  /** Eight consecutive bits of a scalar are one of its bytes. */
  lemma ScalarBitsOfByte(e: seq<u8>, m: nat)
    requires m < |e|
    ensures ScalarBits(e, 8 * |e|)[8 * m..8 * m + 8] == ByteBits(e[|e| - 1 - m])
  {
    hide ByteBit;
    var part, byte := ScalarBits(e, 8 * |e|)[8 * m..8 * m + 8], ByteBits(e[|e| - 1 - m]);
    forall j: nat | j < |part|
      ensures part[j] == byte[j]
    {
      ScalarBitOfByte(e, m, j);
    }
  }

  lemma RunNothing(x1: int, s: Ladder)
    ensures Run(x1, s, []) == s
  {
  }

  // ---- an extra leading zero bit only rescales the state ----

  /** The two points of the ladder, each multiplied through by its own factor. */
  function Rescale(m: int, l: int, s: Ladder): Ladder {
    Ladder(FMul(m, s.x2), FMul(m, s.z2), FMul(l, s.x3), FMul(l, s.z3))
  }

  lemma StepRescales(x1: int, m: int, l: int, s: Ladder)
    ensures Step(x1, Rescale(m, l, s))
         == Rescale(FMul(FMul(m, m), FMul(m, m)), FMul(FMul(l, m), FMul(l, m)), Step(x1, s))
  {
    var A, B := FAdd(s.x2, s.z2), FSub(s.x2, s.z2);
    var AA, BB := FMul(A, A), FMul(B, B);
    var E := FSub(AA, BB);
    var C, D := FAdd(s.x3, s.z3), FSub(s.x3, s.z3);
    var DA, CB := FMul(D, A), FMul(C, B);
    var mm, lm := FMul(m, m), FMul(l, m);
    MulDistributesAdd(m, s.x2, s.z2);
    MulDistributesSub(m, s.x2, s.z2);
    MulDistributesAdd(l, s.x3, s.z3);
    MulDistributesSub(l, s.x3, s.z3);
    MulInterchange(m, A, m, A);
    MulInterchange(m, B, m, B);
    MulInterchange(l, D, m, A);
    MulInterchange(l, C, m, B);
    RescaleDouble(mm, AA, BB);
    RescaleAdd(x1, lm, DA, CB);
  }

  lemma RescaleDouble(c: int, AA: int, BB: int)
    ensures FMul(FMul(c, AA), FMul(c, BB)) == FMul(FMul(c, c), FMul(AA, BB))
    ensures var E' := FSub(FMul(c, AA), FMul(c, BB));
            var E := FSub(AA, BB);
            FMul(E', FAdd(FMul(c, AA), FMul(A24, E'))) == FMul(FMul(c, c), FMul(E, FAdd(AA, FMul(A24, E))))
  {
    var E := FSub(AA, BB);
    MulInterchange(c, AA, c, BB);
    MulDistributesSub(c, AA, BB);
    MulAssociates(A24, c, E);
    MulCommutes(A24, c);
    MulAssociates(c, A24, E);
    MulDistributesAdd(c, AA, FMul(A24, E));
    MulInterchange(c, E, c, FAdd(AA, FMul(A24, E)));
  }

  lemma RescaleAdd(x1: int, c: int, DA: int, CB: int)
    ensures var sum := FAdd(DA, CB);
            var sum' := FAdd(FMul(c, DA), FMul(c, CB));
            FMul(sum', sum') == FMul(FMul(c, c), FMul(sum, sum))
    ensures var diff := FSub(DA, CB);
            var diff' := FSub(FMul(c, DA), FMul(c, CB));
            FMul(x1, FMul(diff', diff')) == FMul(FMul(c, c), FMul(x1, FMul(diff, diff)))
  {
    var sum, diff := FAdd(DA, CB), FSub(DA, CB);
    MulDistributesAdd(c, DA, CB);
    MulDistributesSub(c, DA, CB);
    MulInterchange(c, sum, c, sum);
    MulInterchange(c, diff, c, diff);
    MulAssociates(x1, FMul(c, c), FMul(diff, diff));
    MulCommutes(x1, FMul(c, c));
    MulAssociates(FMul(c, c), x1, FMul(diff, diff));
  }

  /** (c^i · c^j)^2 == c^(2(i+j)) */
  lemma SquareOfPowers(c: int, i: nat, j: nat)
    ensures FMul(FMul(FPow(c, i), FPow(c, j)), FMul(FPow(c, i), FPow(c, j))) == FPow(c, 2 * (i + j))
  {
    hide FPow, FMul;
    PowAdd(c, i, j);
    PowAdd(c, i + j, i + j);
  }

  lemma SwapRescales(swap: bool, m: int, l: int, s: Ladder)
    ensures CSwap(swap, Rescale(m, l, s)) == Rescale(if swap then l else m, if swap then m else l, CSwap(swap, s))
  {
  }

  /** With a leading zero bit the ladder ends in the same two points, each multiplied by a power of 4·x1. */
  lemma {:induction false} LeadingZeroRescales(x1: int, bits: seq<bool>) returns (i: nat, j: nat)
    ensures Eager(x1, [false] + bits) == Rescale(FPow(FMul(4, x1), i), FPow(FMul(4, x1), j), Eager(x1, bits))
  {
    hide FPow, FMul, Step, Rescale, CSwap, Start, Eager;
    if bits == [] {
      i, j := LeadingZeroFirst(x1);
      assert [false] + bits == [false];
    } else {
      var n := |bits| - 1;
      i, j := LeadingZeroRescales(x1, bits[..n]);
      EagerStep(x1, bits);
      EagerStep(x1, [false] + bits);
      assert ([false] + bits)[..|bits|] == [false] + bits[..n];
      var c, bit, s := FMul(4, x1), bits[n], Eager(x1, bits[..n]);
      var a, b := if bit then j else i, if bit then i else j;
      SwapRescales(bit, FPow(c, i), FPow(c, j), s);
      StepRescales(x1, FPow(c, a), FPow(c, b), CSwap(bit, s));
      SquareOfPowers(c, a, a);
      SquareOfPowers(c, b, a);
      SwapRescales(bit, FPow(c, 2 * (a + a)), FPow(c, 2 * (b + a)), Step(x1, CSwap(bit, s)));
      i, j := if bit then 2 * (b + a) else 2 * (a + a), if bit then 2 * (a + a) else 2 * (b + a);
    }
  }

  lemma EagerStep(x1: int, bits: seq<bool>)
    requires bits != []
    ensures var n := |bits| - 1; Eager(x1, bits) == CSwap(bits[n], Step(x1, CSwap(bits[n], Eager(x1, bits[..n]))))
  {
    hide Step, CSwap, Start;
  }

  lemma LeadingZeroFirst(x1: int) returns (i: nat, j: nat)
    ensures Eager(x1, [false]) == Rescale(FPow(FMul(4, x1), i), FPow(FMul(4, x1), j), Eager(x1, []))
  {
    hide Red, Step, Run;
    i, j := 0, 1;
    RedRange(Times(4, x1));
    var bits := [false];
    assert bits[..0] == [];
    EagerStep(x1, bits);
    RunNothing(x1, Start(x1));
    FirstStep(x1);
    RescaleStart(FMul(4, x1), x1);
  }

  lemma RescaleStart(c: int, x1: int)
    requires 0 <= c < P
    ensures Rescale(FPow(c, 0), FPow(c, 1), Start(x1)) == Ladder(1, 0, FMul(c, x1), c)
  {
    MulOne(c);
    RedRange(c);
    assert FPow(c, 1) == FMul(c, FPow(c, 0));
  }

  lemma FirstStep(x1: int)
    ensures Step(x1, Start(x1)) == Ladder(1, 0, FMul(FMul(4, x1), x1), FMul(4, x1))
  {
    hide Red, FMul, FAdd, FSub;
    FirstFactors(x1);
    FirstCross(x1);
    FirstDouble();
    FirstSquares(x1);
  }

  lemma FirstFactors(x1: int)
    ensures FMul(FAdd(x1, 1), 1) == FAdd(x1, 1) && FMul(FSub(x1, 1), 1) == FSub(x1, 1)
  {
    RedRange(x1 + 1);
    RedRange(x1 - 1);
    hide Red;
    MulOne(FAdd(x1, 1));
    MulOne(FSub(x1, 1));
  }

  lemma FirstSquares(x1: int)
    ensures FMul(Red(2 * x1), Red(2 * x1)) == FMul(FMul(4, x1), x1)
    ensures FMul(x1, FMul(Red(-2), Red(-2))) == FMul(4, x1)
  {
    hide Red, Times;
    RedMul(2 * x1, 2 * x1);
    TimesIs(2 * x1, 2 * x1);
    TwiceSquared(x1);
    TimesIs(4, x1);
    TimesIs(4 * x1, x1);
    MulReduceLeft(4 * x1, x1);
    RedMul(-2, -2);
    TimesIs(-2, -2);
    RedRange(4);
    MulCommutes(x1, 4);
  }

  /** The neutral point doubles to itself: A = B = AA = BB = 1 and E = 0. */
  lemma FirstDouble()
    ensures FAdd(1, 0) == 1 == FSub(1, 0) && FMul(1, 1) == 1 && FSub(1, 1) == 0
    ensures forall y :: FMul(0, y) == 0
  {
    hide Times;
    TimesIs(1, 1);
    forall y
      ensures FMul(0, y) == 0
    {
      TimesIs(0, y);
    }
  }

  lemma FirstCross(x1: int)
    ensures var C, D := FAdd(x1, 1), FSub(x1, 1); FAdd(D, C) == Red(2 * x1) && FSub(D, C) == Red(-2)
  {
    RedAdd(x1 - 1, x1 + 1);
    RedSub(x1 - 1, x1 + 1);
  }

  lemma TwiceSquared(x: int)
    ensures (2 * x) * (2 * x) == (4 * x) * x
  {
  }
}
