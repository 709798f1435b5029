/** The 64-bit back end: limb arrays updated in place, with 128-bit products. Every word operation is
    range-checked, so these methods also show that no carry, product or cast drops a bit. */
module Curve64 {
  import opened Words
  import opened Powers
  import opened Exponents
  import opened Field25519
  import opened Limbs51

  const MASK51: u128 := 0x8_0000_0000_0000

  function View(a: array<u64>): L5
    requires a.Length == 5
    reads a
  {
    L5(a[0] as int, a[1] as int, a[2] as int, a[3] as int, a[4] as int)
  }

  function Wide(t: array<u128>): L5
    requires t.Length == 5
    reads t
  {
    L5(t[0] as int, t[1] as int, t[2] as int, t[3] as int, t[4] as int)
  }

  /** The field element an array of limbs stands for. */
  function Elem(a: array<u64>): int
    requires a.Length == 5
    reads a
  {
    Red(Val(View(a)))
  }

  predicate TightArray(a: array<u64>)
    reads a
  {
    a.Length == 5 && Tight(View(a))
  }

  predicate LooseArray(a: array<u64>)
    reads a
  {
    a.Length == 5 && Loose(View(a))
  }

  /** A product of two words fits 128 bits. */
  function Mul(x: u64, y: u64): (r: u128)
    ensures r as int == x as int * y as int
  {
    ProductBound(x as int, y as int, 0xffff_ffff_ffff_ffff, 0xffff_ffff_ffff_ffff);
    x as u128 * y as u128
  }

  /** The low 51 bits, taken after the cast to 64 bits. */
  function Low51(t: u128): (r: u64)
    ensures r as int == t as int % TWO51
  {
    Trunc64(t) % 0x8_0000_0000_0000
  }

  method SumScalarMultiplication(output: array<u128>, input: array<u64>, s: u64)
    requires output.Length == 5 && input.Length == 5
    requires Below(MulRow(Wide(output), View(input), s as int), WIDE)
    modifies output
    ensures Wide(output) == old(MulRow(Wide(output), View(input), s as int))
    ensures View(input) == old(View(input))
  {
    output[0] := output[0] + Mul(input[0], s);
    output[1] := output[1] + Mul(input[1], s);
    output[2] := output[2] + Mul(input[2], s);
    output[3] := output[3] + Mul(input[3], s);
    output[4] := output[4] + Mul(input[4], s);
  }

  method CarryWide(tmp: array<u128>)
    requires tmp.Length == 5 && Below(Wide(tmp), WIDE)
    modifies tmp
    ensures Wide(tmp) == old(CarryChain(Wide(tmp)))
  {
    var r0 := Low51(tmp[0]);
    var c := tmp[0] / MASK51;
    tmp[0], tmp[1] := r0 as u128, tmp[1] + c;
    assert Wide(tmp) == old(CarryAt0(Wide(tmp)));
    r0 := Low51(tmp[1]);
    c := tmp[1] / MASK51;
    tmp[1], tmp[2] := r0 as u128, tmp[2] + c;
    assert Wide(tmp) == old(CarryAt1(CarryAt0(Wide(tmp))));
    r0 := Low51(tmp[2]);
    c := tmp[2] / MASK51;
    tmp[2], tmp[3] := r0 as u128, tmp[3] + c;
    r0 := Low51(tmp[3]);
    c := tmp[3] / MASK51;
    tmp[3], tmp[4] := r0 as u128, tmp[4] + c;
  }

  method MulShiftReduceStep(input: array<u64>)
    requires input.Length == 5 && input[4] as int < LOOSE
    modifies input
    ensures View(input) == old(ShiftReduce(View(input)))
  {
    var tmp := input[4];
    input[4] := input[3];
    input[3] := input[2];
    input[2] := input[1];
    input[1] := input[0];
    input[0] := tmp;
    input[0] := 19 * input[0];
  }

  method MulShiftReduce(output: array<u128>, input: array<u64>, input21: array<u64>)
    requires LooseArray(input) && LooseArray(input21) && input != input21
    requires output.Length == 5 && Wide(output) == ZERO
    modifies output, input
    ensures Wide(output) == old(MulWide(View(input), View(input21)))
  {
    ghost var a := View(input);
    ghost var b := View(input21);
    MulRowsBound(a, b);
    SumScalarMultiplication(output, input, input21[0]);
    MulShiftReduceStep(input);
    SumScalarMultiplication(output, input, input21[1]);
    MulShiftReduceStep(input);
    SumScalarMultiplication(output, input, input21[2]);
    MulShiftReduceStep(input);
    SumScalarMultiplication(output, input, input21[3]);
    MulShiftReduceStep(input);
    SumScalarMultiplication(output, input, input21[4]);
  }

  /** The fold of the top carry and the copy back to 64-bit limbs. */
  method FoldAndCopy(output: array<u64>, tmp: array<u128>)
    requires output.Length == 5 && tmp.Length == 5
    requires Below(Wide(tmp), 0x1_0000_0000_0000_0000_0000_0000_0000_0000)
    requires Wide(tmp).a4 / TWO51 < TWO64 && Below(FoldTop(Wide(tmp)), TWO64)
    modifies output, tmp
    ensures View(output) == old(FoldTop(Wide(tmp)))
  {
    var b4 := tmp[4];
    var b0 := tmp[0];
    var b4' := b4 % MASK51;
    var b0' := b0 + 19 * (Trunc64(b4 / MASK51) as u128);
    tmp[4] := b4';
    tmp[0] := b0';
    CopyFromWide(output, tmp);
  }

  /** The last carry, out of limb 0. */
  method CarryLow(output: array<u64>)
    requires output.Length == 5 && Tight(CarryAt0(View(output)))
    modifies output
    ensures View(output) == old(CarryAt0(View(output)))
  {
    var i0 := output[0];
    var i1 := output[1];
    var i0' := i0 % 0x8_0000_0000_0000;
    var i1' := i1 + i0 / 0x8_0000_0000_0000;
    output[0] := i0';
    output[1] := i1';
  }

  method CopyFromWide(output: array<u64>, input: array<u128>)
    requires output.Length == 5 && input.Length == 5
    requires Below(Wide(input), TWO64)
    modifies output
    ensures View(output) == Wide(input)
  {
    output[0] := Trunc64(input[0]);
    output[1] := Trunc64(input[1]);
    output[2] := Trunc64(input[2]);
    output[3] := Trunc64(input[3]);
    output[4] := Trunc64(input[4]);
  }

  method Fmul(output: array<u64>, input: array<u64>, input21: array<u64>)
    requires LooseArray(input) && LooseArray(input21) && output.Length == 5
    modifies output
    ensures TightArray(output)
    ensures Elem(output) == old(FMul(Elem(input), Elem(input21)))
  {
    ghost var a := View(input);
    ghost var b := View(input21);
    var tmp := new u64[] [input[0], input[1], input[2], input[3], input[4]];
    var t := new u128[] [0, 0, 0, 0, 0];
    MulShiftReduce(t, tmp, input21);
    MulWideBound(a, b);
    MulWideTop(a, b);
    CarryWide(t);
    ReduceBound(MulWide(a, b));
    FoldAndCopy(output, t);
    CarryLow(output);
    ReduceValue(MulWide(a, b));
    ProductValue(a, b);
    RedMul(Val(a), Val(b));
  }

  lemma SquareWideBound(r: L5)
    requires Loose(r)
    ensures Below(SquareWide(r), WIDE)
  {
    SquareWideIsMulWide(r);
    MulWideBound(r, r);
  }

  /** Three products added in 128 bits. */
  method SumOfProducts(a: u64, b: u64, c: u64, d: u64, e: u64, f: u64) returns (s: u128)
    requires a as int * b as int + c as int * d as int + e as int * f as int < WIDE
    ensures s as int == a as int * b as int + c as int * d as int + e as int * f as int
  {
    s := Mul(a, b) + Mul(c, d) + Mul(e, f);
  }

  method FsquareWide(tmp: array<u128>, output: array<u64>)
    requires LooseArray(output) && tmp.Length == 5
    modifies tmp
    ensures Wide(tmp) == SquareWide(View(output))
  {
    var r0, r1, r2, r3, r4 := output[0], output[1], output[2], output[3], output[4];
    ghost var r := View(output);
    SquareWideBound(r);
    var d0 := r0 * 2;
    var d1 := r1 * 2;
    var d2 := r2 * 2 * 19;
    var d419 := r4 * 19;
    var d4 := d419 * 2;
    var s0 := SumOfProducts(r0, r0, d4, r1, d2, r3);
    var s1 := SumOfProducts(d0, r1, d4, r2, r3 * 19, r3);
    var s2 := SumOfProducts(d0, r2, r1, r1, d4, r3);
    var s3 := SumOfProducts(d0, r3, d1, r2, r4, d419);
    var s4 := SumOfProducts(d0, r4, d1, r3, r2, r2);
    tmp[0] := s0;
    tmp[1] := s1;
    tmp[2] := s2;
    tmp[3] := s3;
    tmp[4] := s4;
  }

  method Fsquare(tmp: array<u128>, output: array<u64>)
    requires LooseArray(output) && tmp.Length == 5
    modifies tmp, output
    ensures TightArray(output)
    ensures Elem(output) == old(FMul(Elem(output), Elem(output)))
  {
    ghost var r := View(output);
    FsquareWide(tmp, output);
    SquareWideIsMulWide(r);
    MulWideBound(r, r);
    MulWideTop(r, r);
    CarryWide(tmp);
    ReduceBound(MulWide(r, r));
    FoldAndCopy(output, tmp);
    CarryLow(output);
    ReduceValue(MulWide(r, r));
    ProductValue(r, r);
    RedMul(Val(r), Val(r));
  }

  /** count squarings in place. The first is outside the loop, so a count of zero still squares once. */
  method FsquareTimesIn(output: array<u64>, tmp: array<u128>, count: u32)
    requires LooseArray(output) && tmp.Length == 5 && count >= 1
    modifies output, tmp
    ensures TightArray(output)
    ensures Elem(output) == old(FPow(Elem(output), Pow2(count as int)))
  {
    ghost var z := Elem(output);
    Fsquare(tmp, output);
    PowTwo(z);
    var i: u32 := 1;
    while i < count
      invariant 1 <= i <= count
      invariant TightArray(output)
      invariant Elem(output) == FPow(z, Pow2(i as int))
    {
      Fsquare(tmp, output);
      SquareOfPower(z, i as int);
      i := i + 1;
    }
  }

  method FsquareTimes(output: array<u64>, input: array<u64>, count: u32)
    requires output.Length == 5 && LooseArray(input) && count >= 1
    modifies output
    ensures TightArray(output)
    ensures Elem(output) == old(FPow(Elem(input), Pow2(count as int)))
  {
    var t := new u128[5];
    output[0], output[1], output[2], output[3], output[4] := input[0], input[1], input[2], input[3], input[4];
    FsquareTimesIn(output, t, count);
  }

  method FsquareTimesInplace(output: array<u64>, count: u32)
    requires LooseArray(output) && count >= 1
    modifies output
    ensures TightArray(output)
    ensures Elem(output) == old(FPow(Elem(output), Pow2(count as int)))
  {
    var t := new u128[5];
    FsquareTimesIn(output, t, count);
  }
}
