/** 32-bit words as bit-vectors: the word operations of the hash are the machine's own. The operations on vectors
    are functions, so that proofs about words need not look inside them. */
module BvWords {
  import opened Words
  import opened Powers
  import Bits
  import opened Rfc7693

  function Even(p: bv32): bv32 { p << 1 }

  function Odd(p: bv32): bv32 { (p << 1) | 1 }

  function Plus(p: bv32, q: bv32): bv32 { p + q }

  function Exclusive(p: bv32, q: bv32): bv32 { p ^ q }

  /** The vector with the low 32 bits of x. */
  function Bv(x: nat): bv32 {
    if x == 0 then 0 else if x % 2 == 0 then Even(Bv(x / 2)) else Odd(Bv(x / 2))
  }

  lemma BvNode(x: nat)
    ensures Bv(x) == if x % 2 == 0 then Even(Bv(x / 2)) else Odd(Bv(x / 2))
  {
    assert Even(0) == 0;
    hide Even, Odd;
  }

  // ---- a word and its vector ----

  lemma Halved(p: bv32)
    requires p as int < 0x8000_0000
    ensures p < 0x8000_0000
  {
  }

  lemma ShiftValue(p: bv32)
    requires p < 0x8000_0000
    ensures (p << 1) as int == 2 * (p as int) && ((p << 1) | 1) as int == 2 * (p as int) + 1
  {
  }

  function Value(p: bv32): nat { p as int }

  lemma NodeValue(p: bv32)
    requires Value(p) < 0x8000_0000
    ensures Value(Even(p)) == 2 * Value(p) && Value(Odd(p)) == 2 * Value(p) + 1
  {
    Halved(p);
    ShiftValue(p);
    assert Value(p) == p as int && Value(p << 1) == (p << 1) as int && Value((p << 1) | 1) == ((p << 1) | 1) as int;
    assert Even(p) == p << 1 && Odd(p) == (p << 1) | 1;
    hide *;
  }

  lemma {:induction false} BvValue(x: nat)
    requires x < TWO32
    ensures Value(Bv(x)) == x
  {
    assert Value(0) == 0;
    if x > 0 {
      BvValue(x / 2);
      BvNode(x);
      hide *;
      NodeValue(Bv(x / 2));
    }
  }

  lemma ThereAndBack(p: bv32)
    ensures Value(p) < TWO32 && Value(p) as bv32 == p
  {
  }

  /** The vector of a word is the only one with its value. */
  lemma BvOf(p: bv32)
    ensures Value(p) < TWO32 && Bv(Value(p)) == p
  {
    ThereAndBack(p);
    hide *;
    BvValue(Value(p));
    ThereAndBack(Bv(Value(p)));
  }

  // ---- exclusive or ----

  lemma ShiftXor(p: bv32, q: bv32)
    ensures (p << 1) ^ (q << 1) == (p ^ q) << 1 && ((p << 1) | 1) ^ ((q << 1) | 1) == (p ^ q) << 1
    ensures (p << 1) ^ ((q << 1) | 1) == ((p ^ q) << 1) | 1 && ((p << 1) | 1) ^ (q << 1) == ((p ^ q) << 1) | 1
  {
  }

  lemma NodeXor(p: bv32, q: bv32)
    ensures Exclusive(Even(p), Even(q)) == Even(Exclusive(p, q)) && Exclusive(Odd(p), Odd(q)) == Even(Exclusive(p, q))
    ensures Exclusive(Even(p), Odd(q)) == Odd(Exclusive(p, q)) && Exclusive(Odd(p), Even(q)) == Odd(Exclusive(p, q))
  {
    ShiftXor(p, q);
    assert Even(p) == p << 1 && Odd(p) == (p << 1) | 1 && Even(q) == q << 1 && Odd(q) == (q << 1) | 1;
    assert Exclusive(p, q) == p ^ q && Even(p ^ q) == (p ^ q) << 1 && Odd(p ^ q) == ((p ^ q) << 1) | 1;
    assert Exclusive(p << 1, q << 1) == (p << 1) ^ (q << 1);
    assert Exclusive((p << 1) | 1, q << 1) == ((p << 1) | 1) ^ (q << 1);
    assert Exclusive(p << 1, (q << 1) | 1) == (p << 1) ^ ((q << 1) | 1);
    assert Exclusive((p << 1) | 1, (q << 1) | 1) == ((p << 1) | 1) ^ ((q << 1) | 1);
    hide *;
  }

  lemma HalfXor(x: nat, y: nat)
    ensures Bits.Xor(x, y) / 2 == Bits.Xor(x / 2, y / 2) && (Bits.Xor(x, y) % 2 == 0 <==> x % 2 == y % 2)
  {
  }

  lemma {:induction false} XorOfNats(x: nat, y: nat)
    ensures Bv(Bits.Xor(x, y)) == Exclusive(Bv(x), Bv(y))
    decreases x + y
  {
    if x == 0 && y == 0 {
      assert Exclusive(0, 0) == 0;
      hide Exclusive;
    } else {
      XorOfNats(x / 2, y / 2);
      BvNode(x);
      BvNode(y);
      BvNode(Bits.Xor(x, y));
      HalfXor(x, y);
      hide *;
      NodeXor(Bv(x / 2), Bv(y / 2));
    }
  }

  lemma BvXor(x: u32, y: u32)
    ensures Bv(Xor(x, y) as int) == Exclusive(Bv(x as int), Bv(y as int))
  {
    XorOfNats(x as int, y as int);
  }

  // ---- addition ----

  lemma NodeSuccessor(p: bv32)
    ensures Plus(Even(p), 1) == Odd(p) && Plus(Odd(p), 1) == Even(Plus(p, 1))
  {
  }

  lemma {:induction false} BvSuccessor(x: nat)
    ensures Bv(x + 1) == Plus(Bv(x), 1)
  {
    hide *;
    BvNode(x);
    BvNode(x + 1);
    NodeSuccessor(Bv(x / 2));
    if x % 2 == 1 {
      BvSuccessor(x / 2);
      assert (x + 1) / 2 == x / 2 + 1;
    } else {
      assert (x + 1) / 2 == x / 2;
    }
  }

  lemma PlusAssociates(p: bv32, q: bv32)
    ensures Plus(p, Plus(q, 1)) == Plus(Plus(p, q), 1)
  {
    assert Plus(p, q + 1) == p + (q + 1);
    assert Plus(p + q, 1) == (p + q) + 1;
    assert Plus(q, 1) == q + 1;
    assert Plus(p, q) == p + q;
    hide Plus;
  }

  lemma PlusZero(p: bv32)
    ensures Plus(p, 0) == p
  {
  }

  lemma {:induction false} SumOfNats(x: nat, y: nat)
    ensures Bv(x + y) == Plus(Bv(x), Bv(y))
  {
    if y == 0 {
      assert Bv(0) == 0;
      hide *;
      PlusZero(Bv(x));
    } else {
      hide *;
      SumOfNats(x, y - 1);
      BvSuccessor(x + y - 1);
      BvSuccessor(y - 1);
      PlusAssociates(Bv(x), Bv(y - 1));
    }
  }

  lemma Wraps()
    ensures Bv(TWO32) == 0
  {
    SumOfNats(0x8000_0000, 0x8000_0000);
    BvOf(0x8000_0000);
    assert Value(0x8000_0000) == 0x8000_0000 && Plus(0x8000_0000, 0x8000_0000) == 0;
    hide *;
  }

  lemma BvSum(x: u32, y: u32)
    ensures Bv(Sum(x, y) as int) == Plus(Bv(x as int), Bv(y as int))
  {
    hide Bv, Plus;
    SumOfNats(x as int, y as int);
    if x as int + y as int >= TWO32 {
      SumOfNats(Sum(x, y) as int, TWO32);
      Wraps();
      PlusZero(Bv(Sum(x, y) as int));
    }
  }

  // ---- rotation ----

  /** Shifted to the left n times. */
  function Up(p: bv32, n: nat): bv32 {
    if n == 0 then p else Even(Up(p, n - 1))
  }

  lemma EvenIsTwice(p: bv32)
    ensures Even(p) == Plus(p, p)
  {
  }

  lemma {:induction false} BvUp(x: nat, n: nat)
    ensures Bv(x * Pow2(n)) == Up(Bv(x), n)
  {
    hide Bv, Even, Plus;
    if n > 0 {
      BvUp(x, n - 1);
      assert x * Pow2(n) == x * Pow2(n - 1) + x * Pow2(n - 1);
      SumOfNats(x * Pow2(n - 1), x * Pow2(n - 1));
      EvenIsTwice(Up(Bv(x), n - 1));
    }
  }

  lemma {:induction false} UpAdd(p: bv32, m: nat, n: nat)
    ensures Up(p, m + n) == Up(Up(p, m), n)
  {
    hide Even;
    if n > 0 {
      UpAdd(p, m, n - 1);
    }
  }

  lemma UpBy4(p: bv32)
    ensures Up(p, 1) == p << 1 && Up(p, 3) == p << 3 && Up(p, 4) == p << 4
  {
    assert Even(p) == p << 1 && Even(p << 1) == p << 2 && Even(p << 2) == p << 3 && Even(p << 3) == p << 4;
    hide Even;
  }

  lemma UpBy7(p: bv32)
    ensures Up(p, 7) == p << 7
  {
    UpBy4(p);
    UpBy4(p << 4);
    UpAdd(p, 4, 3);
    assert (p << 4) << 3 == p << 7;
    hide Up, Even;
  }

  lemma UpBy8(p: bv32)
    ensures Up(p, 8) == p << 8
  {
    UpBy4(p);
    UpBy4(p << 4);
    UpAdd(p, 4, 4);
    assert (p << 4) << 4 == p << 8;
    hide Up, Even;
  }

  lemma UpBy12(p: bv32)
    ensures Up(p, 12) == p << 12
  {
    UpBy8(p);
    UpBy4(p << 8);
    UpAdd(p, 8, 4);
    assert (p << 8) << 4 == p << 12;
    hide Up, Even;
  }

  lemma UpBy16(p: bv32)
    ensures Up(p, 16) == p << 16
  {
    UpBy8(p);
    UpBy8(p << 8);
    UpAdd(p, 8, 8);
    assert (p << 8) << 8 == p << 16;
    hide Up, Even;
  }

  lemma UpBy20(p: bv32)
    ensures Up(p, 20) == p << 20
  {
    UpBy16(p);
    UpBy4(p << 16);
    UpAdd(p, 16, 4);
    assert (p << 16) << 4 == p << 20;
    hide Up, Even;
  }

  lemma UpBy24(p: bv32)
    ensures Up(p, 24) == p << 24
  {
    UpBy16(p);
    UpBy8(p << 16);
    UpAdd(p, 16, 8);
    assert (p << 16) << 8 == p << 24;
    hide Up, Even;
  }

  lemma UpBy25(p: bv32)
    ensures Up(p, 25) == p << 25
  {
    UpBy24(p);
    UpBy4(p << 24);
    UpAdd(p, 24, 1);
    assert (p << 24) << 1 == p << 25;
    hide Up, Even;
  }

  lemma RotationIs(x: u32, n: nat) returns (h: nat, l: nat)
    requires 0 < n < 32
    ensures h < Pow2(32 - n) && l < Pow2(n)
    ensures x as int == h * Pow2(n) + l && Rotate(x, n) as int == h + l * Pow2(32 - n)
    ensures h < TWO32 && l < TWO32
  {
    hide Pow2;
    h, l := x as int / Pow2(n), x as int % Pow2(n);
    RotateRange(x as int, n);
    DivSplit(x as int, Pow2(n), h, l);
    Below(h, Pow2(n), l, x as int);
    hide *;
  }

  lemma Below(h: nat, p: nat, l: nat, x: nat)
    requires p > 0 && x == h * p + l
    ensures h <= x && l <= x
  {
    ProductOrder(1, p, h);
  }

  lemma RotationParts(x: u32, n: nat) returns (h: nat, l: nat)
    requires 0 < n < 32
    ensures h < Pow2(32 - n) && l < Pow2(n)
    ensures Value(Bv(h)) == h && Value(Bv(l)) == l
    ensures Bv(x as int) == Plus(Up(Bv(h), n), Bv(l))
    ensures Bv(Rotate(x, n) as int) == Plus(Bv(h), Up(Bv(l), 32 - n))
  {
    hide *;
    h, l := RotationIs(x, n);
    BvValue(h);
    BvValue(l);
    SumOfNats(h * Pow2(n), l);
    BvUp(h, n);
    SumOfNats(h, l * Pow2(32 - n));
    BvUp(l, 32 - n);
  }

  function Right16(p: bv32): bv32 { (p >> 16) | (p << 16) }

  lemma Shifts16(h: bv32, l: bv32)
    requires h < 0x10000 && l < 0x10000
    ensures (((h << 16) + l) >> 16) | (((h << 16) + l) << 16) == h + (l << 16)
  {
  }

  lemma Turn16(h: bv32, l: bv32)
    requires Value(h) < 0x10000 && Value(l) < 0x10000
    ensures Right16(Plus(Up(h, 16), l)) == Plus(h, Up(l, 16))
  {
    Small16(h, l);
    Shifts16(h, l);
    assert Plus(h << 16, l) == (h << 16) + l && Plus(h, l << 16) == h + (l << 16);
    assert Right16((h << 16) + l) == (((h << 16) + l) >> 16) | (((h << 16) + l) << 16);
    hide *;
    UpBy16(h);
    UpBy16(l);
  }

  lemma Small16(h: bv32, l: bv32)
    requires Value(h) < 0x10000 && Value(l) < 0x10000
    ensures h < 0x10000 && l < 0x10000
  {
  }

  lemma BvRotate16(x: u32)
    ensures Bv(Rotate(x, 16) as int) == Right16(Bv(x as int))
  {
    hide *;
    var h, l := RotationParts(x, 16);
    Pow2Small();
    Turn16(Bv(h), Bv(l));
  }

  function Right12(p: bv32): bv32 { (p >> 12) | (p << 20) }

  lemma Shifts12(h: bv32, l: bv32)
    requires h < 0x100000 && l < 0x1000
    ensures (((h << 12) + l) >> 12) | (((h << 12) + l) << 20) == h + (l << 20)
  {
  }

  lemma Turn12(h: bv32, l: bv32)
    requires Value(h) < 0x100000 && Value(l) < 0x1000
    ensures Right12(Plus(Up(h, 12), l)) == Plus(h, Up(l, 20))
  {
    Small12(h, l);
    Shifts12(h, l);
    assert Plus(h << 12, l) == (h << 12) + l && Plus(h, l << 20) == h + (l << 20);
    assert Right12((h << 12) + l) == (((h << 12) + l) >> 12) | (((h << 12) + l) << 20);
    hide *;
    UpBy12(h);
    UpBy20(l);
  }

  lemma Small12(h: bv32, l: bv32)
    requires Value(h) < 0x100000 && Value(l) < 0x1000
    ensures h < 0x100000 && l < 0x1000
  {
  }

  lemma BvRotate12(x: u32)
    ensures Bv(Rotate(x, 12) as int) == Right12(Bv(x as int))
  {
    hide *;
    var h, l := RotationParts(x, 12);
    Pow2Small();
    Turn12(Bv(h), Bv(l));
  }

  function Right8(p: bv32): bv32 { (p >> 8) | (p << 24) }

  lemma Shifts8(h: bv32, l: bv32)
    requires h < 0x1000000 && l < 0x100
    ensures (((h << 8) + l) >> 8) | (((h << 8) + l) << 24) == h + (l << 24)
  {
  }

  lemma Turn8(h: bv32, l: bv32)
    requires Value(h) < 0x1000000 && Value(l) < 0x100
    ensures Right8(Plus(Up(h, 8), l)) == Plus(h, Up(l, 24))
  {
    Small8(h, l);
    Shifts8(h, l);
    assert Plus(h << 8, l) == (h << 8) + l && Plus(h, l << 24) == h + (l << 24);
    assert Right8((h << 8) + l) == (((h << 8) + l) >> 8) | (((h << 8) + l) << 24);
    hide *;
    UpBy8(h);
    UpBy24(l);
  }

  lemma Small8(h: bv32, l: bv32)
    requires Value(h) < 0x1000000 && Value(l) < 0x100
    ensures h < 0x1000000 && l < 0x100
  {
  }

  lemma BvRotate8(x: u32)
    ensures Bv(Rotate(x, 8) as int) == Right8(Bv(x as int))
  {
    hide *;
    var h, l := RotationParts(x, 8);
    Pow2Small();
    Turn8(Bv(h), Bv(l));
  }

  function Right7(p: bv32): bv32 { (p >> 7) | (p << 25) }

  lemma Shifts7(h: bv32, l: bv32)
    requires h < 0x2000000 && l < 0x80
    ensures (((h << 7) + l) >> 7) | (((h << 7) + l) << 25) == h + (l << 25)
  {
  }

  lemma Turn7(h: bv32, l: bv32)
    requires Value(h) < 0x2000000 && Value(l) < 0x80
    ensures Right7(Plus(Up(h, 7), l)) == Plus(h, Up(l, 25))
  {
    Small7(h, l);
    Shifts7(h, l);
    assert Plus(h << 7, l) == (h << 7) + l && Plus(h, l << 25) == h + (l << 25);
    assert Right7((h << 7) + l) == (((h << 7) + l) >> 7) | (((h << 7) + l) << 25);
    hide *;
    UpBy7(h);
    UpBy25(l);
  }

  lemma Small7(h: bv32, l: bv32)
    requires Value(h) < 0x2000000 && Value(l) < 0x80
    ensures h < 0x2000000 && l < 0x80
  {
  }

  lemma BvRotate7(x: u32)
    ensures Bv(Rotate(x, 7) as int) == Right7(Bv(x as int))
  {
    hide *;
    var h, l := RotationParts(x, 7);
    Pow2Small();
    Turn7(Bv(h), Bv(l));
  }

  lemma Pow2Small()
    ensures Pow2(7) == 0x80 && Pow2(8) == 0x100 && Pow2(12) == 0x1000 && Pow2(16) == 0x1_0000
    ensures Pow2(20) == 0x10_0000 && Pow2(24) == 0x100_0000 && Pow2(25) == 0x200_0000
  {
    Pow2Values();
    Pow2Add(8, 4);
    Pow2Add(16, 4);
    Pow2Add(16, 8);
    Pow2Add(24, 1);
  }
}
