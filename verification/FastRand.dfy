/** The xorshift generator that fills padding. */
module FastRand {
  import opened Words
  import opened Powers
  import opened Bits
  import opened LittleEndian

  function Seeded(seed: u64): u64 { if seed != 0 then seed else 1 }

  function Step(s: u64): u64 {
    var a := Xor64(s, Shl64(s, 13));
    var b := Xor64(a, Shr64(a, 7));
    Xor64(b, Shl64(b, 17))
  }

  /** n bytes drawn from state s: eight from each new state, the last draw cut short. */
  function Bytes(s: u64, n: nat): (b: seq<u8>)
    ensures |b| == n
    decreases n
  {
    hide Step, LeBytes;
    if n == 0 then []
    else if n < 8 then LeBytes(Step(s) as int, 8)[..n]
    else LeBytes(Step(s) as int, 8) + Bytes(Step(s), n - 8)
  }

  /** The state after drawing n bytes. */
  function AfterBytes(s: u64, n: nat): u64
    decreases n
  {
    hide Step;
    if n == 0 then s else if n < 8 then Step(s) else AfterBytes(Step(s), n - 8)
  }

  /** The n-th word drawn from state s. */
  function Drawn(s: u64, n: nat): u64 {
    if n == 0 then s else Step(Drawn(s, n - 1))
  }

  /** One step spreads the lowest bit to the bits 0, 6, 13, 17, 23 and 30. */
  lemma StepOfOne()
    ensures Step(1) as int == 1 + Pow2(6) + Pow2(13) + Pow2(17) + Pow2(23) + Pow2(30)
  {
    PowersUpTo30();
    hide Pow2, Xor;
    assert Shl64(1, 13) == 0x2000;
    XorCommutes(1, 0x2000);
    XorDisjoint(1, 1, 13);
    ShrIsDiv(0x2001, 7);
    XorAssociates(0x2000, 1, 0x40);
    XorCommutes(1, 0x40);
    XorDisjoint(1, 1, 6);
    XorDisjoint(1, 0x41, 13);
    assert Shl64(0x2041, 17) == 0x4082_0000;
    XorCommutes(0x2041, 0x4082_0000);
    XorDisjoint(0x2041, 0x2041, 17);
  }

  lemma PowersUpTo30()
    ensures Pow2(6) == 0x40 && Pow2(7) == 0x80 && Pow2(13) == 0x2000 && Pow2(14) == 0x4000 && Pow2(17) == 0x2_0000
    ensures Pow2(23) == 0x80_0000 && Pow2(30) == 0x4000_0000
  {
    Pow2Values();
    Pow2Add(7, 6);
    Pow2Add(8, 6);
    Pow2Add(16, 1);
    Pow2Add(16, 7);
    Pow2Add(16, 14);
  }

  lemma XorZeroOnlySelf(x: u64, y: u64)
    ensures Xor64(x, y) == 0 <==> x == y
  {
    XorSelf(x as int, y as int);
  }

  /** A word equal to itself shifted left is zero: shifting on would drop every bit. */
  lemma {:induction false} LeftFixpoint(x: nat, n: nat, k: nat)
    requires x < TWO64 && x * Pow2(n) % TWO64 == x
    ensures x * Pow2(n * k) % TWO64 == x
    decreases k
  {
    if k == 0 {
      assert n * k == 0;
    } else {
      hide Pow2;
      LeftFixpoint(x, n, k - 1);
      OneMore(n, k);
      Pow2Add(n * (k - 1), n);
      ShiftAgain(x, Pow2(n * (k - 1)), Pow2(n));
    }
  }

  lemma OneMore(n: nat, k: nat)
    requires k > 0
    ensures n * k == n * (k - 1) + n && n * (k - 1) >= 0
  {
  }

  lemma ShiftAgain(x: nat, p: nat, q: nat)
    requires x * p % TWO64 == x && x * q % TWO64 == x
    ensures x * (p * q) % TWO64 == x
  {
    var d, e := x * p / TWO64, x * q / TWO64;
    assert x * p == d * TWO64 + x && x * q == e * TWO64 + x;
    Reassociate(x, p, q, d);
    ModOfMultiple(d * q + e, x);
  }

  lemma Reassociate(x: nat, p: nat, q: nat, d: nat)
    requires x * p == d * TWO64 + x
    ensures x * (p * q) == d * q * TWO64 + x * q
  {
    assert x * (p * q) == (x * p) * q;
  }

  lemma ModOfMultiple(k: nat, x: nat)
    requires x < TWO64
    ensures (k * TWO64 + x) % TWO64 == x
  {
    DivUnique(k * TWO64 + x, TWO64, k, x);
  }

  lemma NoLeftFixpoint(x: u64, n: nat, k: nat)
    requires n * k >= 64 && Shl64(x, n) == x
    ensures x == 0
  {
    LeftFixpoint(x as int, n, k);
    Pow2Values();
    Pow2Add(64, n * k - 64);
    DropsAll(x as int, Pow2(n * k - 64));
  }

  lemma DropsAll(x: nat, p: nat)
    ensures x * (TWO64 * p) % TWO64 == 0
  {
    assert x * (TWO64 * p) == (x * p) * TWO64;
    DivUnique(x * (TWO64 * p), TWO64, x * p, 0);
  }

  lemma NoRightFixpoint(x: u64)
    requires Shr64(x, 7) == x
    ensures x == 0
  {
    ShrIsDiv(x as int, 7);
    assert Pow2(7) == 128;
  }

  /** The state never reaches zero, where the generator would stay for ever. */
  lemma StepIsNonZero(s: u64)
    requires s != 0
    ensures Step(s) != 0
  {
    hide Xor64, Shl64, Shr64;
    var a := Xor64(s, Shl64(s, 13));
    var b := Xor64(a, Shr64(a, 7));
    XorZeroOnlySelf(s, Shl64(s, 13));
    XorZeroOnlySelf(a, Shr64(a, 7));
    XorZeroOnlySelf(b, Shl64(b, 17));
    if a == 0 {
      NoLeftFixpoint(s, 13, 5);
    }
    if b == 0 {
      NoRightFixpoint(a);
    }
    if Step(s) == 0 {
      NoLeftFixpoint(b, 17, 4);
    }
  }

  class Rng {
    var s: u64

    constructor (seed: u64)
      ensures s == Seeded(seed) && s != 0
    {
      s := if seed != 0 then seed else 1;
    }

    method U64() returns (v: u64)
      requires s != 0
      modifies this
      ensures v == s == Step(old(s)) && s != 0
    {
      StepIsNonZero(s);
      s := Xor64(s, Shl64(s, 13));
      s := Xor64(s, Shr64(s, 7));
      s := Xor64(s, Shl64(s, 17));
      return s;
    }

    /** Draws a word and writes its first k bytes. */
    method FillWord(p: array<u8>, at: nat, k: nat)
      requires s != 0 && k <= 8 && at + k <= p.Length
      modifies this, p
      ensures s == Step(old(s)) && s != 0
      ensures p[..] == old(p[..at]) + LeBytes(s as int, 8)[..k] + old(p[at + k..])
    {
      hide Step, LeBytes;
      var v := U64();
      Put(p, at, LeBytes(v as int, 8)[..k]);
    }

    /** Fills len bytes from off on. */
    method Fill(p: array<u8>, off: nat, len: nat)
      requires s != 0 && off + len <= p.Length
      modifies this, p
      ensures s != 0 && s == AfterBytes(old(s), len)
      ensures p[..] == old(p[..off] + Bytes(s, len) + p[off + len..])
    {
      hide Step, LeBytes, Bytes, Filling, AfterBytes;
      ghost var before, s0, done := p[..], s, [];
      FillingStart(before, off, s, len);
      var i := 0;
      while i + 8 <= len
        invariant 0 <= i <= len && s != 0 && |done| == i
        invariant Filling(before, off, done, p[..], s0, s, len)
      {
        FillingStep(before, off, done, p[..], s0, s, len, 8);
        FillWord(p, off + i, 8);
        done := done + LeBytes(s as int, 8)[..8];
        i := i + 8;
      }
      if i < len {
        FillingStep(before, off, done, p[..], s0, s, len, len - i);
        FillWord(p, off + i, len - i);
        done := done + LeBytes(s as int, 8)[..len - i];
      }
      FillingEnd(before, off, done, p[..], s0, s, len);
    }
  }

  /** The first bytes are written and the state reached will give the others. */
  predicate Filling(before: seq<u8>, off: nat, done: seq<u8>, now: seq<u8>, s0: u64, s: u64, len: nat) {
    && off + len <= |before| && |done| <= len
    && now == before[..off] + done + before[off + |done|..]
    && (|done| < len ==> Bytes(s0, len) == done + Bytes(s, len - |done|))
    && (|done| == len ==> Bytes(s0, len) == done)
    && AfterBytes(s0, len) == AfterBytes(s, len - |done|)
  }

  lemma FillingStart(before: seq<u8>, off: nat, s: u64, len: nat)
    requires off + len <= |before|
    ensures Filling(before, off, [], before, s, s, len)
  {
    assert [] + Bytes(s, len) == Bytes(s, len);
  }

  lemma FillingStep(before: seq<u8>, off: nat, done: seq<u8>, now: seq<u8>, s0: u64, s: u64, len: nat, k: nat)
    requires Filling(before, off, done, now, s0, s, len) && |done| + k <= len && 0 < k <= 8
    requires k < 8 ==> |done| + k == len
    ensures var w := LeBytes(Step(s) as int, 8)[..k];
            var now' := now[..off + |done|] + w + now[off + |done| + k..];
            Filling(before, off, done + w, now', s0, Step(s), len)
  {
    hide Step, LeBytes;
    var w := LeBytes(Step(s) as int, 8)[..k];
    BytesOf(s, len - |done|);
    Splice(before, off, done, w, now);
    hide Bytes;
    if |done| + k < len {
      assert w == LeBytes(Step(s) as int, 8);
      assert done + (w + Bytes(Step(s), len - |done| - 8)) == (done + w) + Bytes(Step(s), len - |done| - 8);
    } else if k == 8 {
      BytesOf(Step(s), 0);
      assert w + [] == w == LeBytes(Step(s) as int, 8);
    }
  }

  lemma FillingEnd(before: seq<u8>, off: nat, done: seq<u8>, now: seq<u8>, s0: u64, s: u64, len: nat)
    requires Filling(before, off, done, now, s0, s, len) && |done| == len
    ensures now == before[..off] + Bytes(s0, len) + before[off + len..] && s == AfterBytes(s0, len)
  {
  }

  lemma BytesOf(s: u64, n: nat)
    ensures n == 0 ==> Bytes(s, n) == []
    ensures 0 < n < 8 ==> Bytes(s, n) == LeBytes(Step(s) as int, 8)[..n]
    ensures n >= 8 ==> Bytes(s, n) == LeBytes(Step(s) as int, 8) + Bytes(Step(s), n - 8)
  {
    hide Step, LeBytes;
  }

  lemma Splice(before: seq<u8>, off: nat, done: seq<u8>, w: seq<u8>, now: seq<u8>)
    requires off + |done| + |w| <= |before| && now == before[..off] + done + before[off + |done|..]
    ensures now[..off + |done|] + w + now[off + |done| + |w|..] == before[..off] + (done + w) + before[off + |done| + |w|..]
  {
  }

  /** Writes w at `at`. */
  method Put(p: array<u8>, at: nat, w: seq<u8>)
    requires at + |w| <= p.Length
    modifies p
    ensures p[..] == old(p[..at]) + w + old(p[at + |w|..])
  {
    forall k | 0 <= k < |w| { p[at + k] := w[k]; }
  }
}
