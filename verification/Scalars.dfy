/** Clamping of secret scalars, shared by the two back ends. */
module Scalars {
  import opened Words
  import opened Powers
  import opened Bits
  import opened LittleEndian
  import opened X25519

  /** decodeScalar25519 of section 5 of RFC 7748: the low three bits and the top bit cleared, bit 254 set. */
  function Clamped(k: seq<u8>): (e: seq<u8>)
    requires |k| == 32
    ensures |e| == 32
  {
    k[0 := k[0] - k[0] % 8][31 := k[31] % 64 + 64]
  }

  /** The number a clamped scalar stands for: bits 3 to 253 as they were, bit 254 set, all others clear. */
  lemma ClampedValue(k: seq<u8>)
    requires |k| == 32
    ensures LeVal(Clamped(k)) == Pow2(254) + 8 * (LeVal(k) / 8 % Pow2(251))
  {
    hide LeVal, Pow2;
    var a, mid, z := k[0], k[1..31], k[31];
    var e := Clamped(k);
    ClampedBytes(k);
    hide *;
    OuterBytes(a, mid, z);
    OuterBytes(e[0], mid, e[31]);
    LeValBound(mid);
    ClampPowers();
    ClampDigits(a as int, LeVal(mid), z as int, Pow2(240), Pow2(251), Pow2(254), LeVal(k), LeVal(e));
  }

  lemma ClampedBytes(k: seq<u8>)
    requires |k| == 32
    ensures var e, mid := Clamped(k), k[1..31];
            k == [k[0]] + mid + [k[31]] && e == [e[0]] + mid + [e[31]] && e[0] == k[0] - k[0] % 8 && e[31] == k[31] % 64 + 64
  {
  }

  lemma OuterBytes(a: u8, mid: seq<u8>, z: u8)
    requires |mid| == 30
    ensures LeVal([a] + mid + [z]) == a as int + 256 * LeVal(mid) + 256 * Pow2(240) * z as int
  {
    LeValOne(a);
    LeValOne(z);
    Pow2Values();
    ClampPowers();
    hide LeVal, Pow2;
    LeValAppend([a] + mid, [z]);
    LeValAppend([a], mid);
  }

  lemma LeValOne(a: u8)
    ensures LeVal([a]) == a as int
  {
    assert [a][1..] == [];
  }

  lemma ClampPowers()
    ensures Pow2(248) == 256 * Pow2(240) && Pow2(251) == 2048 * Pow2(240) && Pow2(254) == 16384 * Pow2(240)
  {
    Pow2Values();
    PowSmall(3);
    PowSmall(6);
    hide Pow2;
    Pow2Add(8, 240);
    Pow2Add(3, 248);
    Pow2Add(6, 248);
  }

  lemma ClampDigits(a: nat, m: nat, z: nat, p: nat, p251: nat, p254: nat, n: nat, e: nat)
    requires a < 256 && z < 256 && m < p && p251 == 2048 * p && p254 == 16384 * p
    requires n == a + 256 * m + 256 * p * z
    requires e == a - a % 8 + 256 * m + 256 * p * (z % 64 + 64)
    ensures e == p254 + 8 * (n / 8 % p251)
  {
    var qa, ra, qz, rz := a / 8, a % 8, z / 64, z % 64;
    TopProducts(p, z, qz, rz);
    SmallFactor(p, rz);
    ClampQuotient(qa + 32 * m + 32 * (p * rz), ra, qz, p251, n);
  }

  lemma SmallFactor(p: nat, r: nat)
    requires r <= 63
    ensures 0 <= p * r <= 63 * p
  {
  }

  lemma ClampQuotient(low: nat, ra: nat, q: nat, p: nat, n: nat)
    requires low < p && ra < 8 && n == 8 * (q * p + low) + ra
    ensures n / 8 % p == low
  {
    DivUnique(n, 8, q * p + low, ra);
    DivUnique(q * p + low, p, q, low);
  }

  lemma TopProducts(p: int, z: int, qz: int, rz: int)
    requires z == 64 * qz + rz
    ensures 256 * p * z == 8 * (qz * (2048 * p) + 32 * (p * rz))
    ensures 256 * p * (rz + 64) == 256 * (p * rz) + 16384 * p
  {
  }

  /** Bit by bit: 0, 1, 2 and 255 are clear, 254 is set, the others are those of k. */
  lemma ClampedEveryBit(k: seq<u8>, i: nat)
    requires |k| == 32 && i < 256
    ensures BitAt(Clamped(k), i) == if i < 3 || i == 255 then false else if i == 254 then true else BitAt(k, i)
  {
    if i / 8 == 0 {
      FirstByteBit(k[0] as int, i);
    } else if i / 8 == 31 {
      LastByteBit(k[31] as int, i % 8);
    }
    hide Pow2;
  }

  lemma PowSmall(j: nat)
    requires j < 8
    ensures Pow2(j) == if j == 0 then 1 else if j == 1 then 2 else if j == 2 then 4 else if j == 3 then 8
                       else if j == 4 then 16 else if j == 5 then 32 else if j == 6 then 64 else 128
  {
    if j > 0 {
      PowSmall(j - 1);
    }
  }

  lemma FirstByteBit(x: nat, j: nat)
    requires x < 256 && j < 8
    ensures (x - x % 8) / Pow2(j) % 2 == if j < 3 then 0 else x / Pow2(j) % 2
  {
    PowSmall(j);
    PowSmall(3);
    if j >= 3 {
      Pow2Add(3, j - 3);
      hide Pow2;
      WithoutLowBits(x, Pow2(j - 3));
    }
  }

  lemma WithoutLowBits(x: nat, p: nat)
    requires p > 0
    ensures 8 * p > 0 && (x - x % 8) / (8 * p) == x / (8 * p)
  {
    DivDiv(x, 8, p);
    DivDiv(x - x % 8, 8, p);
    DivUnique(x - x % 8, 8, x / 8, 0);
  }

  lemma LastByteBit(x: nat, j: nat)
    requires x < 256 && j < 8
    ensures (x % 64 + 64) / Pow2(j) % 2 == if j == 7 then 0 else if j == 6 then 1 else x / Pow2(j) % 2
  {
    PowSmall(j);
    hide Pow2;
    if j < 6 {
      ShiftedBit(x % 64, 1, j);
      ShiftedBit(x % 64, x / 64, j);
    }
  }

  /** The low six bits do not see multiples of 64. */
  lemma ShiftedBit(r: nat, c: nat, j: nat)
    requires j < 6
    ensures (r + 64 * c) / Pow2(j) % 2 == r / Pow2(j) % 2
  {
    PowSmall(6);
    Pow2Add(j, 6 - j);
    assert Pow2(6 - j) == 2 * Pow2(5 - j);
    hide *;
    Multiple64(r, c, Pow2(j), Pow2(5 - j));
  }

  lemma Multiple64(r: nat, c: nat, d: nat, e: nat)
    requires d > 0 && d * (2 * e) == 64
    ensures (r + 64 * c) / d % 2 == r / d % 2
  {
    EvenMultiple(d, 2 * e, e, c);
    hide *;
    ShiftQuotient(r, d, 2 * (e * c));
    EvenShift(r / d, e * c);
  }

  lemma EvenShift(a: nat, b: nat)
    ensures (a + 2 * b) % 2 == a % 2
  {
  }

  lemma ShiftQuotient(r: nat, d: nat, m: nat)
    requires d > 0
    ensures (r + m * d) / d == r / d + m
  {
    DivSplit(r, d, r / d, r % d);
    assert (r / d + m) * d == r / d * d + m * d;
    DivUnique(r + m * d, d, r / d + m, r % d);
  }

  lemma EvenMultiple(d: nat, f: nat, e: nat, c: nat)
    requires d * f == 64 && f == 2 * e
    ensures 2 * (e * c) * d == 64 * c
  {
    assert 2 * (e * c) * d == (d * f) * c;
  }

  method ClampSecret(secret: array<u8>)
    requires secret.Length == 32
    modifies secret
    ensures secret[..] == old(Clamped(secret[..]))
    ensures LeVal(secret[..]) == Pow2(254) + 8 * (old(LeVal(secret[..])) / 8 % Pow2(251))
  {
    hide LeVal, And, Or;
    ClampedValue(secret[..]);
    var first, last := secret[0], secret[31];
    KeepHighBits(first);
    LastByte(last as int);
    secret[0] := And(first as int, 248) as u8;
    secret[31] := And(last as int, 127) as u8;
    secret[31] := Or(secret[31] as int, 64) as u8;
  }

  lemma LastByte(x: nat)
    requires x < 256
    ensures And(x, 127) == x % 128 && Or(x % 128, 64) == x % 64 + 64
  {
    hide And, Or;
    assert Pow2(6) == 64 && Pow2(7) == 128 by { Pow2Add(3, 3); assert Pow2(3) == 8; }
    KeepLowBits(x, 7);
    SetHighBit(x % 128, 6);
  }

  lemma KeepHighBits(x: u8)
    ensures And(x as int, 248) == x as int - x as int % 8
  {
    var a, b, c := x as int / 2, x as int / 4, x as int / 8;
    assert a / 2 == b && b / 2 == c && 8 * c == x as int - x as int % 8 && c < 32;
    assert Pow2(5) == 32 by { Pow2Add(2, 3); assert Pow2(3) == 8; }
    hide And, Pow2;
    AndStep(x as int, 248);
    AndStep(a, 124);
    AndStep(b, 62);
    AndOnes(c, 5);
    AndCommutes(c, 31);
  }

  lemma AndStep(a: nat, b: nat)
    ensures And(a, b) == (a % 2) * (b % 2) + 2 * And(a / 2, b / 2)
  {
  }

  lemma {:induction false} KeepLowBits(x: nat, n: nat)
    ensures And(x, Pow2(n) - 1) == x % Pow2(n)
    decreases n
  {
    if n == 0 {
      AndZero(x);
    } else {
      KeepLowBits(x / 2, n - 1);
      HalfOfOnes(Pow2(n - 1));
      hide And;
      AndStep(x, 2 * Pow2(n - 1) - 1);
      ModTwice(x, Pow2(n - 1));
    }
  }

  lemma HalfOfOnes(p: nat)
    requires p > 0
    ensures (2 * p - 1) % 2 == 1 && (2 * p - 1) / 2 == p - 1
  {
  }

  lemma ModTwice(x: nat, p: nat)
    requires p > 0
    ensures x % (2 * p) == 2 * (x / 2 % p) + x % 2
  {
    var q, r := x / 2 / p, x / 2 % p;
    assert q * (2 * p) == 2 * (q * p);
    DivUnique(x, 2 * p, q, 2 * r + x % 2);
  }

  lemma OrStep(a: nat, b: nat)
    ensures Or(a, b) == BitOr(a % 2, b % 2) + 2 * Or(a / 2, b / 2)
  {
  }

  lemma {:induction false} SetHighBit(x: nat, n: nat)
    requires x < 2 * Pow2(n)
    ensures Or(x, Pow2(n)) == x % Pow2(n) + Pow2(n)
    decreases n
  {
    if n == 0 {
      OrStep(x, 1);
      OrZero(0);
    } else {
      SetHighBit(x / 2, n - 1);
      hide Or;
      OrStep(x, 2 * Pow2(n - 1));
      ModTwice(x, Pow2(n - 1));
    }
  }

  /** A clamped scalar has 255 bits: bit 255 is clear. */
  lemma ClampedBits(k: seq<u8>)
    requires |k| == 32
    ensures ScalarBits(Clamped(k), 256) == [false] + ScalarBits(Clamped(k), 255)
  {
    var e := Clamped(k);
    assert Pow2(7) == 128 by { Pow2Add(3, 4); assert Pow2(3) == 8 && Pow2(4) == 16; }
    assert !BitAt(e, 255);
    forall i: nat | 1 <= i < 256
      ensures ScalarBits(e, 256)[i] == ScalarBits(e, 255)[i - 1]
    {
    }
  }
}
