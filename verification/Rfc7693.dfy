/** BLAKE2s as defined by RFC 7693: the mixing function G (section 3.1), the compression function F (section 3.2)
    and the hash of a whole message (section 3.3). */
module Rfc7693 {
  import opened Words
  import opened Powers
  import Bits

  type State = v: seq<u32> | |v| == 16 witness seq(16, _ => 0)
  type Chain = h: seq<u32> | |h| == 8 witness seq(8, _ => 0)
  type Block = b: seq<u8> | |b| == 64 witness seq(64, _ => 0)
  type Lane = x: nat | x < 16
  type Schedule = s: seq<Lane> | |s| == 16 witness seq(16, _ => 0)

  function Iv(): Chain {
    [0x6a09_e667, 0xbb67_ae85, 0x3c6e_f372, 0xa54f_f53a, 0x510e_527f, 0x9b05_688c, 0x1f83_d9ab, 0x5be0_cd19]
  }

  const PRIMES: seq<nat> := [2, 3, 5, 7, 11, 13, 17, 19]

  /** Section 2.6: the words are the first 32 bits of the fractional parts of the square roots of the first eight
      primes. */
  lemma IvIsSquareRoots(i: nat, r: nat)
    requires i < 8 && r * r <= PRIMES[i] < (r + 1) * (r + 1)
    ensures var t := r * TWO32 + Iv()[i] as int; t * t <= PRIMES[i] * TWO64 < (t + 1) * (t + 1)
  {
    assert r < 5 by {
      if r >= 5 {
        ProductOrder(5, r, r);
      }
    }
    assert r == [1, 1, 2, 2, 3, 3, 4, 4][i];
    var k := Iv()[i] as int;
    match i
    case 0 => assert k == 0x6a09_e667;
    case 1 => assert k == 0xbb67_ae85;
    case 2 => assert k == 0x3c6e_f372;
    case 3 => assert k == 0xa54f_f53a;
    case 4 => assert k == 0x510e_527f;
    case 5 => assert k == 0x9b05_688c;
    case 6 => assert k == 0x1f83_d9ab;
    case 7 => assert k == 0x5be0_cd19;
  }

  /** Section 2.7. */
  function Sigma(round: nat): Schedule
    requires round < 10
  {
    match round
    case 0 => [0, 1, 2, 3, 4, 5, 6, 7, 8, 9, 10, 11, 12, 13, 14, 15]
    case 1 => [14, 10, 4, 8, 9, 15, 13, 6, 1, 12, 0, 2, 11, 7, 5, 3]
    case 2 => [11, 8, 12, 0, 5, 2, 15, 13, 10, 14, 3, 6, 7, 1, 9, 4]
    case 3 => [7, 9, 3, 1, 13, 12, 11, 14, 2, 6, 5, 10, 4, 0, 15, 8]
    case 4 => [9, 0, 5, 7, 2, 4, 10, 15, 14, 1, 11, 12, 6, 8, 3, 13]
    case 5 => [2, 12, 6, 10, 0, 11, 8, 3, 4, 13, 7, 5, 15, 14, 1, 9]
    case 6 => [12, 5, 1, 15, 14, 13, 4, 10, 0, 7, 6, 3, 9, 2, 8, 11]
    case 7 => [13, 11, 7, 14, 12, 1, 3, 9, 5, 0, 15, 4, 8, 6, 2, 10]
    case 8 => [6, 15, 14, 9, 11, 3, 0, 8, 12, 2, 13, 7, 1, 4, 10, 5]
    case 9 => [10, 2, 8, 4, 7, 6, 1, 5, 15, 11, 9, 14, 3, 12, 13, 0]
  }

  function Xor(x: u32, y: u32): u32 { Bits.Xor32(x, y) }

  function Sum(x: u32, y: u32): u32 { ((x as int + y as int) % TWO32) as u32 }

  /** Rotation to the right: the low n bits move to the top. */
  function Rotate(x: u32, n: nat): u32
    requires 0 < n < 32
  {
    RotateRange(x as int, n);
    (x as int / Pow2(n) + (x as int % Pow2(n)) * Pow2(32 - n)) as u32
  }

  lemma RotateRange(x: nat, n: nat)
    requires x < TWO32 && 0 < n < 32
    ensures Pow2(n) * Pow2(32 - n) == TWO32
    ensures x / Pow2(n) < Pow2(32 - n) && x / Pow2(n) + (x % Pow2(n)) * Pow2(32 - n) < TWO32
  {
    Pow2Values();
    Pow2Add(n, 32 - n);
    hide Pow2;
    QuotientBound(x, Pow2(n), Pow2(32 - n));
  }

  lemma QuotientBound(x: nat, p: nat, q: nat)
    requires p > 0 && q > 0 && x < p * q
    ensures x / p < q && x / p + (x % p) * q < p * q
  {
    var d, r := x / p, x % p;
    if d >= q {
      ProductOrder(q, d, p);
    }
    ProductOrder(r, p - 1, q);
  }

  lemma ProductOrder(a: nat, b: nat, c: nat)
    requires a <= b
    ensures a * c <= b * c
  {
  }

  predicate Quarter(a: nat, b: nat, c: nat, d: nat) {
    a < 16 && b < 16 && c < 16 && d < 16 && a != b && a != c && a != d && b != c && b != d && c != d
  }

  function G(v: State, a: nat, b: nat, c: nat, d: nat, x: u32, y: u32): State
    requires Quarter(a, b, c, d)
  {
    var a1 := Sum(Sum(v[a], v[b]), x);
    var d1 := Rotate(Xor(v[d], a1), 16);
    var c1 := Sum(v[c], d1);
    var b1 := Rotate(Xor(v[b], c1), 12);
    var a2 := Sum(Sum(a1, b1), y);
    var d2 := Rotate(Xor(d1, a2), 8);
    var c2 := Sum(c1, d2);
    var b2 := Rotate(Xor(b1, c2), 7);
    v[a := a2][b := b2][c := c2][d := d2]
  }

  function Columns(v: State, m: State, s: Schedule): State {
    var v1 := G(v, 0, 4, 8, 12, m[s[0]], m[s[1]]);
    var v2 := G(v1, 1, 5, 9, 13, m[s[2]], m[s[3]]);
    var v3 := G(v2, 2, 6, 10, 14, m[s[4]], m[s[5]]);
    G(v3, 3, 7, 11, 15, m[s[6]], m[s[7]])
  }

  function Diagonals(v: State, m: State, s: Schedule): State {
    var v1 := G(v, 0, 5, 10, 15, m[s[8]], m[s[9]]);
    var v2 := G(v1, 1, 6, 11, 12, m[s[10]], m[s[11]]);
    var v3 := G(v2, 2, 7, 8, 13, m[s[12]], m[s[13]]);
    G(v3, 3, 4, 9, 14, m[s[14]], m[s[15]])
  }

  function Rounds(v: State, m: State, n: nat): State
    requires n <= 10
  {
    if n == 0 then v
    else
      var u := Rounds(v, m, n - 1);
      Diagonals(Columns(u, m, Sigma(n - 1)), m, Sigma(n - 1))
  }

  function Word(b: seq<u8>): u32
    requires |b| == 4
  {
    b[0] as u32 + 0x100 * b[1] as u32 + 0x1_0000 * b[2] as u32 + 0x100_0000 * b[3] as u32
  }

  function MessageWords(block: Block): State {
    seq(16, i requires 0 <= i < 16 => Word(block[4 * i..4 * i + 4]))
  }

  /** The two halves of the offset counter. */
  function Low(t: nat): u32 { (t % TWO32) as u32 }

  function High(t: nat): u32 { (t / TWO32 % TWO32) as u32 }

  function Local(h: Chain, t: nat, last: bool): State {
    hide *;
    var v := h + Iv();
    v[12 := Xor(v[12], Low(t))][13 := Xor(v[13], High(t))]
     [14 := if last then Xor(v[14], 0xffff_ffff) else v[14]]
  }

  function FoldBack(h: Chain, v: State): Chain {
    seq(8, i requires 0 <= i < 8 => Xor(Xor(h[i], v[i]), v[i + 8]))
  }

  function F(h: Chain, block: Block, t: nat, last: bool): Chain {
    hide *;
    FoldBack(h, Rounds(Local(h, t, last), MessageWords(block), 10))
  }

  // ---- the whole message ----

  function Zeros(n: nat): (z: seq<u8>)
    ensures |z| == n
  {
    seq(n, _ => 0)
  }

  /** Padded with zeros to whole blocks. */
  function Padded(d: seq<u8>): (p: seq<u8>)
    ensures |p| % 64 == 0 && |p| >= |d| && p[..|d|] == d
  {
    d + Zeros((64 - |d| % 64) % 64)
  }

  /** The message blocks: the key, if any, fills the first; no key and no data make one block of zeros. */
  function MessageBlocks(key: seq<u8>, data: seq<u8>): (d: seq<u8>)
    requires |key| <= 32
    ensures |d| >= 64 && |d| % 64 == 0
  {
    if |key| == 0 && |data| == 0 then Zeros(64) else Padded(key) + Padded(data)
  }

  function Start(kk: nat, nn: nat): Chain
    requires kk <= 32 && nn <= 32
  {
    Iv()[0 := Xor(Xor(Xor(Iv()[0], 0x0101_0000), kk as u32 * 0x100), nn as u32)]
  }

  /** The chain value after the first n blocks of d, none of them final. */
  function Absorb(h: Chain, d: seq<u8>, n: nat): Chain
    requires 64 * n <= |d|
  {
    hide F;
    if n == 0 then h else F(Absorb(h, d, n - 1), d[64 * (n - 1)..64 * n], 64 * n, false)
  }

  function Blake2sState(key: seq<u8>, data: seq<u8>, nn: nat): Chain
    requires |key| <= 32 && nn <= 32
  {
    hide *;
    var d := MessageBlocks(key, data);
    var dd := |d| / 64;
    F(Absorb(Start(|key|, nn), d, dd - 1), d[64 * (dd - 1)..], if |key| == 0 then |data| else |data| + 64, true)
  }

  function WordBytes(x: u32): (b: seq<u8>)
    ensures |b| == 4
  {
    var v := x;
    [(v % 256) as u8, (v / 0x100 % 256) as u8, (v / 0x1_0000 % 256) as u8, (v / 0x100_0000 % 256) as u8]
  }

  function ChainBytes(h: seq<u32>): (b: seq<u8>)
    ensures |b| == 4 * |h|
  {
    if h == [] then [] else ChainBytes(h[..|h| - 1]) + WordBytes(h[|h| - 1])
  }

  /** The first nn bytes of the final chain value. */
  function Blake2s(key: seq<u8>, data: seq<u8>, nn: nat): (out: seq<u8>)
    requires |key| <= 32 && nn <= 32
    ensures |out| == nn
  {
    ChainBytes(Blake2sState(key, data, nn))[..nn]
  }
}
