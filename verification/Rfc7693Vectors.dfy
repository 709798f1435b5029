/** The digest of the three letters "abc", the example of RFC 7693, appendix B. */
module Rfc7693Vectors {
  import opened Words
  import opened Powers
  import opened BvWords
  import opened Rfc7693

  /** A local state as vectors. */
  datatype V = V(v0: bv32, v1: bv32, v2: bv32, v3: bv32, v4: bv32, v5: bv32, v6: bv32, v7: bv32,
                 v8: bv32, v9: bv32, v10: bv32, v11: bv32, v12: bv32, v13: bv32, v14: bv32, v15: bv32)

  /** The message words of four steps. */
  datatype W = W(x0: bv32, y0: bv32, x1: bv32, y1: bv32, x2: bv32, y2: bv32, x3: bv32, y3: bv32)

  datatype Quad = Quad(a: bv32, b: bv32, c: bv32, d: bv32)

  function Half(q: Quad, x: bv32): Quad {
    var a := Plus(Plus(q.a, q.b), x);
    var d := Right16(Exclusive(q.d, a));
    var c := Plus(q.c, d);
    Quad(a, Right12(Exclusive(q.b, c)), c, d)
  }

  function OtherHalf(q: Quad, y: bv32): Quad {
    var a := Plus(Plus(q.a, q.b), y);
    var d := Right8(Exclusive(q.d, a));
    var c := Plus(q.c, d);
    Quad(a, Right7(Exclusive(q.b, c)), c, d)
  }

  function Mixed(q: Quad, x: bv32, y: bv32): Quad { OtherHalf(Half(q, x), y) }

  function View(v: State): V {
    V(Bv(v[0] as int), Bv(v[1] as int), Bv(v[2] as int), Bv(v[3] as int),
      Bv(v[4] as int), Bv(v[5] as int), Bv(v[6] as int), Bv(v[7] as int),
      Bv(v[8] as int), Bv(v[9] as int), Bv(v[10] as int), Bv(v[11] as int),
      Bv(v[12] as int), Bv(v[13] as int), Bv(v[14] as int), Bv(v[15] as int))
  }

  lemma MixedIsG(v: State, a: nat, b: nat, c: nat, d: nat, x: u32, y: u32)
    requires Quarter(a, b, c, d)
    ensures var u := G(v, a, b, c, d, x, y);
            Others(v, u, a, b, c, d) && QuadOf(u, a, b, c, d) == Mixed(QuadOf(v, a, b, c, d), Bv(x as int), Bv(y as int))
  {
    hide Bv, Plus, Exclusive, Sum, Xor, Rotate, Right16, Right12, Right8, Right7;
    var s1 := Sum(v[a], v[b]);
    BvSum(v[a], v[b]);
    BvSum(s1, x);
    var a1 := Sum(s1, x);
    BvXor(v[d], a1);
    BvRotate16(Xor(v[d], a1));
    var d1 := Rotate(Xor(v[d], a1), 16);
    BvSum(v[c], d1);
    var c1 := Sum(v[c], d1);
    BvXor(v[b], c1);
    BvRotate12(Xor(v[b], c1));
    var b1 := Rotate(Xor(v[b], c1), 12);
    var s2 := Sum(a1, b1);
    BvSum(a1, b1);
    BvSum(s2, y);
    var a2 := Sum(s2, y);
    BvXor(d1, a2);
    BvRotate8(Xor(d1, a2));
    var d2 := Rotate(Xor(d1, a2), 8);
    BvSum(c1, d2);
    var c2 := Sum(c1, d2);
    BvXor(b1, c2);
    BvRotate7(Xor(b1, c2));
  }

  function Column(v: V, w: W): V {
    var q0 := Mixed(Quad(v.v0, v.v4, v.v8, v.v12), w.x0, w.y0);
    var q1 := Mixed(Quad(v.v1, v.v5, v.v9, v.v13), w.x1, w.y1);
    var q2 := Mixed(Quad(v.v2, v.v6, v.v10, v.v14), w.x2, w.y2);
    var q3 := Mixed(Quad(v.v3, v.v7, v.v11, v.v15), w.x3, w.y3);
    V(q0.a, q1.a, q2.a, q3.a, q0.b, q1.b, q2.b, q3.b, q0.c, q1.c, q2.c, q3.c, q0.d, q1.d, q2.d, q3.d)
  }

  function Diagonal(v: V, w: W): V {
    var q0 := Mixed(Quad(v.v0, v.v5, v.v10, v.v15), w.x0, w.y0);
    var q1 := Mixed(Quad(v.v1, v.v6, v.v11, v.v12), w.x1, w.y1);
    var q2 := Mixed(Quad(v.v2, v.v7, v.v8, v.v13), w.x2, w.y2);
    var q3 := Mixed(Quad(v.v3, v.v4, v.v9, v.v14), w.x3, w.y3);
    V(q0.a, q1.a, q2.a, q3.a, q3.b, q0.b, q1.b, q2.b, q2.c, q3.c, q0.c, q1.c, q1.d, q2.d, q3.d, q0.d)
  }

  function Picked(m: State, s: Schedule, o: nat): W
    requires o <= 8
  {
    W(Bv(m[s[o]] as int), Bv(m[s[o + 1]] as int), Bv(m[s[o + 2]] as int), Bv(m[s[o + 3]] as int),
      Bv(m[s[o + 4]] as int), Bv(m[s[o + 5]] as int), Bv(m[s[o + 6]] as int), Bv(m[s[o + 7]] as int))
  }

  /** The words of the columns in one round. */
  function ColumnWords(m: V, r: nat): W
    requires r < 10
  {
    match r
    case 0 => W(m.v0, m.v1, m.v2, m.v3, m.v4, m.v5, m.v6, m.v7)
    case 1 => W(m.v14, m.v10, m.v4, m.v8, m.v9, m.v15, m.v13, m.v6)
    case 2 => W(m.v11, m.v8, m.v12, m.v0, m.v5, m.v2, m.v15, m.v13)
    case 3 => W(m.v7, m.v9, m.v3, m.v1, m.v13, m.v12, m.v11, m.v14)
    case 4 => W(m.v9, m.v0, m.v5, m.v7, m.v2, m.v4, m.v10, m.v15)
    case 5 => W(m.v2, m.v12, m.v6, m.v10, m.v0, m.v11, m.v8, m.v3)
    case 6 => W(m.v12, m.v5, m.v1, m.v15, m.v14, m.v13, m.v4, m.v10)
    case 7 => W(m.v13, m.v11, m.v7, m.v14, m.v12, m.v1, m.v3, m.v9)
    case 8 => W(m.v6, m.v15, m.v14, m.v9, m.v11, m.v3, m.v0, m.v8)
    case 9 => W(m.v10, m.v2, m.v8, m.v4, m.v7, m.v6, m.v1, m.v5)
  }

  function DiagonalWords(m: V, r: nat): W
    requires r < 10
  {
    match r
    case 0 => W(m.v8, m.v9, m.v10, m.v11, m.v12, m.v13, m.v14, m.v15)
    case 1 => W(m.v1, m.v12, m.v0, m.v2, m.v11, m.v7, m.v5, m.v3)
    case 2 => W(m.v10, m.v14, m.v3, m.v6, m.v7, m.v1, m.v9, m.v4)
    case 3 => W(m.v2, m.v6, m.v5, m.v10, m.v4, m.v0, m.v15, m.v8)
    case 4 => W(m.v14, m.v1, m.v11, m.v12, m.v6, m.v8, m.v3, m.v13)
    case 5 => W(m.v4, m.v13, m.v7, m.v5, m.v15, m.v14, m.v1, m.v9)
    case 6 => W(m.v0, m.v7, m.v6, m.v3, m.v9, m.v2, m.v8, m.v11)
    case 7 => W(m.v5, m.v0, m.v15, m.v4, m.v8, m.v6, m.v2, m.v10)
    case 8 => W(m.v12, m.v2, m.v13, m.v7, m.v1, m.v4, m.v10, m.v5)
    case 9 => W(m.v15, m.v11, m.v9, m.v14, m.v3, m.v12, m.v13, m.v0)
  }

  lemma WordsArePicked(m: State, r: nat)
    requires r < 10
    ensures Picked(m, Sigma(r), 0) == ColumnWords(View(m), r) && Picked(m, Sigma(r), 8) == DiagonalWords(View(m), r)
  {
    hide Bv;
    match r
    case 0 =>
    case 1 =>
    case 2 =>
    case 3 =>
    case 4 =>
    case 5 =>
    case 6 =>
    case 7 =>
    case 8 =>
    case 9 =>
  }

  function QuadOf(v: State, a: nat, b: nat, c: nat, d: nat): Quad
    requires Quarter(a, b, c, d)
  {
    Quad(Bv(v[a] as int), Bv(v[b] as int), Bv(v[c] as int), Bv(v[d] as int))
  }

  predicate Others(v: State, u: State, a: nat, b: nat, c: nat, d: nat) {
    forall i :: 0 <= i < 16 && i != a && i != b && i != c && i != d ==> u[i] == v[i]
  }

  lemma ColumnsView(v: State, v1: State, v2: State, v3: State, u: State)
    requires Others(v, v1, 0, 4, 8, 12) && Others(v1, v2, 1, 5, 9, 13)
    requires Others(v2, v3, 2, 6, 10, 14) && Others(v3, u, 3, 7, 11, 15)
    ensures QuadOf(u, 0, 4, 8, 12) == QuadOf(v1, 0, 4, 8, 12) && QuadOf(v1, 1, 5, 9, 13) == QuadOf(v, 1, 5, 9, 13)
    ensures QuadOf(u, 1, 5, 9, 13) == QuadOf(v2, 1, 5, 9, 13) && QuadOf(v2, 2, 6, 10, 14) == QuadOf(v, 2, 6, 10, 14)
    ensures QuadOf(u, 2, 6, 10, 14) == QuadOf(v3, 2, 6, 10, 14) && QuadOf(v3, 3, 7, 11, 15) == QuadOf(v, 3, 7, 11, 15)
  {
    hide Bv;
  }

  lemma DiagonalsView(v: State, v1: State, v2: State, v3: State, u: State)
    requires Others(v, v1, 0, 5, 10, 15) && Others(v1, v2, 1, 6, 11, 12)
    requires Others(v2, v3, 2, 7, 8, 13) && Others(v3, u, 3, 4, 9, 14)
    ensures QuadOf(u, 0, 5, 10, 15) == QuadOf(v1, 0, 5, 10, 15) && QuadOf(v1, 1, 6, 11, 12) == QuadOf(v, 1, 6, 11, 12)
    ensures QuadOf(u, 1, 6, 11, 12) == QuadOf(v2, 1, 6, 11, 12) && QuadOf(v2, 2, 7, 8, 13) == QuadOf(v, 2, 7, 8, 13)
    ensures QuadOf(u, 2, 7, 8, 13) == QuadOf(v3, 2, 7, 8, 13) && QuadOf(v3, 3, 4, 9, 14) == QuadOf(v, 3, 4, 9, 14)
  {
    hide Bv;
  }

  lemma ColumnsAre(v: State, m: State, s: Schedule)
    ensures View(Columns(v, m, s)) == Column(View(v), Picked(m, s, 0))
  {
    hide G, Bv, Mixed, Others;
    var v1 := G(v, 0, 4, 8, 12, m[s[0]], m[s[1]]);
    var v2 := G(v1, 1, 5, 9, 13, m[s[2]], m[s[3]]);
    var v3 := G(v2, 2, 6, 10, 14, m[s[4]], m[s[5]]);
    MixedIsG(v, 0, 4, 8, 12, m[s[0]], m[s[1]]);
    MixedIsG(v1, 1, 5, 9, 13, m[s[2]], m[s[3]]);
    MixedIsG(v2, 2, 6, 10, 14, m[s[4]], m[s[5]]);
    MixedIsG(v3, 3, 7, 11, 15, m[s[6]], m[s[7]]);
    ColumnsView(v, v1, v2, v3, Columns(v, m, s));
  }

  lemma DiagonalsAre(v: State, m: State, s: Schedule)
    ensures View(Diagonals(v, m, s)) == Diagonal(View(v), Picked(m, s, 8))
  {
    hide G, Bv, Mixed, Others;
    var v1 := G(v, 0, 5, 10, 15, m[s[8]], m[s[9]]);
    var v2 := G(v1, 1, 6, 11, 12, m[s[10]], m[s[11]]);
    var v3 := G(v2, 2, 7, 8, 13, m[s[12]], m[s[13]]);
    MixedIsG(v, 0, 5, 10, 15, m[s[8]], m[s[9]]);
    MixedIsG(v1, 1, 6, 11, 12, m[s[10]], m[s[11]]);
    MixedIsG(v2, 2, 7, 8, 13, m[s[12]], m[s[13]]);
    MixedIsG(v3, 3, 4, 9, 14, m[s[14]], m[s[15]]);
    DiagonalsView(v, v1, v2, v3, Diagonals(v, m, s));
  }

  /** One round on vectors. */
  lemma RoundIs(v: State, m: State, n: nat)
    requires n < 10
    ensures View(Rounds(v, m, n + 1))
            == Diagonal(Column(View(Rounds(v, m, n)), ColumnWords(View(m), n)), DiagonalWords(View(m), n))
  {
    var u := Rounds(v, m, n);
    hide *;
    assert Rounds(v, m, n + 1) == Diagonals(Columns(u, m, Sigma(n)), m, Sigma(n)) by { RoundsUnfold(v, m, n); }
    ColumnsAre(u, m, Sigma(n));
    DiagonalsAre(Columns(u, m, Sigma(n)), m, Sigma(n));
    WordsArePicked(m, n);
  }

  lemma RoundsUnfold(v: State, m: State, n: nat)
    requires n < 10
    ensures Rounds(v, m, n + 1) == Diagonals(Columns(Rounds(v, m, n), m, Sigma(n)), m, Sigma(n))
  {
  }

  lemma NoRounds(v: State, m: State)
    ensures Rounds(v, m, 0) == v
  {
  }

  // ---- one compression ----

  function ChainView(h: Chain): W {
    W(Bv(h[0] as int), Bv(h[1] as int), Bv(h[2] as int), Bv(h[3] as int),
      Bv(h[4] as int), Bv(h[5] as int), Bv(h[6] as int), Bv(h[7] as int))
  }

  function Begun(h: W, low: bv32, high: bv32, last: bv32): V {
    V(h.x0, h.y0, h.x1, h.y1, h.x2, h.y2, h.x3, h.y3,
      0x6a09_e667, 0xbb67_ae85, 0x3c6e_f372, 0xa54f_f53a,
      Exclusive(0x510e_527f, low), Exclusive(0x9b05_688c, high), Exclusive(0x1f83_d9ab, last), 0x5be0_cd19)
  }

  function Thrice(p: bv32, q: bv32, r: bv32): bv32 { Exclusive(Exclusive(p, q), r) }

  function Folded(h: W, v: V): W {
    W(Thrice(h.x0, v.v0, v.v8), Thrice(h.y0, v.v1, v.v9), Thrice(h.x1, v.v2, v.v10), Thrice(h.y1, v.v3, v.v11),
      Thrice(h.x2, v.v4, v.v12), Thrice(h.y2, v.v5, v.v13), Thrice(h.x3, v.v6, v.v14), Thrice(h.y3, v.v7, v.v15))
  }

  /** A word whose value is known. */
  lemma WordIs(x: u32, p: bv32)
    ensures Bv(x as int) == p <==> x as int == Value(p)
  {
    BvOf(p);
    assert x as int < TWO32;
    hide *;
    BvValue(x as int);
  }

  lemma IvIs()
    ensures ChainView(Iv()) == W(0x6a09_e667, 0xbb67_ae85, 0x3c6e_f372, 0xa54f_f53a, 0x510e_527f, 0x9b05_688c, 0x1f83_d9ab, 0x5be0_cd19)
  {
    hide Bv;
    WordIs(Iv()[0], 0x6a09_e667);
    WordIs(Iv()[1], 0xbb67_ae85);
    WordIs(Iv()[2], 0x3c6e_f372);
    WordIs(Iv()[3], 0xa54f_f53a);
    WordIs(Iv()[4], 0x510e_527f);
    WordIs(Iv()[5], 0x9b05_688c);
    WordIs(Iv()[6], 0x1f83_d9ab);
    WordIs(Iv()[7], 0x5be0_cd19);
  }

  lemma LocalIs(h: Chain, t: nat, last: bool)
    ensures View(Local(h, t, last))
            == Begun(ChainView(h), Bv(Low(t) as int), Bv(High(t) as int), if last then 0xffff_ffff else 0)
  {
    hide Bv, Xor, Exclusive, Low, High, Iv;
    IvIs();
    BvXor(Iv()[4], Low(t));
    BvXor(Iv()[5], High(t));
    BvXor(Iv()[6], 0xffff_ffff);
    WordIs(0xffff_ffff, 0xffff_ffff);
    assert Exclusive(0x1f83_d9ab, 0) == 0x1f83_d9ab by { ExclusiveZero(); }
  }

  lemma ExclusiveZero()
    ensures Exclusive(0x1f83_d9ab, 0) == 0x1f83_d9ab
  {
  }

  lemma ThriceIs(x: u32, y: u32, z: u32)
    ensures Bv(Xor(Xor(x, y), z) as int) == Thrice(Bv(x as int), Bv(y as int), Bv(z as int))
  {
    hide Bv, Xor, Exclusive;
    BvXor(x, y);
    BvXor(Xor(x, y), z);
  }

  lemma FoldIs(h: Chain, v: State)
    ensures ChainView(FoldBack(h, v)) == Folded(ChainView(h), View(v))
  {
    hide Bv, Xor, Thrice;
    forall i: nat | i < 8
      ensures Bv(FoldBack(h, v)[i] as int) == Thrice(Bv(h[i] as int), Bv(v[i] as int), Bv(v[i + 8] as int))
    {
      ThriceIs(h[i], v[i], v[i + 8]);
    }
  }

  lemma CompressIs(h: Chain, block: Block, t: nat, last: bool)
    ensures ChainView(F(h, block, t, last))
            == Folded(ChainView(h), View(Rounds(Local(h, t, last), MessageWords(block), 10)))
  {
    var v := Rounds(Local(h, t, last), MessageWords(block), 10);
    assert F(h, block, t, last) == FoldBack(h, v);
    hide *;
    FoldIs(h, v);
  }

  /** A message whose words are known. */
  lemma MessageIs(m: State, v: V)
    requires m[0] as int == Value(v.v0) && m[1] as int == Value(v.v1)
    requires m[2] as int == Value(v.v2) && m[3] as int == Value(v.v3)
    requires m[4] as int == Value(v.v4) && m[5] as int == Value(v.v5)
    requires m[6] as int == Value(v.v6) && m[7] as int == Value(v.v7)
    requires m[8] as int == Value(v.v8) && m[9] as int == Value(v.v9)
    requires m[10] as int == Value(v.v10) && m[11] as int == Value(v.v11)
    requires m[12] as int == Value(v.v12) && m[13] as int == Value(v.v13)
    requires m[14] as int == Value(v.v14) && m[15] as int == Value(v.v15)
    ensures View(m) == v
  {
    hide Bv, Value;
    WordIs(m[0], v.v0);
    WordIs(m[1], v.v1);
    WordIs(m[2], v.v2);
    WordIs(m[3], v.v3);
    WordIs(m[4], v.v4);
    WordIs(m[5], v.v5);
    WordIs(m[6], v.v6);
    WordIs(m[7], v.v7);
    WordIs(m[8], v.v8);
    WordIs(m[9], v.v9);
    WordIs(m[10], v.v10);
    WordIs(m[11], v.v11);
    WordIs(m[12], v.v12);
    WordIs(m[13], v.v13);
    WordIs(m[14], v.v14);
    WordIs(m[15], v.v15);
  }

  // ---- the digest ----

  lemma ChainBytesStep(h: seq<u32>, i: nat)
    requires i < |h|
    ensures ChainBytes(h[..i + 1]) == ChainBytes(h[..i]) + WordBytes(h[i])
  {
    assert h[..i + 1][..i] == h[..i];
    hide WordBytes;
  }

  lemma ChainBytesFrom(h: Chain)
    ensures ChainBytes(h) == WordBytes(h[0]) + WordBytes(h[1]) + WordBytes(h[2]) + WordBytes(h[3])
                             + WordBytes(h[4]) + WordBytes(h[5]) + WordBytes(h[6]) + WordBytes(h[7])
  {
    assert ChainBytes(h[..0]) == [];
    hide WordBytes, ChainBytes;
    assert h[..8] == h;
    ChainBytesStep(h, 0);
    ChainBytesStep(h, 1);
    ChainBytesStep(h, 2);
    ChainBytesStep(h, 3);
    ChainBytesStep(h, 4);
    ChainBytesStep(h, 5);
    ChainBytesStep(h, 6);
    ChainBytesStep(h, 7);
  }


  lemma StartIs(kk: nat, nn: nat)
    requires kk <= 32 && nn <= 32
    ensures ChainView(Start(kk, nn))
            == W(Exclusive(Thrice(0x6a09_e667, 0x0101_0000, Bv(kk * 0x100)), Bv(nn)),
                 0xbb67_ae85, 0x3c6e_f372, 0xa54f_f53a, 0x510e_527f, 0x9b05_688c, 0x1f83_d9ab, 0x5be0_cd19)
  {
    hide Bv, Xor, Thrice, Exclusive, Iv;
    IvIs();
    WordIs(0x0101_0000, 0x0101_0000);
    ThriceIs(Iv()[0], 0x0101_0000, kk as u32 * 0x100);
    BvXor(Xor(Xor(Iv()[0], 0x0101_0000), kk as u32 * 0x100), nn as u32);
  }

  /** Four bytes of a block. */
  lemma WordOf(block: Block, i: nat, b0: u8, b1: u8, b2: u8, b3: u8)
    requires i < 16 && block[4 * i] == b0 && block[4 * i + 1] == b1 && block[4 * i + 2] == b2 && block[4 * i + 3] == b3
    ensures MessageWords(block)[i] as int == b0 as int + 0x100 * b1 as int + 0x1_0000 * b2 as int + 0x100_0000 * b3 as int
  {
  }

  function Filled(b: seq<u8>): (d: Block)
    requires |b| <= 64
  {
    b + Zeros(64 - |b|)
  }

  lemma PaddedIsFilled(b: seq<u8>)
    requires 0 < |b| <= 64
    ensures Padded(b) == Filled(b)
  {
  }

  /** A message of one block, without a key. */
  lemma OneBlock(data: seq<u8>, nn: nat)
    requires 0 < |data| <= 64 && nn <= 32
    ensures Blake2s([], data, nn) == ChainBytes(F(Start(0, nn), Filled(data), |data|, true))[..nn]
  {
    PaddedIsFilled(data);
    var d := MessageBlocks([], data);
    assert Padded([]) == [];
    assert d == Filled(data);
    hide F, Start, MessageBlocks, Filled;
    assert d[0..] == d;
    assert Absorb(Start(0, nn), d, 0) == Start(0, nn);
  }

  lemma TwoBlocks(key: seq<u8>, data: seq<u8>, nn: nat, b0: Block, b1: Block)
    requires 0 < |key| <= 32 && nn <= 32 && MessageBlocks(key, data) == b0 + b1
    ensures Blake2sState(key, data, nn) == F(Absorb(Start(|key|, nn), b0 + b1, 1), b1, |data| + 64, true)
  {
    hide F, Absorb, Start, MessageBlocks;
    assert (b0 + b1)[64..] == b1;
  }

  lemma AbsorbFirst(h: Chain, d: seq<u8>)
    requires |d| >= 64
    ensures Absorb(h, d, 1) == F(h, d[64 * 0..64 * 1], 64, false)
  {
    assert Absorb(h, d, 0) == h;
  }

  lemma Cut(key: seq<u8>, data: seq<u8>, nn: nat)
    requires |key| <= 32 && nn <= 32
    ensures Blake2s(key, data, nn) == ChainBytes(Blake2sState(key, data, nn))[..nn]
  {
  }

  /** A key and a message of one block. */
  lemma KeyAndBlock(key: seq<u8>, data: seq<u8>, nn: nat)
    requires |key| == 32 && 0 < |data| <= 64 && nn <= 32
    ensures Blake2s(key, data, nn)
            == ChainBytes(F(F(Start(32, nn), Filled(key), 64, false), Filled(data), |data| + 64, true))[..nn]
  {
    PaddedIsFilled(key);
    PaddedIsFilled(data);
    var d := MessageBlocks(key, data);
    assert d == Filled(key) + Filled(data);
    assert d[64..] == Filled(data) && d[64 * 0..64 * 1] == Filled(key);
    hide *;
    TwoBlocks(key, data, nn, Filled(key), Filled(data));
    AbsorbFirst(Start(32, nn), d);
    Cut(key, data, nn);
  }

  /** The bytes of a word, lowest first. */
  lemma BytesOf(x: u32, p: bv32, b0: u8, b1: u8, b2: u8, b3: u8)
    requires Bv(x as int) == p && Value(p) == b0 as int + 0x100 * b1 as int + 0x1_0000 * b2 as int + 0x100_0000 * b3 as int
    ensures WordBytes(x) == [b0, b1, b2, b3]
  {
    hide Bv, Value;
    WordIs(x, p);
    var v, c1, c2, c3 := x as int, b1 as int, b2 as int, b3 as int;
    DivUnique(v, 0x100, c1 + 0x100 * c2 + 0x1_0000 * c3, b0 as int);
    DivUnique(v, 0x1_0000, c2 + 0x100 * c3, b0 as int + 0x100 * c1);
    DivUnique(v, 0x100_0000, c3, b0 as int + 0x100 * c1 + 0x1_0000 * c2);
    DivUnique(c1 + 0x100 * c2 + 0x1_0000 * c3, 0x100, c2 + 0x100 * c3, c1);
    DivUnique(c2 + 0x100 * c3, 0x100, c3, c2);
    FourBytes(x, v);
  }

  lemma FourBytes(x: u32, v: int)
    requires v == x as int
    ensures WordBytes(x) == [(v % 256) as u8, (v / 0x100 % 256) as u8, (v / 0x1_0000 % 256) as u8, (v / 0x100_0000 % 256) as u8]
  {
  }
}
