/** The streaming BLAKE2s implementation: a 64-byte buffer flushed only when more data arrives, and a byte counter
    in two 32-bit words. */
module Blake2sStream {
  import opened Words
  import opened Powers
  import Bits
  import opened Rfc7693

  // ---- compression in place ----

  /** (x >> n) | (x << (32 - n)) */
  function Rotr32(x: u32, n: nat): u32
    requires 0 < n < 32
  {
    RotateRange(x as int, n);
    Bits.ShrIsDiv(x as int, n);
    Bits.ShrBound(x as int, n);
    Bits.Or32((x as int / Pow2(n)) as u32, ((x as int * Pow2(32 - n)) % TWO32) as u32)
  }

  lemma RotrIsRotate(x: u32, n: nat)
    requires 0 < n < 32
    ensures Rotr32(x, n) == Rotate(x, n)
  {
    var p, q := Pow2(n), Pow2(32 - n);
    RotateRange(x as int, n);
    var d, r := x as int / p, x as int % p;
    Regroup(d, r, q, p);
    BelowProduct(r, q, p);
    DivUnique(x as int * q, TWO32, d, r * q);
    Bits.OrDisjoint(r, d, 32 - n);
    Bits.OrCommutes(r * q, d);
  }

  lemma BelowProduct(r: nat, q: nat, p: nat)
    requires r < p && q > 0
    ensures r * q < p * q
  {
  }

  lemma SumAssociates(x: u32, y: u32, z: u32)
    ensures Sum(x, Sum(y, z)) == Sum(Sum(x, y), z)
  {
  }

  lemma XorAssociates(x: u32, y: u32, z: u32)
    ensures Xor(x, Xor(y, z)) == Xor(Xor(x, y), z)
  {
    Bits.XorAssociates(x as int, y as int, z as int);
  }

  method Mix(v: array<u32>, a: nat, b: nat, c: nat, d: nat, x: u32, y: u32)
    requires v.Length == 16 && Quarter(a, b, c, d)
    modifies v
    ensures v[..] == G(old(v[..]), a, b, c, d, x, y)
  {
    hide Sum, Xor, Rotate, Rotr32;
    ghost var u := v[..];
    SumAssociates(v[a], v[b], x);
    v[a] := Sum(v[a], Sum(v[b], x));
    RotrIsRotate(Xor(v[d], v[a]), 16);
    v[d] := Rotr32(Xor(v[d], v[a]), 16);
    v[c] := Sum(v[c], v[d]);
    RotrIsRotate(Xor(v[b], v[c]), 12);
    v[b] := Rotr32(Xor(v[b], v[c]), 12);
    SumAssociates(v[a], v[b], y);
    v[a] := Sum(v[a], Sum(v[b], y));
    RotrIsRotate(Xor(v[d], v[a]), 8);
    v[d] := Rotr32(Xor(v[d], v[a]), 8);
    v[c] := Sum(v[c], v[d]);
    RotrIsRotate(Xor(v[b], v[c]), 7);
    v[b] := Rotr32(Xor(v[b], v[c]), 7);
    assert v[..] == u[a := v[a]][b := v[b]][c := v[c]][d := v[d]];
  }

  method MixColumns(v: array<u32>, m: array<u32>, s: Schedule)
    requires v.Length == 16 && m.Length == 16 && v != m
    modifies v
    ensures v[..] == Columns(old(v[..]), m[..], s)
  {
    hide G;
    Mix(v, 0, 4, 8, 12, m[s[0]], m[s[1]]);
    Mix(v, 1, 5, 9, 13, m[s[2]], m[s[3]]);
    Mix(v, 2, 6, 10, 14, m[s[4]], m[s[5]]);
    Mix(v, 3, 7, 11, 15, m[s[6]], m[s[7]]);
  }

  method MixDiagonals(v: array<u32>, m: array<u32>, s: Schedule)
    requires v.Length == 16 && m.Length == 16 && v != m
    modifies v
    ensures v[..] == Diagonals(old(v[..]), m[..], s)
  {
    hide G;
    Mix(v, 0, 5, 10, 15, m[s[8]], m[s[9]]);
    Mix(v, 1, 6, 11, 12, m[s[10]], m[s[11]]);
    Mix(v, 2, 7, 8, 13, m[s[12]], m[s[13]]);
    Mix(v, 3, 4, 9, 14, m[s[14]], m[s[15]]);
  }

  method LoadWords(block: Block) returns (m: array<u32>)
    ensures fresh(m) && m.Length == 16 && m[..] == MessageWords(block)
  {
    hide Word;
    m := new u32[16];
    var i := 0;
    while i < 16
      invariant 0 <= i <= 16
      invariant forall k :: 0 <= k < i ==> m[k] == Word(block[4 * k..4 * k + 4])
    {
      m[i] := Word(block[4 * i..4 * i + 4]);
      i := i + 1;
    }
  }

  method LocalState(h: array<u32>, t0: u32, t1: u32, last: bool, ghost t: nat) returns (v: array<u32>)
    requires h.Length == 8 && t0 == Low(t) && t1 == High(t)
    ensures fresh(v) && v.Length == 16 && v[..] == Local(h[..], t, last)
  {
    hide Xor, Low, High;
    var iv := Iv();
    v := new u32[] [h[0], h[1], h[2], h[3], h[4], h[5], h[6], h[7], iv[0], iv[1], iv[2], iv[3],
                     Xor(t0, iv[4]), Xor(t1, iv[5]), iv[6], iv[7]];
    XorCommutes(t0, iv[4]);
    XorCommutes(t1, iv[5]);
    if last {
      v[14] := Xor(v[14], 0xffff_ffff);
    }
    assert v[..] == Local(h[..], t, last);
  }

  lemma XorCommutes(x: u32, y: u32)
    ensures Xor(x, y) == Xor(y, x)
  {
    Bits.XorCommutes(x as int, y as int);
  }

  /** Folds one block into the chain value. */
  method Compress(h: array<u32>, block: Block, t0: u32, t1: u32, last: bool, ghost t: nat)
    requires h.Length == 8 && t0 == Low(t) && t1 == High(t)
    modifies h
    ensures h[..] == F(old(h[..]), block, t, last)
  {
    hide Xor, Columns, Diagonals, Local, Sigma, MessageWords, Low, High;
    ghost var h0 := h[..];
    var m := LoadWords(block);
    var v := LocalState(h, t0, t1, last, t);
    ghost var v0 := v[..];
    var i := 0;
    while i < 10
      invariant 0 <= i <= 10
      invariant m[..] == MessageWords(block) && h[..] == h0
      invariant v[..] == Rounds(v0, m[..], i)
    {
      MixColumns(v, m, Sigma(i));
      MixDiagonals(v, m, Sigma(i));
      i := i + 1;
    }
    ghost var v1 := v[..];
    i := 0;
    while i < 8
      invariant 0 <= i <= 8 && v[..] == v1
      invariant forall k :: 0 <= k < i ==> h[k] == Xor(Xor(h0[k], v[k]), v[k + 8])
      invariant forall k :: i <= k < 8 ==> h[k] == h0[k]
    {
      XorAssociates(h[i], v[i], v[i + 8]);
      h[i] := Xor(h[i], Xor(v[i], v[i + 8]));
      i := i + 1;
    }
    assert h[..] == FoldBack(h0, v[..]);
  }

  // ---- the stream ----

  /** The bytes that precede the data: the key, padded to a block, if there is one. */
  function KeyBlock(key: seq<u8>): (b: seq<u8>)
    requires |key| <= 32
    ensures |b| == (if |key| == 0 then 0 else 64)
  {
    Padded(key)
  }

  /** The parameter word of an unkeyed or keyed hash, or-ed together from its parts. */
  function Parameters(kk: nat, nn: nat): u32
    requires kk <= 32 && nn <= 32
  {
    Bits.Or32(Bits.Or32(0x0101_0000, kk as u32 * 0x100), nn as u32)
  }

  lemma ParametersAreXored(x: u32, kk: nat, nn: nat)
    requires kk <= 32 && nn <= 32
    ensures Xor(x, Parameters(kk, nn)) == Xor(Xor(Xor(x, 0x0101_0000), kk as u32 * 0x100), nn as u32)
  {
    Pow2Values();
    Bits.OrDisjoint(0x101, kk * 0x100, 16);
    Bits.OrDisjoint(0x1_0100 + kk, nn, 8);
    Bits.XorDisjoint(0x101, kk * 0x100, 16);
    Bits.XorDisjoint(0x1_0100 + kk, nn, 8);
    XorAssociates(Xor(x, 0x0101_0000), kk as u32 * 0x100, nn as u32);
    XorAssociates(x, 0x0101_0000, Xor(kk as u32 * 0x100, nn as u32));
    XorAssociates(0x0101_0000, kk as u32 * 0x100, nn as u32);
    hide Bits.Xor, Bits.Or, Pow2;
  }

  lemma {:induction false} AbsorbPrefix(h: Chain, d: seq<u8>, e: seq<u8>, n: nat)
    requires 64 * n <= |d|
    ensures Absorb(h, d + e, n) == Absorb(h, d, n)
  {
    hide F;
    if n > 0 {
      AbsorbPrefix(h, d, e, n - 1);
      assert (d + e)[64 * (n - 1)..64 * n] == d[64 * (n - 1)..64 * n];
    }
  }

  /** Adding up to a block to the low word, with a carry into the high word when it wraps. */
  lemma CounterAdds(t: nat, n: nat)
    requires n <= 64
    ensures var low := ((Low(t) as int + n) % TWO32) as u32;
            && low == Low(t + n)
            && (if low as int < n then ((High(t) as int + 1) % TWO32) as u32 else High(t)) == High(t + n)
  {
    var q, r := t / TWO32, t % TWO32;
    if r + n < TWO32 {
      DivUnique(t + n, TWO32, q, r + n);
    } else {
      DivUnique(t + n, TWO32, q + 1, r + n - TWO32);
      NextMod(q);
    }
  }

  /** The two counter words together are the byte count, up to 2^64. */
  lemma CounterValue(t: nat)
    ensures Low(t) as int + TWO32 * High(t) as int == t % TWO64
  {
    var q, r := t / TWO32, t % TWO32;
    var top, high := q / TWO32, q % TWO32;
    assert t == top * TWO64 + (TWO32 * high + r);
    DivUnique(t, TWO64, top, TWO32 * high + r);
  }

  lemma NextMod(q: nat)
    ensures (q + 1) % TWO32 == (q % TWO32 + 1) % TWO32
  {
  }

  /** The blocks of the whole message: the bytes that went through the stream, then zeros. */
  lemma BlocksOfMessage(key: seq<u8>, data: seq<u8>)
    requires |key| <= 32
    ensures var m, d := KeyBlock(key) + data, MessageBlocks(key, data);
            var done := if m == [] then 0 else (|m| - 1) / 64;
            |d| == 64 * (done + 1) && d == m + Zeros(|d| - |m|)
  {
    var m, d := KeyBlock(key) + data, MessageBlocks(key, data);
    if m != [] {
      assert d == m + Zeros((64 - |data| % 64) % 64);
    } else {
      assert d == m + Zeros(64);
    }
  }

  function Message(key: seq<u8>, data: seq<u8>): seq<u8>
    requires |key| <= 32
  {
    KeyBlock(key) + data
  }

  /** Whole blocks to be compressed before the final one: all but the last, which waits in the buffer. */
  function Done(m: seq<u8>): (n: nat)
    ensures 64 * n <= |m| && |m| <= 64 * n + 64 && (m != [] ==> 64 * n < |m|)
  {
    if m == [] then 0 else (|m| - 1) / 64
  }

  /** The state holds everything but the last block in the chain value and counter, the last block in the buffer. */
  predicate Holds(h: seq<u32>, buf: seq<u8>, t0: u32, t1: u32, nn: nat, m: seq<u8>, kk: nat) {
    var c := Done(m);
    && |h| == 8 && kk <= 32 && nn <= 32
    && buf == m[64 * c..] && t0 == Low(64 * c) && t1 == High(64 * c)
    && h == Absorb(Start(kk, nn), m, c)
  }

  lemma InitialHolds(h: seq<u32>, nn: nat, key: seq<u8>)
    requires |key| <= 32 && nn <= 32
    requires h == Iv()[0 := Xor(Iv()[0], Parameters(|key|, nn))]
    ensures Holds(h, KeyBlock(key), 0, 0, nn, Message(key, []), |key|)
  {
    ParametersAreXored(Iv()[0], |key|, nn);
    hide Xor, F, Parameters, Iv, Padded;
    assert Message(key, []) == KeyBlock(key);
    assert KeyBlock(key)[0..] == KeyBlock(key);
  }

  class Stream {
    const h: array<u32>
    const buf: array<u8>
    var t0: u32
    var t1: u32
    var buflen: nat
    const nn: nat
    ghost const key: seq<u8>
    /** All the data given so far. */
    ghost var data: seq<u8>

    ghost predicate Valid()
      reads this, h, buf
    {
      && h.Length == 8 && buf.Length == 64 && |key| <= 32 && nn <= 32 && buflen <= 64
      && Holds(h[..], buf[..buflen], t0, t1, nn, Message(key, data), |key|)
    }

    constructor (outLen: nat, k: seq<u8>)
      requires outLen <= 32 && |k| <= 32
      ensures Valid() && fresh(h) && fresh(buf) && nn == outLen && key == k && data == []
    {
      hide Xor, F, Parameters, Iv, Holds;
      var iv := Iv();
      h := new u32[8](i requires 0 <= i < 8 => if i == 0 then Xor(iv[0], Parameters(|k|, outLen)) else iv[i]);
      buf := new u8[64](i requires 0 <= i < 64 => if i < |k| then k[i] else 0);
      t0, t1 := 0, 0;
      buflen := if |k| > 0 then 64 else 0;
      nn := outLen;
      key, data := k, [];
      new;
      assert buf[..buflen] == KeyBlock(k);
      InitialHolds(h[..], outLen, k);
    }

    /** Counts one block and folds it into the chain value. */
    method Flush(block: Block, ghost m: seq<u8>, ghost c: nat)
      requires h.Length == 8 && |key| <= 32 && nn <= 32 && 64 * c + 64 <= |m| && block == m[64 * c..64 * c + 64]
      requires t0 == Low(64 * c) && t1 == High(64 * c) && h[..] == Absorb(Start(|key|, nn), m, c)
      modifies this`t0, this`t1, h
      ensures t0 == Low(64 * (c + 1)) && t1 == High(64 * (c + 1)) && h[..] == Absorb(Start(|key|, nn), m, c + 1)
    {
      hide F, Low, High, Start;
      CounterAdds(64 * c, 64);
      t0 := ((t0 as int + 64) % TWO32) as u32;
      if t0 < 64 {
        t1 := ((t1 as int + 1) % TWO32) as u32;
      }
      Compress(h, block, t0, t1, false, 64 * (c + 1));
    }

    /** Appends to the buffer. */
    method Keep(bytes: seq<u8>)
      requires buf.Length == 64 && buflen + |bytes| <= 64
      modifies buf, this`buflen
      ensures buflen == old(buflen) + |bytes| && buf[..buflen] == old(buf[..buflen]) + bytes
    {
      forall i | 0 <= i < |bytes| { buf[buflen + i] := bytes[i]; }
      buflen := buflen + |bytes|;
      assert buf[..buflen] == old(buf[..buflen]) + bytes;
    }

    /** Fills the buffer and flushes it, then flushes straight from the data while more than a block is left. */
    method FlushAll(chunk: seq<u8>, ghost m: seq<u8>, ghost m': seq<u8>) returns (p: nat, ghost c: nat)
      requires h.Length == 8 && buf.Length == 64 && |key| <= 32 && m' == m + chunk
      requires buflen <= 64 < buflen + |chunk| && Holds(h[..], buf[..buflen], t0, t1, nn, m, |key|)
      modifies this`t0, this`t1, this`buflen, h, buf
      ensures buflen == 0 && p < |chunk| && |chunk| - p <= 64
      ensures 64 * c < |m'| <= 64 * c + 64 && chunk[p..] == m'[64 * c..]
      ensures t0 == Low(64 * c) && t1 == High(64 * c) && h[..] == Absorb(Start(|key|, nn), m', c)
    {
      hide F, Low, High, Start, Absorb, Done;
      c := Done(m);
      var fill := 64 - buflen;
      AbsorbPrefix(Start(|key|, nn), m, chunk, c);
      Keep(chunk[..fill]);
      assert buf[..] == buf[..64];
      assert buf[..] == m'[64 * c..64 * c + 64];
      Flush(buf[..], m', c);
      p, c, buflen := fill, c + 1, 0;
      var len := |chunk| - fill;
      while len > 64
        invariant 0 < len && p + len == |chunk| && 64 * c + len == |m'| && buflen == 0
        invariant t0 == Low(64 * c) && t1 == High(64 * c) && h[..] == Absorb(Start(|key|, nn), m', c)
      {
        FlushBlock(chunk, p, m, c);
        Flush(chunk[p..p + 64], m', c);
        p, c, len := p + 64, c + 1, len - 64;
      }
      FlushRest(chunk, p, m, c);
    }

    method Update(chunk: seq<u8>)
      requires Valid() && |chunk| < 0x8000_0000
      modifies this`t0, this`t1, this`buflen, this`data, h, buf
      ensures Valid() && data == old(data) + chunk
    {
      hide F, Low, High, Start, Absorb, Holds, KeyBlock, Message, Done;
      if |chunk| == 0 {
        assert data + chunk == data;
        return;
      }
      ghost var m, m' := Message(key, data), Message(key, data + chunk);
      MessageGrows(key, data, chunk);
      if |chunk| > 64 - buflen {
        var p;
        ghost var c;
        p, c := FlushAll(chunk, m, m');
        Keep(chunk[p..]);
        assert [] + chunk[p..] == chunk[p..];
        NowHolds(h[..], buf[..buflen], t0, t1, nn, m', |key|, c);
      } else {
        BufferHolds(h[..], buf[..buflen], t0, t1, nn, m, |key|, chunk);
        Keep(chunk);
      }
      data := data + chunk;
    }

    /** The digest: everything after the last update is one final block, padded with zeros. */
    method Final() returns (out: seq<u8>)
      requires Valid()
      modifies this`t0, this`t1, h, buf
      ensures out == ChainBytes(Blake2sState(key, data, nn))
    {
      hide F, Low, High, Start, Absorb, ChainBytes, MessageBlocks;
      ghost var m := Message(key, data);
      ghost var c := Done(m);
      CounterAdds(64 * c, buflen);
      var n := buflen as u32;
      t0 := ((t0 as int + n as int) % TWO32) as u32;
      if t0 < n {
        t1 := ((t1 as int + 1) % TWO32) as u32;
      }
      ghost var kept := buf[..buflen];
      forall i | buflen <= i < 64 { buf[i] := 0; }
      assert buf[..] == kept + Zeros(64 - buflen);
      LastBlock(key, data, kept, nn);
      assert 64 * c + |kept| == |m|;
      hide Blake2sState;
      assert h[..] == Absorb(Start(|key|, nn), m, c);
      assert t0 == Low(|m|);
      assert t1 == High(|m|);
      Compress(h, buf[..], t0, t1, true, |m|);
      assert h[..] == F(Absorb(Start(|key|, nn), m, c), kept + Zeros(64 - |kept|), |m|, true);
      out := ChainBytes(h[..]);
    }
  }

  lemma MessageGrows(key: seq<u8>, data: seq<u8>, chunk: seq<u8>)
    requires |key| <= 32
    ensures Message(key, data + chunk) == Message(key, data) + chunk
  {
    hide KeyBlock;
  }

  lemma FlushBlock(chunk: seq<u8>, p: nat, m: seq<u8>, c: nat)
    requires p + 64 <= |chunk| && 64 * c + |chunk| - p == |m| + |chunk|
    ensures chunk[p..p + 64] == (m + chunk)[64 * c..64 * c + 64]
  {
  }

  lemma FlushRest(chunk: seq<u8>, p: nat, m: seq<u8>, c: nat)
    requires p <= |chunk| && 64 * c + |chunk| - p == |m| + |chunk|
    ensures chunk[p..] == (m + chunk)[64 * c..]
  {
  }

  lemma NowHolds(h: seq<u32>, buf: seq<u8>, t0: u32, t1: u32, nn: nat, m: seq<u8>, kk: nat, c: nat)
    requires |h| == 8 && kk <= 32 && nn <= 32 && 64 * c < |m| <= 64 * c + 64
    requires buf == m[64 * c..] && t0 == Low(64 * c) && t1 == High(64 * c) && h == Absorb(Start(kk, nn), m, c)
    ensures Holds(h, buf, t0, t1, nn, m, kk)
  {
    DoneIs(m, c);
    hide Absorb, Start;
  }

  /** Data that fits is only added to the buffer. */
  lemma BufferHolds(h: seq<u32>, buf: seq<u8>, t0: u32, t1: u32, nn: nat, m: seq<u8>, kk: nat, chunk: seq<u8>)
    requires Holds(h, buf, t0, t1, nn, m, kk) && 0 < |chunk| <= 64 - |buf|
    ensures Holds(h, buf + chunk, t0, t1, nn, m + chunk, kk)
  {
    hide Absorb, Start;
    var c := Done(m);
    AbsorbPrefix(Start(kk, nn), m, chunk, c);
    assert buf + chunk == (m + chunk)[64 * c..];
    DoneIs(m + chunk, c);
  }

  lemma DoneIs(m: seq<u8>, c: nat)
    requires 64 * c < |m| <= 64 * c + 64
    ensures Done(m) == c
  {
  }

  /** What is left in the buffer, padded, is the last block of the whole message. */
  lemma LastBlock(key: seq<u8>, data: seq<u8>, kept: seq<u8>, nn: nat)
    requires |key| <= 32 && nn <= 32
    requires var m := Message(key, data); kept == m[64 * Done(m)..]
    ensures var m := Message(key, data);
            Blake2sState(key, data, nn) == F(Absorb(Start(|key|, nn), m, Done(m)), kept + Zeros(64 - |kept|), |m|, true)
  {
    hide F, Start, Absorb;
    var m, d := Message(key, data), MessageBlocks(key, data);
    BlocksOfMessage(key, data);
    hide MessageBlocks;
    var c := Done(m);
    AbsorbPrefix(Start(|key|, nn), m, Zeros(|d| - |m|), c);
    assert d[64 * c..] == kept + Zeros(64 - |kept|);
  }

  // ---- the message authentication codes ----

  method Blake2s256(data: seq<u8>) returns (out: seq<u8>)
    requires |data| < 0x8000_0000
    ensures out == Blake2s([], data, 32)
  {
    hide Blake2sState, ChainBytes, Holds, Message;
    var st := new Stream(32, []);
    st.Update(data);
    assert [] + data == data;
    out := st.Final();
    assert out == out[..32];
  }

  method Blake2s128Mac(key: seq<u8>, data: seq<u8>) returns (out: seq<u8>)
    requires |key| == 32 && |data| < 0x8000_0000
    ensures out == Blake2s(key, data, 16)
  {
    hide Blake2sState, ChainBytes, Holds, Message;
    var st := new Stream(16, key);
    st.Update(data);
    assert [] + data == data;
    var full := st.Final();
    out := full[..16];
  }

  /** The WireGuard label for MAC1 keys. */
  function Label(): (b: seq<u8>)
    ensures |b| == 8
  {
    [0x6d, 0x61, 0x63, 0x31, 0x2d, 0x2d, 0x2d, 0x2d]
  }

  function Mac1Key(pubkey: seq<u8>): seq<u8> {
    Blake2s([], Label() + pubkey, 32)
  }

  method ComputeMac1Key(pubkey: seq<u8>) returns (mac1key: seq<u8>)
    requires |pubkey| == 32
    ensures mac1key == Mac1Key(pubkey)
  {
    hide Blake2s;
    mac1key := Blake2s256(Label() + pubkey);
  }

  /** For the packet that starts at base, overwrites the 16 bytes at `at` with the MAC of everything before them. */
  method RecomputeMacAt(buf: array<u8>, base: nat, at: nat, mac1key: seq<u8>)
    requires base + at + 16 <= buf.Length && |mac1key| == 32 && at < 0x8000_0000
    modifies buf
    ensures buf[..] == old(buf[..base + at]) + Blake2s(mac1key, old(buf[base..base + at]), 16) + old(buf[base + at + 16..])
  {
    hide Blake2s;
    ghost var before := buf[..];
    var mac1 := Blake2s128Mac(mac1key, buf[base..base + at]);
    forall i | 0 <= i < 16 { buf[base + at + i] := mac1[i]; }
    assert buf[..] == before[..base + at] + mac1 + before[base + at + 16..];
  }

  /** Handshake initiation: MAC1 at 116. */
  method RecomputeMac1(buf: array<u8>, base: nat, mac1key: seq<u8>)
    requires base + 132 <= buf.Length && |mac1key| == 32
    modifies buf
    ensures buf[..] == old(buf[..base + 116]) + Blake2s(mac1key, old(buf[base..base + 116]), 16) + old(buf[base + 132..])
  {
    RecomputeMacAt(buf, base, 116, mac1key);
  }

  /** Handshake response: MAC1 at 60. */
  method RecomputeMac1Response(buf: array<u8>, base: nat, mac1key: seq<u8>)
    requires base + 76 <= buf.Length && |mac1key| == 32
    modifies buf
    ensures buf[..] == old(buf[..base + 60]) + Blake2s(mac1key, old(buf[base..base + 60]), 16) + old(buf[base + 76..])
  {
    RecomputeMacAt(buf, base, 60, mac1key);
  }
}
