/** The translation carried out in place on packet buffers, and the computation of the derived configuration. */
module TransformBuffers {
  import opened Wrappers
  import opened Words
  import opened Transform
  import Rfc = Rfc7693
  import Mac = Blake2sStream
  import FastRand
  import Bits

  // ---- derived configuration ----

  function Mac1Keys(pubs: seq<seq<u8>>): seq<seq<u8>> {
    if pubs == [] then [] else Mac1Keys(pubs[..|pubs| - 1]) + [Mac.Mac1Key(pubs[|pubs| - 1])]
  }

  predicate KeysSized(c: Config) {
    |c.serverPub| == 32 && |c.clientPub| == 32 && forall i :: 0 <= i < |c.peerPubs| ==> |c.peerPubs[i]| == 32
  }

  /** The configuration with every derived field filled in. */
  function Derived(c: Config): Config
    requires KeysSized(c)
  {
    hide Mac.Mac1Key;
    var server, client := c.serverPub != Rfc.Zeros(32), c.clientPub != Rfc.Zeros(32);
    var sKey, cKey := Mac.Mac1Key(c.serverPub), Mac.Mac1Key(c.clientPub);
    var init, resp, cookie, tmin := c.s1 + WG_INIT_SIZE, c.s2 + WG_RESP_SIZE, c.s3 + WG_COOKIE_SIZE, c.s4 + WG_TRANSPORT_MIN;
    var toServer, toClient := if server then Some(sKey) else None, if client then Some(cKey) else None;
    c.(hasServerPub := server, hasClientPub := client, mac1keyServer := sKey, mac1keyClient := cKey,
       peerMac1keys := Mac1Keys(c.peerPubs), h4Fixed := c.h4.min,
       h4Noop := c.h4.min == 4 && c.h4.max == 4 && c.s4 == 0,
       initTotal := init, respTotal := resp, cookieTotal := cookie,
       transportSizeAmbiguous := init >= tmin || resp >= tmin || cookie >= tmin,
       mac1keyOut := if c.mode == Client then toServer else toClient,
       mac1keyIn := if c.mode == Client then toClient else toServer)
  }

  lemma DerivedIsComputed(c: Config)
    requires KeysSized(c)
    ensures Computed(Derived(c)) && Validate(Derived(c)) == Validate(c) && (WellRanged(c) ==> WellRanged(Derived(c)))
  {
    hide Rfc.Blake2s;
  }

  /** The two ends of a link recompute MAC1 in each direction under one and the same key. */
  lemma EndsShareKeys(c: Config, g: Config)
    requires KeysSized(c) && KeysSized(g) && c.mode == Client && g.mode != Client
    requires c.serverPub == g.serverPub && c.clientPub == g.clientPub
    ensures Derived(c).mac1keyOut == Derived(g).mac1keyIn && Derived(g).mac1keyOut == Derived(c).mac1keyIn
  {
    hide Mac.Mac1Key;
  }

  class ConfigRecord {
    var c: Config

    method ConfigValidate() returns (err: Option<string>)
      ensures err == Validate(c)
      ensures err.None? && WellRanged(c) ==>
                && 0 <= c.s1 && c.s1 + 148 <= 1500 && 0 <= c.s2 && c.s2 + 92 <= 1500 && 0 <= c.s3 && c.s3 + 64 <= 1500
                && 0 <= c.s4 <= 1500
                && forall v: u32 :: !(c.h1.Contains(v) && c.h2.Contains(v)) && !(c.h1.Contains(v) && c.h3.Contains(v))
                                    && !(c.h1.Contains(v) && c.h4.Contains(v)) && !(c.h2.Contains(v) && c.h3.Contains(v))
                                    && !(c.h2.Contains(v) && c.h4.Contains(v)) && !(c.h3.Contains(v) && c.h4.Contains(v))
    {
      if c.jc < 0 { return Some("AWG_JC: must be non-negative"); }
      if c.jmin < 0 || c.jmax < 0 { return Some("AWG_JMIN/AWG_JMAX: must be non-negative"); }
      if c.jmax >= 65535 { return Some("AWG_JMAX: must be smaller than 65535"); }
      if c.jmax > 0 && c.jmax < c.jmin { return Some("AWG_JMAX: must be greater than or equal to AWG_JMIN"); }
      if c.s1 < 0 || c.s1 > AWG_PACKET_BUF_SIZE - WG_INIT_SIZE { return Some("AWG_S1: must be between 0 and 1352"); }
      if c.s2 < 0 || c.s2 > AWG_PACKET_BUF_SIZE - WG_RESP_SIZE { return Some("AWG_S2: must be between 0 and 1408"); }
      if c.s3 < 0 || c.s3 > AWG_PACKET_BUF_SIZE - WG_COOKIE_SIZE { return Some("AWG_S3: must be between 0 and 1436"); }
      if c.s4 < 0 || c.s4 > AWG_PACKET_HEADROOM { return Some("AWG_S4: must be between 0 and 1500"); }
      if c.h1.Overlaps(c.h2) || c.h1.Overlaps(c.h3) || c.h1.Overlaps(c.h4)
         || c.h2.Overlaps(c.h3) || c.h2.Overlaps(c.h4) || c.h3.Overlaps(c.h4) {
        return Some("AWG_H1..AWG_H4: ranges must not overlap");
      }
      return None;
    }

    method ComputeKeys()
      requires KeysSized(c)
      modifies this
      ensures c == old(c.(hasServerPub := c.serverPub != Rfc.Zeros(32), hasClientPub := c.clientPub != Rfc.Zeros(32),
                          mac1keyServer := Mac.Mac1Key(c.serverPub), mac1keyClient := Mac.Mac1Key(c.clientPub),
                          peerMac1keys := Mac1Keys(c.peerPubs)))
    {
      hide Mac.Mac1Key, Mac1Keys, Rfc.Zeros;
      var z := Rfc.Zeros(32);
      c := c.(hasServerPub := c.serverPub != z);
      c := c.(hasClientPub := c.clientPub != z);
      var sKey := Mac.ComputeMac1Key(c.serverPub);
      var cKey := Mac.ComputeMac1Key(c.clientPub);
      c := c.(mac1keyServer := sKey, mac1keyClient := cKey);
      var keys := PeerKeys(c.peerPubs);
      c := c.(peerMac1keys := keys);
    }

    method ComputeHeader()
      modifies this
      ensures c == old(c.(h4Fixed := c.h4.min, h4Noop := c.h4.min == 4 && c.h4.max == 4 && c.s4 == 0))
    {
      c := c.(h4Fixed := c.h4.min, h4Noop := c.h4.min == 4 && c.h4.max == 4 && c.s4 == 0);
    }

    method ComputeTotals()
      modifies this
      ensures var o := old(c); var tmin := o.s4 + WG_TRANSPORT_MIN;
              c == o.(initTotal := o.s1 + WG_INIT_SIZE, respTotal := o.s2 + WG_RESP_SIZE, cookieTotal := o.s3 + WG_COOKIE_SIZE,
                      transportSizeAmbiguous :=
                        o.s1 + WG_INIT_SIZE >= tmin || o.s2 + WG_RESP_SIZE >= tmin || o.s3 + WG_COOKIE_SIZE >= tmin)
    {
      c := c.(initTotal := c.s1 + WG_INIT_SIZE, respTotal := c.s2 + WG_RESP_SIZE, cookieTotal := c.s3 + WG_COOKIE_SIZE);
      var tmin := c.s4 + WG_TRANSPORT_MIN;
      c := c.(transportSizeAmbiguous := c.initTotal >= tmin || c.respTotal >= tmin || c.cookieTotal >= tmin);
    }

    method ConfigCompute()
      requires KeysSized(c)
      modifies this
      ensures c == Derived(old(c))
    {
      hide Mac.Mac1Key, Mac1Keys, Rfc.Zeros;
      ComputeKeys();
      ComputeHeader();
      ComputeTotals();
      if c.mode == Client {
        c := c.(mac1keyOut := if c.hasServerPub then Some(c.mac1keyServer) else None,
                mac1keyIn := if c.hasClientPub then Some(c.mac1keyClient) else None);
      } else {
        c := c.(mac1keyOut := if c.hasClientPub then Some(c.mac1keyClient) else None,
                mac1keyIn := if c.hasServerPub then Some(c.mac1keyServer) else None);
      }
    }
  }

  method PeerKeys(pubs: seq<seq<u8>>) returns (keys: seq<seq<u8>>)
    requires forall i :: 0 <= i < |pubs| ==> |pubs[i]| == 32
    ensures keys == Mac1Keys(pubs)
  {
    hide Mac.Mac1Key;
    keys := [];
    var i := 0;
    while i < |pubs|
      invariant 0 <= i <= |pubs| && keys == Mac1Keys(pubs[..i])
    {
      var key := Mac.ComputeMac1Key(pubs[i]);
      assert pubs[..i + 1][..i] == pubs[..i];
      keys := keys + [key];
      i := i + 1;
    }
    assert pubs[..i] == pubs;
  }

  // ---- packet buffers ----

  method Write32(buf: array<u8>, at: nat, v: u32)
    requires at + 4 <= buf.Length
    modifies buf
    ensures buf[..] == old(buf[..at]) + Word32(v) + old(buf[at + 4..])
  {
    var w := Word32(v);
    FastRand.Put(buf, at, w);
  }

  method Clear16(buf: array<u8>, at: nat)
    requires at + 16 <= buf.Length
    modifies buf
    ensures buf[..] == old(buf[..at]) + Rfc.Zeros(16) + old(buf[at + 16..])
  {
    FastRand.Put(buf, at, Rfc.Zeros(16));
  }

  /** Overwrites the type word of the n-byte packet at base. */
  method Retype(buf: array<u8>, base: nat, n: nat, v: u32)
    requires base + n <= buf.Length && n >= 4
    modifies buf
    ensures buf[..] == old(buf[..base]) + SetType(old(buf[base..base + n]), v) + old(buf[base + n..])
  {
    hide Word32;
    ghost var p, rest := buf[base..base + n], buf[base + n..];
    Write32(buf, base, v);
    assert old(buf[base + 4..]) == p[4..] + rest;
  }

  /** Rewrites MAC1 and clears MAC2 of the n-byte handshake packet at base, if there is a key. */
  method RemacAt(buf: array<u8>, base: nat, n: nat, k: Kind, key: Option<seq<u8>>)
    requires base + n <= buf.Length && KeyOk(key) && n >= 4
    requires (k == Init ==> n == 148) && (k == Resp ==> n == 92)
    modifies buf
    ensures buf[..] == old(buf[..base]) + RemacKind(old(buf[base..base + n]), k, key) + old(buf[base + n..])
  {
    hide Rfc.Blake2s;
    ghost var before, p, rest := buf[..], buf[base..base + n], buf[base + n..];
    assert before == before[..base] + p + rest;
    if key.Some? && (k == Init || k == Resp) {
      var at := MacAt(k);
      if k == Init {
        Mac.RecomputeMac1(buf, base, key.value);
      } else {
        Mac.RecomputeMac1Response(buf, base, key.value);
      }
      assert buf[base..base + at] == p[..at];
      ghost var mac := Mac16(key.value, p[..at]);
      assert p[..at] == before[base..base + at];
      Clear16(buf, base + at + 16);
      RemacSpliced(before, buf[..], base, n, at, mac);
    }
  }

  lemma RemacSpliced(before: seq<u8>, after: seq<u8>, base: nat, n: nat, at: nat, mac: seq<u8>)
    requires base + n <= |before| && at + 32 <= n && |mac| == 16
    requires var mid := before[..base + at] + mac + before[base + at + 16..];
             after == mid[..base + at + 16] + Rfc.Zeros(16) + mid[base + at + 32..]
    ensures var p := before[base..base + n];
            after == before[..base] + (p[..at] + (mac + Rfc.Zeros(16)) + p[at + 32..]) + before[base + n..]
  {
    var p, head, rest := before[base..base + n], before[..base], before[base + n..];
    var mid := before[..base + at] + mac + before[base + at + 16..];
    assert mid[..base + at + 16] == head + p[..at] + mac;
    assert mid[base + at + 32..] == p[at + 32..] + rest;
  }

  /** Puts `pad` random bytes in front of the packet: into the headroom if they fit, else packet and padding go to
      the spare buffer. */
  method Prepend(buf: array<u8>, spare: array<u8>, dataoff: nat, n: nat, pad: nat, seed: u64)
    returns (out: array<u8>, off: nat, outLen: nat)
    requires dataoff + n <= buf.Length && spare != buf && pad + n <= spare.Length
    modifies buf, spare
    ensures (out == buf || out == spare) && off + outLen <= out.Length
    ensures out[off..off + outLen] == FastRand.Bytes(FastRand.Seeded(seed), pad) + old(buf[dataoff..dataoff + n])
    ensures buf[dataoff..] == old(buf[dataoff..]) && (out == buf ==> off + outLen == dataoff + n)
  {
    hide FastRand.Bytes, FastRand.Seeded;
    ghost var p := buf[dataoff..dataoff + n];
    if pad == 0 {
      NoBytes(FastRand.Seeded(seed));
      return buf, dataoff, n;
    }
    var rng := new FastRand.Rng(seed);
    if dataoff >= pad {
      PaddingInFront(buf[..], dataoff, n, pad, FastRand.Bytes(FastRand.Seeded(seed), pad));
      rng.Fill(buf, dataoff - pad, pad);
      out, off, outLen := buf, dataoff - pad, pad + n;
    } else {
      rng.Fill(spare, 0, pad);
      ghost var filled := spare[..];
      FastRand.Put(spare, pad, buf[dataoff..dataoff + n]);
      assert filled[..pad] == FastRand.Bytes(FastRand.Seeded(seed), pad);
      out, off, outLen := spare, 0, pad + n;
    }
  }

  lemma NoBytes(s: u64)
    ensures FastRand.Bytes(s, 0) == []
  {
  }

  lemma PaddingInFront(before: seq<u8>, dataoff: nat, n: nat, pad: nat, bytes: seq<u8>)
    requires pad <= dataoff && dataoff + n <= |before| && |bytes| == pad
    ensures var after := before[..dataoff - pad] + bytes + before[dataoff - pad + pad..];
            && after[dataoff - pad..dataoff + n] == bytes + before[dataoff..dataoff + n]
            && after[dataoff..] == before[dataoff..]
  {
  }

  /** A handshake packet: new type word, MACs under the outbound key, random padding in front. */
  method SendHandshake(buf: array<u8>, spare: array<u8>, dataoff: nat, n: nat, k: Kind, c: Config,
                       key: Option<seq<u8>>, rand: u64) returns (out: array<u8>, off: nat, outLen: nat)
    requires dataoff + n <= buf.Length && spare != buf && spare.Length == AWG_PACKET_BUF_SIZE
    requires Usable(c) && KeyOk(key) && KindOf(buf[dataoff..dataoff + n]) == k && (k == Init || k == Resp || k == Cookie)
    modifies buf, spare
    ensures (out == buf || out == spare) && off + outLen <= out.Length
    ensures out[off..off + outLen] == Outbound(old(buf[dataoff..dataoff + n]), old(buf[..dataoff]), c, key, rand)
    ensures buf[dataoff + n..] == old(buf[dataoff + n..]) && (out == buf ==> off + outLen == dataoff + n)
  {
    hide FastRand.Bytes, FastRand.Seeded, RemacKind, Read32, Validate, Bits.Xor64, SetType;
    ghost var p, head, rest := buf[dataoff..dataoff + n], buf[..dataoff], buf[dataoff + n..];
    PadsFit(c);
    Retype(buf, dataoff, n, Range(c, k).Pick(rand));
    ghost var body := SetType(p, Range(c, k).Pick(rand));
    assert buf[..dataoff] == head && buf[dataoff..dataoff + n] == body && buf[dataoff + n..] == rest;
    RemacAt(buf, dataoff, n, k, key);
    assert buf[dataoff..dataoff + n] == RemacKind(body, k, key) && buf[dataoff + n..] == rest;
    out, off, outLen := Prepend(buf, spare, dataoff, n, Pad(c, k), PadSeed(k, rand));
    assert buf[dataoff + n..] == buf[dataoff..][n..];
  }

  method TransformOutboundWithMac1(buf: array<u8>, spare: array<u8>, dataoff: nat, n: nat, c: Config,
                                   mac1keyOut: Option<seq<u8>>, rand: u64)
    returns (out: array<u8>, off: nat, outLen: nat, sendJunk: bool)
    requires dataoff + n <= buf.Length && spare != buf && spare.Length == AWG_PACKET_BUF_SIZE
    requires Usable(c) && KeyOk(mac1keyOut)
    modifies buf, spare
    ensures (out == buf || out == spare) && off + outLen <= out.Length
    ensures var key := if mac1keyOut.Some? then mac1keyOut else c.mac1keyOut;
            out[off..off + outLen] == Outbound(old(buf[dataoff..dataoff + n]), old(buf[..dataoff]), c, key, rand)
    ensures sendJunk == SendsJunk(old(buf[dataoff..dataoff + n]), c)
    ensures sendJunk <==> c.jc > 0 && n == 148 && Starts(old(buf[dataoff..dataoff + n]), 1)
    ensures buf[dataoff + n..] == old(buf[dataoff + n..]) && (out == buf ==> off + outLen == dataoff + n)
  {
    hide FastRand.Bytes, RemacKind, SetType, Validate, Read32, Starts, Outbound;
    var outKey := if mac1keyOut.Some? then mac1keyOut else c.mac1keyOut;
    ghost var p := buf[dataoff..dataoff + n];
    KindsByBytes(p);
    UnknownIsSent(p, buf[..dataoff], c, outKey, rand);
    sendJunk := false;
    if n < 4 {
      return buf, dataoff, n, false;
    }
    var msgType := Read32(buf[dataoff..dataoff + n], 0);
    if msgType == 1 && n == WG_INIT_SIZE {
      out, off, outLen := SendHandshake(buf, spare, dataoff, n, Init, c, outKey, rand);
      sendJunk := c.jc > 0;
      return;
    }
    if msgType == 2 && n == WG_RESP_SIZE {
      out, off, outLen := SendHandshake(buf, spare, dataoff, n, Resp, c, outKey, rand);
      return;
    }
    if msgType == 3 && n == WG_COOKIE_SIZE {
      out, off, outLen := SendHandshake(buf, spare, dataoff, n, Cookie, c, outKey, rand);
      return;
    }
    if msgType == 4 && n >= WG_TRANSPORT_MIN {
      out, off, outLen := SendTransport(buf, dataoff, n, c, outKey, rand);
      return;
    }
    return buf, dataoff, n, false;
  }

  lemma UnknownIsSent(p: seq<u8>, headroom: seq<u8>, c: Config, key: Option<seq<u8>>, rand: u64)
    requires Usable(c) && KeyOk(key)
    ensures KindOf(p) == Unknown ==> Outbound(p, headroom, c, key, rand) == p
  {
  }

  /** A transport packet: a new type word, and the headroom in front of it if it covers the padding. */
  method SendTransport(buf: array<u8>, dataoff: nat, n: nat, c: Config, ghost key: Option<seq<u8>>, rand: u64)
    returns (out: array<u8>, off: nat, outLen: nat)
    requires dataoff + n <= buf.Length && Usable(c) && KeyOk(key) && KindOf(buf[dataoff..dataoff + n]) == Transport
    modifies buf
    ensures out == buf && off + outLen == dataoff + n
    ensures out[off..off + outLen] == Outbound(old(buf[dataoff..dataoff + n]), old(buf[..dataoff]), c, key, rand)
    ensures buf[dataoff + n..] == old(buf[dataoff + n..])
  {
    hide Read32, SetType, RemacKind;
    PadsFit(c);
    hide Validate;
    ghost var p, head, rest := buf[dataoff..dataoff + n], buf[..dataoff], buf[dataoff + n..];
    if c.h4Noop {
      return buf, dataoff, n;
    }
    Retype(buf, dataoff, n, if c.h4.min == c.h4.max then c.h4Fixed else c.h4.Pick(rand));
    ghost var body := SetType(p, c.h4.Pick(rand));
    assert buf[..] == head + body + rest;
    if c.s4 > 0 && dataoff >= c.s4 {
      assert buf[dataoff - c.s4..dataoff + n] == head[dataoff - c.s4..] + body;
      return buf, dataoff - c.s4, c.s4 + n;
    }
    assert buf[dataoff..dataoff + n] == body;
    return buf, dataoff, n;
  }

  /** Rewrites the packet in place; None for junk. */
  method TransformInbound(buf: array<u8>, n: nat, c: Config) returns (r: Option<nat>, outLen: nat)
    requires n <= buf.Length && Usable(c)
    modifies buf
    ensures r.Some? <==> Inbound(old(buf[..n]), c).Some?
    ensures r.Some? ==> r.value + outLen == n && Some(buf[r.value..n]) == Inbound(old(buf[..n]), c)
    ensures r.Some? ==> Classify(old(buf[..n]), c).Some? && r.value == Classify(old(buf[..n]), c).value.1
    ensures r.None? ==> buf[..] == old(buf[..])
    ensures buf[n..] == old(buf[n..])
  {
    PadsFit(c);
    hide Read32, SetType, RemacKind, Validate, WellRanged;
    ghost var p := buf[..n];
    outLen := 0;
    if n < 4 {
      return None, 0;
    }
    if c.h4Noop && Read32(buf[..n], 0) == 4 && n >= WG_TRANSPORT_MIN {
      PlainInbound(p, c);
      return Some(0), n;
    }
    if n == c.initTotal && c.h1.Contains(Read32(buf[..n], c.s1)) {
      Receive(buf, n, c.s1, Init, c);
      return Some(c.s1), n - c.s1;
    }
    if n == c.respTotal && c.h2.Contains(Read32(buf[..n], c.s2)) {
      Receive(buf, n, c.s2, Resp, c);
      return Some(c.s2), n - c.s2;
    }
    if n == c.cookieTotal && c.h3.Contains(Read32(buf[..n], c.s3)) {
      Receive(buf, n, c.s3, Cookie, c);
      return Some(c.s3), n - c.s3;
    }
    if n >= c.s4 + WG_TRANSPORT_MIN && c.h4.Contains(Read32(buf[..n], c.s4)) {
      Receive(buf, n, c.s4, Transport, c);
      return Some(c.s4), n - c.s4;
    }
    return None, 0;
  }

  lemma PlainInbound(p: seq<u8>, c: Config)
    requires Usable(c) && |p| >= 32 && LooksPlain(p, c)
    ensures Inbound(p, c) == Some(p) && Classify(p, c) == Some((Transport, 0))
  {
    SetTypeBack(p, 4);
    assert p[0..] == p;
    hide Read32, SetType;
  }

  /** Restores type word and MACs of the packet that starts at `at`. */
  method Receive(buf: array<u8>, n: nat, at: nat, k: Kind, c: Config)
    requires at + 4 <= n <= buf.Length && KeyOk(c.mac1keyIn)
    requires (k == Init ==> n - at == 148) && (k == Resp ==> n - at == 92)
    modifies buf
    ensures buf[at..n] == RemacKind(SetType(old(buf[..n])[at..], TypeOf(k)), k, c.mac1keyIn)
    ensures buf[n..] == old(buf[n..])
  {
    hide Read32, SetType, RemacKind;
    ghost var p, rest := buf[at..n], buf[n..];
    assert buf[..n][at..] == p;
    Retype(buf, at, n - at, TypeOf(k));
    assert buf[at..n] == SetType(p, TypeOf(k)) && buf[n..] == rest;
    RemacAt(buf, at, n - at, k, c.mac1keyIn);
  }

  // ---- junk ----

  /** The smallest and the largest junk packet: at least one byte. */
  function JunkMin(c: Config): int { if c.jmin > 0 then c.jmin else 1 }

  function JunkMax(c: Config): int { if c.jmax >= JunkMin(c) then c.jmax else JunkMin(c) }

  /** The sizes of the junk packets sent before a handshake: each at least one byte and at least jmin, small enough
      for the junk buffer of jc * jmax bytes, and drawn one after the other from a generator seeded with the first
      junk bytes. */
  method GenerateJunk(c: Config, junk: seq<u8>) returns (sizes: seq<int>)
    requires Validate(c).None? && |junk| >= 4
    ensures c.jmax > 0 ==> |sizes| == c.jc
    ensures c.jmax == 0 ==> sizes == []
    ensures forall i :: 0 <= i < |sizes| ==> 1 <= sizes[i] && c.jmin <= sizes[i] <= c.jmax
    ensures forall i :: 0 <= i < |sizes| ==>
              sizes[i] == JunkMin(c) + FastRand.Drawn(Bits.Or64(Read32(junk, 0) as u64, 1), i + 1) as int % (JunkMax(c) - JunkMin(c) + 1)
  {
    hide Bits.Or64, FastRand.Step, Read32;
    sizes := [];
    if c.jc <= 0 || c.jmax <= 0 {
      return;
    }
    var jmin := if c.jmin > 0 then c.jmin else 1;
    var jmax := if c.jmax >= jmin then c.jmax else jmin;
    var span := jmax - jmin + 1;
    var seed := Bits.Or64(Read32(junk, 0) as u64, 1);
    assert seed != 0 by { OrOneIsOdd(Read32(junk, 0) as u64); }
    var rng := new FastRand.Rng(seed);
    var i := 0;
    while i < c.jc
      invariant 0 <= i <= c.jc && |sizes| == i && rng.s != 0 && fresh(rng)
      invariant span > 1 ==> rng.s == FastRand.Drawn(seed, i)
      invariant forall k :: 0 <= k < i ==> jmin <= sizes[k] <= jmax && sizes[k] == jmin + FastRand.Drawn(seed, k + 1) as int % span
    {
      var size := jmin;
      if span > 1 {
        var v := rng.U64();
        size := jmin + v as int % span;
      }
      sizes := sizes + [size];
      i := i + 1;
    }
  }

  lemma OrOneIsOdd(x: u64)
    ensures Bits.Or64(x, 1) != 0
  {
  }
}
