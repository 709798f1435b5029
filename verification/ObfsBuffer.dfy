/** Wrapping into the output buffer, byte by byte, and unwrapping in place. */
module ObfsBuffer {
  import opened Wrappers
  import opened Words
  import opened Bits
  import opened Obfs
  import FastRand

  /** The first bytes of the buffer are `done`. */
  predicate Holds(buf: array<u8>, done: seq<u8>)
    reads buf
  {
    |done| <= buf.Length && buf[..|done|] == done
  }

  /** Appends w to what the buffer holds. */
  method Emit(buf: array<u8>, ghost done: seq<u8>, at: nat, w: seq<u8>)
    requires Holds(buf, done) && at == |done| && at + |w| <= buf.Length
    modifies buf
    ensures Holds(buf, done + w)
  {
    FastRand.Put(buf, at, w);
  }

  /** Stores the i-th byte of `all`, with the bytes before it already in place behind `front`. */
  method EmitNext(buf: array<u8>, ghost front: seq<u8>, ghost all: seq<u8>, at: nat, i: nat, b: u8)
    requires i < |all| && b == all[i] && at == |front| && Holds(buf, front + all[..i]) && at + i < buf.Length
    modifies buf
    ensures Holds(buf, front + all[..i + 1])
  {
    buf[at + i] := b;
    assert front + all[..i + 1] == front + all[..i] + [b];
  }

  method WriteStun(buf: array<u8>, s: u64, bodyLen: nat)
    requires buf.Length == OBFS_MAX_PACKET
    modifies buf
    ensures Holds(buf, StunHeader(s, bodyLen))
  {
    hide Scrambled, Be16;
    ghost var fixed := Be16(1) + Be16(bodyLen) + [0x21, 0x12, 0xa4, 0x42];
    Emit(buf, [], 0, Be16(1));
    Emit(buf, [] + Be16(1), 2, Be16(bodyLen));
    buf[4], buf[5], buf[6], buf[7] := 0x21, 0x12, 0xa4, 0x42;
    ghost var all := seq(12, k requires 0 <= k < 12 => Scrambled(s, k, 17));
    assert buf[..8] == [] + Be16(1) + Be16(bodyLen) + [0x21, 0x12, 0xa4, 0x42] == fixed;
    assert fixed + all[..0] == fixed;
    var i := 0;
    while i < 12
      invariant 0 <= i <= 12 && Holds(buf, fixed + all[..i])
    {
      EmitNext(buf, fixed, all, 8, i, Scrambled(s, i, 17));
      i := i + 1;
    }
    assert all[..12] == all;
  }

  method WriteDtls(buf: array<u8>, s: u64, len: nat)
    requires buf.Length == OBFS_MAX_PACKET
    modifies buf
    ensures Holds(buf, DtlsHeader(s, len))
  {
    hide Byte, Be16;
    var n := s as int % 0x1_0000_0000_0000;
    buf[0], buf[1], buf[2], buf[3], buf[4] := 23, 0xfe, 0xfd, 0, 0;
    buf[5], buf[6], buf[7] := Byte(n / 0x100_0000_0000), Byte(n / 0x1_0000_0000), Byte(n / 0x100_0000);
    buf[8], buf[9], buf[10] := Byte(n / 0x1_0000), Byte(n / 0x100), Byte(n);
    Emit(buf, buf[..11], 11, Be16(len));
  }

  method WriteRtp(buf: array<u8>, s: u64, ts: u32, ssrc: u32)
    requires buf.Length == OBFS_MAX_PACKET
    modifies buf
    ensures Holds(buf, RtpHeader(s, ts, ssrc))
  {
    hide Byte;
    var seqno := s as int % 0x1_0000;
    buf[0], buf[1], buf[2], buf[3] := 0x80, 96, Byte(seqno / 0x100), Byte(seqno);
    buf[4], buf[5], buf[6], buf[7] := Byte(ts as int / 0x100_0000), Byte(ts as int / 0x1_0000), Byte(ts as int / 0x100), Byte(ts as int);
    buf[8], buf[9], buf[10], buf[11] :=
      Byte(ssrc as int / 0x100_0000), Byte(ssrc as int / 0x1_0000), Byte(ssrc as int / 0x100), Byte(ssrc as int);
  }

  method WriteSource(buf: array<u8>, s: u64)
    requires buf.Length == OBFS_MAX_PACKET
    modifies buf
    ensures Holds(buf, SourceHeader(s))
  {
    hide Byte;
    buf[0], buf[1], buf[2], buf[3] := 0xff, 0xff, 0xff, 0xff;
    buf[4], buf[5] := Byte(0x40 + s as int % 16), Byte(s as int);
  }

  method WriteRaknet(buf: array<u8>, s: u64)
    requires buf.Length == OBFS_MAX_PACKET
    modifies buf
    ensures Holds(buf, RaknetHeader(s))
  {
    hide Byte, Shr64, Xor64;
    var nonce := Xor64(s, 0xa5a5_a5a5_5a5a_5a5a);
    buf[0] := 0x84;
    ghost var all := seq(8, k requires 0 <= k < 8 => Byte(Shr64(nonce, (7 - k) * 8) as int));
    assert Holds(buf, [0x84] + all[..0]);
    var i := 0;
    while i < 8
      invariant 0 <= i <= 8 && Holds(buf, [0x84] + all[..i])
    {
      EmitNext(buf, [0x84], all, 1, i, Byte(Shr64(nonce, (7 - i) * 8) as int));
      i := i + 1;
    }
    assert all[..8] == all;
  }

  method WriteQuic(buf: array<u8>, s: u64)
    requires buf.Length == OBFS_MAX_PACKET
    modifies buf
    ensures Holds(buf, QuicHeader(s))
  {
    hide QuicDcidBytes, QuicPnBytes, QuicFront;
    var dcid, pn := QuicDcid(s), QuicPn(s);
    ghost var front := QuicFront(s);
    WriteQuicFront(buf, s);
    WriteDcid(buf, s, dcid, front);
    WritePn(buf, s, dcid, pn, front + QuicDcidBytes(s, dcid));
  }

  method WriteQuicFront(buf: array<u8>, s: u64)
    requires buf.Length == OBFS_MAX_PACKET
    modifies buf
    ensures Holds(buf, QuicFront(s))
  {
    hide Byte, QuicDcid, QuicPn, QuicPad;
    buf[0], buf[1], buf[2], buf[3] := Byte(0x40 + s as int / 8 % 64), Byte(QuicDcid(s)), Byte(QuicPn(s)), Byte(QuicPad(s));
  }

  method WriteDcid(buf: array<u8>, s: u64, dcid: nat, ghost front: seq<u8>)
    requires buf.Length == OBFS_MAX_PACKET && dcid <= 12 && |front| == 4 && Holds(buf, front)
    modifies buf
    ensures Holds(buf, front + QuicDcidBytes(s, dcid))
  {
    hide Scrambled;
    ghost var all := QuicDcidBytes(s, dcid);
    assert front + all[..0] == front;
    var i := 0;
    while i < dcid
      invariant 0 <= i <= dcid && Holds(buf, front + all[..i])
    {
      EmitNext(buf, front, all, 4, i, Scrambled(s, i, 29));
      i := i + 1;
    }
    assert all[..dcid] == all;
  }

  method WritePn(buf: array<u8>, s: u64, dcid: nat, pn: nat, ghost front: seq<u8>)
    requires buf.Length == OBFS_MAX_PACKET && dcid <= 12 && pn <= 4 && |front| == 4 + dcid && Holds(buf, front)
    modifies buf
    ensures Holds(buf, front + QuicPnBytes(s, pn))
  {
    hide Byte, Shr64;
    ghost var all := QuicPnBytes(s, pn);
    assert front + all[..0] == front;
    var i := 0;
    while i < pn
      invariant 0 <= i <= pn && Holds(buf, front + all[..i])
    {
      EmitNext(buf, front, all, 4 + dcid, i, Byte(Shr64(s, (pn - i - 1) * 8) as int));
      i := i + 1;
    }
    assert all[..pn] == all;
  }

  method WriteEnet(buf: array<u8>, s: u64)
    requires buf.Length == OBFS_MAX_PACKET
    modifies buf
    ensures Holds(buf, EnetHeader(s))
  {
    hide Byte, Plus, CommandId;
    var peerId, sentTime := 0x8000 + s as int % 0x1000, s as int * 7 % 0x1_0000;
    buf[0], buf[1], buf[2], buf[3] := Byte(peerId / 0x100), Byte(peerId), Byte(sentTime / 0x100), Byte(sentTime);
    buf[4], buf[5] := Byte(EnetCommands(s)), Byte(EnetPad(s));
    ghost var front := Be16(peerId) + Be16(sentTime) + [Byte(EnetCommands(s)), Byte(EnetPad(s))];
    assert Holds(buf, front + EnetList(s, 0));
    var i := 0;
    while i < EnetCommands(s)
      invariant 0 <= i <= EnetCommands(s) && Holds(buf, front + EnetList(s, i))
    {
      assert front + EnetList(s, i + 1) == (front + EnetList(s, i)) + EnetCommand(s, i);
      Emit(buf, front + EnetList(s, i), 6 + i * 4, EnetCommand(s, i));
      i := i + 1;
    }
  }

  method WriteKcp(buf: array<u8>, s: u64, segLen: nat)
    requires buf.Length == OBFS_MAX_PACKET
    modifies buf
    ensures Holds(buf, KcpHeader(s, segLen))
  {
    hide KcpFront, Le16, Byte;
    Emit(buf, [], 0, KcpFront(s));
    assert [] + KcpFront(s) == KcpFront(s);
    Emit(buf, KcpFront(s), 20, Le16(segLen));
    buf[22], buf[23] := 0, Byte(KcpPad(s));
  }

  method WriteDns(buf: array<u8>, s: u64)
    requires buf.Length == OBFS_MAX_PACKET
    modifies buf
    ensures Holds(buf, DnsHeader(s))
  {
    hide Byte, Be16, Plus;
    var n := DnsLabel(s);
    ghost var front := Be16(s as int % 0x1_0000) + Be16(0x100) + Be16(1) + Be16(0) + Be16(0) + Be16(0) + [Byte(n)];
    DnsFront(buf, s);
    ghost var all := seq(n, k requires 0 <= k < n => Byte(0x61 + Plus(s, k) as int % 26));
    assert front + all[..0] == front;
    var i := 0;
    while i < n
      invariant 0 <= i <= n && Holds(buf, front + all[..i])
    {
      EmitNext(buf, front, all, 13, i, Byte(0x61 + Plus(s, i) as int % 26));
      i := i + 1;
    }
    assert all[..n] == all;
    DnsBack(buf, front + all, n);
  }

  /** The rest of the name, and the query type and class. */
  method DnsBack(buf: array<u8>, ghost named: seq<u8>, n: nat)
    requires buf.Length == OBFS_MAX_PACKET && n <= 11 && |named| == 13 + n && Holds(buf, named)
    modifies buf
    ensures Holds(buf, named + [3, 0x63, 0x64, 0x6e, 0] + Be16(16) + Be16(1))
  {
    hide Be16;
    buf[13 + n], buf[14 + n], buf[15 + n], buf[16 + n], buf[17 + n] := 3, 0x63, 0x64, 0x6e, 0;
    ghost var ended := named + [3, 0x63, 0x64, 0x6e, 0];
    assert Holds(buf, ended);
    Emit(buf, ended, 18 + n, Be16(16));
    Emit(buf, ended + Be16(16), 20 + n, Be16(1));
  }

  method DnsFront(buf: array<u8>, s: u64)
    requires buf.Length == OBFS_MAX_PACKET
    modifies buf
    ensures Holds(buf, Be16(s as int % 0x1_0000) + Be16(0x100) + Be16(1) + Be16(0) + Be16(0) + Be16(0) + [Byte(DnsLabel(s))])
  {
    hide Be16, Byte;
    ghost var a, b := Be16(s as int % 0x1_0000), Be16(0x100);
    Emit(buf, [], 0, Be16(s as int % 0x1_0000));
    assert [] + a == a;
    Emit(buf, a, 2, Be16(0x100));
    Emit(buf, a + b, 4, Be16(1));
    Emit(buf, a + b + Be16(1), 6, Be16(0));
    Emit(buf, a + b + Be16(1) + Be16(0), 8, Be16(0));
    Emit(buf, a + b + Be16(1) + Be16(0) + Be16(0), 10, Be16(0));
    buf[12] := Byte(DnsLabel(s));
  }

  class ObfsSession {
    var profile: Profile
    var txSeq: u64
    var rxSeq: u64
    var ssrc: u32
    var ts: u32
    var markerSeen: bool
    var markerTxLeft: nat
    var markerRxWindow: nat

    function View(): Session
      reads this
    {
      Session(profile, txSeq, rxSeq, ssrc, ts, markerSeen, markerTxLeft, markerRxWindow)
    }

    constructor (p: Profile, seed: u64)
      ensures View() == Init(p, seed)
    {
      hide Xor64;
      profile, txSeq, rxSeq := p, seed, Xor64(seed, 0x9e37_79b9_7f4a_7c15);
      ssrc := (Xor64(seed, seed / 0x1_0000_0000) % 0x1_0000_0000) as u32;
      ts := (seed / 0x1_0000 % 0x1_0000_0000) as u32;
      markerSeen := p == Off;
      markerTxLeft := if p == Off then 0 else 3;
      markerRxWindow := if p == Off then 0 else 16;
    }

    /** Writes the header for an n-byte packet; rtp_media moves its clock on. */
    method WriteHeader(buf: array<u8>, n: nat) returns (len: nat)
      requires buf.Length == OBFS_MAX_PACKET && profile != Off
      modifies buf, this`ts
      ensures Holds(buf, Header(old(View()), n)) && len == |Header(old(View()), n)|
      ensures View() == old(View()).(ts := Sent(old(View())).ts)
    {
      hide StunHeader, DtlsHeader, RtpHeader, SourceHeader, RaknetHeader, QuicHeader, EnetHeader, KcpHeader, DnsHeader;
      var mx := MarkerLen(View());
      match profile
      case StunIce =>
        var pad := (txSeq % 4) as int;
        WriteStun(buf, txSeq, n + pad + mx);
        len := 20;
      case DtlsRecord =>
        WriteDtls(buf, txSeq, mx + n);
        len := 13;
      case RtpMedia =>
        ts := ((ts as int + 3000) % TWO32) as u32;
        WriteRtp(buf, txSeq, ts, ssrc);
        len := 12;
      case SourceQuery =>
        WriteSource(buf, txSeq);
        len := 6;
      case Raknet =>
        WriteRaknet(buf, txSeq);
        len := 9;
      case QuicShort =>
        WriteQuic(buf, txSeq);
        len := 4 + QuicDcid(txSeq) + QuicPn(txSeq);
      case GameEnet =>
        WriteEnet(buf, txSeq);
        len := 6 + EnetCommands(txSeq) * 4;
      case GameKcp =>
        WriteKcp(buf, txSeq, mx + n + KcpPad(txSeq));
        len := 24;
      case DnsLike =>
        WriteDns(buf, txSeq);
        len := 22 + DnsLabel(txSeq);
    }

    method MarkerWriteIfNeeded(buf: array<u8>, ghost done: seq<u8>, at: nat)
      requires Holds(buf, done) && at == |done| && at + MarkerLen(View()) <= buf.Length && profile != Off
      modifies buf, this`markerTxLeft
      ensures Holds(buf, done + MarkerPart(old(View())))
      ensures View() == old(View()).(markerTxLeft := Sent(old(View())).markerTxLeft)
    {
      if markerTxLeft > 0 {
        Emit(buf, done, at, Marker());
        markerTxLeft := markerTxLeft - 1;
      } else {
        assert done + [] == done;
      }
    }

    /** The bytes of the trailer. */
    method WriteTrailer(buf: array<u8>, ghost done: seq<u8>, at: nat)
      requires Holds(buf, done) && at == |done| && at + |Trailer(profile, txSeq)| <= buf.Length
      modifies buf
      ensures Holds(buf, done + Trailer(profile, txSeq))
    {
      hide TrailerByte, TrailerLen;
      ghost var all := Trailer(profile, txSeq);
      var len := TrailerLen(profile, txSeq);
      assert done + all[..0] == done;
      var i := 0;
      while i < len
        invariant 0 <= i <= len == |all| && Holds(buf, done + all[..i])
      {
        EmitNext(buf, done, all, at, i, TrailerByte(profile, txSeq, i));
        i := i + 1;
      }
      assert all[..len] == all;
    }

    /** Length of what will be sent. */
    function Total(n: nat): nat
      reads this
    {
      hide Header, Trailer;
      |Header(View(), n)| + MarkerLen(View()) + n + |Trailer(profile, txSeq)|
    }

    /** Puts the packet in disguise, in the output buffer; the packet itself when the disguise is off. Refuses, and
        changes nothing, exactly when the result would not fit. */
    method ObfsWrap(buf: array<u8>, input: array<u8>, off: nat, n: nat)
      returns (ok: bool, out: array<u8>, outOff: nat, outLen: nat)
      requires buf.Length == OBFS_MAX_PACKET && off + n <= input.Length && buf != input
      modifies this, buf
      ensures ok == Fits(old(View()), input[off..off + n])
      ensures ok ==> outOff + outLen <= out.Length && out[outOff..outOff + outLen] == Wrapped(old(View()), input[off..off + n])
      ensures View() == if ok then Sent(old(View())) else old(View())
      ensures out == if profile == Off then input else buf
    {
      hide Header, Trailer, Marker;
      ghost var s, p := View(), input[off..off + n];
      if profile == Off {
        OffWrapped(s, p);
        txSeq := Next(txSeq);
        return true, input, off, n;
      }
      var total := Total(n);
      WrappedLength(s, p);
      if total > 4096 {
        return false, buf, 0, 0;
      }
      var at := WriteHeader(buf, n);
      var mx := MarkerLen(View());
      ghost var done := Header(s, n);
      MarkerWriteIfNeeded(buf, done, at);
      done := done + MarkerPart(s);
      Emit(buf, done, at + mx, input[off..off + n]);
      done := done + p;
      WriteTrailer(buf, done, at + mx + n);
      txSeq := Next(txSeq);
      return true, buf, 0, total;
    }

    /** Strips the marker until it has been seen once; refuses packets without it before that. */
    method MarkerUnwrapIfNeeded(body: seq<u8>) returns (skip: Option<nat>)
      modifies this`markerSeen, this`markerRxWindow
      ensures profile != Off ==>
                skip == if old(markerSeen) then Some(0) else if StartsWithMarker(body) then Some(4) else None
      ensures markerSeen == (old(markerSeen) || StartsWithMarker(body))
      ensures markerRxWindow == if old(markerSeen) || StartsWithMarker(body) || old(markerRxWindow) == 0 then old(markerRxWindow)
                                else old(markerRxWindow) - 1
    {
      if markerSeen {
        return Some(0);
      }
      if |body| >= 4 && body[..4] == Marker() {
        markerSeen := true;
        return Some(4);
      }
      if markerRxWindow > 0 {
        markerRxWindow := markerRxWindow - 1;
        return None;
      }
      return None;
    }

    /** The offset and length of the payload within the packet, or None. */
    method ObfsUnwrap(q: seq<u8>) returns (r: Option<(nat, nat)>)
      modifies this
      ensures r.Some? <==> Payload(old(View()), q).Some?
      ensures r.Some? ==> r.value.0 + r.value.1 <= |q| && Payload(old(View()), q) == Some(q[r.value.0..r.value.0 + r.value.1])
      ensures View() == Received(old(View()), q)
    {
      hide Body, Marker;
      if profile == Off {
        OffBody(q);
        rxSeq := Next(rxSeq);
        return Some((0, |q|));
      }
      var b := Body(profile, q);
      if b.None? {
        return None;
      }
      var (at, len) := b.value;
      var skip := MarkerUnwrapIfNeeded(q[at..at + len]);
      if skip.None? {
        return None;
      }
      rxSeq := Next(rxSeq);
      assert q[at..at + len][skip.value..] == q[at + skip.value..at + len];
      return Some((at + skip.value, len - skip.value));
    }
  }

  lemma OffBody(q: seq<u8>)
    ensures BodyBytes(Off, q) == Some(q)
  {
    assert q[0..|q|] == q;
  }

  lemma OffWrapped(s: Session, p: seq<u8>)
    requires s.profile == Off
    ensures Wrapped(s, p) == p
  {
  }

  lemma WrappedLength(s: Session, p: seq<u8>)
    ensures |Wrapped(s, p)| == |Header(s, |p|)| + MarkerLen(s) + |p| + |Trailer(s.profile, s.txSeq)|
  {
    hide Header, Trailer, Marker;
  }
}
