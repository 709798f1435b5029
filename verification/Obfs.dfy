/** The nine traffic disguises: what is put around a packet, how it is taken off again, and the marker that tells a
    receiver that the other end speaks the same disguise. */
module Obfs {
  import opened Wrappers
  import opened Words
  import opened Bits

  datatype Profile =
    Off | StunIce | DtlsRecord | RtpMedia | SourceQuery | Raknet | QuicShort | GameEnet | GameKcp | DnsLike

  datatype Session = Session(profile: Profile, txSeq: u64, rxSeq: u64, ssrc: u32, ts: u32,
                             markerSeen: bool, markerTxLeft: nat, markerRxWindow: nat)

  const OBFS_MAX_PACKET: nat := 4096

  function Marker(): (m: seq<u8>)
    ensures |m| == 4
  {
    [0xa7, 0x51, 0xc3, 0x2e]
  }

  function Next(x: u64): u64 { if x == 0xffff_ffff_ffff_ffff then 0 else x + 1 }

  function Init(profile: Profile, seed: u64): Session {
    Session(profile, seed, Xor64(seed, 0x9e37_79b9_7f4a_7c15),
            (Xor64(seed, seed / 0x1_0000_0000) % 0x1_0000_0000) as u32, (seed / 0x1_0000 % 0x1_0000_0000) as u32,
            profile == Off, if profile == Off then 0 else 3, if profile == Off then 0 else 16)
  }

  // ---- header bytes ----

  function Byte(x: nat): u8 { (x % 256) as u8 }

  function Be16(x: nat): (b: seq<u8>)
    ensures |b| == 2
  {
    [Byte(x / 0x100), Byte(x)]
  }

  function Be32(x: nat): (b: seq<u8>)
    ensures |b| == 4
  {
    [Byte(x / 0x100_0000), Byte(x / 0x1_0000), Byte(x / 0x100), Byte(x)]
  }

  function Le32(x: nat): (b: seq<u8>)
    ensures |b| == 4
  {
    [Byte(x), Byte(x / 0x100), Byte(x / 0x1_0000), Byte(x / 0x100_0000)]
  }

  /** A byte of the sequence number, moved on by its position. */
  function Scrambled(seqno: u64, i: nat, step: nat): u8 {
    Byte(Shr64(seqno, i % 8 * 8) as int + i * step)
  }

  function Read16(q: seq<u8>, at: nat): nat
    requires at + 2 <= |q|
  {
    q[at] as int * 0x100 + q[at + 1] as int
  }

  lemma Read16OfBe16(x: nat)
    requires x < 0x1_0000
    ensures Read16(Be16(x), 0) == x
  {
  }

  function StunHeader(s: u64, bodyLen: nat): (h: seq<u8>)
    ensures |h| == 20
  {
    Be16(1) + Be16(bodyLen) + [0x21, 0x12, 0xa4, 0x42] + seq(12, i requires 0 <= i < 12 => Scrambled(s, i, 17))
  }

  function DtlsHeader(s: u64, len: nat): (h: seq<u8>)
    ensures |h| == 13
  {
    var n := s as int % 0x1_0000_0000_0000;
    [23, 0xfe, 0xfd, 0, 0, Byte(n / 0x100_0000_0000), Byte(n / 0x1_0000_0000), Byte(n / 0x100_0000), Byte(n / 0x1_0000),
     Byte(n / 0x100), Byte(n)] + Be16(len)
  }

  function RtpHeader(s: u64, ts: u32, ssrc: u32): (h: seq<u8>)
    ensures |h| == 12
  {
    [0x80, 96] + Be16(s as int % 0x1_0000) + Be32(ts as int) + Be32(ssrc as int)
  }

  function SourceHeader(s: u64): (h: seq<u8>)
    ensures |h| == 6
  {
    [0xff, 0xff, 0xff, 0xff, Byte(0x40 + s as int % 16), Byte(s as int)]
  }

  function RaknetHeader(s: u64): (h: seq<u8>)
    ensures |h| == 9
  {
    var nonce := Xor64(s, 0xa5a5_a5a5_5a5a_5a5a);
    [0x84] + seq(8, i requires 0 <= i < 8 => Byte(Shr64(nonce, (7 - i) * 8) as int))
  }

  function QuicDcid(s: u64): nat { 8 + s as int % 5 }
  function QuicPn(s: u64): nat { 1 + s as int % 4 }
  function QuicPad(s: u64): nat { s as int % 8 }

  function QuicFront(s: u64): (h: seq<u8>)
    ensures |h| == 4
  {
    [Byte(0x40 + s as int / 8 % 64), Byte(QuicDcid(s)), Byte(QuicPn(s)), Byte(QuicPad(s))]
  }

  function QuicDcidBytes(s: u64, n: nat): (b: seq<u8>)
    ensures |b| == n
  {
    seq(n, i requires 0 <= i < n => Scrambled(s, i, 29))
  }

  function QuicPnBytes(s: u64, n: nat): (b: seq<u8>)
    ensures |b| == n
  {
    seq(n, i requires 0 <= i < n => Byte(Shr64(s, (n - i - 1) * 8) as int))
  }

  function QuicHeader(s: u64): (h: seq<u8>)
    ensures |h| == 4 + QuicDcid(s) + QuicPn(s)
  {
    QuicFront(s) + QuicDcidBytes(s, QuicDcid(s)) + QuicPnBytes(s, QuicPn(s))
  }

  function EnetCommands(s: u64): nat { 1 + s as int % 3 }
  function EnetPad(s: u64): nat { s as int % 6 }

  /** s + i, wrapping. */
  function Plus(s: u64, i: nat): u64 { ((s as int + i) % TWO64) as u64 }

  function CommandId(x: u64): u8 {
    var k := x % 4; if k == 0 then 0x01 else if k == 1 then 0x06 else if k == 2 then 0x07 else 0x08
  }

  function EnetCommand(s: u64, i: nat): (c: seq<u8>)
    ensures |c| == 4
  {
    var x := Plus(s, i);
    [CommandId(x), Byte(x as int % 4), Byte(x as int / 0x100), Byte(x as int)]
  }

  function EnetList(s: u64, n: nat): (c: seq<u8>)
    ensures |c| == 4 * n
  {
    if n == 0 then [] else EnetList(s, n - 1) + EnetCommand(s, n - 1)
  }

  function EnetHeader(s: u64): (h: seq<u8>)
    ensures |h| == 6 + 4 * EnetCommands(s)
  {
    Be16(0x8000 + s as int % 0x1000) + Be16(s as int * 7 % 0x1_0000) + [Byte(EnetCommands(s)), Byte(EnetPad(s))]
    + EnetList(s, EnetCommands(s))
  }

  function KcpPad(s: u64): nat { s as int % 5 }

  /** segLen is the length of marker, packet and padding together. */
  function KcpHeader(s: u64, segLen: nat): (h: seq<u8>)
    ensures |h| == 24
  {
    KcpFront(s) + Le16(segLen) + [0, Byte(KcpPad(s))]
  }

  function KcpFront(s: u64): (h: seq<u8>)
    ensures |h| == 20
  {
    var conv := Xor32(0x0102_0304, (s % 0x1_0000_0000) as u32) as int;
    var sn := s as int % 0x8000_0000;
    var una := (sn - s as int % 11) % TWO32;
    Le32(conv) + [Byte(80 + s as int % 4), Byte(s as int % 3)] + Le16(64 + s as int % 32)
    + Le32(s as int * 33 % TWO64 % 0x8000_0000) + Le32(sn) + Le32(una)
  }

  function Le16(x: nat): (b: seq<u8>)
    ensures |b| == 2
  {
    [Byte(x), Byte(x / 0x100)]
  }

  function DnsLabel(s: u64): nat { 6 + s as int % 6 }
  function DnsTail(s: u64): nat { s as int % 4 }

  function DnsHeader(s: u64): (h: seq<u8>)
    ensures |h| == 22 + DnsLabel(s)
  {
    Be16(s as int % 0x1_0000) + Be16(0x100) + Be16(1) + Be16(0) + Be16(0) + Be16(0) + [Byte(DnsLabel(s))]
    + seq(DnsLabel(s), i requires 0 <= i < DnsLabel(s) => Byte(0x61 + Plus(s, i) as int % 26))
    + [3, 0x63, 0x64, 0x6e, 0] + Be16(16) + Be16(1)
  }

  // ---- wrapping ----

  predicate Marks(s: Session) { s.profile != Off && s.markerTxLeft > 0 }

  function MarkerLen(s: Session): nat { if Marks(s) then 4 else 0 }

  function NextTs(s: Session): u32 { ((s.ts as int + 3000) % TWO32) as u32 }

  /** Everything in front of the marker, for an n-byte packet. */
  function Header(s: Session, n: nat): seq<u8> {
    var mx := MarkerLen(s);
    match s.profile
    case Off => []
    case StunIce => StunHeader(s.txSeq, n + s.txSeq as int % 4 + mx)
    case DtlsRecord => DtlsHeader(s.txSeq, mx + n)
    case RtpMedia => RtpHeader(s.txSeq, NextTs(s), s.ssrc)
    case SourceQuery => SourceHeader(s.txSeq)
    case Raknet => RaknetHeader(s.txSeq)
    case QuicShort => QuicHeader(s.txSeq)
    case GameEnet => EnetHeader(s.txSeq)
    case GameKcp => KcpHeader(s.txSeq, mx + n + KcpPad(s.txSeq))
    case DnsLike => DnsHeader(s.txSeq)
  }

  function TrailerLen(p: Profile, s: u64): nat {
    match p
    case StunIce => s as int % 4
    case QuicShort => QuicPad(s)
    case GameEnet => EnetPad(s)
    case GameKcp => KcpPad(s)
    case DnsLike => DnsTail(s)
    case _ => 0
  }

  function TrailerByte(p: Profile, s: u64, i: nat): u8 {
    match p
    case QuicShort => Byte(0x90 + Plus(s, i) as int % 64)
    case GameEnet => Byte(0x30 + And(Plus(s, i * 3) as int, 0x4f))
    case GameKcp => Byte(0x55 + And(Plus(s, i) as int, 0x33))
    case _ => 0
  }

  /** Everything behind the packet. */
  function Trailer(p: Profile, s: u64): (t: seq<u8>)
    ensures |t| == TrailerLen(p, s)
  {
    seq(TrailerLen(p, s), i requires 0 <= i < TrailerLen(p, s) => TrailerByte(p, s, i))
  }

  function MarkerPart(s: Session): seq<u8> { if Marks(s) then Marker() else [] }

  function Wrapped(s: Session, p: seq<u8>): seq<u8> {
    Header(s, |p|) + MarkerPart(s) + p + Trailer(s.profile, s.txSeq)
  }

  /** The session after a packet has been sent. */
  function Sent(s: Session): Session {
    s.(txSeq := Next(s.txSeq), markerTxLeft := if Marks(s) then s.markerTxLeft - 1 else s.markerTxLeft,
       ts := if s.profile == RtpMedia then NextTs(s) else s.ts)
  }

  predicate Fits(s: Session, p: seq<u8>) {
    s.profile == Off || |Wrapped(s, p)| <= OBFS_MAX_PACKET
  }

  // ---- unwrapping ----

  /** Where the disguise says the body lies: its offset and length, or None if the packet is not in disguise. */
  function Body(p: Profile, q: seq<u8>): (r: Option<(nat, nat)>)
    ensures r.Some? ==> r.value.0 + r.value.1 <= |q|
  {
    match p
    case Off => Some((0, |q|))
    case StunIce =>
      if |q| < 20 || q[4] != 0x21 || q[5] != 0x12 || q[6] != 0xa4 || q[7] != 0x42 then None
      else if 20 + Read16(q, 2) > |q| then None
      else Some((20, Read16(q, 2)))
    case DtlsRecord =>
      if |q| < 13 || q[1] != 0xfe || q[2] != 0xfd then None
      else if 13 + Read16(q, 11) > |q| then None
      else Some((13, Read16(q, 11)))
    case RtpMedia => if |q| < 12 || q[0] / 64 != 2 then None else Some((12, |q| - 12))
    case SourceQuery =>
      if |q| < 6 || !(q[0] == 0xff && q[1] == 0xff && q[2] == 0xff && q[3] == 0xff) then None else Some((6, |q| - 6))
    case Raknet => if |q| < 9 || q[0] != 0x84 then None else Some((9, |q| - 9))
    case QuicShort =>
      if |q| < 13 || q[0] / 64 % 2 == 0 then None
      else
        var dcid, pn, pad := q[1] as int, q[2] as int, q[3] as int;
        var hdr := 4 + dcid + pn;
        if dcid < 8 || dcid > 12 || pn < 1 || pn > 4 || pad > 7 then None
        else if hdr + pad > |q| then None
        else Some((hdr, |q| - hdr - pad))
    case GameEnet =>
      if |q| < 10 then None
      else
        var count, pad := q[4] as int, q[5] as int;
        var hdr := 6 + count * 4;
        if count < 1 || count > 3 || pad > 5 then None
        else if hdr + pad > |q| then None
        else Some((hdr, |q| - hdr - pad))
    case GameKcp =>
      if |q| < 24 then None
      else
        var cmd, pad, seg := q[4] as int, q[23] as int, q[20] as int + 0x100 * q[21] as int;
        if cmd < 80 || cmd > 83 || pad > 4 then None
        else if seg > |q| - 24 || seg < pad then None
        else Some((24, seg - pad))
    case DnsLike =>
      if |q| < 22 || Read16(q, 4) != 1 then None
      else
        var len := q[12] as int;
        var hdr := 22 + len;
        if len < 6 || len > 11 || |q| < hdr then None
        else if q[13 + len] != 3 || q[14 + len] != 0x63 || q[15 + len] != 0x64 || q[16 + len] != 0x6e || q[17 + len] != 0
        then None
        else Some((hdr, |q| - hdr))
  }

  predicate StartsWithMarker(b: seq<u8>) { |b| >= 4 && b[..4] == Marker() }

  function BodyBytes(p: Profile, q: seq<u8>): Option<seq<u8>> {
    hide Body;
    var b := Body(p, q);
    if b.None? then None else Some(q[b.value.0..b.value.0 + b.value.1])
  }

  /** The payload of a packet received, if it is accepted. */
  function Payload(r: Session, q: seq<u8>): Option<seq<u8>> {
    var body := BodyBytes(r.profile, q);
    if body.None? then None
    else if r.markerSeen || r.profile == Off then body
    else if StartsWithMarker(body.value) then Some(body.value[4..]) else None
  }

  /** The session after a packet has been received. */
  function Received(r: Session, q: seq<u8>): Session {
    var body := BodyBytes(r.profile, q);
    if body.None? then r
    else if r.markerSeen || r.profile == Off then r.(rxSeq := Next(r.rxSeq))
    else if StartsWithMarker(body.value) then r.(markerSeen := true, rxSeq := Next(r.rxSeq))
    else r.(markerRxWindow := if r.markerRxWindow > 0 then r.markerRxWindow - 1 else 0)
  }

  // ---- every disguise comes off again ----

  /** The bytes the receiver gets behind the packet: two of the disguises have no way to tell padding from data. */
  function Trail(p: Profile, s: u64): (t: seq<u8>)
    ensures |t| == if p == StunIce || p == DnsLike then s as int % 4 else 0
    ensures forall i :: 0 <= i < |t| ==> t[i] == 0
  {
    if p == StunIce || p == DnsLike then seq(s as int % 4, _ => 0) else []
  }

  /** The body found in a packet sent is what lies between header and removable padding. */
  predicate BodyFound(s: Session, p: seq<u8>) {
    BodyBytes(s.profile, Wrapped(s, p)) == Some(MarkerPart(s) + p + Trail(s.profile, s.txSeq))
  }

  lemma Slices(h: seq<u8>, m: seq<u8>, p: seq<u8>, t: seq<u8>, kept: nat)
    requires kept <= |t|
    ensures var q := h + m + p + t;
            q[|h|..|h| + |m| + |p| + kept] == m + p + t[..kept] && forall i :: 0 <= i < |h| ==> q[i] == h[i]
  {
  }

  lemma StunBody(s: Session, p: seq<u8>)
    requires s.profile == StunIce && Fits(s, p)
    ensures BodyFound(s, p)
  {
    var h, t := Header(s, |p|), Trailer(StunIce, s.txSeq);
    Slices(h, MarkerPart(s), p, t, |t|);
    Read16OfBe16(|p| + s.txSeq as int % 4 + MarkerLen(s));
    assert t[..|t|] == Trail(StunIce, s.txSeq);
  }

  lemma DtlsBody(s: Session, p: seq<u8>)
    requires s.profile == DtlsRecord && Fits(s, p)
    ensures BodyFound(s, p)
  {
    var h, t := Header(s, |p|), Trailer(DtlsRecord, s.txSeq);
    Slices(h, MarkerPart(s), p, t, 0);
    Read16OfBe16(MarkerLen(s) + |p|);
  }

  lemma RtpBody(s: Session, p: seq<u8>)
    requires s.profile == RtpMedia
    ensures BodyFound(s, p)
  {
    Slices(Header(s, |p|), MarkerPart(s), p, [], 0);
  }

  lemma SourceBody(s: Session, p: seq<u8>)
    requires s.profile == SourceQuery
    ensures BodyFound(s, p)
  {
    Slices(Header(s, |p|), MarkerPart(s), p, [], 0);
  }

  lemma RaknetBody(s: Session, p: seq<u8>)
    requires s.profile == Raknet
    ensures BodyFound(s, p)
  {
    Slices(Header(s, |p|), MarkerPart(s), p, [], 0);
  }

  lemma QuicFields(s: u64)
    ensures var h := QuicHeader(s);
            && h[0] / 64 % 2 == 1 && h[1] as int == QuicDcid(s) && h[2] as int == QuicPn(s) && h[3] as int == QuicPad(s)
            && 8 <= QuicDcid(s) <= 12 && 1 <= QuicPn(s) <= 4 && QuicPad(s) <= 7
  {
    QuicFrontFields(s);
    hide QuicDcidBytes, QuicPnBytes, QuicFront, QuicDcid, QuicPn, QuicPad;
  }

  lemma QuicFrontFields(s: u64)
    ensures var h := QuicFront(s);
            && h[0] / 64 % 2 == 1 && h[1] as int == QuicDcid(s) && h[2] as int == QuicPn(s) && h[3] as int == QuicPad(s)
            && 8 <= QuicDcid(s) <= 12 && 1 <= QuicPn(s) <= 4 && QuicPad(s) <= 7
  {
    SmallByte(0x40 + s as int / 8 % 64);
    SmallByte(QuicDcid(s));
    SmallByte(QuicPn(s));
    SmallByte(QuicPad(s));
    hide Byte;
  }

  lemma QuicBody(s: Session, p: seq<u8>)
    requires s.profile == QuicShort
    ensures BodyFound(s, p)
  {
    QuicFields(s.txSeq);
    hide QuicHeader, QuicDcid, QuicPn, QuicPad, Marker, And;
    Slices(Header(s, |p|), MarkerPart(s), p, Trailer(QuicShort, s.txSeq), 0);
  }

  lemma EnetFields(s: u64)
    ensures var h := EnetHeader(s);
            h[4] as int == EnetCommands(s) && h[5] as int == EnetPad(s) && 1 <= EnetCommands(s) <= 3 && EnetPad(s) <= 5
  {
    hide EnetList;
  }

  lemma EnetBody(s: Session, p: seq<u8>)
    requires s.profile == GameEnet
    ensures BodyFound(s, p)
  {
    EnetFields(s.txSeq);
    hide EnetHeader, EnetCommands, EnetPad, Marker, And;
    Slices(Header(s, |p|), MarkerPart(s), p, Trailer(GameEnet, s.txSeq), 0);
  }

  lemma KcpFields(s: u64, n: nat)
    requires n < 0x1_0000
    ensures var h := KcpHeader(s, n);
            80 <= h[4] <= 83 && h[20] as int + 0x100 * h[21] as int == n && h[23] as int == KcpPad(s) && KcpPad(s) <= 4
  {
    KcpCommand(s);
    Le16Read(n);
    SmallByte(KcpPad(s));
    hide KcpFront, Le16, Byte;
  }

  lemma KcpCommand(s: u64)
    ensures 80 <= KcpFront(s)[4] <= 83
  {
    hide Xor32, Le32, Le16;
  }

  lemma Le16Read(n: nat)
    requires n < 0x1_0000
    ensures Le16(n)[0] as int + 0x100 * Le16(n)[1] as int == n
  {
  }

  lemma SmallByte(x: nat)
    requires x < 256
    ensures Byte(x) as int == x
  {
  }

  lemma KcpBody(s: Session, p: seq<u8>)
    requires s.profile == GameKcp && Fits(s, p)
    ensures BodyFound(s, p)
  {
    var n := MarkerLen(s) + |p| + KcpPad(s.txSeq);
    assert |Wrapped(s, p)| == 24 + n;
    KcpFields(s.txSeq, n);
    hide KcpHeader, KcpPad, Marker, And, Plus;
    Slices(Header(s, |p|), MarkerPart(s), p, Trailer(GameKcp, s.txSeq), 0);
  }

  lemma DnsFields(s: u64)
    ensures var h, n := DnsHeader(s), DnsLabel(s);
            && Read16(h, 4) == 1 && h[12] as int == n && 6 <= n <= 11
            && h[13 + n] == 3 && h[14 + n] == 0x63 && h[15 + n] == 0x64 && h[16 + n] == 0x6e && h[17 + n] == 0
  {
    hide Plus;
  }

  lemma DnsBody(s: Session, p: seq<u8>)
    requires s.profile == DnsLike
    ensures BodyFound(s, p)
  {
    var t := Trailer(DnsLike, s.txSeq);
    DnsFields(s.txSeq);
    assert t[..|t|] == Trail(DnsLike, s.txSeq);
    hide DnsHeader, DnsLabel, DnsTail, Marker, Trailer;
    Slices(Header(s, |p|), MarkerPart(s), p, t, |t|);
  }

  lemma WrappedBody(s: Session, p: seq<u8>)
    requires s.profile != Off && Fits(s, p)
    ensures BodyFound(s, p)
  {
    match s.profile
    case StunIce => StunBody(s, p);
    case DtlsRecord => DtlsBody(s, p);
    case RtpMedia => RtpBody(s, p);
    case SourceQuery => SourceBody(s, p);
    case Raknet => RaknetBody(s, p);
    case QuicShort => QuicBody(s, p);
    case GameEnet => EnetBody(s, p);
    case GameKcp => KcpBody(s, p);
    case DnsLike => DnsBody(s, p);
    hide *;
  }

  // ---- one packet, and whole streams ----

  /** What a receiver of the same disguise makes of a packet, whatever the two ends have been through before: once it
      has seen the marker it hands out everything, marker included; before that it strips the marker or, if the
      sender no longer puts one, refuses unless the packet itself happens to begin with it. */
  lemma OneDelivery(s: Session, r: Session, p: seq<u8>)
    requires Fits(s, p) && r.profile == s.profile != Off
    ensures var t := Trail(s.profile, s.txSeq);
            Payload(r, Wrapped(s, p)) ==
              if r.markerSeen then Some(MarkerPart(s) + p + t)
              else if s.markerTxLeft > 0 then Some(p + t)
              else if StartsWithMarker(p + t) then Some((p + t)[4..])
              else None
    ensures Received(r, Wrapped(s, p)).profile == r.profile
    ensures Received(r, Wrapped(s, p)).markerSeen <==> Payload(r, Wrapped(s, p)).Some?
  {
    var t := Trail(s.profile, s.txSeq);
    BodyDelivered(s, r, p);
    MarkedBody(p, t);
    assert [] + p + t == p + t;
    hide Payload, Received, Wrapped, Trail, Marker, StartsWithMarker;
  }

  lemma BodyDelivered(s: Session, r: Session, p: seq<u8>)
    requires Fits(s, p) && r.profile == s.profile != Off
    ensures var q, body := Wrapped(s, p), MarkerPart(s) + p + Trail(s.profile, s.txSeq);
            && Payload(r, q) == (if r.markerSeen then Some(body) else if StartsWithMarker(body) then Some(body[4..]) else None)
            && Received(r, q).profile == r.profile
            && (Received(r, q).markerSeen <==> r.markerSeen || StartsWithMarker(body))
  {
    WrappedBody(s, p);
    hide BodyBytes, Wrapped, Trail, Marker, StartsWithMarker, MarkerPart;
  }

  lemma MarkedBody(p: seq<u8>, t: seq<u8>)
    ensures var b := Marker() + p + t; StartsWithMarker(b) && b[4..] == p + t
  {
  }

  /** A lossless stream: every packet sent in order and received in order. */
  function Stream(s: Session, r: Session, ps: seq<seq<u8>>): seq<Option<seq<u8>>>
    decreases |ps|
  {
    if ps == [] then []
    else [Payload(r, Wrapped(s, ps[0]))] + Stream(Sent(s), Received(r, Wrapped(s, ps[0])), ps[1..])
  }

  lemma StreamStep(s: Session, r: Session, ps: seq<seq<u8>>)
    requires ps != []
    ensures var q := Wrapped(s, ps[0]);
            var rest := Stream(Sent(s), Received(r, q), ps[1..]);
            && |Stream(s, r, ps)| == 1 + |rest| && Stream(s, r, ps)[0] == Payload(r, q)
            && forall k :: 0 < k < |Stream(s, r, ps)| ==> Stream(s, r, ps)[k] == rest[k - 1]
    ensures Stream(s, r, []) == []
  {
    hide Wrapped, Payload, Received;
  }

  lemma AllFitStep(s: Session, ps: seq<seq<u8>>)
    requires ps != [] && AllFit(s, ps)
    ensures Fits(s, ps[0]) && AllFit(Sent(s), ps[1..])
  {
    hide Fits, Sent;
  }

  predicate AllFit(s: Session, ps: seq<seq<u8>>)
    decreases |ps|
  {
    ps == [] || (Fits(s, ps[0]) && AllFit(Sent(s), ps[1..]))
  }

  /** The k-th sequence number after x, wrapping. */
  function SeqAfter(x: u64, k: nat): u64 {
    ((x as int + k) % TWO64) as u64
  }

  lemma SeqAfterNext(x: u64, k: nat)
    ensures SeqAfter(Next(x), k) == SeqAfter(x, k + 1) && SeqAfter(x, 0) == x
  {
  }

  /** From a session that still has `left` markers to send, to a receiver that has seen one: the first `left` packets
      come out with the marker in front, the rest as they are, each with its trail. */
  lemma {:induction false} SteadyStream(s: Session, r: Session, ps: seq<seq<u8>>, k: nat)
    requires r.profile == s.profile != Off && r.markerSeen && AllFit(s, ps) && k < |ps|
    ensures |Stream(s, r, ps)| == |ps|
    ensures Stream(s, r, ps)[k]
         == Some((if k < s.markerTxLeft then Marker() else []) + ps[k] + Trail(s.profile, SeqAfter(s.txSeq, k)))
    decreases |ps|
  {
    hide Stream, Wrapped, Payload, Received, Trail, Fits, AllFit, Marker, SeqAfter;
    AllFitStep(s, ps);
    OneDelivery(s, r, ps[0]);
    SeqAfterNext(s.txSeq, if k > 0 then k - 1 else 0);
    StreamStep(s, r, ps);
    var r' := Received(r, Wrapped(s, ps[0]));
    if |ps| > 1 {
      SteadyStream(Sent(s), r', ps[1..], if k > 0 then k - 1 else 0);
    } else {
      StreamStep(Sent(s), r', ps);
      assert ps[1..] == [];
    }
  }

  lemma InitFields(profile: Profile, seed: u64)
    requires profile != Off
    ensures var s := Init(profile, seed); s.profile == profile && s.txSeq == seed && !s.markerSeen && s.markerTxLeft == 3
  {
  }

  /** Between two freshly started ends, for every disguise and any seeds: packet 1 and packets 4 onward arrive
      exactly as sent, packets 2 and 3 with the four marker bytes still in front; stun_ice and dns_like add as many
      zero bytes as the sequence number modulo 4, the other seven none. */
  lemma LosslessStream(profile: Profile, seed: u64, seed': u64, ps: seq<seq<u8>>, k: nat)
    requires profile != Off && AllFit(Init(profile, seed), ps) && k < |ps|
    ensures |Stream(Init(profile, seed), Init(profile, seed'), ps)| == |ps|
    ensures Stream(Init(profile, seed), Init(profile, seed'), ps)[k]
         == Some((if k == 1 || k == 2 then Marker() else []) + ps[k] + Trail(profile, SeqAfter(seed, k)))
  {
    hide Stream, Init, Wrapped, Payload, Received, Sent, Trail, Fits, AllFit, Marker, SeqAfter;
    var s, r := Init(profile, seed), Init(profile, seed');
    AllFitStep(s, ps);
    FirstDelivery(profile, seed, seed', ps[0]);
    StreamStep(s, r, ps);
    SeqAfterNext(seed, if k > 0 then k - 1 else 0);
    var r' := Received(r, Wrapped(s, ps[0]));
    if |ps| == 1 {
      StreamStep(Sent(s), r', ps);
      assert ps[1..] == [];
    } else {
      SteadyStream(Sent(s), r', ps[1..], if k > 0 then k - 1 else 0);
    }
  }

  lemma FirstDelivery(profile: Profile, seed: u64, seed': u64, p: seq<u8>)
    requires profile != Off && Fits(Init(profile, seed), p)
    ensures var s, r := Init(profile, seed), Init(profile, seed');
            var t, r' := Sent(s), Received(r, Wrapped(s, p));
            && t.profile == profile && t.txSeq == Next(seed) && t.markerTxLeft == 2
            && r'.profile == profile && r'.markerSeen
            && Payload(r, Wrapped(s, p)) == Some([] + p + Trail(profile, SeqAfter(seed, 0)))
  {
    InitFields(profile, seed);
    InitFields(profile, seed');
    OneDelivery(Init(profile, seed), Init(profile, seed'), p);
    SeqAfterNext(seed, 0);
    assert [] + p == p;
    hide Init, Wrapped, Payload, Received, Trail, Marker, SeqAfter;
  }

  /** With the disguise off, packets pass unchanged. */
  lemma {:induction false} OffStream(s: Session, r: Session, ps: seq<seq<u8>>, k: nat)
    requires s.profile == Off && r.profile == Off && k < |ps|
    ensures |Stream(s, r, ps)| == |ps| && Stream(s, r, ps)[k] == Some(ps[k])
    decreases |ps|
  {
    var q := Wrapped(s, ps[0]);
    assert q == ps[0] && q[0..|q|] == q;
    StreamStep(s, r, ps);
    hide Stream, Wrapped;
    if |ps| > 1 {
      OffStream(Sent(s), Received(r, q), ps[1..], if k > 0 then k - 1 else 0);
    } else {
      StreamStep(Sent(s), Received(r, q), ps);
      assert ps[1..] == [];
    }
  }

  /** No packet, with the zeros it will gain, begins with the marker bytes of itself. */
  predicate NoneLooksMarked(p: Profile, x: u64, ps: seq<seq<u8>>)
    decreases |ps|
  {
    ps == [] || (!StartsWithMarker(ps[0] + Trail(p, x)) && NoneLooksMarked(p, Next(x), ps[1..]))
  }

  /** A receiver that has missed all the marked packets accepts nothing more. */
  lemma {:induction false} LostMarkersAreFatal(s: Session, r: Session, ps: seq<seq<u8>>, k: nat)
    requires r.profile == s.profile != Off && !r.markerSeen && s.markerTxLeft == 0 && AllFit(s, ps) && k < |ps|
    requires NoneLooksMarked(s.profile, s.txSeq, ps)
    ensures |Stream(s, r, ps)| == |ps| && Stream(s, r, ps)[k] == None
    decreases |ps|
  {
    OneDelivery(s, r, ps[0]);
    StreamStep(s, r, ps);
    AllFitStep(s, ps);
    hide Stream, Wrapped, Payload, Received, Trail, Fits, AllFit, Marker, StartsWithMarker;
    var r' := Received(r, Wrapped(s, ps[0]));
    if |ps| > 1 {
      LostMarkersAreFatal(Sent(s), r', ps[1..], if k > 0 then k - 1 else 0);
    } else {
      StreamStep(Sent(s), r', ps);
      assert ps[1..] == [];
    }
  }

  // ---- overhead ----

  /** The overhead the program allows for. */
  function OverheadMax(p: Profile): nat {
    match p
    case StunIce => 28
    case DtlsRecord => 17
    case RtpMedia => 16
    case SourceQuery => 10
    case Raknet => 13
    case QuicShort => 31
    case GameEnet => 27
    case GameKcp => 32
    case DnsLike => 34
    case Off => 0
  }

  /** The allowance covers every packet of every disguise but dns_like, and of that one exactly the packets whose
      label, tail and marker together take at most six bytes more than the shortest. */
  lemma OverheadCovered(s: Session, p: seq<u8>)
    ensures |Wrapped(s, p)| <= |p| + OverheadMax(s.profile) <==>
              (s.profile == DnsLike ==> s.txSeq as int % 6 + s.txSeq as int % 4 + MarkerLen(s) <= 6)
    ensures |Wrapped(s, p)| <= |p| + 40
  {
    hide StunHeader, DtlsHeader, RtpHeader, SourceHeader, RaknetHeader, QuicHeader, EnetHeader, KcpHeader, DnsHeader, Marker;
  }

  /** Forty bytes are really reached: by a marked packet with sequence number 11. */
  lemma OverheadExceeded(p: seq<u8>)
    ensures |Wrapped(Init(DnsLike, 11), p)| == |p| + 40 > |p| + OverheadMax(DnsLike)
  {
    hide DnsHeader, Marker, Xor64;
  }

  /** All the same, whatever the packet loops let through fits the wrap buffer. */
  lemma AdmittedPacketsFit(s: Session, p: seq<u8>)
    requires |p| + OverheadMax(s.profile) <= 1500 + 1500
    ensures Fits(s, p)
  {
    OverheadCovered(s, p);
    hide Wrapped;
  }
}
