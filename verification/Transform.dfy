/** The translation between WireGuard packets and AmneziaWG packets: what is sent for a packet, what is made of a
    packet received, and the configuration both depend on. */
module Transform {
  import opened Wrappers
  import opened Words
  import opened LittleEndian
  import Rfc = Rfc7693
  import Mac = Blake2sStream
  import FastRand
  import Bits

  const WG_INIT_SIZE: int := 148
  const WG_RESP_SIZE: int := 92
  const WG_COOKIE_SIZE: int := 64
  const WG_TRANSPORT_MIN: int := 32
  const AWG_PACKET_BUF_SIZE: int := 1500
  const AWG_PACKET_HEADROOM: int := 1500

  /** A range of header values. The configuration parsers accept only ranges with min <= max. */
  datatype HRange = HRange(min: u32, max: u32) {
    predicate Contains(v: u32) { min <= v <= max }

    predicate Overlaps(b: HRange) { min <= b.max && b.min <= max }

    function Pick(rand: u64): (v: u32)
      requires min <= max
      ensures Contains(v)
    {
      if min == max then min
      else
        var span := max as u64 - min as u64 + 1;
        min + (rand % span) as u32
    }
  }

  lemma OverlapsIsCommonValue(a: HRange, b: HRange)
    requires a.min <= a.max && b.min <= b.max
    ensures a.Overlaps(b) <==> exists v: u32 :: a.Contains(v) && b.Contains(v)
  {
    if a.Overlaps(b) {
      var v := if a.min < b.min then b.min else a.min;
      assert a.Contains(v) && b.Contains(v);
    }
  }

  datatype Mode = Client | Gateway | Server

  datatype Config = Config(
    jc: int, jmin: int, jmax: int, s1: int, s2: int, s3: int, s4: int,
    h1: HRange, h2: HRange, h3: HRange, h4: HRange,
    serverPub: seq<u8>, clientPub: seq<u8>, peerPubs: seq<seq<u8>>, mode: Mode,
    // computed by ConfigCompute
    mac1keyServer: seq<u8>, mac1keyClient: seq<u8>, peerMac1keys: seq<seq<u8>>,
    hasServerPub: bool, hasClientPub: bool,
    h4Fixed: u32, h4Noop: bool, initTotal: int, respTotal: int, cookieTotal: int,
    transportSizeAmbiguous: bool, mac1keyOut: Option<seq<u8>>, mac1keyIn: Option<seq<u8>>)

  // ---- validation ----

  function Validate(c: Config): Option<string> {
    if c.jc < 0 then Some("AWG_JC: must be non-negative")
    else if c.jmin < 0 || c.jmax < 0 then Some("AWG_JMIN/AWG_JMAX: must be non-negative")
    else if c.jmax >= 65535 then Some("AWG_JMAX: must be smaller than 65535")
    else if c.jmax > 0 && c.jmax < c.jmin then Some("AWG_JMAX: must be greater than or equal to AWG_JMIN")
    else if c.s1 < 0 || c.s1 > AWG_PACKET_BUF_SIZE - WG_INIT_SIZE then Some("AWG_S1: must be between 0 and 1352")
    else if c.s2 < 0 || c.s2 > AWG_PACKET_BUF_SIZE - WG_RESP_SIZE then Some("AWG_S2: must be between 0 and 1408")
    else if c.s3 < 0 || c.s3 > AWG_PACKET_BUF_SIZE - WG_COOKIE_SIZE then Some("AWG_S3: must be between 0 and 1436")
    else if c.s4 < 0 || c.s4 > AWG_PACKET_HEADROOM then Some("AWG_S4: must be between 0 and 1500")
    else if c.h1.Overlaps(c.h2) || c.h1.Overlaps(c.h3) || c.h1.Overlaps(c.h4)
         || c.h2.Overlaps(c.h3) || c.h2.Overlaps(c.h4) || c.h3.Overlaps(c.h4)
    then Some("AWG_H1..AWG_H4: ranges must not overlap")
    else None
  }

  predicate WellRanged(c: Config) {
    c.h1.min <= c.h1.max && c.h2.min <= c.h2.max && c.h3.min <= c.h3.max && c.h4.min <= c.h4.max
  }

  lemma PadsFit(c: Config)
    requires Validate(c).None?
    ensures 0 <= c.s1 && c.s1 + 148 <= 1500 && 0 <= c.s2 && c.s2 + 92 <= 1500 && 0 <= c.s3 && c.s3 + 64 <= 1500 && 0 <= c.s4
  {
  }

  // ---- packets ----

  datatype Kind = Init | Resp | Cookie | Transport | Unknown

  function Read32(p: seq<u8>, at: nat): u32
    requires at + 4 <= |p|
  {
    p[at] as u32 + 0x100 * (p[at + 1] as u32 + 0x100 * (p[at + 2] as u32 + 0x100 * p[at + 3] as u32))
  }

  function Word32(v: u32): (b: seq<u8>)
    ensures |b| == 4 && Read32(b, 0) == v
  {
    var v1 := v / 0x100;
    var v2 := v1 / 0x100;
    var v3 := v2 / 0x100;
    [(v % 0x100) as u8, (v1 % 0x100) as u8, (v2 % 0x100) as u8, v3 as u8]
  }

  lemma Word32OfRead(p: seq<u8>)
    requires |p| >= 4
    ensures Word32(Read32(p, 0)) == p[..4]
  {
    var c := p[2] as u32 + 0x100 * p[3] as u32;
    var b := p[1] as u32 + 0x100 * c;
    LastByte(p[2], p[3] as u32);
    LastByte(p[1], c);
    LastByte(p[0], b);
  }

  lemma LastByte(b: u8, rest: u32)
    requires rest < 0x100_0000
    ensures var v := b as u32 + 0x100 * rest; v % 0x100 == b as u32 && v / 0x100 == rest
  {
  }

  lemma Read32Shift(a: seq<u8>, b: seq<u8>, at: nat)
    requires at + 4 <= |b|
    ensures Read32(a + b, |a| + at) == Read32(b, at)
  {
  }

  function KindOf(p: seq<u8>): Kind {
    if |p| < 4 then Unknown
    else
      var t := Read32(p, 0);
      if t == 1 && |p| == WG_INIT_SIZE then Init
      else if t == 2 && |p| == WG_RESP_SIZE then Resp
      else if t == 3 && |p| == WG_COOKIE_SIZE then Cookie
      else if t == 4 && |p| >= WG_TRANSPORT_MIN then Transport
      else Unknown
  }

  /** A packet starts with these type bytes. */
  predicate Starts(p: seq<u8>, t: u8) {
    |p| >= 4 && p[0] == t && p[1] == 0 && p[2] == 0 && p[3] == 0
  }

  lemma TypeWord(p: seq<u8>, t: u8)
    requires |p| >= 4
    ensures Read32(p, 0) == t as u32 <==> Starts(p, t)
  {
  }

  /** The four packet kinds of WireGuard, by size and first bytes. */
  lemma KindsByBytes(p: seq<u8>)
    ensures KindOf(p) == Init <==> |p| == 148 && Starts(p, 1)
    ensures KindOf(p) == Resp <==> |p| == 92 && Starts(p, 2)
    ensures KindOf(p) == Cookie <==> |p| == 64 && Starts(p, 3)
    ensures KindOf(p) == Transport <==> |p| >= 32 && Starts(p, 4)
  {
    hide Read32;
    if |p| >= 4 {
      TypeWord(p, 1);
      TypeWord(p, 2);
      TypeWord(p, 3);
      TypeWord(p, 4);
    }
  }

  function TypeOf(k: Kind): u32 {
    match k case Init => 1 case Resp => 2 case Cookie => 3 case _ => 4
  }

  function Range(c: Config, k: Kind): HRange {
    match k case Init => c.h1 case Resp => c.h2 case Cookie => c.h3 case _ => c.h4
  }

  function Pad(c: Config, k: Kind): int {
    match k case Init => c.s1 case Resp => c.s2 case Cookie => c.s3 case _ => c.s4
  }

  function SetType(p: seq<u8>, v: u32): (q: seq<u8>)
    requires |p| >= 4
    ensures |q| == |p| && Read32(q, 0) == v && q[4..] == p[4..]
  {
    Word32(v) + p[4..]
  }

  /** The MAC1 of everything before `at` is written at `at` and the MAC2 after it is cleared, if there is a key. */
  function Remac(p: seq<u8>, at: nat, key: Option<seq<u8>>): (q: seq<u8>)
    requires at + 32 <= |p| && (key.Some? ==> |key.value| == 32)
    ensures |q| == |p|
  {
    hide Mac16;
    if key.Some? then p[..at] + (Mac16(key.value, p[..at]) + Rfc.Zeros(16)) + p[at + 32..] else p
  }

  function Mac16(key: seq<u8>, data: seq<u8>): (m: seq<u8>)
    requires |key| == 32
    ensures |m| == 16
  {
    hide Rfc.Blake2s;
    Rfc.Blake2s(key, data, 16)
  }

  /** MAC1 and MAC2 of the two handshake kinds that carry them. */
  function RemacKind(p: seq<u8>, k: Kind, key: Option<seq<u8>>): (q: seq<u8>)
    requires key.Some? ==> |key.value| == 32
    requires (k == Init ==> |p| == WG_INIT_SIZE) && (k == Resp ==> |p| == WG_RESP_SIZE)
    ensures |q| == |p|
  {
    match k
    case Init => Remac(p, 116, key)
    case Resp => Remac(p, 60, key)
    case _ => p
  }

  /** The seed each handshake kind fills its padding from. */
  function PadSeed(k: Kind, rand: u64): u64 {
    match k case Resp => Bits.Xor64(rand, 0x12345) case Cookie => Bits.Xor64(rand, 0x67890) case _ => rand
  }

  predicate KeyOk(key: Option<seq<u8>>) { key.Some? ==> |key.value| == 32 }

  /** The bytes sent for packet p, which has `headroom` in front of it. Handshake padding is drawn from the
      generator; transport padding is whatever the last s4 bytes of the headroom hold. */
  function Outbound(p: seq<u8>, headroom: seq<u8>, c: Config, key: Option<seq<u8>>, rand: u64): seq<u8>
    requires WellRanged(c) && KeyOk(key) && Validate(c).None?
  {
    hide RemacKind, FastRand.Bytes, Bits.Xor64;
    var k := KindOf(p);
    if k == Unknown || (k == Transport && c.h4Noop) then p
    else if k == Transport then
      var body := SetType(p, c.h4.Pick(rand));
      if c.s4 > 0 && |headroom| >= c.s4 then headroom[|headroom| - c.s4..] + body else body
    else
      FastRand.Bytes(FastRand.Seeded(PadSeed(k, rand)), Pad(c, k)) + RemacKind(SetType(p, Range(c, k).Pick(rand)), k, key)
  }

  predicate SendsJunk(p: seq<u8>, c: Config) { KindOf(p) == Init && c.jc > 0 }

  /** The totals agree with the paddings. */
  predicate Totals(c: Config) {
    c.initTotal == c.s1 + WG_INIT_SIZE && c.respTotal == c.s2 + WG_RESP_SIZE && c.cookieTotal == c.s3 + WG_COOKIE_SIZE
  }

  /** The kind a received packet is taken for, and where its packet starts. */
  function Classify(p: seq<u8>, c: Config): (r: Option<(Kind, nat)>)
    requires Totals(c) && Validate(c).None?
    ensures r.Some? ==> r.value.1 + 4 <= |p|
    ensures r.Some? && r.value.0 == Init ==> |p| - r.value.1 == WG_INIT_SIZE
    ensures r.Some? && r.value.0 == Resp ==> |p| - r.value.1 == WG_RESP_SIZE
  {
    if |p| < 4 then None
    else if c.h4Noop && Read32(p, 0) == 4 && |p| >= WG_TRANSPORT_MIN then Some((Transport, 0))
    else if |p| == c.initTotal && c.h1.Contains(Read32(p, c.s1)) then Some((Init, c.s1))
    else if |p| == c.respTotal && c.h2.Contains(Read32(p, c.s2)) then Some((Resp, c.s2))
    else if |p| == c.cookieTotal && c.h3.Contains(Read32(p, c.s3)) then Some((Cookie, c.s3))
    else if |p| >= c.s4 + WG_TRANSPORT_MIN && c.h4.Contains(Read32(p, c.s4)) then Some((Transport, c.s4))
    else None
  }

  /** The WireGuard packet made of a packet received. */
  function Inbound(p: seq<u8>, c: Config): Option<seq<u8>>
    requires Totals(c) && Validate(c).None? && KeyOk(c.mac1keyIn)
  {
    hide RemacKind;
    var r := Classify(p, c);
    if r.None? then None else Some(RemacKind(SetType(p[r.value.1..], TypeOf(r.value.0)), r.value.0, c.mac1keyIn))
  }

  // ---- what the receiver makes of what was sent ----

  /** Two configurations of one link: same paddings and ranges, each computed, keys and mode free. */
  predicate SameLayout(a: Config, b: Config) {
    && a.s1 == b.s1 && a.s2 == b.s2 && a.s3 == b.s3 && a.s4 == b.s4
    && a.h1 == b.h1 && a.h2 == b.h2 && a.h3 == b.h3 && a.h4 == b.h4
    && a.h4Noop == b.h4Noop
  }

  /** What ConfigCompute establishes about the layout. */
  predicate Computed(c: Config) {
    Totals(c) && KeyOk(c.mac1keyIn) && KeyOk(c.mac1keyOut) && c.h4Fixed == c.h4.min
    && (c.h4Noop <==> c.h4 == HRange(4, 4) && c.s4 == 0)
    && (c.transportSizeAmbiguous <==>
          c.initTotal >= c.s4 + WG_TRANSPORT_MIN || c.respTotal >= c.s4 + WG_TRANSPORT_MIN || c.cookieTotal >= c.s4 + WG_TRANSPORT_MIN)
  }

  predicate Usable(c: Config) { Computed(c) && Validate(c).None? && WellRanged(c) }

  predicate TakenForInit(q: seq<u8>, c: Config)
    requires Usable(c)
  {
    |q| == c.initTotal && c.h1.Contains(Read32(q, c.s1))
  }

  predicate TakenForResp(q: seq<u8>, c: Config)
    requires Usable(c)
  {
    |q| == c.respTotal && c.h2.Contains(Read32(q, c.s2))
  }

  predicate TakenForCookie(q: seq<u8>, c: Config)
    requires Usable(c)
  {
    |q| == c.cookieTotal && c.h3.Contains(Read32(q, c.s3))
  }

  predicate LooksPlain(q: seq<u8>, c: Config)
    requires |q| >= 4
  {
    c.h4Noop && Read32(q, 0) == 4
  }

  /** The sent bytes q of a packet of kind k cannot be taken for another kind, and a transport packet that should
      be padded had room for it. */
  predicate Unmistakable(k: Kind, q: seq<u8>, c: Config, padded: bool)
    requires Usable(c) && |q| >= 32
  {
    match k
    case Init => !LooksPlain(q, c)
    case Resp => !LooksPlain(q, c) && !TakenForInit(q, c)
    case Cookie => !LooksPlain(q, c) && !TakenForInit(q, c) && !TakenForResp(q, c)
    case _ =>
      c.h4Noop || (padded && !TakenForInit(q, c) && !TakenForResp(q, c) && !TakenForCookie(q, c))
  }

  /** The packet the receiver should get back: the original, with MAC1 and MAC2 as the sender's and then the
      receiver's key leave them. */
  function Restored(p: seq<u8>, c: Config, rc: Config, key: Option<seq<u8>>, rand: u64): seq<u8>
    requires Usable(c) && Usable(rc) && KeyOk(key)
  {
    hide RemacKind;
    var k := KindOf(p);
    if k == Init || k == Resp then
      RemacKind(SetType(RemacKind(SetType(p, Range(c, k).Pick(rand)), k, key), TypeOf(k)), k, rc.mac1keyIn)
    else p
  }

  lemma SetTypeBack(p: seq<u8>, v: u32)
    requires |p| >= 4
    ensures SetType(SetType(p, v), Read32(p, 0)) == p
    ensures SetType(p, Read32(p, 0)) == p
  {
    Word32OfRead(p);
    assert p == p[..4] + p[4..];
  }

  /** No value lies in two of the ranges. */
  lemma RangesDisjoint(c: Config, v: u32)
    requires Validate(c).None?
    ensures c.h1.Contains(v) ==> !c.h2.Contains(v) && !c.h3.Contains(v) && !c.h4.Contains(v)
    ensures c.h2.Contains(v) ==> !c.h3.Contains(v) && !c.h4.Contains(v)
    ensures c.h3.Contains(v) ==> !c.h4.Contains(v)
  {
  }

  /** Where the body starts in what was sent, and its first word. */
  lemma SentShape(p: seq<u8>, headroom: seq<u8>, c: Config, key: Option<seq<u8>>, rand: u64)
    requires Usable(c) && KeyOk(key)
    requires var k := KindOf(p); k == Init || k == Resp || k == Cookie
    ensures var k, q := KindOf(p), Outbound(p, headroom, c, key, rand);
            && |q| == Pad(c, k) + |p|
            && q[Pad(c, k)..] == RemacKind(SetType(p, Range(c, k).Pick(rand)), k, key)
            && Range(c, k).Contains(Read32(q, Pad(c, k)))
  {
    hide Read32, Word32, Mac16, Bits.Xor64, FastRand.Bytes;
    var k := KindOf(p);
    var pad := FastRand.Bytes(FastRand.Seeded(PadSeed(k, rand)), Pad(c, k));
    var body := RemacKind(SetType(p, Range(c, k).Pick(rand)), k, key);
    Read32Shift(pad, body, 0);
    RemacKeepsType(SetType(p, Range(c, k).Pick(rand)), k, key);
  }

  lemma RemacKeepsType(p: seq<u8>, k: Kind, key: Option<seq<u8>>)
    requires KeyOk(key) && |p| >= 4
    requires (k == Init ==> |p| == WG_INIT_SIZE) && (k == Resp ==> |p| == WG_RESP_SIZE)
    ensures Read32(RemacKind(p, k, key), 0) == Read32(p, 0)
  {
    hide Mac16;
  }

  lemma InboundType(q: seq<u8>, c: Config)
    requires Usable(c) && Classify(q, c).Some?
    ensures Inbound(q, c).Some? && |Inbound(q, c).value| == |q| - Classify(q, c).value.1
    ensures Read32(Inbound(q, c).value, 0) == TypeOf(Classify(q, c).value.0)
  {
    var (k, at) := Classify(q, c).value;
    RemacKeepsType(SetType(q[at..], TypeOf(k)), k, c.mac1keyIn);
    hide RemacKind, SetType, Read32, Classify;
  }

  lemma RestoredType(p: seq<u8>, c: Config, rc: Config, key: Option<seq<u8>>, rand: u64)
    requires Usable(c) && Usable(rc) && KeyOk(key) && KindOf(p) != Unknown
    ensures |Restored(p, c, rc, key, rand)| == |p| && Read32(Restored(p, c, rc, key, rand), 0) == TypeOf(KindOf(p))
  {
    var k := KindOf(p);
    if k == Init || k == Resp {
      RemacKeepsType(SetType(RemacKind(SetType(p, Range(c, k).Pick(rand)), k, key), TypeOf(k)), k, rc.mac1keyIn);
    }
    hide RemacKind, SetType, Read32;
  }

  /** A handshake packet is classified as what it is exactly when it cannot be taken for anything tried earlier. */
  lemma HandshakeClassified(p: seq<u8>, headroom: seq<u8>, c: Config, rc: Config, key: Option<seq<u8>>, rand: u64)
    requires Usable(c) && Usable(rc) && SameLayout(c, rc) && KeyOk(key)
    requires var k := KindOf(p); k == Init || k == Resp || k == Cookie
    ensures var k, q := KindOf(p), Outbound(p, headroom, c, key, rand);
            |q| >= 32 && Classify(q, rc).Some?
            && (Unmistakable(k, q, rc, true) <==> Classify(q, rc).value.0 == k)
            && (Classify(q, rc).value.0 == k ==> Classify(q, rc).value.1 == Pad(c, k))
  {
    SentShape(p, headroom, c, key, rand);
    ClassifyByKind(KindOf(p), Outbound(p, headroom, c, key, rand), rc);
    hide Outbound, RemacKind, SetType, Read32, Classify, Unmistakable, Usable;
  }

  /** A packet of the right size with the right header word in its place. */
  lemma ClassifyByKind(k: Kind, q: seq<u8>, c: Config)
    requires Usable(c) && (k == Init || k == Resp || k == Cookie)
    requires |q| == (if k == Init then c.initTotal else if k == Resp then c.respTotal else c.cookieTotal)
    requires Pad(c, k) >= 0 && Pad(c, k) + 4 <= |q| && Range(c, k).Contains(Read32(q, Pad(c, k)))
    ensures |q| >= 32 && Classify(q, c).Some?
    ensures Unmistakable(k, q, c, true) <==> Classify(q, c).value.0 == k
    ensures Classify(q, c).value.0 == k ==> Classify(q, c).value.1 == Pad(c, k)
  {
    PadsFit(c);
    hide Read32, Validate, WellRanged;
  }

  lemma HandshakeRoundTrip(p: seq<u8>, headroom: seq<u8>, c: Config, rc: Config, key: Option<seq<u8>>, rand: u64)
    requires Usable(c) && Usable(rc) && SameLayout(c, rc) && KeyOk(key)
    requires var k := KindOf(p); k == Init || k == Resp || k == Cookie
    ensures var k, q := KindOf(p), Outbound(p, headroom, c, key, rand);
            |q| >= 32 && (Inbound(q, rc) == Some(Restored(p, c, rc, key, rand)) <==> Unmistakable(k, q, rc, true))
  {
    var k, q := KindOf(p), Outbound(p, headroom, c, key, rand);
    HandshakeClassified(p, headroom, c, rc, key, rand);
    SentShape(p, headroom, c, key, rand);
    InboundType(q, rc);
    RestoredType(p, c, rc, key, rand);
    SetTypeBack(p, Range(c, k).Pick(rand));
    hide Outbound, RemacKind, SetType, Read32, Classify, Unmistakable;
    if Classify(q, rc).value.0 != k {
      assert Read32(Inbound(q, rc).value, 0) != Read32(Restored(p, c, rc, key, rand), 0) by { TypesDiffer(); }
    }
  }

  lemma TypesDiffer()
    ensures forall a, b :: a != Unknown && b != Unknown && TypeOf(a) == TypeOf(b) ==> a == b
  {
  }

  predicate Padded(headroom: seq<u8>, c: Config) { c.s4 == 0 || |headroom| >= c.s4 }

  lemma TransportSent(p: seq<u8>, headroom: seq<u8>, c: Config, key: Option<seq<u8>>, rand: u64)
    requires Usable(c) && KeyOk(key) && KindOf(p) == Transport && !c.h4Noop
    ensures var q, body := Outbound(p, headroom, c, key, rand), SetType(p, c.h4.Pick(rand));
            && (Padded(headroom, c) ==> |q| == c.s4 + |p| && q[c.s4..] == body && c.h4.Contains(Read32(q, c.s4)))
            && (!Padded(headroom, c) ==> q == body && c.s4 > 0)
  {
    var q, body := Outbound(p, headroom, c, key, rand), SetType(p, c.h4.Pick(rand));
    hide Read32, SetType;
    if Padded(headroom, c) {
      var pre := if c.s4 > 0 then headroom[|headroom| - c.s4..] else [];
      assert q == pre + body;
      Read32Shift(pre, body, 0);
    }
  }

  lemma TransportRoundTrip(p: seq<u8>, headroom: seq<u8>, c: Config, rc: Config, key: Option<seq<u8>>, rand: u64)
    requires Usable(c) && Usable(rc) && SameLayout(c, rc) && KeyOk(key) && KindOf(p) == Transport
    ensures var q := Outbound(p, headroom, c, key, rand);
            |q| >= 32 && (Inbound(q, rc) == Some(p) <==> Unmistakable(Transport, q, rc, Padded(headroom, c)))
  {
    if c.h4Noop {
      NoopRoundTrip(p, headroom, c, rc, key, rand);
    } else {
      HeaderedRoundTrip(p, headroom, c, rc, key, rand);
    }
    hide Outbound, Inbound, Unmistakable, Usable;
  }

  lemma NoopRoundTrip(p: seq<u8>, headroom: seq<u8>, c: Config, rc: Config, key: Option<seq<u8>>, rand: u64)
    requires Usable(c) && Usable(rc) && SameLayout(c, rc) && KeyOk(key) && KindOf(p) == Transport && c.h4Noop
    ensures var q := Outbound(p, headroom, c, key, rand);
            |q| >= 32 && Inbound(q, rc) == Some(p) && Unmistakable(Transport, q, rc, Padded(headroom, c))
  {
    SetTypeBack(p, 4);
    assert p[0..] == p;
    hide Read32, SetType, Validate;
  }

  lemma HeaderedRoundTrip(p: seq<u8>, headroom: seq<u8>, c: Config, rc: Config, key: Option<seq<u8>>, rand: u64)
    requires Usable(c) && Usable(rc) && SameLayout(c, rc) && KeyOk(key) && KindOf(p) == Transport && !c.h4Noop
    ensures var q := Outbound(p, headroom, c, key, rand);
            |q| >= 32 && (Inbound(q, rc) == Some(p) <==> Unmistakable(Transport, q, rc, Padded(headroom, c)))
  {
    var q := Outbound(p, headroom, c, key, rand);
    TransportSent(p, headroom, c, key, rand);
    assert |p| >= 32 && Read32(p, 0) == 4;
    PadsFit(c);
    hide *;
    if Padded(headroom, c) {
      PaddedBack(p, q, c.h4.Pick(rand), rc);
    } else {
      UnpaddedLost(p, q, rc);
    }
  }

  lemma PaddedBack(p: seq<u8>, q: seq<u8>, v: u32, c: Config)
    requires Usable(c) && !c.h4Noop && |p| >= 32 && Read32(p, 0) == 4 && c.s4 >= 0 && |q| == c.s4 + |p|
    requires q[c.s4..] == SetType(p, v) && c.h4.Contains(Read32(q, c.s4))
    ensures |q| >= 32 && (Inbound(q, c) == Some(p) <==> Unmistakable(Transport, q, c, true))
  {
    ClassifyTransport(q, c);
    SetTypeBack(p, v);
    InboundType(q, c);
    TypesDiffer();
    hide Inbound, Classify, Usable, Unmistakable, Read32, SetType;
    if Classify(q, c).value.0 == Transport {
      TransportInbound(q, c);
    }
  }

  lemma UnpaddedLost(p: seq<u8>, q: seq<u8>, c: Config)
    requires Usable(c) && !c.h4Noop && |q| == |p| >= 32 && Read32(p, 0) == 4 && c.s4 > 0
    ensures Inbound(q, c) != Some(p) && !Unmistakable(Transport, q, c, false)
  {
    hide Read32, SetType, RemacKind, Validate;
    if Classify(q, c).Some? {
      InboundType(q, c);
      TypesDiffer();
      hide Inbound, Classify, Usable;
      if Classify(q, c).value.0 == Transport {
        TransportInbound(q, c);
      }
    }
  }

  lemma TransportInbound(q: seq<u8>, c: Config)
    requires Usable(c) && Classify(q, c).Some? && Classify(q, c).value.0 == Transport && !c.h4Noop
    ensures Classify(q, c).value.1 == c.s4 && Inbound(q, c) == Some(SetType(q[c.s4..], 4))
  {
    hide Read32, SetType, Validate, WellRanged;
  }

  lemma ClassifyTransport(q: seq<u8>, c: Config)
    requires Usable(c) && !c.h4Noop && |q| >= c.s4 + WG_TRANSPORT_MIN && c.s4 >= 0 && c.h4.Contains(Read32(q, c.s4))
    ensures Classify(q, c).Some? && (Unmistakable(Transport, q, c, true) <==> Classify(q, c).value.0 == Transport)
  {
    PadsFit(c);
    hide Read32, Validate, WellRanged;
  }

  /** Sending and receiving give back the packet exactly when what was sent cannot be mistaken: for every WireGuard
      packet, any keys at either end, any headroom and any random word. */
  lemma RoundTrip(p: seq<u8>, headroom: seq<u8>, c: Config, rc: Config, key: Option<seq<u8>>, rand: u64)
    requires Usable(c) && Usable(rc) && SameLayout(c, rc) && KeyOk(key) && KindOf(p) != Unknown
    ensures var q := Outbound(p, headroom, c, key, rand);
            |q| >= 32
            && (Inbound(q, rc) == Some(Restored(p, c, rc, key, rand)) <==> Unmistakable(KindOf(p), q, rc, Padded(headroom, c)))
  {
    if KindOf(p) == Transport {
      TransportRoundTrip(p, headroom, c, rc, key, rand);
    } else {
      HandshakeRoundTrip(p, headroom, c, rc, key, rand);
    }
    hide Outbound, Inbound, Restored;
  }

  /** The configurations the program is meant for: different handshake totals, and packets whose size is not one of
      them unless they are that handshake packet; padding that does not spell a transport header. */
  lemma DistinctSizesRoundTrip(p: seq<u8>, headroom: seq<u8>, c: Config, rc: Config, key: Option<seq<u8>>, rand: u64)
    requires Usable(c) && Usable(rc) && SameLayout(c, rc) && KeyOk(key) && KindOf(p) != Unknown && Padded(headroom, c)
    requires c.initTotal != c.respTotal && c.initTotal != c.cookieTotal && c.respTotal != c.cookieTotal
    requires KindOf(p) == Transport ==> c.s4 + |p| !in {c.initTotal, c.respTotal, c.cookieTotal}
    requires var q := Outbound(p, headroom, c, key, rand); |q| >= 4 && LooksPlain(q, c) ==> KindOf(p) == Transport
    ensures Inbound(Outbound(p, headroom, c, key, rand), rc) == Some(Restored(p, c, rc, key, rand))
  {
    hide Outbound, Inbound, Restored, Read32, SetType, RemacKind;
    RoundTrip(p, headroom, c, rc, key, rand);
    if KindOf(p) == Transport {
      if !c.h4Noop {
        TransportSent(p, headroom, c, key, rand);
      }
    } else {
      SentShape(p, headroom, c, key, rand);
    }
    assert Unmistakable(KindOf(p), Outbound(p, headroom, c, key, rand), rc, true);
  }

  function MacAt(k: Kind): nat {
    if k == Init then 116 else 60
  }

  /** What the receiver changed: with a key of its own, MAC1 is the MAC of the original packet under that key and
      MAC2 is zero; with no key at either end nothing has changed; everything outside the MAC fields is original. */
  lemma RestoredMacs(p: seq<u8>, c: Config, rc: Config, key: Option<seq<u8>>, rand: u64)
    requires Usable(c) && Usable(rc) && KeyOk(key)
    requires var k := KindOf(p); k == Init || k == Resp
    ensures var k, r := KindOf(p), Restored(p, c, rc, key, rand); var at := MacAt(k);
            && at + 32 == |p| == |r| && r[..at] == p[..at]
            && (rc.mac1keyIn.Some? ==> r[at..at + 16] == Mac16(rc.mac1keyIn.value, p[..at]) && r[at + 16..] == Rfc.Zeros(16))
            && (rc.mac1keyIn.None? && key.None? ==> r == p)
  {
    var k := KindOf(p);
    var at := MacAt(k);
    var sent := SetType(p, Range(c, k).Pick(rand));
    var back := SetType(Remac(sent, at, key), TypeOf(k));
    RestoredIs(p, c, rc, key, rand);
    RemacPrefix(sent, at, key);
    PrefixRestored(p, Range(c, k).Pick(rand), Remac(sent, at, key), at);
    RemacPrefix(back, at, rc.mac1keyIn);
    SetTypeBack(p, Range(c, k).Pick(rand));
    hide Mac16, SetType, Read32, RemacKind, Restored, Validate;
  }

  lemma RestoredIs(p: seq<u8>, c: Config, rc: Config, key: Option<seq<u8>>, rand: u64)
    requires Usable(c) && Usable(rc) && KeyOk(key)
    requires var k := KindOf(p); k == Init || k == Resp
    ensures var k := KindOf(p); var at := MacAt(k);
            && at + 32 == |p|
            && Restored(p, c, rc, key, rand)
               == Remac(SetType(Remac(SetType(p, Range(c, k).Pick(rand)), at, key), TypeOf(k)), at, rc.mac1keyIn)
  {
    hide Mac16, SetType, Read32, Remac, Validate;
  }

  lemma RemacPrefix(p: seq<u8>, at: nat, key: Option<seq<u8>>)
    requires at + 32 == |p| && KeyOk(key)
    ensures var q := Remac(p, at, key);
            && q[..at] == p[..at]
            && (key.Some? ==> q[at..at + 16] == Mac16(key.value, p[..at]) && q[at + 16..] == Rfc.Zeros(16))
  {
    hide Mac16;
  }

  lemma PrefixRestored(p: seq<u8>, v: u32, m: seq<u8>, at: nat)
    requires 4 <= at <= |p| == |m| && m[..at] == SetType(p, v)[..at]
    ensures SetType(m, Read32(p, 0))[..at] == p[..at]
  {
    Word32OfRead(p);
    assert m[4..at] == m[..at][4..] == SetType(p, v)[4..][..at - 4] == p[4..at];
  }

  /** A configuration with transport padding only. */
  function PaddedTransport(): Config {
    Config(0, 0, 0, 0, 0, 0, 8, HRange(1, 1), HRange(2, 2), HRange(3, 3), HRange(4, 4), [], [], [], Client, [], [], [],
           false, false, 4, false, 148, 92, 64, true, None, None)
  }

  /** Headroom matters: sent with none, no transport packet comes back under this configuration. */
  lemma ShortHeadroomLosesPacket(p: seq<u8>, rand: u64)
    requires KindOf(p) == Transport
    ensures Usable(PaddedTransport())
    ensures Inbound(Outbound(p, [], PaddedTransport(), None, rand), PaddedTransport()) != Some(p)
  {
    var c := PaddedTransport();
    TransportRoundTrip(p, [], c, c, None, rand);
    hide Outbound, Inbound;
  }
}
