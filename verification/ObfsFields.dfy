/** What an observer reads in the headers of disguised packets, byte by byte, the fields the receiver never looks at
    included. */
module ObfsFields {
  import opened Words
  import opened Powers
  import opened Bits
  import opened Obfs

  /** n bytes from `at` on as a big-endian number. */
  function BeVal(q: seq<u8>, at: nat, n: nat): nat
    requires at + n <= |q|
  {
    if n == 0 then 0 else 0x100 * BeVal(q, at, n - 1) + q[at + n - 1] as int
  }

  function LeVal4(q: seq<u8>, at: nat): nat
    requires at + 4 <= |q|
  {
    q[at] as int + 0x100 * q[at + 1] as int + 0x1_0000 * q[at + 2] as int + 0x100_0000 * q[at + 3] as int
  }

  /** The i-th byte of x, lowest first. */
  function Digit(x: nat, i: nat): nat { x / Pow2(8 * i) % 256 }

  /** The n bytes from `at` on are the low bytes of x, highest first. */
  predicate Spells(q: seq<u8>, at: nat, n: nat, x: nat) {
    at + n <= |q| && forall j: nat :: at <= j < at + n ==> q[j] as int == Digit(x, at + n - 1 - j)
  }

  lemma {:induction false} BeOfDigits(q: seq<u8>, at: nat, n: nat, x: nat)
    requires Spells(q, at, n, x)
    ensures BeVal(q, at, n) == x % Pow2(8 * n)
  {
    hide Digit, Pow2;
    if n == 0 {
      Pow2Zero();
    } else {
      assert Spells(q, at, n - 1, x / 256) by {
        forall j: nat | at <= j < at + n - 1
          ensures q[j] as int == Digit(x / 256, at + n - 2 - j)
        {
          DigitShift(x, at + n - 2 - j);
        }
      }
      BeOfDigits(q, at, n - 1, x / 256);
      LowDigit(x);
      Remainder256(x, n - 1);
    }
  }

  lemma BeOfWhole(q: seq<u8>, at: nat, n: nat, x: nat)
    requires Spells(q, at, n, x) && x < Pow2(8 * n)
    ensures BeVal(q, at, n) == x
  {
    hide *;
    BeOfDigits(q, at, n, x);
    DivUnique(x, Pow2(8 * n), 0, x);
  }

  lemma Pow2Zero()
    ensures Pow2(0) == 1
  {
  }

  lemma LowDigit(x: nat)
    ensures Digit(x, 0) == x % 256
  {
  }

  lemma DigitShift(x: nat, i: nat)
    ensures Digit(x, i + 1) == Digit(x / 256, i)
  {
    Pow2Values();
    Pow2Add(8, 8 * i);
    hide Pow2;
    DivDiv(x, 256, Pow2(8 * i));
  }

  lemma Remainder256(x: nat, n: nat)
    ensures x % Pow2(8 * (n + 1)) == 0x100 * (x / 256 % Pow2(8 * n)) + x % 256
  {
    Pow2Values();
    Pow2Add(8 * n, 8);
    hide Pow2;
    var m := Pow2(8 * n);
    var q, r := x / 256 / m, x / 256 % m;
    DivSplit(x / 256, m, q, r);
    MixedDigits(q, r, x % 256, 256, m);
    DivUnique(x, m * 256, q, r * 256 + x % 256);
  }

  lemma ByteOfShift(x: u64, i: nat, d: nat)
    ensures Byte(Shr64(x, 8 * i) as int + d) as int == (Digit(x as int, i) + d) % 256
  {
    ShrIsDiv(x as int, 8 * i);
    ShrBound(x as int, 8 * i);
    hide Pow2;
    AddLow(x as int / Pow2(8 * i), d);
  }

  lemma AddLow(a: nat, d: nat)
    ensures (a + d) % 256 == (a % 256 + d) % 256
  {
  }

  lemma {:induction false} BeOfPart(q: seq<u8>, at: nat, n: nat)
    requires at + n <= |q|
    ensures BeVal(q, at, n) == BeVal(q[at..at + n], 0, n)
    decreases n
  {
    if n > 0 {
      BeOfPart(q, at, n - 1);
      BeOfPart(q[at..at + n], 0, n - 1);
      assert q[at..at + n][0..n - 1] == q[at..at + n - 1];
    }
  }

  lemma Be16Is(x: nat)
    ensures BeVal(Be16(x), 0, 2) == x % 0x1_0000
  {
    DigitsTo6(x);
    Pow2Values();
    BeOfDigits(Be16(x), 0, 2, x);
  }

  lemma Be32Is(x: nat)
    ensures BeVal(Be32(x), 0, 4) == x % 0x1_0000_0000
  {
    DigitsTo6(x);
    Pow2Values();
    BeOfDigits(Be32(x), 0, 4, x);
  }

  lemma Be16At(h: seq<u8>, at: nat, x: nat)
    requires at + 2 <= |h| && h[at..at + 2] == Be16(x)
    ensures BeVal(h, at, 2) == x % 0x1_0000
  {
    BeOfPart(h, at, 2);
    Be16Is(x);
  }

  lemma Be32At(h: seq<u8>, at: nat, x: nat)
    requires at + 4 <= |h| && h[at..at + 4] == Be32(x)
    ensures BeVal(h, at, 4) == x % 0x1_0000_0000
  {
    BeOfPart(h, at, 4);
    Be32Is(x);
  }

  lemma DigitsTo6(n: nat)
    ensures Digit(n, 0) == n % 256 && Digit(n, 1) == n / 0x100 % 256 && Digit(n, 2) == n / 0x1_0000 % 256
    ensures Digit(n, 3) == n / 0x100_0000 % 256 && Digit(n, 4) == n / 0x1_0000_0000 % 256 && Digit(n, 5) == n / 0x100_0000_0000 % 256
  {
    Pow2Values();
    Pow2Add(8, 16);
    Pow2Add(8, 32);
    hide Pow2;
  }

  // ---- the nine disguises ----

  /** A packet sent starts with its header and ends with its trailer. */
  lemma HeaderInFront(s: Session, p: seq<u8>)
    ensures var h, t, q := Header(s, |p|), Trailer(s.profile, s.txSeq), Wrapped(s, p);
            && |q| == |h| + MarkerLen(s) + |p| + |t| && q[..|h|] == h && q[|q| - |t|..] == t
            && q[|h|..|h| + MarkerLen(s)] == MarkerPart(s) && q[|h| + MarkerLen(s)..|q| - |t|] == p
  {
    hide Header, Trailer, Marker;
  }

  /** stun_ice: a binding request, the length of everything behind the header, the magic cookie, a transaction id. */
  lemma StunReads(s: Session, n: nat)
    requires s.profile == StunIce && n + 27 <= OBFS_MAX_PACKET
    ensures var h := Header(s, n);
            && |h| == 20 && BeVal(h, 0, 2) == 1 && BeVal(h, 2, 2) == MarkerLen(s) + n + TrailerLen(StunIce, s.txSeq)
            && BeVal(h, 4, 4) == 0x2112_a442
            && forall j: nat :: 8 <= j < 20 ==> h[j] as int == (Digit(s.txSeq as int, (j - 8) % 8) + 17 * (j - 8)) % 256
  {
    hide StunHeader, DtlsHeader, RtpHeader, SourceHeader, RaknetHeader, QuicHeader, EnetHeader, KcpHeader, DnsHeader, Digit;
    StunFields(s.txSeq, n + s.txSeq as int % 4 + MarkerLen(s));
  }

  lemma StunFields(x: u64, len: nat)
    ensures var h := StunHeader(x, len);
            && BeVal(h, 0, 2) == 1 && BeVal(h, 2, 2) == len % 0x1_0000 && BeVal(h, 4, 4) == 0x2112_a442
            && forall j: nat :: 8 <= j < 20 ==> h[j] as int == (Digit(x as int, (j - 8) % 8) + 17 * (j - 8)) % 256
  {
    hide Be16, Digit, Shr64;
    var h := StunHeader(x, len);
    forall j: nat | 8 <= j < 20
      ensures h[j] as int == (Digit(x as int, (j - 8) % 8) + 17 * (j - 8)) % 256
    {
      ByteOfShift(x, (j - 8) % 8, 17 * (j - 8));
    }
    assert h[0..2] == Be16(1) && h[2..4] == Be16(len) && h[4..8] == [0x21, 0x12, 0xa4, 0x42];
    hide StunHeader;
    Be16At(h, 0, 1);
    Be16At(h, 2, len);
    Cookie(h);
  }

  lemma Cookie(h: seq<u8>)
    requires |h| >= 8 && h[4..8] == [0x21, 0x12, 0xa4, 0x42]
    ensures BeVal(h, 4, 4) == 0x2112_a442
  {
    assert Be32(0x2112_a442) == [0x21, 0x12, 0xa4, 0x42];
    Be32At(h, 4, 0x2112_a442);
  }

  /** dtls_record: an application record of epoch 0 with the low 48 bits of the sequence number and the length of
      everything behind the header. */
  lemma DtlsReads(s: Session, n: nat)
    requires s.profile == DtlsRecord && n + 17 <= OBFS_MAX_PACKET
    ensures var h := Header(s, n);
            && |h| == 13 && h[0] == 23 && BeVal(h, 1, 2) == 0xfefd && BeVal(h, 3, 2) == 0
            && BeVal(h, 5, 6) == s.txSeq as int % 0x1_0000_0000_0000 && BeVal(h, 11, 2) == MarkerLen(s) + n
  {
    hide StunHeader, DtlsHeader, RtpHeader, SourceHeader, RaknetHeader, QuicHeader, EnetHeader, KcpHeader, DnsHeader, Digit;
    DtlsFields(s.txSeq, MarkerLen(s) + n);
  }

  lemma DtlsFields(x: u64, len: nat)
    ensures var h := DtlsHeader(x, len);
            && h[0] == 23 && BeVal(h, 1, 2) == 0xfefd && BeVal(h, 3, 2) == 0
            && BeVal(h, 5, 6) == x as int % 0x1_0000_0000_0000 && BeVal(h, 11, 2) == len % 0x1_0000
  {
    var h, n := DtlsHeader(x, len), x as int % 0x1_0000_0000_0000;
    DtlsParts(x, len);
    hide DtlsHeader, Be16, Spells, Pow2, BeVal;
    Be16At(h, 1, 0xfefd);
    Be16At(h, 3, 0);
    Be16At(h, 11, len);
    Pow2Values();
    Pow2Add(16, 32);
    BeOfWhole(h, 5, 6, n);
  }

  lemma DtlsParts(x: u64, len: nat)
    ensures var h := DtlsHeader(x, len);
            && h[0] == 23 && h[1..3] == Be16(0xfefd) && h[3..5] == Be16(0) && h[11..13] == Be16(len)
            && Spells(h, 5, 6, x as int % 0x1_0000_0000_0000)
  {
    DigitsTo6(x as int % 0x1_0000_0000_0000);
    hide Digit;
    assert Be16(0xfefd) == [0xfe, 0xfd] && Be16(0) == [0, 0];
    hide Be16;
  }

  /** rtp_media: version 2, payload type 96, the sequence number, the time stamp moved on by 3000, the source. */
  lemma RtpReads(s: Session, n: nat)
    requires s.profile == RtpMedia
    ensures var h := Header(s, n);
            && |h| == 12 && h[0] == 0x80 && h[1] == 96 && BeVal(h, 2, 2) == s.txSeq as int % 0x1_0000
            && BeVal(h, 4, 4) == (s.ts as int + 3000) % 0x1_0000_0000 && BeVal(h, 8, 4) == s.ssrc as int
  {
    hide StunHeader, DtlsHeader, RtpHeader, SourceHeader, RaknetHeader, QuicHeader, EnetHeader, KcpHeader, DnsHeader, Digit;
    RtpFields(s.txSeq, NextTs(s), s.ssrc);
  }

  lemma RtpFields(x: u64, ts: u32, ssrc: u32)
    ensures var h := RtpHeader(x, ts, ssrc);
            && h[0] == 0x80 && h[1] == 96 && BeVal(h, 2, 2) == x as int % 0x1_0000
            && BeVal(h, 4, 4) == ts as int && BeVal(h, 8, 4) == ssrc as int
  {
    hide Be16, Be32;
    var h := RtpHeader(x, ts, ssrc);
    assert h[2..4] == Be16(x as int % 0x1_0000) && h[4..8] == Be32(ts as int) && h[8..12] == Be32(ssrc as int);
    hide RtpHeader;
    Be16At(h, 2, x as int % 0x1_0000);
    Be32At(h, 4, ts as int);
    Be32At(h, 8, ssrc as int);
  }

  /** source_query: four bytes 0xff, then two bytes of the sequence number. */
  lemma SourceReads(s: Session, n: nat)
    requires s.profile == SourceQuery
    ensures var h := Header(s, n);
            |h| == 6 && BeVal(h, 0, 4) == 0xffff_ffff && h[4] as int == 64 + s.txSeq as int % 16 && h[5] as int == s.txSeq as int % 256
  {
    hide StunHeader, DtlsHeader, RtpHeader, SourceHeader, RaknetHeader, QuicHeader, EnetHeader, KcpHeader, DnsHeader, Digit;
    SourceFields(s.txSeq);
  }

  lemma SourceFields(x: u64)
    ensures var h := SourceHeader(x);
            BeVal(h, 0, 4) == 0xffff_ffff && h[4] as int == 64 + x as int % 16 && h[5] as int == x as int % 256
  {
    var h := SourceHeader(x);
    assert h[0..4] == Be32(0xffff_ffff);
    Be32At(h, 0, 0xffff_ffff);
  }

  /** raknet: a data packet with a nonce of 64 bits. */
  lemma RaknetReads(s: Session, n: nat)
    requires s.profile == Raknet
    ensures var h := Header(s, n);
            |h| == 9 && h[0] == 0x84 && BeVal(h, 1, 8) == Xor64(s.txSeq, 0xa5a5_a5a5_5a5a_5a5a) as int
  {
    hide StunHeader, DtlsHeader, RtpHeader, SourceHeader, RaknetHeader, QuicHeader, EnetHeader, KcpHeader, DnsHeader, Digit;
    RaknetFields(s.txSeq);
  }

  lemma RaknetFields(x: u64)
    ensures var h := RaknetHeader(x); h[0] == 0x84 && BeVal(h, 1, 8) == Xor64(x, 0xa5a5_a5a5_5a5a_5a5a) as int
  {
    hide Xor64, Digit, Shr64;
    var h, nonce := RaknetHeader(x), Xor64(x, 0xa5a5_a5a5_5a5a_5a5a);
    forall j: nat | 1 <= j < 9
      ensures h[j] as int == Digit(nonce as int, 8 - j)
    {
      ByteOfShift(nonce, 8 - j, 0);
      DigitRange(nonce as int, 8 - j);
    }
    assert Spells(h, 1, 8, nonce as int);
    hide RaknetHeader, Spells, Pow2, BeVal;
    Pow2Values();
    BeOfWhole(h, 1, 8, nonce as int);
  }

  lemma DigitRange(x: nat, i: nat)
    ensures 0 <= Digit(x, i) < 256
  {
  }

  /** quic_short: a short header, the three lengths, the connection id, the packet number. */
  lemma QuicReads(s: Session, n: nat)
    requires s.profile == QuicShort
    ensures var h, x := Header(s, n), s.txSeq as int;
            var dcid, pn := 8 + x % 5, 1 + x % 4;
            && |h| == 4 + dcid + pn
            && h[0] as int == 64 + x / 8 % 64 && h[1] as int == dcid && h[2] as int == pn && h[3] as int == x % 8
            && (forall j: nat :: 4 <= j < 4 + dcid ==> h[j] as int == (Digit(x, (j - 4) % 8) + 29 * (j - 4)) % 256)
            && BeVal(h, 4 + dcid, pn) == x % Pow2(8 * pn)
  {
    hide StunHeader, DtlsHeader, RtpHeader, SourceHeader, RaknetHeader, QuicHeader, EnetHeader, KcpHeader, DnsHeader, Digit;
    QuicFieldsRead(s.txSeq, QuicDcid(s.txSeq), QuicPn(s.txSeq));
  }

  lemma QuicFieldsRead(x: u64, dcid: nat, pn: nat)
    requires dcid == QuicDcid(x) && pn == QuicPn(x)
    ensures var h := QuicHeader(x);
            && h[0] as int == 64 + x as int / 8 % 64 && h[1] as int == dcid && h[2] as int == pn && h[3] as int == x as int % 8
            && (forall j: nat :: 4 <= j < 4 + dcid ==> h[j] as int == (Digit(x as int, (j - 4) % 8) + 29 * (j - 4)) % 256)
            && BeVal(h, 4 + dcid, pn) == x as int % Pow2(8 * pn)
  {
    hide Digit, Shr64, Pow2, QuicDcidBytes, QuicPnBytes;
    var h := QuicHeader(x);
    QuicFirst(x);
    var d, b := QuicDcidBytes(x, dcid), QuicPnBytes(x, pn);
    QuicDcidDigits(x, dcid);
    QuicPnDigits(x, pn);
    assert forall j: nat :: 4 <= j < 4 + dcid ==> h[j] == d[j - 4];
    assert h[4 + dcid..4 + dcid + pn] == b;
    hide QuicHeader, QuicDcid, QuicPn;
    BeOfPart(h, 4 + dcid, pn);
  }

  lemma QuicFirst(x: u64)
    ensures QuicFront(x)[0] as int == 64 + x as int / 8 % 64 && QuicFront(x)[3] as int == x as int % 8
    ensures QuicFront(x)[1] as int == QuicDcid(x) && QuicFront(x)[2] as int == QuicPn(x)
  {
    QuicFrontFields(x);
    SmallByte(0x40 + x as int / 8 % 64);
    hide Byte;
  }

  lemma QuicDcidDigits(x: u64, n: nat)
    ensures forall j: nat :: j < n ==> QuicDcidBytes(x, n)[j] as int == (Digit(x as int, j % 8) + 29 * j) % 256
  {
    hide Digit, Shr64;
    forall j: nat | j < n
      ensures QuicDcidBytes(x, n)[j] as int == (Digit(x as int, j % 8) + 29 * j) % 256
    {
      ByteOfShift(x, j % 8, 29 * j);
    }
  }

  lemma QuicPnDigits(x: u64, n: nat)
    ensures BeVal(QuicPnBytes(x, n), 0, n) == x as int % Pow2(8 * n)
  {
    hide Digit, Shr64, Pow2;
    var b := QuicPnBytes(x, n);
    forall j: nat | j < n
      ensures b[j] as int == Digit(x as int, n - 1 - j)
    {
      ByteOfShift(x, n - 1 - j, 0);
      DigitRange(x as int, n - 1 - j);
    }
    assert Spells(b, 0, n, x as int);
    hide QuicPnBytes, Spells;
    BeOfDigits(b, 0, n, x as int);
  }

  /** The command numbers in use. */
  const COMMANDS: seq<nat> := [1, 6, 7, 8]

  /** game_enet: peer number and time, the counts, and for the i-th command its kind, channel and number. */
  lemma EnetReads(s: Session, n: nat)
    requires s.profile == GameEnet
    ensures var h, x := Header(s, n), s.txSeq as int;
            var count := 1 + x % 3;
            && |h| == 6 + 4 * count && BeVal(h, 0, 2) == 0x8000 + x % 0x1000 && BeVal(h, 2, 2) == 7 * x % 0x1_0000
            && h[4] as int == count && h[5] as int == x % 6
            && forall i: nat :: i < count ==>
                 && h[6 + 4 * i] as int == COMMANDS[(x + i) % 4] && h[7 + 4 * i] as int == (x + i) % 4
                 && BeVal(h, 8 + 4 * i, 2) == (x + i) % 0x1_0000
  {
    hide StunHeader, DtlsHeader, RtpHeader, SourceHeader, RaknetHeader, QuicHeader, EnetHeader, KcpHeader, DnsHeader, Digit;
    EnetFront(s.txSeq);
    forall i: nat | i < EnetCommands(s.txSeq)
      ensures var h, x := Header(s, n), s.txSeq as int;
              && h[6 + 4 * i] as int == COMMANDS[(x + i) % 4] && h[7 + 4 * i] as int == (x + i) % 4
              && BeVal(h, 8 + 4 * i, 2) == (x + i) % 0x1_0000
    {
      EnetCommandAt(s.txSeq, i);
    }
  }

  lemma EnetFront(x: u64)
    ensures var h := EnetHeader(x);
            && BeVal(h, 0, 2) == 0x8000 + x as int % 0x1000 && BeVal(h, 2, 2) == 7 * x as int % 0x1_0000
            && h[4] as int == EnetCommands(x) && h[5] as int == EnetPad(x)
  {
    hide EnetList, Be16, Byte;
    var h := EnetHeader(x);
    SmallByte(EnetCommands(x));
    SmallByte(EnetPad(x));
    assert h[0..2] == Be16(0x8000 + x as int % 0x1000) && h[2..4] == Be16(x as int * 7 % 0x1_0000);
    hide EnetHeader;
    Be16At(h, 0, 0x8000 + x as int % 0x1000);
    Be16At(h, 2, x as int * 7 % 0x1_0000);
  }

  lemma {:induction false} EnetListAt(x: u64, n: nat, i: nat)
    requires i < n
    ensures EnetList(x, n)[4 * i..4 * i + 4] == EnetCommand(x, i)
  {
    hide EnetCommand;
    if i < n - 1 {
      EnetListAt(x, n - 1, i);
      assert EnetList(x, n)[4 * i..4 * i + 4] == EnetList(x, n - 1)[4 * i..4 * i + 4];
    }
  }

  lemma EnetCommandAt(x: u64, i: nat)
    requires i < EnetCommands(x)
    ensures var h, v := EnetHeader(x), x as int + i;
            && h[6 + 4 * i] as int == COMMANDS[v % 4] && h[7 + 4 * i] as int == v % 4
            && BeVal(h, 8 + 4 * i, 2) == v % 0x1_0000
  {
    var h, c := EnetHeader(x), EnetCommand(x, i);
    EnetCommandIn(x, i);
    EnetCommandIs(x, i);
    hide EnetHeader, EnetCommand, EnetCommands, BeVal;
    assert h[6 + 4 * i] == c[0] && h[7 + 4 * i] == c[1] && h[8 + 4 * i..10 + 4 * i] == c[2..4] by { Inside(h, 6 + 4 * i, c); }
    BeOfPart(h, 8 + 4 * i, 2);
    BeOfPart(c, 2, 2);
  }

  lemma Inside(h: seq<u8>, at: nat, c: seq<u8>)
    requires |c| == 4 && at + 4 <= |h| && h[at..at + 4] == c
    ensures h[at] == c[0] && h[at + 1] == c[1] && h[at + 2..at + 4] == c[2..4]
  {
    assert h[at + 2..at + 4] == h[at..at + 4][2..4];
  }

  lemma EnetCommandIn(x: u64, i: nat)
    requires i < EnetCommands(x)
    ensures EnetHeader(x)[6 + 4 * i..10 + 4 * i] == EnetCommand(x, i)
  {
    var h, n := EnetHeader(x), EnetCommands(x);
    EnetListAt(x, n, i);
    hide EnetList, Be16, Byte, EnetCommand;
    assert h[6..6 + 4 * n] == EnetList(x, n);
    assert h[6 + 4 * i..10 + 4 * i] == h[6..6 + 4 * n][4 * i..4 * i + 4];
  }

  lemma EnetCommandIs(x: u64, i: nat)
    ensures var c, v := EnetCommand(x, i), x as int + i;
            c[0] as int == COMMANDS[v % 4] && c[1] as int == v % 4 && BeVal(c, 2, 2) == v % 0x1_0000
  {
    var w := Plus(x, i) as int;
    assert w % 4 == (x as int + i) % 4 && w % 0x1_0000 == (x as int + i) % 0x1_0000;
    assert EnetCommand(x, i)[2..4] == Be16(w);
    Be16At(EnetCommand(x, i), 2, w);
  }

  /** game_kcp: conversation, command, fragment, window, time, sequence number, acknowledged number, the length of
      marker, packet and padding, the padding. */
  lemma KcpReads(s: Session, n: nat)
    requires s.profile == GameKcp && n + 32 <= OBFS_MAX_PACKET
    ensures var h, x := Header(s, n), s.txSeq as int;
            && |h| == 24 && LeVal4(h, 0) == Xor32(0x0102_0304, (x % TWO32) as u32) as int
            && h[4] as int == 80 + x % 4 && h[5] as int == x % 3 && h[6] as int == 64 + x % 32 && h[7] == 0
            && LeVal4(h, 8) == 33 * x % 0x8000_0000 && LeVal4(h, 12) == x % 0x8000_0000
            && LeVal4(h, 16) == (x % 0x8000_0000 - x % 11) % TWO32
            && h[20] as int + 0x100 * h[21] as int == MarkerLen(s) + n + x % 5 && h[22] == 0 && h[23] as int == x % 5
  {
    hide StunHeader, DtlsHeader, RtpHeader, SourceHeader, RaknetHeader, QuicHeader, EnetHeader, KcpHeader, DnsHeader, Digit;
    hide KcpFront;
    var len := MarkerLen(s) + n + KcpPad(s.txSeq);
    KcpFields(s.txSeq, len);
    KcpFrontReads(s.txSeq);
    KcpParts(s.txSeq, len);
  }

  lemma KcpParts(x: u64, len: nat)
    ensures KcpHeader(x, len)[..20] == KcpFront(x) && KcpHeader(x, len)[22] == 0
  {
    hide KcpFront, Le16;
  }

  lemma Le32Is(x: nat)
    ensures LeVal4(Le32(x), 0) == x % TWO32
  {
    DigitsTo6(x);
    Be32Is(x);
    BeSmall(Be32(x));
  }

  lemma BeSmall(b: seq<u8>)
    requires |b| == 4
    ensures BeVal(b, 0, 4) == 0x100_0000 * b[0] as int + 0x1_0000 * b[1] as int + 0x100 * b[2] as int + b[3] as int
  {
    assert BeVal(b, 0, 1) == b[0] as int;
    assert BeVal(b, 0, 2) == 0x100 * b[0] as int + b[1] as int;
    assert BeVal(b, 0, 3) == 0x1_0000 * b[0] as int + 0x100 * b[1] as int + b[2] as int;
  }

  lemma Le32At(h: seq<u8>, at: nat, x: nat)
    requires at + 4 <= |h| && h[at..at + 4] == Le32(x) && x < TWO32
    ensures LeVal4(h, at) == x
  {
    Le32Is(x);
    var b := h[at..at + 4];
    assert b[0] == h[at] && b[1] == h[at + 1] && b[2] == h[at + 2] && b[3] == h[at + 3];
    hide Le32;
  }

  lemma KcpFrontReads(s: u64)
    ensures var h, x := KcpFront(s), s as int;
            && LeVal4(h, 0) == Xor32(0x0102_0304, (x % TWO32) as u32) as int
            && h[4] as int == 80 + x % 4 && h[5] as int == x % 3 && h[6] as int == 64 + x % 32 && h[7] == 0
            && LeVal4(h, 8) == 33 * x % 0x8000_0000 && LeVal4(h, 12) == x % 0x8000_0000
            && LeVal4(h, 16) == (x % 0x8000_0000 - x % 11) % TWO32
  {
    var h, x := KcpFront(s), s as int;
    var conv, sn := Xor32(0x0102_0304, (s % 0x1_0000_0000) as u32) as int, x % 0x8000_0000;
    var una := (sn - x % 11) % TWO32;
    KcpFrontParts(s);
    LowBits(x * 33);
    hide Xor32, KcpFront, LeVal4, Le32;
    Le32At(h, 0, conv);
    Le32At(h, 8, x * 33 % TWO64 % 0x8000_0000);
    Le32At(h, 12, sn);
    Le32At(h, 16, una);
  }

  lemma KcpFrontParts(s: u64)
    ensures var h, x := KcpFront(s), s as int;
            && h[0..4] == Le32(Xor32(0x0102_0304, (s % 0x1_0000_0000) as u32) as int)
            && h[4] as int == 80 + x % 4 && h[5] as int == x % 3 && h[6] as int == 64 + x % 32 && h[7] == 0
            && h[8..12] == Le32(x * 33 % TWO64 % 0x8000_0000) && h[12..16] == Le32(x % 0x8000_0000)
            && h[16..20] == Le32((x % 0x8000_0000 - x % 11) % TWO32)
  {
    hide Le32, Xor32;
  }

  lemma LowBits(v: nat)
    ensures v % TWO64 % 0x8000_0000 == v % 0x8000_0000
  {
  }

  /** dns_like: a query with one question, a label of letters below cdn, type TXT, class IN. */
  lemma DnsReads(s: Session, n: nat)
    requires s.profile == DnsLike
    ensures var h, x := Header(s, n), s.txSeq as int;
            var k := 6 + x % 6;
            && |h| == 22 + k && BeVal(h, 0, 2) == x % 0x1_0000 && BeVal(h, 2, 2) == 0x100
            && BeVal(h, 4, 2) == 1 && BeVal(h, 6, 2) == 0 && BeVal(h, 8, 2) == 0 && BeVal(h, 10, 2) == 0
            && h[12] as int == k && (forall j: nat :: 13 <= j < 13 + k ==> h[j] as int == 0x61 + (x + j - 13) % TWO64 % 26)
            && h[13 + k..18 + k] == [3, 0x63, 0x64, 0x6e, 0] && BeVal(h, 18 + k, 2) == 16 && BeVal(h, 20 + k, 2) == 1
  {
    hide StunHeader, DtlsHeader, RtpHeader, SourceHeader, RaknetHeader, QuicHeader, EnetHeader, KcpHeader, DnsHeader, Digit;
    hide DnsLabel;
    assert DnsLabel(s.txSeq) == 6 + s.txSeq as int % 6 by { DnsLabelIs(s.txSeq); }
    DnsFieldsRead(s.txSeq);
  }

  lemma DnsLabelIs(x: u64)
    ensures DnsLabel(x) == 6 + x as int % 6
  {
  }

  lemma DnsFieldsRead(s: u64)
    ensures var h, x, k := DnsHeader(s), s as int, DnsLabel(s);
            && BeVal(h, 0, 2) == x % 0x1_0000 && BeVal(h, 2, 2) == 0x100
            && BeVal(h, 4, 2) == 1 && BeVal(h, 6, 2) == 0 && BeVal(h, 8, 2) == 0 && BeVal(h, 10, 2) == 0
            && h[12] as int == k && (forall j: nat :: 13 <= j < 13 + k ==> h[j] as int == 0x61 + (x + j - 13) % TWO64 % 26)
            && h[13 + k..18 + k] == [3, 0x63, 0x64, 0x6e, 0] && BeVal(h, 18 + k, 2) == 16 && BeVal(h, 20 + k, 2) == 1
  {
    var h, x, k := DnsHeader(s), s as int, DnsLabel(s);
    DnsFields(s);
    DnsParts(s);
    DnsLetters(s);
    hide DnsHeader, DnsLabel, Be16, BeVal;
    Be16At(h, 0, x % 0x1_0000);
    Be16At(h, 2, 0x100);
    Be16At(h, 4, 1);
    Be16At(h, 6, 0);
    Be16At(h, 8, 0);
    Be16At(h, 10, 0);
    Be16At(h, 18 + k, 16);
    Be16At(h, 20 + k, 1);
  }

  lemma DnsParts(s: u64)
    ensures var h, x, k := DnsHeader(s), s as int, DnsLabel(s);
            && h[0..2] == Be16(x % 0x1_0000) && h[2..4] == Be16(0x100) && h[4..6] == Be16(1)
            && h[6..8] == Be16(0) && h[8..10] == Be16(0) && h[10..12] == Be16(0)
            && h[18 + k..20 + k] == Be16(16) && h[20 + k..22 + k] == Be16(1)
  {
    hide Be16, Byte, Plus;
    var h, k := DnsHeader(s), DnsLabel(s);
    EndOf(h[..20 + k], Be16(1), h);
    EndOf(h[..18 + k], Be16(16), h[..20 + k]);
    assert h[..20 + k][18 + k..] == h[18 + k..20 + k] && h[20 + k..] == h[20 + k..22 + k];
  }

  lemma EndOf(a: seq<u8>, b: seq<u8>, h: seq<u8>)
    requires h == a + b
    ensures h[|a|..] == b
  {
  }

  lemma DnsLetters(s: u64)
    ensures var h, x, k := DnsHeader(s), s as int, DnsLabel(s);
            forall j: nat :: 13 <= j < 13 + k ==> h[j] as int == 0x61 + (x + j - 13) % TWO64 % 26
  {
    hide Be16;
    var h, x, k := DnsHeader(s), s as int, DnsLabel(s);
    forall j: nat | 13 <= j < 13 + k
      ensures h[j] as int == 0x61 + (x + j - 13) % TWO64 % 26
    {
      assert h[j] == Byte(0x61 + Plus(s, j - 13) as int % 26);
      SmallByte(0x61 + Plus(s, j - 13) as int % 26);
    }
  }

  // ---- behind the packet, and over a whole run ----

  /** The marker and the padding bytes behind the packet; they start again with every packet. */
  lemma TrailerReads(s: Session, i: nat)
    requires i < TrailerLen(s.profile, s.txSeq)
    ensures BeVal(Marker(), 0, 4) == 0xa751_c32e
    ensures var b, v := Trailer(s.profile, s.txSeq)[i] as int, s.txSeq as int;
            match s.profile
            case QuicShort => b == 0x90 + (v + i) % TWO64 % 64
            case GameEnet => var w := (v + 3 * i) % TWO64; b == 0x30 + w % 16 + 64 * (w / 64 % 2)
            case GameKcp => var w := (v + i) % TWO64; b == 0x55 + w % 4 + 16 * (w / 16 % 4)
            case _ => b == 0
  {
    assert Marker() == Be32(0xa751_c32e);
    Be32Is(0xa751_c32e);
    TrailerByteIs(s.profile, s.txSeq, i);
    hide Marker, Be32, BeVal, TrailerByte;
  }

  lemma TrailerByteIs(p: Profile, s: u64, i: nat)
    requires i < 8
    ensures var b, v := TrailerByte(p, s, i) as int, s as int;
            match p
            case QuicShort => b == 0x90 + (v + i) % TWO64 % 64
            case GameEnet => var w := (v + 3 * i) % TWO64; b == 0x30 + w % 16 + 64 * (w / 64 % 2)
            case GameKcp => var w := (v + i) % TWO64; b == 0x55 + w % 4 + 16 * (w / 16 % 4)
            case _ => b == 0
  {
    var w, w' := (s as int + 3 * i) % TWO64, (s as int + i) % TWO64;
    PaddingByte(p, s, i, w, w');
    hide *;
    MaskedBytes(w, w');
  }

  lemma PaddingByte(p: Profile, s: u64, i: nat, w: nat, w': nat)
    requires w == (s as int + 3 * i) % TWO64 && w' == (s as int + i) % TWO64
    ensures TrailerByte(p, s, i) ==
              match p
              case QuicShort => Byte(0x90 + w' % 64)
              case GameEnet => Byte(0x30 + And(w, 0x4f))
              case GameKcp => Byte(0x55 + And(w', 0x33))
              case _ => 0
  {
    hide And, Byte;
    assert Plus(s, i * 3) as int == w && Plus(s, i) as int == w';
  }

  lemma MaskedBytes(w: nat, w': nat)
    ensures Byte(0x90 + w' % 64) as int == 0x90 + w' % 64
    ensures Byte(0x30 + And(w, 0x4f)) as int == 0x30 + w % 16 + 64 * (w / 64 % 2)
    ensures Byte(0x55 + And(w', 0x33)) as int == 0x55 + w' % 4 + 16 * (w' / 16 % 4)
  {
    MaskIs(w);
    MaskIs(w');
    hide And, Byte;
    SmallByte(0x30 + w % 16 + 64 * (w / 64 % 2));
    SmallByte(0x55 + w' % 4 + 16 * (w' / 16 % 4));
    SmallByte(0x90 + w' % 64);
  }

  lemma MaskIs(w: nat)
    ensures And(w, 0x4f) == w % 16 + 64 * (w / 64 % 2) && And(w, 0x33) == w % 4 + 16 * (w / 16 % 4)
  {
    var w1 := w / 2;
    var w2 := w1 / 2;
    var w3 := w2 / 2;
    var w4 := w3 / 2;
    var w5 := w4 / 2;
    var w6 := w5 / 2;
    AndHalves(w, 0x4f);
    AndHalves(w1, 0x27);
    AndHalves(w2, 0x13);
    AndHalves(w3, 9);
    AndHalves(w4, 4);
    AndHalves(w5, 2);
    AndHalves(w6, 1);
    AndZero(w6 / 2);
    AndHalves(w, 0x33);
    AndHalves(w1, 0x19);
    AndHalves(w2, 0xc);
    AndHalves(w3, 6);
    AndHalves(w4, 3);
    AndHalves(w5, 1);
    hide And;
    SixHalves(w, w1, w2, w3, w4, w5, w6);
  }

  lemma SixHalves(w: nat, w1: nat, w2: nat, w3: nat, w4: nat, w5: nat, w6: nat)
    requires w1 == w / 2 && w2 == w1 / 2 && w3 == w2 / 2 && w4 == w3 / 2 && w5 == w4 / 2 && w6 == w5 / 2
    ensures w % 16 == w % 2 + 2 * (w1 % 2) + 4 * (w2 % 2) + 8 * (w3 % 2) && w % 4 == w % 2 + 2 * (w1 % 2)
    ensures w / 64 % 2 == w6 % 2 && w / 16 % 4 == w4 % 2 + 2 * (w5 % 2)
  {
    var low, next := w % 2 + 2 * (w1 % 2) + 4 * (w2 % 2) + 8 * (w3 % 2), w4 % 2 + 2 * (w5 % 2);
    DivUnique(w, 16, w4, low);
    DivUnique(w, 4, w2, w % 2 + 2 * (w1 % 2));
    DivUnique(w, 64, w6, low + 16 * next);
    DivUnique(w4, 4, w6, next);
  }

  lemma AndHalves(a: nat, b: nat)
    ensures b % 2 == 0 ==> And(a, b) == 2 * And(a / 2, b / 2)
    ensures b % 2 == 1 ==> And(a, b) == a % 2 + 2 * And(a / 2, b / 2)
  {
  }

  /** The session after n packets have been sent. */
  function AfterSending(s: Session, n: nat): Session {
    if n == 0 then s else Sent(AfterSending(s, n - 1))
  }

  lemma {:induction false} AfterSendingIs(s: Session, n: nat)
    ensures var t := AfterSending(s, n);
            && t.profile == s.profile && t.txSeq as int == (s.txSeq as int + n) % TWO64 && t.ssrc == s.ssrc
            && t.ts as int == (if s.profile == RtpMedia then (s.ts as int + 3000 * n) % TWO32 else s.ts as int)
            && t.markerTxLeft == if s.markerTxLeft > n && s.profile != Off then s.markerTxLeft - n
                                 else if s.profile == Off then s.markerTxLeft else 0
  {
    if n > 0 {
      AfterSendingIs(s, n - 1);
      WrapSum(s.txSeq as int, n - 1);
      WrapTime(s.ts as int, n - 1);
    }
  }

  lemma WrapSum(x: nat, n: nat)
    ensures ((x + n) % TWO64 + 1) % TWO64 == (x + n + 1) % TWO64
  {
  }

  lemma WrapTime(x: nat, n: nat)
    ensures ((x + 3000 * n) % TWO32 + 3000) % TWO32 == (x + 3000 * (n + 1)) % TWO32
  {
  }

  /** A media stream as seen from outside: from packet to packet the sequence number goes up by one and the time
      stamp by 3000, both from values of the seed, and the source never changes. */
  lemma RtpStream(seed: u64, n: nat, k: nat)
    ensures var h, x := Header(AfterSending(Init(RtpMedia, seed), k), n), seed as int;
            && |h| == 12 && BeVal(h, 2, 2) == (x + k) % 0x1_0000
            && BeVal(h, 4, 4) == (x / 0x1_0000 + 3000 * (k + 1)) % TWO32
            && BeVal(h, 8, 4) == Xor(x, x / TWO32) % TWO32
  {
    var s := Init(RtpMedia, seed);
    RtpInit(seed);
    AfterSendingIs(s, k);
    hide Init, AfterSending, Header, Xor, BeVal;
    RtpReads(AfterSending(s, k), n);
    TimeAfter(seed as int, k);
    LowSeq(seed as int + k);
  }

  lemma RtpInit(seed: u64)
    ensures var s, x := Init(RtpMedia, seed), seed as int;
            s.profile == RtpMedia && s.txSeq == seed && s.ts as int == x / 0x1_0000 % TWO32 && s.ssrc as int == Xor(x, x / TWO32) % TWO32
  {
    hide Xor;
  }

  lemma TimeAfter(x: nat, k: nat)
    ensures ((x / 0x1_0000 % TWO32 + 3000 * k) % TWO32 + 3000) % TWO32 == (x / 0x1_0000 + 3000 * (k + 1)) % TWO32
  {
    WrapTime(x / 0x1_0000 % TWO32, k);
    WrapFirst(x / 0x1_0000, 3000 * (k + 1));
  }

  lemma WrapFirst(a: nat, b: nat)
    ensures (a % TWO32 + b) % TWO32 == (a + b) % TWO32
  {
  }

  lemma LowSeq(v: nat)
    ensures v % TWO64 % 0x1_0000 == v % 0x1_0000
  {
  }

  // ---- the receiver's counters ----

  /** The receiver after packets have come in. */
  function AfterReceiving(r: Session, qs: seq<seq<u8>>): Session {
    if qs == [] then r else var t := AfterReceiving(r, qs[..|qs| - 1]); Received(t, qs[|qs| - 1])
  }

  /** How many of them were accepted, and how many were in disguise but refused for want of the marker. */
  function Accepted(r: Session, qs: seq<seq<u8>>): nat {
    if qs == [] then 0
    else
      var rest, q := qs[..|qs| - 1], qs[|qs| - 1];
      Accepted(r, rest) + if Payload(AfterReceiving(r, rest), q).Some? then 1 else 0
  }

  function Refused(r: Session, qs: seq<seq<u8>>): nat {
    if qs == [] then 0
    else
      var rest, q := qs[..|qs| - 1], qs[|qs| - 1];
      Refused(r, rest) + if Payload(AfterReceiving(r, rest), q).None? && BodyBytes(r.profile, q).Some? then 1 else 0
  }

  /** Whatever comes in, the receiver's number goes up by one with every packet accepted, its window of sixteen goes
      down by one with every packet refused for want of the marker, and nothing else changes but the marker flag. */
  lemma {:induction false} ReceiverCounts(profile: Profile, seed: u64, qs: seq<seq<u8>>)
    requires profile != Off
    ensures var r := Init(profile, seed);
            var t := AfterReceiving(r, qs);
            && t.profile == profile && t.txSeq == seed && t.markerTxLeft == 3
            && t.rxSeq as int == (Xor64(seed, 0x9e37_79b9_7f4a_7c15) as int + Accepted(r, qs)) % TWO64
            && t.markerRxWindow == (if Refused(r, qs) < 16 then 16 - Refused(r, qs) else 0)
            && (t.markerSeen <==> Accepted(r, qs) > 0)
  {
    hide Xor64, BodyBytes, StartsWithMarker;
    if qs != [] {
      var rest := qs[..|qs| - 1];
      ReceiverCounts(profile, seed, rest);
      WrapSum(Xor64(seed, 0x9e37_79b9_7f4a_7c15) as int, Accepted(Init(profile, seed), rest));
    }
  }

  /** For seven of the disguises the allowance is the least possible: some packet uses all of it. */
  lemma AllowanceIsReached(profile: Profile, p: seq<u8>) returns (s: Session)
    requires profile != Off && profile != StunIce && profile != DnsLike
    ensures s.profile == profile && |Wrapped(s, p)| == |p| + OverheadMax(profile)
  {
    var x: u64 := if profile == QuicShort then 159 else if profile == GameEnet then 5 else if profile == GameKcp then 4 else 0;
    s := Session(profile, x, 0, 0, 0, false, 3, 16);
    HeaderLengths(s, |p|);
    HeaderInFront(s, p);
    Longest(s);
    hide *;
  }

  lemma Longest(s: Session)
    requires s.profile != Off && s.profile != StunIce && s.profile != DnsLike && s.markerTxLeft == 3
    requires s.txSeq == if s.profile == QuicShort then 159 else if s.profile == GameEnet then 5 else if s.profile == GameKcp then 4 else 0
    ensures MarkerLen(s) == 4 && HeaderLength(s) + 4 + TrailerLen(s.profile, s.txSeq) == OverheadMax(s.profile)
  {
  }

  function HeaderLength(s: Session): nat {
    var x := s.txSeq as int;
    match s.profile
    case Off => 0
    case StunIce => 20
    case DtlsRecord => 13
    case RtpMedia => 12
    case SourceQuery => 6
    case Raknet => 9
    case QuicShort => 13 + x % 5 + x % 4
    case GameEnet => 10 + 4 * (x % 3)
    case GameKcp => 24
    case DnsLike => 28 + x % 6
  }

  lemma HeaderLengths(s: Session, n: nat)
    ensures |Header(s, n)| == HeaderLength(s)
  {
    hide StunHeader, DtlsHeader, RtpHeader, SourceHeader, RaknetHeader, QuicHeader, EnetHeader, KcpHeader, DnsHeader;
  }
}
