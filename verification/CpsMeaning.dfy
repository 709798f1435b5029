/** Templates, packets and headers in terms of their characters and bytes. */
module CpsMeaning {
  import opened Wrappers
  import opened Words
  import opened CpsText
  import opened CpsGenerate
  import opened CpsMakers

  // ---- the tags ----

  lemma OneTag(g: Seg)
    requires Printable(g) && Size(g) <= MAX_STATIC
    ensures Parse(PrintSeg(g)) == Some([g])
  {
    PrintOne(g);
    SizeOne(g);
    StaticWithinSize([g]);
    hide PrintSeg, Size, MaxSize, StaticTotal, Parse, Print;
    ParseOfPrint([g]);
  }

  /** The six tags as they are written. */
  lemma TagsAsWritten(n: nat, data: seq<u8>)
    ensures Parse("<t>") == Some([Timestamp]) && Parse("<c>") == Some([Counter])
    ensures 0 < n <= 1500 ==> Parse("<r " + Decimal(n) + ">") == Some([Random(n)])
    ensures 0 < n <= 1500 ==> Parse("<rc " + Decimal(n) + ">") == Some([Chars(n)])
    ensures 0 < n <= 1500 ==> Parse("<rd " + Decimal(n) + ">") == Some([Digits(n)])
    ensures 0 < |data| <= 1500 ==> Parse("<b 0x" + Hex(data) + ">") == Some([Static(data)])
  {
    hide Parse, Decimal, Hex;
    OneTag(Timestamp);
    OneTag(Counter);
    if 0 < n <= 1500 {
      OneTag(Random(n));
      OneTag(Chars(n));
      OneTag(Digits(n));
    }
    if 0 < |data| <= 1500 {
      OneTag(Static(data));
    }
  }

  /** Numbers are decimal, bytes two hexadecimal digits, high half first. */
  lemma NumbersAsWritten()
    ensures Decimal(1290) == "1290" && ParseInt("1290") == 1290
    ensures Hex([0x0a, 0xf9]) == "0af9" && HexOk("0AF9") && HexBytes("0AF9") == [0x0a, 0xf9]
  {
    DecimalOf1290();
    DecimalReads(1290);
    HexOfTwo();
    hide Decimal, ParseInt, Hex;
  }

  lemma DecimalOf1290()
    ensures Decimal(1290) == "1290"
  {
    assert Decimal(1) == "1";
    assert Decimal(12) == Decimal(1) + "2";
    assert Decimal(129) == Decimal(12) + "9";
    assert Decimal(1290) == Decimal(129) + "0";
    hide Decimal;
  }

  lemma HexOfTwo()
    ensures Hex([0x0a, 0xf9]) == "0af9"
  {
    var b: seq<u8> := [0x0a, 0xf9];
    assert b[..1] == [0x0a];
    assert Hex([]) == "" && [0x0a as u8][..0] == [];
    assert Hex([0x0a]) == "" + [HexChar(0), HexChar(10)];
    assert Hex(b) == Hex(b[..1]) + [HexChar(15), HexChar(9)];
    hide Hex;
  }

  // ---- the generated bytes ----

  /** Every segment's bytes stand at their place, made from some state of the generator. */
  lemma {:induction false} PieceAt(gs: seq<Seg>, i: nat, room: nat, s: u64, counter: u32, clock: nat -> u32, k: nat) returns (t: u64)
    requires i <= k < |gs| && MaxSize(gs) - MaxSize(gs[..i]) <= room
    ensures var at := MaxSize(gs[..k]) - MaxSize(gs[..i]);
            var out := Gen(gs, i, room, s, counter, clock);
            0 <= at && at + Size(gs[k]) <= |out| && out[at..at + Size(gs[k])] == Piece(gs[k], t, counter, clock(k))
    decreases k - i
  {
    hide Gen, MaxSize, StateAfter, Piece;
    GenFills(gs, i, room, s, counter, clock);
    SizeStep(gs, i);
    SizeGrows(gs, i + 1);
    GenStep(gs, i, room, s, counter, clock);
    var head, rest := Piece(gs[i], s, counter, clock(i)), Gen(gs, i + 1, room - Size(gs[i]), StateAfter(gs[i], s), counter, clock);
    if i == k {
      t := s;
    } else {
      t := PieceAt(gs, i + 1, room - Size(gs[i]), StateAfter(gs[i], s), counter, clock, k);
      SizeGrowsBetween(gs, i + 1, k);
      LaterSlice(head, rest, MaxSize(gs[..k]) - MaxSize(gs[..i + 1]), Size(gs[k]));
    }
  }

  /** Four bytes as a big-endian number. */
  function BeVal(b: seq<u8>): nat
    requires |b| == 4
  {
    b[0] as int * 0x100_0000 + b[1] as int * 0x1_0000 + b[2] as int * 0x100 + b[3] as int
  }

  lemma BeOf(v: u32)
    ensures BeVal(Be32(v)) == v as int
  {
    var n := v as int;
    var a, b, c := n / 0x100, n / 0x1_0000, n / 0x100_0000;
    assert n == 0x100 * a + n % 0x100 && a == 0x100 * b + a % 0x100 && b == 0x100 * c + b % 0x100 && c % 0x100 == c;
  }

  /** A timestamp reads the clock, a counter the packet's counter, both big-endian at their place. */
  lemma NumbersInPacket(gs: seq<Seg>, room: nat, s: u64, counter: u32, clock: nat -> u32, k: nat)
    requires k < |gs| && MaxSize(gs) <= room && (gs[k].Timestamp? || gs[k].Counter?)
    ensures var at := MaxSize(gs[..k]);
            var out := Gen(gs, 0, room, s, counter, clock);
            at + 4 <= |out| && BeVal(out[at..at + 4]) == if gs[k].Timestamp? then clock(k) as int else counter as int
  {
    assert MaxSize(gs[..0]) == 0;
    var t := PieceAt(gs, 0, room, s, counter, clock, k);
    BeOf(clock(k));
    BeOf(counter);
    hide Gen, MaxSize, Be32, BeVal;
  }

  /** Exactly the letters can be drawn. */
  lemma LettersOnly(c: u8)
    ensures c in Alphabet() <==> 0x61 <= c <= 0x7a || 0x41 <= c <= 0x5a
  {
    if 0x61 <= c <= 0x7a {
      assert Alphabet()[c as int - 0x61] == c;
    } else if 0x41 <= c <= 0x5a {
      assert Alphabet()[c as int - 0x41 + 26] == c;
    }
  }

  // ---- the makers ----

  /** Without a browser range the padding is as large as the draw, 200 bytes and the limit allow; with one the packet
      has the drawn size or the limit, unless it is larger already. */
  lemma PaddingMeans(header: int, extra: int, fp: Option<(int, int)>, iv: int, mtu: int, few: int, target: int, p: int)
    ensures var pad, size := CalcPadding(header, extra, fp, iv, mtu, few, target), header + extra;
            && (fp.Some? && size <= target && size <= mtu ==> size + pad == Min(target, mtu))
            && (fp.Some? && (size > target || size > mtu) ==> pad == 0)
            && (fp.None? ==> (p <= pad <==> p <= 0 || (p <= few * iv && p <= 200 && size + p <= mtu)))
  {
  }

  /** A long header of QUIC version 1: kind, version, the two identifiers with their lengths. */
  predicate LongHeader(h: seq<u8>, dcid: seq<u8>, scid: seq<u8>) {
    var at := 6 + |dcid|;
    && |h| > at + |scid| && h[0] >= 0xc0 && h[1] == 0 && h[2] == 0 && h[3] == 0 && h[4] == 1
    && h[5] as int == |dcid| && h[6..at] == dcid && h[at] as int == |scid| && h[at + 1..at + 1 + |scid|] == scid
  }

  lemma QuicInitialReads(d: QuicDraws)
    requires QuicDrawsOk(d)
    ensures var h := QuicInitialHeader(d); var at := 7 + |d.dcid| + |d.scid|;
            && LongHeader(h, d.dcid, d.scid) && h[0] as int == 0xc0 + d.flags
            && |h| == at + 1 + |d.token| + 4 && h[at] as int == |d.token| && h[at + 1..at + 1 + |d.token|] == d.token
            && h[at + 1 + |d.token|..] == d.reserved
  {
  }

  lemma QuicReads(first: u8, d: QuicDraws)
    requires QuicDrawsOk(d) && first >= 0xc0
    ensures var h := QuicHeader(first, d);
            LongHeader(h, d.dcid, d.scid) && h[0] == first && h[7 + |d.dcid| + |d.scid|..] == d.reserved
  {
  }

  /** A handshake record of DTLS 1.2 with a client hello: versions, epoch, sequence number, lengths and random. */
  lemma DtlsReads(d: DtlsDraws)
    requires DtlsDrawsOk(d)
    ensures var h := DtlsHeader(d);
            && h[0] == 22 && h[1] == 0xfe && h[2] == 0xfd && h[3] == 0 && h[4] as int == d.epoch && h[5..11] == d.seqno
            && h[11] as int * 256 + h[12] as int == d.fragLen && h[13] == 1 && h[14..20] == d.msg
            && h[20] == 0xfe && h[21] == 0xfd && h[24..28] == d.prefix && h[28..60] == d.random
  {
  }

  /** The kinds of long header an HTTP/3 packet is given: initial or handshake. */
  lemma Http3Kinds(i: nat)
    requires i < 7
    ensures var t := Http3Types()[i]; 0xc0 <= t <= 0xc3 || 0xe0 <= t <= 0xe2
    ensures Http3Types()[i] as int == if i < 4 then 0xc0 + i else 0xe0 + (i - 4)
  {
  }
}
