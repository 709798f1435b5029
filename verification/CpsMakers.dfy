/** The template makers: QUIC Initial, QUIC 0-RTT, HTTP/3 and DTLS. Random draws, host names and random bytes are
    parameters, limited to the ranges they are drawn from. */
module CpsMakers {
  import opened Wrappers
  import opened Words
  import opened CpsText

  /** The generator's settings: which tags to use, the packet size limit, and the browser's size range, if any. */
  datatype Input = Input(mtu: int, useR: bool, useRc: bool, useT: bool, fp: Option<(int, int)>)

  function Min(a: int, b: int): int { if a < b then a else b }
  function Max(a: int, b: int): int { if a > b then a else b }

  // ---- padding ----

  /** Padding of n bytes, in tags of at most 1000. */
  function SplitPad(n: int): seq<Seg>
    decreases n
  {
    if n <= 0 then [] else if n > 1000 then [Random(1000)] + SplitPad(n - 1000) else [Random(n)]
  }

  method SplitPadText(n: int) returns (text: string)
    ensures text == Print(SplitPad(n))
  {
    if n <= 0 {
      return "";
    }
    text := "";
    var remaining := n;
    while remaining > 1000
      invariant 0 < remaining <= n && Print(SplitPad(n)) == text + Print(SplitPad(remaining))
    {
      PrintAppend([Random(1000)], SplitPad(remaining - 1000));
      PrintOne(Random(1000));
      text := text + PrintSeg(Random(1000));
      remaining := remaining - 1000;
    }
    if remaining > 0 {
      PrintOne(Random(remaining));
      text := text + PrintSeg(Random(remaining));
    }
  }

  lemma PrintOne(g: Seg)
    ensures Print([g]) == PrintSeg(g)
  {
    assert Print([]) == "";
    assert [g][1..] == [];
  }

  lemma {:induction false} PrintAppend(a: seq<Seg>, b: seq<Seg>)
    ensures Print(a + b) == Print(a) + Print(b)
    decreases |a|
  {
    if a == [] {
      assert a + b == b;
    } else {
      assert (a + b)[1..] == a[1..] + b;
      PrintAppend(a[1..], b);
    }
  }

  lemma {:induction false} SizeAppend(a: seq<Seg>, b: seq<Seg>)
    ensures MaxSize(a + b) == MaxSize(a) + MaxSize(b)
    decreases |b|
  {
    if b == [] {
      assert a + b == a;
    } else {
      assert a + b == (a + b[..|b| - 1]) + [b[|b| - 1]];
      Totals(a + b[..|b| - 1], b[|b| - 1]);
      SizeAppend(a, b[..|b| - 1]);
    }
  }

  lemma SizeOne(g: Seg)
    ensures MaxSize([g]) == Size(g)
  {
    assert [g][..0] == [];
    assert MaxSize([]) == 0;
  }

  predicate AllPrintable(gs: seq<Seg>) { forall i :: 0 <= i < |gs| ==> Printable(gs[i]) }

  /** The tags of a padding make exactly that many bytes, and for up to 1500 bytes there are at most two. */
  lemma {:induction false} SplitPadSize(n: int)
    requires n <= 1500
    ensures MaxSize(SplitPad(n)) == Max(0, n) && AllPrintable(SplitPad(n)) && |SplitPad(n)| <= 2
    decreases n
  {
    if n > 1000 {
      SplitPadSize(n - 1000);
      assert |SplitPad(n - 1000)| == 1;
      SizeAppend([Random(1000)], SplitPad(n - 1000));
      SizeOne(Random(1000));
    } else if n > 0 {
      SizeOne(Random(n));
    }
  }

  /** The padding that fills a packet up to its target, never beyond the limit. `few` is the draw from 10 to 40,
      `target` the draw from the browser's range. */
  function CalcPadding(header: int, extra: int, fp: Option<(int, int)>, iv: int, mtu: int, few: int, target: int): (pad: int)
    ensures 0 <= pad <= Max(0, mtu - header - extra)
  {
    if fp.None? then Max(0, Min(Min(few * iv, 200), mtu - header - extra))
    else Max(0, Min(target - header - extra, mtu - header - extra))
  }

  function TagOverhead(useT: bool): int { if useT then 4 else 0 }

  // ---- the parts of a template ----

  function RcPart(inp: Input, n: nat): seq<Seg> { if inp.useRc then [Chars(n)] else [] }
  function TPart(inp: Input): seq<Seg> { if inp.useT then [Timestamp] else [] }
  function RPart(inp: Input, pad: int): seq<Seg> { if inp.useR then SplitPad(pad) else [] }

  function RcText(inp: Input, n: nat): string { if inp.useRc then "<rc " + Decimal(n) + ">" else "" }
  function TText(inp: Input): string { if inp.useT then "<t>" else "" }
  function RText(inp: Input, pad: int): string { if inp.useR then Print(SplitPad(pad)) else "" }

  lemma PartsPrint(inp: Input, n: nat, pad: int)
    ensures Print(RcPart(inp, n)) == RcText(inp, n) && Print(TPart(inp)) == TText(inp) && Print(RPart(inp, pad)) == RText(inp, pad)
  {
    PrintOne(Chars(n));
    PrintOne(Timestamp);
    assert Print([]) == "";
  }

  /** Extra bytes beside header and padding. */
  function Extra(inp: Input, n: nat): int { (if inp.useRc then n else 0) + TagOverhead(inp.useT) }

  lemma PartsSize(inp: Input, n: nat, pad: int)
    requires 0 < n < 0x1_0000 && 0 <= pad <= 1500
    ensures MaxSize(RcPart(inp, n)) + MaxSize(TPart(inp)) == Extra(inp, n) && MaxSize(RPart(inp, pad)) <= pad
    ensures AllPrintable(RcPart(inp, n)) && AllPrintable(TPart(inp)) && AllPrintable(RPart(inp, pad))
    ensures |RcPart(inp, n)| <= 1 && |TPart(inp)| <= 1 && |RPart(inp, pad)| <= 2
  {
    SizeOne(Chars(n));
    SizeOne(Timestamp);
    SplitPadSize(pad);
    assert MaxSize([]) == 0;
  }

  /** Four parts in a row, whatever their order. */
  lemma FourParts(h: seq<u8>, a: seq<Seg>, b: seq<Seg>, c: seq<Seg>)
    ensures var gs := [Static(h)] + a + b + c;
            && Print(gs) == PrintSeg(Static(h)) + Print(a) + Print(b) + Print(c)
            && MaxSize(gs) == |h| + MaxSize(a) + MaxSize(b) + MaxSize(c)
            && |gs| == 1 + |a| + |b| + |c|
    ensures h != [] && AllPrintable(a) && AllPrintable(b) && AllPrintable(c) ==> AllPrintable([Static(h)] + a + b + c)
  {
    hide Print, PrintSeg, MaxSize;
    var s := [Static(h)];
    PrintAppend(s, a);
    PrintAppend(s + a, b);
    PrintAppend(s + a + b, c);
    PrintOne(Static(h));
    SizeAppend(s, a);
    SizeAppend(s + a, b);
    SizeAppend(s + a + b, c);
    SizeOne(Static(h));
  }

  predicate GoodMtu(inp: Input) { 576 <= inp.mtu <= 1500 }

  /** A header of at most 150 bytes, up to 64 random characters and the padding computed for them stay within the
      packet size. */
  lemma WithinMtu(inp: Input, h: nat, n: nat, pad: int)
    requires GoodMtu(inp) && 0 < h <= 150 && 0 < n <= 64
    requires 0 <= pad <= Max(0, inp.mtu - h - Extra(inp, n))
    ensures h + Extra(inp, n) + pad <= inp.mtu && pad <= 1500
  {
  }

  /** What is claimed of every maker: the text is accepted, reads as the intended segments, and the packet it makes
      is no larger than the limit. */
  predicate Accepted(text: string, gs: seq<Seg>, inp: Input) {
    Parse(text) == Some(gs) && MaxSize(gs) <= inp.mtu
  }

  lemma AcceptParts(inp: Input, h: seq<u8>, n: nat, pad: int, a: seq<Seg>, b: seq<Seg>, c: seq<Seg>)
    requires GoodMtu(inp) && 0 < |h| <= 150 && 0 < n <= 64 && 0 <= pad <= Max(0, inp.mtu - |h| - Extra(inp, n))
    requires MaxSize(a) + MaxSize(b) + MaxSize(c) <= Extra(inp, n) + pad && |a| + |b| + |c| <= 4
    requires AllPrintable(a) && AllPrintable(b) && AllPrintable(c)
    ensures Accepted(PrintSeg(Static(h)) + Print(a) + Print(b) + Print(c), [Static(h)] + a + b + c, inp)
  {
    hide Print, PrintSeg, MaxSize, Parse, Printable;
    WithinMtu(inp, |h|, n, pad);
    FourParts(h, a, b, c);
    ParseOfPrint([Static(h)] + a + b + c);
  }

  // ---- QUIC Initial ----

  /** Draws: flag bits, connection identifiers, token and reserved bytes. */
  datatype QuicDraws = QuicDraws(flags: nat, dcid: seq<u8>, scid: seq<u8>, token: seq<u8>, reserved: seq<u8>)

  predicate QuicDrawsOk(d: QuicDraws) {
    d.flags <= 3 && 8 <= |d.dcid| <= 20 && |d.scid| <= 20 && |d.reserved| == 4 && (|d.token| == 0 || 8 <= |d.token| <= 32)
  }

  function QuicInitialHeader(d: QuicDraws): (h: seq<u8>)
    requires QuicDrawsOk(d)
    ensures |h| == 12 + |d.dcid| + |d.scid| + |d.token|
  {
    [(0xc0 + d.flags) as u8] + [0, 0, 0, 1] + [|d.dcid| as u8] + d.dcid + [|d.scid| as u8] + d.scid
    + [|d.token| as u8] + d.token + d.reserved
  }

  function SniLength(host: string, more: nat, limit: nat): (n: nat)
    requires |host| >= 1 && limit >= 1
    ensures 1 <= n <= limit
  {
    Min(|host| + more, limit)
  }

  function MkQuicI(inp: Input, iv: int, host: string, d: QuicDraws, more: nat, few: int, target: int): string
    requires QuicDrawsOk(d) && |host| >= 1
  {
    var n := SniLength(host, more, 64);
    var h := QuicInitialHeader(d);
    var pad := CalcPadding(|h|, Extra(inp, n), inp.fp, iv, inp.mtu, few, target);
    PrintSeg(Static(h)) + RcText(inp, n) + TText(inp) + RText(inp, pad)
  }

  lemma QuicIAccepted(inp: Input, iv: int, host: string, d: QuicDraws, more: nat, few: int, target: int)
    requires GoodMtu(inp) && QuicDrawsOk(d) && |host| >= 1
    ensures var n, h := SniLength(host, more, 64), QuicInitialHeader(d);
            var pad := CalcPadding(|h|, Extra(inp, n), inp.fp, iv, inp.mtu, few, target);
            Accepted(MkQuicI(inp, iv, host, d, more, few, target), [Static(h)] + RcPart(inp, n) + TPart(inp) + RPart(inp, pad), inp)
  {
    hide Accepted, CalcPadding, Extra, PrintSeg, RcText, TText, RText, RcPart, TPart, RPart;
    var n, h := SniLength(host, more, 64), QuicInitialHeader(d);
    var pad := CalcPadding(|h|, Extra(inp, n), inp.fp, iv, inp.mtu, few, target);
    PartsAccepted(inp, h, n, pad);
  }

  /** All three orders the makers use. */
  lemma PartsAccepted(inp: Input, h: seq<u8>, n: nat, pad: int)
    requires GoodMtu(inp) && 0 < |h| <= 150 && 0 < n <= 64 && 0 <= pad <= Max(0, inp.mtu - |h| - Extra(inp, n))
    ensures Accepted(PrintSeg(Static(h)) + RcText(inp, n) + TText(inp) + RText(inp, pad),
                     [Static(h)] + RcPart(inp, n) + TPart(inp) + RPart(inp, pad), inp)
    ensures Accepted(PrintSeg(Static(h)) + TText(inp) + RText(inp, pad) + RcText(inp, n),
                     [Static(h)] + TPart(inp) + RPart(inp, pad) + RcPart(inp, n), inp)
    ensures Accepted(PrintSeg(Static(h)) + RcText(inp, n) + RText(inp, pad) + TText(inp),
                     [Static(h)] + RcPart(inp, n) + RPart(inp, pad) + TPart(inp), inp)
  {
    WithinMtu(inp, |h|, n, pad);
    PartsSize(inp, n, pad);
    PartsPrint(inp, n, pad);
    hide Accepted, RcPart, TPart, RPart, RcText, TText, RText, Print, PrintSeg, MaxSize, AllPrintable, Extra;
    AcceptParts(inp, h, n, pad, RcPart(inp, n), TPart(inp), RPart(inp, pad));
    AcceptParts(inp, h, n, pad, TPart(inp), RPart(inp, pad), RcPart(inp, n));
    AcceptParts(inp, h, n, pad, RcPart(inp, n), RPart(inp, pad), TPart(inp));
  }

  // ---- QUIC 0-RTT ----

  /** The long header without token, with the given first byte. */
  function QuicHeader(first: u8, d: QuicDraws): (h: seq<u8>)
    requires QuicDrawsOk(d)
    ensures |h| == 11 + |d.dcid| + |d.scid|
  {
    [first] + [0, 0, 0, 1] + [|d.dcid| as u8] + d.dcid + [|d.scid| as u8] + d.scid + d.reserved
  }

  function MkQuic0(inp: Input, iv: int, host: string, d: QuicDraws, more: nat, few: int, target: int): string
    requires QuicDrawsOk(d) && |host| >= 1
  {
    var n := SniLength(host, more, 48);
    var h := QuicHeader((0xd0 + d.flags) as u8, d);
    var pad := CalcPadding(|h|, Extra(inp, n), inp.fp, iv, inp.mtu, few, target);
    PrintSeg(Static(h)) + TText(inp) + RText(inp, pad) + RcText(inp, n)
  }

  lemma Quic0Accepted(inp: Input, iv: int, host: string, d: QuicDraws, more: nat, few: int, target: int)
    requires GoodMtu(inp) && QuicDrawsOk(d) && |host| >= 1
    ensures var n, h := SniLength(host, more, 48), QuicHeader((0xd0 + d.flags) as u8, d);
            var pad := CalcPadding(|h|, Extra(inp, n), inp.fp, iv, inp.mtu, few, target);
            Accepted(MkQuic0(inp, iv, host, d, more, few, target), [Static(h)] + TPart(inp) + RPart(inp, pad) + RcPart(inp, n), inp)
  {
    hide Accepted, CalcPadding, Extra, PrintSeg, RcText, TText, RText, RcPart, TPart, RPart;
    var n, h := SniLength(host, more, 48), QuicHeader((0xd0 + d.flags) as u8, d);
    var pad := CalcPadding(|h|, Extra(inp, n), inp.fp, iv, inp.mtu, few, target);
    PartsAccepted(inp, h, n, pad);
  }

  // ---- HTTP/3 ----

  function Http3Types(): (t: seq<u8>)
    ensures |t| == 7
  {
    [0xc0, 0xc1, 0xc2, 0xc3, 0xe0, 0xe1, 0xe2]
  }

  function MkHttp3(inp: Input, iv: int, host: string, ptype: nat, d: QuicDraws, more: nat, few: int, target: int): string
    requires QuicDrawsOk(d) && |host| >= 1 && ptype < 7
  {
    var n := SniLength(host, 9 + more, 64);
    var h := QuicHeader(Http3Types()[ptype], d);
    var pad := CalcPadding(|h|, Extra(inp, n), inp.fp, iv, inp.mtu, few, target);
    PrintSeg(Static(h)) + RcText(inp, n) + RText(inp, pad) + TText(inp)
  }

  lemma Http3Accepted(inp: Input, iv: int, host: string, ptype: nat, d: QuicDraws, more: nat, few: int, target: int)
    requires GoodMtu(inp) && QuicDrawsOk(d) && |host| >= 1 && ptype < 7
    ensures var n, h := SniLength(host, 9 + more, 64), QuicHeader(Http3Types()[ptype], d);
            var pad := CalcPadding(|h|, Extra(inp, n), inp.fp, iv, inp.mtu, few, target);
            Accepted(MkHttp3(inp, iv, host, ptype, d, more, few, target), [Static(h)] + RcPart(inp, n) + RPart(inp, pad) + TPart(inp), inp)
  {
    hide Accepted, CalcPadding, Extra, PrintSeg, RcText, TText, RText, RcPart, TPart, RPart;
    var n, h := SniLength(host, 9 + more, 64), QuicHeader(Http3Types()[ptype], d);
    var pad := CalcPadding(|h|, Extra(inp, n), inp.fp, iv, inp.mtu, few, target);
    PartsAccepted(inp, h, n, pad);
  }

  // ---- DTLS ----

  /** Draws: epoch, sequence number, fragment length, message header, random prefix and random. */
  datatype DtlsDraws = DtlsDraws(epoch: nat, seqno: seq<u8>, fragLen: nat, msg: seq<u8>, prefix: seq<u8>, random: seq<u8>)

  predicate DtlsDrawsOk(d: DtlsDraws) {
    d.epoch <= 255 && |d.seqno| == 6 && 100 <= d.fragLen <= 300 && |d.msg| == 6 && |d.prefix| == 4 && |d.random| == 32
  }

  function DtlsHeader(d: DtlsDraws): (h: seq<u8>)
    requires DtlsDrawsOk(d)
    ensures |h| == 60
  {
    [0x16, 0xfe, 0xfd] + [0, d.epoch as u8] + d.seqno + [(d.fragLen / 256) as u8, (d.fragLen % 256) as u8] + [0x01] + d.msg
    + [0xfe, 0xfd, 0x00, 0x00] + d.prefix + d.random
  }

  function MkDtls(inp: Input, iv: int, host: string, d: DtlsDraws, more: nat, few: int, target: int): string
    requires DtlsDrawsOk(d) && |host| >= 1
  {
    var n := SniLength(host, more, 60);
    var h := DtlsHeader(d);
    var pad := CalcPadding(|h|, Extra(inp, n), inp.fp, iv, inp.mtu, few, target);
    PrintSeg(Static(h)) + RcText(inp, n) + TText(inp) + RText(inp, pad)
  }

  lemma DtlsAccepted(inp: Input, iv: int, host: string, d: DtlsDraws, more: nat, few: int, target: int)
    requires GoodMtu(inp) && DtlsDrawsOk(d) && |host| >= 1
    ensures var n, h := SniLength(host, more, 60), DtlsHeader(d);
            var pad := CalcPadding(|h|, Extra(inp, n), inp.fp, iv, inp.mtu, few, target);
            Accepted(MkDtls(inp, iv, host, d, more, few, target), [Static(h)] + RcPart(inp, n) + TPart(inp) + RPart(inp, pad), inp)
  {
    hide Accepted, CalcPadding, Extra, PrintSeg, RcText, TText, RText, RcPart, TPart, RPart;
    var n, h := SniLength(host, more, 60), DtlsHeader(d);
    var pad := CalcPadding(|h|, Extra(inp, n), inp.fp, iv, inp.mtu, few, target);
    PartsAccepted(inp, h, n, pad);
  }
}
