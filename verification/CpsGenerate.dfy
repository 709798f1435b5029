/** Generating a packet from a template. */
module CpsGenerate {
  import opened Words
  import opened CpsText
  import opened CpsTemplate
  import FastRand
  import Bits

  function Alphabet(): (a: seq<u8>)
    ensures |a| == 52
  {
    seq(52, i requires 0 <= i < 52 => if i < 26 then (0x61 + i) as u8 else (0x41 + i - 26) as u8)
  }

  function CharOf(v: u64): u8 { Alphabet()[v as int % 52] }

  function DigitOf(v: u64): u8 { (0x30 + v as int % 10) as u8 }

  /** n bytes, each picked by one draw. */
  function Picks(s: u64, n: nat, digits: bool): (b: seq<u8>)
    ensures |b| == n
  {
    hide FastRand.Step, CharOf, DigitOf;
    if n == 0 then []
    else
      var v := DrawState(s, n);
      Picks(s, n - 1, digits) + [if digits then DigitOf(v) else CharOf(v)]
  }

  /** The state after n draws. */
  function DrawState(s: u64, n: nat): u64 {
    hide FastRand.Step;
    if n == 0 then s else FastRand.Step(DrawState(s, n - 1))
  }

  function Be32(v: u32): (b: seq<u8>)
    ensures |b| == 4
  {
    [(v / 0x100_0000 % 0x100) as u8, (v / 0x1_0000 % 0x100) as u8, (v / 0x100 % 0x100) as u8, (v % 0x100) as u8]
  }

  /** The bytes one segment makes. */
  function Piece(g: Seg, s: u64, counter: u32, now: u32): (b: seq<u8>)
    ensures |b| == Size(g)
  {
    hide FastRand.Bytes, Picks;
    match g
    case Static(data) => data
    case Random(n) => FastRand.Bytes(s, n)
    case Chars(n) => Picks(s, n, false)
    case Digits(n) => Picks(s, n, true)
    case Timestamp => Be32(now)
    case Counter => Be32(counter)
  }

  /** The generator state it leaves. */
  function StateAfter(g: Seg, s: u64): u64 {
    match g
    case Random(n) => FastRand.AfterBytes(s, n)
    case Chars(n) => DrawState(s, n)
    case Digits(n) => DrawState(s, n)
    case _ => s
  }

  /** The bytes from segment i on, up to the first segment that does not fit; `clock` gives the time each timestamp
      reads. */
  function Gen(gs: seq<Seg>, i: nat, room: nat, s: u64, counter: u32, clock: nat -> u32): seq<u8>
    requires i <= |gs|
    decreases |gs| - i
  {
    hide Piece, StateAfter;
    if i == |gs| || Size(gs[i]) > room then []
    else Piece(gs[i], s, counter, clock(i)) + Gen(gs, i + 1, room - Size(gs[i]), StateAfter(gs[i], s), counter, clock)
  }

  lemma SizeStep(gs: seq<Seg>, i: nat)
    requires i < |gs|
    ensures MaxSize(gs[..i + 1]) == MaxSize(gs[..i]) + Size(gs[i])
  {
    assert gs[..i + 1] == gs[..i] + [gs[i]];
    Totals(gs[..i], gs[i]);
  }

  lemma {:induction false} SizeGrows(gs: seq<Seg>, i: nat)
    requires i <= |gs|
    ensures MaxSize(gs[..i]) <= MaxSize(gs)
    decreases |gs| - i
  {
    if i == |gs| {
      assert gs[..i] == gs;
    } else {
      SizeStep(gs, i);
      SizeGrows(gs, i + 1);
    }
  }

  /** With room for the whole template, everything is generated: the length is the size computed from the template,
      whatever the counter, the clock and the random state. */
  lemma {:induction false} GenFills(gs: seq<Seg>, i: nat, room: nat, s: u64, counter: u32, clock: nat -> u32)
    requires i <= |gs| && MaxSize(gs) - MaxSize(gs[..i]) <= room
    ensures |Gen(gs, i, room, s, counter, clock)| == MaxSize(gs) - MaxSize(gs[..i])
    decreases |gs| - i
  {
    hide Piece, StateAfter;
    if i == |gs| {
      assert gs[..i] == gs;
    } else {
      SizeStep(gs, i);
      SizeGrows(gs, i + 1);
      GenFills(gs, i + 1, room - Size(gs[i]), StateAfter(gs[i], s), counter, clock);
    }
  }

  lemma WholeFills(gs: seq<Seg>, room: nat, s: u64, counter: u32, clock: nat -> u32)
    requires MaxSize(gs) <= room
    ensures |Gen(gs, 0, room, s, counter, clock)| == MaxSize(gs)
  {
    assert gs[..0] == [];
    GenFills(gs, 0, room, s, counter, clock);
  }

  /** Static bytes appear verbatim at their place. */
  lemma {:induction false} StaticVerbatim(gs: seq<Seg>, i: nat, room: nat, s: u64, counter: u32, clock: nat -> u32, k: nat)
    requires i <= k < |gs| && MaxSize(gs) - MaxSize(gs[..i]) <= room && gs[k].Static?
    ensures var at := MaxSize(gs[..k]) - MaxSize(gs[..i]);
            var out := Gen(gs, i, room, s, counter, clock);
            0 <= at && at + |gs[k].data| <= |out| && out[at..at + |gs[k].data|] == gs[k].data
    decreases k - i
  {
    hide Gen, MaxSize, StateAfter, Piece;
    GenFills(gs, i, room, s, counter, clock);
    SizeStep(gs, i);
    SizeGrows(gs, i + 1);
    GenStep(gs, i, room, s, counter, clock);
    var head, rest := Piece(gs[i], s, counter, clock(i)), Gen(gs, i + 1, room - Size(gs[i]), StateAfter(gs[i], s), counter, clock);
    if i == k {
      StaticPiece(gs[i], s, counter, clock(i));
    } else {
      StaticVerbatim(gs, i + 1, room - Size(gs[i]), StateAfter(gs[i], s), counter, clock, k);
      SizeGrowsBetween(gs, i + 1, k);
      LaterSlice(head, rest, MaxSize(gs[..k]) - MaxSize(gs[..i + 1]), |gs[k].data|);
    }
  }

  lemma StaticPiece(g: Seg, s: u64, counter: u32, now: u32)
    requires g.Static?
    ensures Piece(g, s, counter, now) == g.data
  {
  }

  lemma SizeGrowsBetween(gs: seq<Seg>, i: nat, k: nat)
    requires i <= k <= |gs|
    ensures MaxSize(gs[..i]) <= MaxSize(gs[..k])
  {
    assert gs[..k][..i] == gs[..i];
    SizeGrows(gs[..k], i);
  }

  lemma LaterSlice(head: seq<u8>, rest: seq<u8>, at: nat, n: nat)
    requires at + n <= |rest|
    ensures (head + rest)[|head| + at..|head| + at + n] == rest[at..at + n]
  {
  }

  /** Random characters are letters, random digits digits. */
  lemma {:induction false} PicksInRange(s: u64, n: nat, digits: bool, k: nat)
    requires k < n
    ensures var c := Picks(s, n, digits)[k];
            if digits then 0x30 <= c <= 0x39 else 0x61 <= c <= 0x7a || 0x41 <= c <= 0x5a
  {
    hide FastRand.Step;
    if k < n - 1 {
      PicksInRange(s, n - 1, digits, k);
    }
  }

  /** An accepted template always makes a packet of exactly its computed size, at most 1500 bytes. */
  lemma AcceptedFills(text: string, s: u64, counter: u32, clock: nat -> u32)
    requires Parse(text).Some?
    ensures |Gen(Parse(text).value, 0, 1500, s, counter, clock)| == MaxSize(Parse(text).value) <= 1500
  {
    AcceptedBounds(text);
    WholeFills(Parse(text).value, 1500, s, counter, clock);
  }

  // ---- in place ----

  method FillPicks(buf: array<u8>, off: nat, n: nat, digits: bool, rng: FastRand.Rng)
    requires rng.s != 0 && off + n <= buf.Length
    modifies buf, rng
    ensures rng.s != 0 && rng.s == DrawState(old(rng.s), n)
    ensures buf[..off + n] == old(buf[..off]) + Picks(old(rng.s), n, digits)
  {
    hide FastRand.Step, CharOf, DigitOf;
    ghost var s0, before := rng.s, buf[..off];
    var j := 0;
    assert Picks(s0, 0, digits) == [];
    while j < n
      invariant 0 <= j <= n && rng.s != 0 && rng.s == DrawState(s0, j)
      invariant buf[..off + j] == before + Picks(s0, j, digits)
    {
      var v := rng.U64();
      buf[off + j] := if digits then DigitOf(v) else CharOf(v);
      assert buf[..off + j + 1] == buf[..off + j] + [buf[off + j]];
      j := j + 1;
    }
  }

  /** Writes one segment at off. */
  method WritePiece(tmpl: Template, i: nat, counter: u32, buf: array<u8>, off: nat, rng: FastRand.Rng, now: u32)
    requires tmpl.Valid() && i < tmpl.nseg && buf != tmpl.staticData
    requires rng.s != 0 && off + Size(SegView(tmpl.segs[i], tmpl.staticData[..])) <= buf.Length
    modifies buf, rng
    ensures var g := SegView(tmpl.segs[i], tmpl.staticData[..]);
            && rng.s != 0 && rng.s == StateAfter(g, old(rng.s))
            && buf[..off + Size(g)] == old(buf[..off]) + Piece(g, old(rng.s), counter, now)
  {
    hide FastRand.Bytes, Picks, DrawState, FastRand.AfterBytes, Be32, Packed;
    var r := tmpl.segs[i];
    tmpl.SegSizeIs(i);
    match r.kind
    case 'b' => FastRand.Put(buf, off, tmpl.staticData[r.dataOff as int..r.dataOff as int + r.dataLen as int]);
    case 'r' => rng.Fill(buf, off, r.size as int);
    case 'C' => FillPicks(buf, off, r.size as int, false, rng);
    case 'D' => FillPicks(buf, off, r.size as int, true, rng);
    case 't' => FastRand.Put(buf, off, Be32(now));
    case _ => FastRand.Put(buf, off, Be32(counter));
  }

  method CpsGeneratePacket(tmpl: Template, counter: u32, buf: array<u8>, clock: nat -> u32) returns (off: nat)
    requires tmpl.Valid() && buf != tmpl.staticData
    modifies buf
    ensures off <= buf.Length
    ensures buf[..off] == Gen(tmpl.View(), 0, buf.Length, FastRand.Seeded(Bits.Xor32(counter, 0xdead_beef) as u64), counter, clock)
    ensures MaxSize(tmpl.View()) <= buf.Length ==> off == MaxSize(tmpl.View())
  {
    hide Piece, StateAfter, Packed, SegView, Views, Gen, Size, MaxSize, Bits.Xor32;
    ghost var gs := tmpl.View();
    off := 0;
    var rng := new FastRand.Rng(Bits.Xor32(counter, 0xdead_beef) as u64);
    ghost var s0 := rng.s;
    if MaxSize(gs) <= buf.Length {
      WholeFills(gs, buf.Length, s0, counter, clock);
    }
    ghost var all := Gen(gs, 0, buf.Length, s0, counter, clock);
    var i := 0;
    while i < tmpl.nseg
      invariant 0 <= i <= tmpl.nseg && off <= buf.Length && rng.s != 0 && fresh(rng) && tmpl.View() == gs && tmpl.Valid()
      invariant all == buf[..off] + Gen(gs, i, buf.Length - off, rng.s, counter, clock)
    {
      ViewAt(tmpl, i);
      var size := SegSize(tmpl, i);
      GenNext(gs, i, buf.Length - off, rng.s, counter, clock, buf[..off]);
      if off + size > buf.Length {
        return;
      }
      WritePiece(tmpl, i, counter, buf, off, rng, clock(i));
      off := off + size;
      i := i + 1;
    }
    GenEnd(gs, buf.Length - off, rng.s, counter, clock);
    assert all == buf[..off] + [] == buf[..off];
  }

  /** What is still to be generated, behind what has been. */
  lemma GenNext(gs: seq<Seg>, i: nat, room: nat, s: u64, counter: u32, clock: nat -> u32, done: seq<u8>)
    requires i < |gs|
    ensures Size(gs[i]) > room ==> done + Gen(gs, i, room, s, counter, clock) == done
    ensures Size(gs[i]) <= room ==>
              done + Gen(gs, i, room, s, counter, clock)
              == (done + Piece(gs[i], s, counter, clock(i))) + Gen(gs, i + 1, room - Size(gs[i]), StateAfter(gs[i], s), counter, clock)
  {
    GenStep(gs, i, room, s, counter, clock);
    hide Gen, Piece, StateAfter, Size;
  }

  lemma GenStep(gs: seq<Seg>, i: nat, room: nat, s: u64, counter: u32, clock: nat -> u32)
    requires i < |gs|
    ensures Size(gs[i]) > room ==> Gen(gs, i, room, s, counter, clock) == []
    ensures Size(gs[i]) <= room ==>
              Gen(gs, i, room, s, counter, clock)
              == Piece(gs[i], s, counter, clock(i)) + Gen(gs, i + 1, room - Size(gs[i]), StateAfter(gs[i], s), counter, clock)
  {
    hide Piece, StateAfter, Size;
  }

  lemma GenEnd(gs: seq<Seg>, room: nat, s: u64, counter: u32, clock: nat -> u32)
    ensures Gen(gs, |gs|, room, s, counter, clock) == []
  {
  }

  method SegSize(tmpl: Template, i: nat) returns (size: nat)
    requires tmpl.Valid() && i < tmpl.nseg
    ensures size == Size(SegView(tmpl.segs[i], tmpl.staticData[..]))
  {
    hide Packed;
    tmpl.SegSizeIs(i);
    size := match tmpl.segs[i].kind
      case 'b' => tmpl.segs[i].dataLen as nat
      case 'r' => tmpl.segs[i].size as nat
      case 'C' => tmpl.segs[i].size as nat
      case 'D' => tmpl.segs[i].size as nat
      case _ => 4;
  }

  lemma ViewAt(tmpl: Template, i: nat)
    requires tmpl.Valid() && i < tmpl.nseg
    ensures tmpl.View()[i] == SegView(tmpl.segs[i], tmpl.staticData[..])
  {
    ViewsAt(tmpl.segs[..tmpl.nseg], tmpl.staticData[..], i);
  }

  lemma {:induction false} ViewsAt(rs: seq<Segment>, store: seq<u8>, i: nat)
    requires i < |rs|
    ensures Views(rs, store)[i] == SegView(rs[i], store)
  {
    if i < |rs| - 1 {
      ViewsAt(rs[..|rs| - 1], store, i);
    }
  }
}
