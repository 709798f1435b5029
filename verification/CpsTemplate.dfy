/** Parsing a template text into the fixed-size template record. */
module CpsTemplate {
  import opened Words
  import opened CpsText

  /** A segment record; data_off and data_len point into the static data. */
  datatype Segment = Segment(kind: char, size: u16, dataOff: u16, dataLen: u16)

  function SegView(r: Segment, store: seq<u8>): Seg {
    if r.kind == 'b' then
      if r.dataOff as int + r.dataLen as int <= |store| then Static(store[r.dataOff as int..r.dataOff as int + r.dataLen as int]) else Counter
    else if r.kind == 'r' then Random(r.size as int)
    else if r.kind == 'C' then Chars(r.size as int)
    else if r.kind == 'D' then Digits(r.size as int)
    else if r.kind == 't' then Timestamp
    else Counter
  }

  function Views(rs: seq<Segment>, store: seq<u8>): (gs: seq<Seg>)
    ensures |gs| == |rs|
  {
    if rs == [] then [] else Views(rs[..|rs| - 1], store) + [SegView(rs[|rs| - 1], store)]
  }

  /** The static slices follow each other without gap or overlap. */
  predicate Packed(rs: seq<Segment>, used: nat) {
    if rs == [] then used == 0
    else
      var r := rs[|rs| - 1];
      if r.kind == 'b' then r.dataOff as int + r.dataLen as int == used && Packed(rs[..|rs| - 1], r.dataOff as int)
      else Packed(rs[..|rs| - 1], used)
  }

  lemma {:induction false} PackedEnd(rs: seq<Segment>, used: nat, j: nat)
    requires Packed(rs, used) && j < |rs| && rs[j].kind == 'b'
    ensures rs[j].dataOff as int + rs[j].dataLen as int <= used
    decreases |rs|
  {
    var n := |rs| - 1;
    if j < n {
      PackedEnd(rs[..n], if rs[n].kind == 'b' then rs[n].dataOff as int else used, j);
    }
  }

  /** The slices of an accepted template are in order and disjoint. */
  lemma {:induction false} SlicesOrdered(rs: seq<Segment>, used: nat, j: nat, k: nat)
    requires Packed(rs, used) && j < k < |rs| && rs[j].kind == 'b' && rs[k].kind == 'b'
    ensures rs[j].dataOff as int + rs[j].dataLen as int <= rs[k].dataOff as int
    decreases |rs|
  {
    var n := |rs| - 1;
    if k < n {
      SlicesOrdered(rs[..n], if rs[n].kind == 'b' then rs[n].dataOff as int else used, j, k);
    } else {
      PackedEnd(rs[..n], rs[n].dataOff as int, j);
    }
  }

  lemma {:induction false} PackedTotal(rs: seq<Segment>, store: seq<u8>, used: nat)
    requires Packed(rs, used) && used <= |store|
    ensures StaticTotal(Views(rs, store)) == used
  {
    if rs != [] {
      var n := |rs| - 1;
      PackedTotal(rs[..n], store, if rs[n].kind == 'b' then rs[n].dataOff as int else used);
      Totals(Views(rs[..n], store), SegView(rs[n], store));
    }
  }

  /** Only the used part of the static data matters. */
  lemma {:induction false} ViewsFrame(rs: seq<Segment>, a: seq<u8>, b: seq<u8>, used: nat)
    requires Packed(rs, used) && used <= |a| == |b| && a[..used] == b[..used]
    ensures Views(rs, a) == Views(rs, b)
  {
    if rs != [] {
      var n := |rs| - 1;
      var r := rs[n];
      var before := if r.kind == 'b' then r.dataOff as int else used;
      assert a[..before] == a[..used][..before] && b[..before] == b[..used][..before];
      ViewsFrame(rs[..n], a, b, before);
      if r.kind == 'b' {
        assert a[before..used] == a[..used][before..] && b[before..used] == b[..used][before..];
      }
    }
  }

  lemma ViewsAppend(rs: seq<Segment>, r: Segment, store: seq<u8>)
    ensures Views(rs + [r], store) == Views(rs, store) + [SegView(r, store)]
  {
    assert (rs + [r])[..|rs|] == rs;
  }

  method SkipSpacesAt(s: string, i: nat, end: nat) returns (p: nat)
    requires i <= end <= |s|
    ensures i <= p <= end && SkipSpaces(s[i..end]) == s[p..end]
  {
    p := i;
    while p < end && (s[p] == ' ' || s[p] == '\t')
      invariant i <= p <= end && SkipSpaces(s[i..end]) == SkipSpaces(s[p..end])
    {
      assert s[p..end][1..] == s[p + 1..end];
      p := p + 1;
    }
  }

  method ParseIntAt(s: string) returns (v: int)
    ensures v == ParseInt(s)
  {
    if |s| <= 0 {
      return -1;
    }
    v := 0;
    var i := 0;
    while i < |s|
      invariant 0 <= i <= |s| && v >= 0 && ParseIntFrom(s, 0) == ParseIntFrom(s[i..], v)
    {
      if !('0' <= s[i] <= '9') {
        return -1;
      }
      if v > 100000 {
        return -1;
      }
      assert s[i..][1..] == s[i + 1..];
      v := v * 10 + (s[i] as int - '0' as int);
      i := i + 1;
    }
  }

  class Template {
    const segs: array<Segment>
    const staticData: array<u8>
    var nseg: nat
    var staticUsed: nat

    ghost predicate Valid()
      reads this, segs, staticData
    {
      && segs.Length == MAX_SEGMENTS && staticData.Length == MAX_STATIC
      && nseg <= MAX_SEGMENTS && staticUsed <= MAX_STATIC && Packed(segs[..nseg], staticUsed)
    }

    function View(): (gs: seq<Seg>)
      requires nseg <= segs.Length
      reads this, segs, staticData
      ensures |gs| == nseg
    {
      Views(segs[..nseg], staticData[..])
    }

    constructor ()
      ensures Valid() && View() == [] && fresh(segs) && fresh(staticData)
    {
      segs := new Segment[MAX_SEGMENTS](_ => Segment('b', 0, 0, 0));
      staticData := new u8[MAX_STATIC](_ => 0);
      nseg, staticUsed := 0, 0;
    }

    /** Adds a segment that owns no static data. */
    method AddPlain(r: Segment)
      requires Valid() && nseg < MAX_SEGMENTS && r.kind != 'b'
      modifies this`nseg, segs
      ensures Valid() && View() == old(View()) + [SegView(r, staticData[..])]
    {
      ghost var rs := segs[..nseg];
      segs[nseg] := r;
      nseg := nseg + 1;
      assert segs[..nseg] == rs + [r];
      assert (rs + [r])[..|rs|] == rs;
      ViewsAppend(rs, r, staticData[..]);
    }

    /** Adds a size-bearing segment of the given kind, or refuses. */
    method AddSized(kind: char, text: string) returns (ok: bool)
      requires Valid() && nseg < MAX_SEGMENTS && kind in {'r', 'C', 'D'}
      modifies this`nseg, segs
      ensures Valid() && (ok <==> SizeField(text).Some?)
      ensures View() == if ok then old(View()) + [SegView(Segment(kind, SizeField(text).value as u16, 0, 0), staticData[..])]
                        else old(View())
    {
      var p := SkipSpacesAt(text, 0, |text|);
      assert text[0..|text|] == text;
      var size := ParseIntAt(text[p..|text|]);
      if size <= 0 {
        return false;
      }
      AddPlain(Segment(kind, (size % 0x1_0000) as u16, 0, 0));
      return true;
    }

    /** Decodes hexadecimal text behind the static data in use, up to the first character that is none. */
    method Decode(hex: string) returns (ok: bool)
      requires staticData.Length == MAX_STATIC && |hex| % 2 == 0 && staticUsed + |hex| / 2 <= MAX_STATIC
      modifies this`staticUsed, staticData
      ensures ok <==> HexOk(hex)
      ensures ok ==> staticUsed == old(staticUsed) + |hex| / 2
      ensures ok ==> staticData[old(staticUsed)..staticUsed] == HexBytes(hex)
      ensures staticData[..old(staticUsed)] == old(staticData[..staticUsed])
    {
      ghost var before, used := staticData[..staticUsed], staticUsed;
      var j := 0;
      while j < |hex|
        invariant 0 <= j <= |hex| && j % 2 == 0 && staticUsed == used + j / 2
        invariant staticData[..used] == before && HexOk(hex[..j])
        invariant forall k :: 0 <= k < j / 2 ==> staticData[used + k] as int == HexVal(hex[2 * k]) * 16 + HexVal(hex[2 * k + 1])
      {
        HexRange(hex[j]);
        HexRange(hex[j + 1]);
        var hi, lo := HexVal(hex[j]), HexVal(hex[j + 1]);
        if hi < 0 || lo < 0 {
          return false;
        }
        staticData[staticUsed] := (hi * 16 + lo) as u8;
        staticUsed := staticUsed + 1;
        assert hex[..j + 2] == hex[..j] + [hex[j], hex[j + 1]];
        j := j + 2;
      }
      assert hex[..j] == hex;
      return true;
    }

    /** Adds a segment that owns the decoded bytes. */
    method AddStatic(hex: string) returns (ok: bool)
      requires Valid() && nseg < MAX_SEGMENTS && |hex| % 2 == 0
      modifies this, segs, staticData
      ensures ok ==> Valid()
      ensures ok <==> old(staticUsed) + |hex| / 2 <= MAX_STATIC && HexOk(hex)
      ensures ok ==> View() == old(View()) + [Static(HexBytes(hex))]
    {
      ghost var before, rs, used := staticData[..], segs[..nseg], staticUsed;
      var nbytes := |hex| / 2;
      if staticUsed + nbytes > MAX_STATIC {
        return false;
      }
      segs[nseg] := Segment('b', 0, staticUsed as u16, nbytes as u16);
      ok := Decode(hex);
      if ok {
        FinishStatic(rs, segs[nseg], before, used, hex);
        nseg := nseg + 1;
      }
    }

    /** The new slice is packed behind the others and shows the decoded bytes. */
    lemma FinishStatic(rs: seq<Segment>, r: Segment, before: seq<u8>, used: nat, hex: string)
      requires segs.Length == MAX_SEGMENTS && staticData.Length == MAX_STATIC == |before| && nseg < MAX_SEGMENTS
      requires |hex| % 2 == 0 && HexOk(hex) && used + |hex| / 2 <= MAX_STATIC
      requires segs[..nseg] == rs && segs[nseg] == r == Segment('b', 0, used as u16, (|hex| / 2) as u16)
      requires Packed(rs, used) && staticData[..used] == before[..used]
      requires staticData[used..used + |hex| / 2] == HexBytes(hex)
      ensures Packed(segs[..nseg + 1], used + |hex| / 2)
      ensures Views(segs[..nseg + 1], staticData[..]) == Views(rs, before) + [Static(HexBytes(hex))]
    {
      var now := staticData[..];
      assert now[..used] == before[..used] && now[used..used + |hex| / 2] == HexBytes(hex);
      assert segs[..nseg + 1] == rs + [r];
      assert (rs + [r])[..|rs|] == rs;
      ViewsFrame(rs, before, now, used);
      ViewsAppend(rs, r, now);
    }

    /** <r n>, <rc n> or <rd n>. */
    method AddRandom(inner: string) returns (ok: bool)
      requires Valid() && nseg < MAX_SEGMENTS && |inner| > 0 && inner[0] == 'r'
      modifies this`nseg, segs
      ensures Valid() && (ok <==> ParseTag(inner).Some?)
      ensures ok ==> !ParseTag(inner).value.Static? && View() == old(View()) + [ParseTag(inner).value]
    {
      hide SizeField, Views, Packed;
      if |inner| > 1 && inner[1] == 'c' {
        ok := AddSized('C', inner[2..]);
      } else if |inner| > 1 && inner[1] == 'd' {
        ok := AddSized('D', inner[2..]);
      } else {
        ok := AddSized('r', inner[1..]);
      }
    }

    /** The text behind <b. */
    method ParseStaticInto(text: string) returns (ok: bool)
      requires Valid() && nseg < MAX_SEGMENTS
      modifies this, segs, staticData
      ensures ok <==> ParseStatic(text).Some? && old(staticUsed) + StaticSize(ParseStatic(text).value) <= MAX_STATIC
      ensures ok ==> Valid() && View() == old(View()) + [ParseStatic(text).value]
    {
      hide Views, Packed, HexBytes, HexOk;
      var p := SkipSpacesAt(text, 0, |text|);
      assert text[0..|text|] == text;
      if p + 2 >= |text| || text[p] != '0' || (text[p + 1] != 'x' && text[p + 1] != 'X') {
        return false;
      }
      assert text[p..][2..] == text[p + 2..];
      if (|text| - (p + 2)) % 2 != 0 {
        return false;
      }
      ok := AddStatic(text[p + 2..]);
    }

    /** The tag between brackets. */
    method ParseTagInto(inner: string) returns (ok: bool)
      requires Valid() && nseg < MAX_SEGMENTS
      modifies this, segs, staticData
      ensures ok <==> ParseTag(inner).Some? && StaticTotal(old(View())) + StaticSize(ParseTag(inner).value) <= MAX_STATIC
      ensures ok ==> Valid() && View() == old(View()) + [ParseTag(inner).value]
    {
      hide StaticTotal, SizeField, Views, Packed, ParseStatic;
      PackedTotal(segs[..nseg], staticData[..], staticUsed);
      if |inner| <= 0 {
        return false;
      }
      if inner[0] == 'b' {
        ok := ParseStaticInto(inner[1..]);
      } else if inner[0] == 'r' {
        ok := AddRandom(inner);
      } else if inner[0] == 't' {
        AddPlain(Segment('t', 0, 0, 0));
        ok := true;
      } else if inner[0] == 'c' {
        AddPlain(Segment('c', 0, 0, 0));
        ok := true;
      } else {
        ok := false;
      }
    }

    /** Reads a whole template. */
    method CpsParse(s: string) returns (ok: bool)
      requires Valid() && nseg == 0
      modifies this, segs, staticData
      ensures ok <==> Parse(s).Some?
      ensures ok ==> Valid() && View() == Parse(s).value
    {
      hide ParseTag, Views, Packed, StaticTotal, MaxSize;
      var i := 0;
      assert s[0..] == s;
      NoSegments();
      while i < |s|
        invariant 0 <= i <= |s| && Valid()
        invariant ParseFrom(s, []) == ParseFrom(s[i..], View())
      {
        if Blank(s[i]) {
          assert s[i..][1..] == s[i + 1..];
          i := i + 1;
        } else {
          if s[i] != '<' {
            return false;
          }
          var end := FindClosing(s, i + 1);
          ClosingShift(s, i);
          if end == |s| || nseg >= MAX_SEGMENTS {
            return false;
          }
          assert s[i..][1..end - i] == s[i + 1..end] && s[i..][end - i + 1..] == s[end + 1..];
          ok := ParseTagInto(s[i + 1..end]);
          if !ok {
            return false;
          }
          i := end + 1;
        }
      }
      assert s[i..] == "";
      if nseg <= 0 {
        return false;
      }
      var total := CpsMaxSize();
      return total <= 1500;
    }

    lemma NoSegments()
      requires nseg == 0
      ensures View() == []
    {
    }

    lemma SizeOfNone()
      ensures MaxSize(Views([], staticData[..])) == 0
    {
    }

    method CpsMaxSize() returns (total: nat)
      requires Valid()
      ensures total == MaxSize(View())
    {
      hide Packed, MaxSize, Views;
      total := 0;
      SizeOfNone();
      var i := 0;
      ghost var store := staticData[..];
      while i < nseg
        invariant 0 <= i <= nseg && total == MaxSize(Views(segs[..i], store))
      {
        SegSizeIs(i);
        var size := match segs[i].kind
          case 'b' => segs[i].dataLen as nat
          case 'r' => segs[i].size as nat
          case 'C' => segs[i].size as nat
          case 'D' => segs[i].size as nat
          case _ => 4;
        assert size == Size(SegView(segs[i], store));
        assert segs[..i + 1] == segs[..i] + [segs[i]];
        OneMoreSize(segs[..i], segs[i], store);
        total := total + size;
        i := i + 1;
      }
    }

    lemma OneMoreSize(rs: seq<Segment>, r: Segment, store: seq<u8>)
      ensures MaxSize(Views(rs + [r], store)) == MaxSize(Views(rs, store)) + Size(SegView(r, store))
    {
      ViewsAppend(rs, r, store);
      Totals(Views(rs, store), SegView(r, store));
    }

    lemma SegSizeIs(i: nat)
      requires Valid() && i < nseg
      ensures segs[i].kind == 'b' ==> segs[i].dataOff as int + segs[i].dataLen as int <= MAX_STATIC
    {
      if segs[i].kind == 'b' {
        PackedEnd(segs[..nseg], staticUsed, i);
      }
    }
  }

  method FindClosing(s: string, i: nat) returns (e: nat)
    requires i <= |s|
    ensures e == Closing(s, i)
  {
    e := i;
    while e < |s| && s[e] != '>'
      invariant i <= e <= |s| && Closing(s, i) == Closing(s, e)
    {
      e := e + 1;
    }
  }

  lemma ClosingShift(s: string, i: nat)
    requires i < |s|
    ensures Closing(s[i..], 1) == Closing(s, i + 1) - i
  {
    ClosingShiftFrom(s, i, 1);
  }

  lemma {:induction false} ClosingShiftFrom(s: string, i: nat, k: nat)
    requires i + k <= |s|
    ensures Closing(s[i..], k) == Closing(s, i + k) - i
    decreases |s| - k
  {
    if i + k < |s| && s[i + k] != '>' {
      ClosingShiftFrom(s, i, k + 1);
    }
  }
}
