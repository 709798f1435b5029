/** The packet template language: its segments, how a template text is read, and how one is printed. */
module CpsText {
  import opened Wrappers
  import opened Words

  /** <b 0x..>, <r n>, <rc n>, <rd n>, <t> and <c>. */
  datatype Seg = Static(data: seq<u8>) | Random(n: nat) | Chars(n: nat) | Digits(n: nat) | Timestamp | Counter

  const MAX_SEGMENTS: nat := 32
  const MAX_STATIC: nat := 1500

  function Size(g: Seg): nat {
    match g
    case Static(data) => |data|
    case Random(n) => n
    case Chars(n) => n
    case Digits(n) => n
    case Timestamp => 4
    case Counter => 4
  }

  function MaxSize(gs: seq<Seg>): nat {
    if gs == [] then 0 else MaxSize(gs[..|gs| - 1]) + Size(gs[|gs| - 1])
  }

  function StaticSize(g: Seg): nat { if g.Static? then |g.data| else 0 }

  function StaticTotal(gs: seq<Seg>): nat {
    if gs == [] then 0 else StaticTotal(gs[..|gs| - 1]) + StaticSize(gs[|gs| - 1])
  }

  lemma {:induction false} Totals(gs: seq<Seg>, g: Seg)
    ensures MaxSize(gs + [g]) == MaxSize(gs) + Size(g) && StaticTotal(gs + [g]) == StaticTotal(gs) + StaticSize(g)
  {
    assert (gs + [g])[..|gs|] == gs;
  }

  lemma {:induction false} StaticWithinSize(gs: seq<Seg>)
    ensures StaticTotal(gs) <= MaxSize(gs)
  {
    if gs != [] {
      StaticWithinSize(gs[..|gs| - 1]);
    }
  }

  // ---- reading ----

  function HexVal(c: char): int {
    if '0' <= c <= '9' then c as int - '0' as int
    else if 'a' <= c <= 'f' then c as int - 'a' as int + 10
    else if 'A' <= c <= 'F' then c as int - 'A' as int + 10
    else -1
  }

  /** -1 for anything but digits, and for numbers that pass 100000 with digits still to come. */
  function ParseIntFrom(s: string, v: nat): int {
    if s == "" then v
    else if !('0' <= s[0] <= '9') || v > 100000 then -1
    else ParseIntFrom(s[1..], v * 10 + (s[0] as int - '0' as int))
  }

  function ParseInt(s: string): int {
    if s == "" then -1 else ParseIntFrom(s, 0)
  }

  function SkipSpaces(s: string): string {
    if s != "" && (s[0] == ' ' || s[0] == '\t') then SkipSpaces(s[1..]) else s
  }

  predicate HexOk(s: string) { forall i :: 0 <= i < |s| ==> HexVal(s[i]) >= 0 }

  function HexBytes(s: string): (b: seq<u8>)
    requires |s| % 2 == 0 && HexOk(s)
    ensures |b| == |s| / 2
  {
    seq(|s| / 2, i requires 0 <= i < |s| / 2 => HexByte(s, i))
  }

  function HexByte(s: string, i: nat): u8
    requires 2 * i + 1 < |s| && HexOk(s)
  {
    HexRange(s[2 * i]);
    HexRange(s[2 * i + 1]);
    (HexVal(s[2 * i]) * 16 + HexVal(s[2 * i + 1])) as u8
  }

  lemma HexRange(c: char)
    ensures -1 <= HexVal(c) < 16
  {
  }

  /** The size field is 16 bits wide: larger numbers are cut to it. */
  function SizeField(s: string): Option<nat> {
    var n := ParseInt(SkipSpaces(s));
    if n <= 0 then None else Some(n % 0x1_0000)
  }

  function ParseStatic(s: string): Option<Seg> {
    var p := SkipSpaces(s);
    if |p| <= 2 || p[0] != '0' || (p[1] != 'x' && p[1] != 'X') then None
    else if |p| % 2 != 0 || !HexOk(p[2..]) then None
    else Some(Static(HexBytes(p[2..])))
  }

  /** What stands between the brackets. */
  function ParseTag(s: string): Option<Seg> {
    if s == "" then None
    else if s[0] == 'b' then ParseStatic(s[1..])
    else if s[0] == 'r' then
      if |s| > 1 && s[1] == 'c' then
        var n := SizeField(s[2..]); if n.None? then None else Some(Chars(n.value))
      else if |s| > 1 && s[1] == 'd' then
        var n := SizeField(s[2..]); if n.None? then None else Some(Digits(n.value))
      else
        var n := SizeField(s[1..]); if n.None? then None else Some(Random(n.value))
    else if s[0] == 't' then Some(Timestamp)
    else if s[0] == 'c' then Some(Counter)
    else None
  }

  predicate Blank(c: char) { c == ' ' || c == '\t' || c == '\n' || c == '\r' }

  /** The position of the first closing bracket from i on, or the length. */
  function Closing(s: string, i: nat): (e: nat)
    requires i <= |s|
    ensures i <= e <= |s| && (e < |s| ==> s[e] == '>')
    decreases |s| - i
  {
    if i == |s| || s[i] == '>' then i else Closing(s, i + 1)
  }

  /** Reads on after the segments gs. */
  function ParseFrom(s: string, gs: seq<Seg>): Option<seq<Seg>>
    decreases |s|
  {
    if s == "" then Some(gs)
    else if Blank(s[0]) then ParseFrom(s[1..], gs)
    else if s[0] != '<' then None
    else
      var e := Closing(s, 1);
      if e == |s| || |gs| >= MAX_SEGMENTS then None
      else
        var g := ParseTag(s[1..e]);
        if g.None? || StaticTotal(gs) + StaticSize(g.value) > MAX_STATIC then None
        else ParseFrom(s[e + 1..], gs + [g.value])
  }

  function Parse(s: string): Option<seq<Seg>> {
    var r := ParseFrom(s, []);
    if r.None? || r.value == [] || MaxSize(r.value) > 1500 then None else r
  }

  /** Every accepted template has between one and 32 segments and generates at most 1500 bytes. */
  lemma AcceptedBounds(s: string)
    requires Parse(s).Some?
    ensures 1 <= |Parse(s).value| <= 32 && MaxSize(Parse(s).value) <= 1500
    ensures StaticTotal(Parse(s).value) <= 1500
  {
    ParseFromBounds(s, []);
  }

  lemma {:induction false} ParseFromBounds(s: string, gs: seq<Seg>)
    requires |gs| <= MAX_SEGMENTS && StaticTotal(gs) <= MAX_STATIC && ParseFrom(s, gs).Some?
    ensures |ParseFrom(s, gs).value| <= MAX_SEGMENTS && StaticTotal(ParseFrom(s, gs).value) <= MAX_STATIC
    decreases |s|
  {
    hide ParseTag;
    if s != "" {
      if Blank(s[0]) {
        ParseFromBounds(s[1..], gs);
      } else {
        var e := Closing(s, 1);
        var g := ParseTag(s[1..e]).value;
        Totals(gs, g);
        ParseFromBounds(s[e + 1..], gs + [g]);
      }
    }
  }

  // ---- printing ----

  function DigitChar(d: nat): char
    requires d < 10
  {
    '0' + d as char
  }

  function Decimal(n: nat): (s: string)
    ensures |s| > 0
  {
    if n < 10 then [DigitChar(n)] else Decimal(n / 10) + [DigitChar(n % 10)]
  }

  function HexChar(d: nat): char
    requires d < 16
  {
    if d < 10 then '0' + d as char else 'a' + (d - 10) as char
  }

  function Hex(b: seq<u8>): (s: string)
    ensures |s| == 2 * |b|
  {
    if b == [] then "" else Hex(b[..|b| - 1]) + [HexChar(b[|b| - 1] as int / 16), HexChar(b[|b| - 1] as int % 16)]
  }

  function PrintSeg(g: Seg): string {
    match g
    case Static(data) => "<b 0x" + Hex(data) + ">"
    case Random(n) => "<r " + Decimal(n) + ">"
    case Chars(n) => "<rc " + Decimal(n) + ">"
    case Digits(n) => "<rd " + Decimal(n) + ">"
    case Timestamp => "<t>"
    case Counter => "<c>"
  }

  function Print(gs: seq<Seg>): string {
    if gs == [] then "" else PrintSeg(gs[0]) + Print(gs[1..])
  }

  // ---- printing, then reading ----

  predicate IsDigit(c: char) { '0' <= c <= '9' }

  lemma {:induction false} ParseIntAppend(s: string, d: nat, v: nat)
    requires d < 10 && 0 <= ParseIntFrom(s, v) <= 100000
    ensures ParseIntFrom(s + [DigitChar(d)], v) == ParseIntFrom(s, v) * 10 + d
    decreases |s|
  {
    var u := s + [DigitChar(d)];
    if s == "" {
      assert u[1..] == "";
    } else {
      assert u[1..] == s[1..] + [DigitChar(d)] && u[0] == s[0];
      ParseIntAppend(s[1..], d, v * 10 + (s[0] as int - '0' as int));
    }
  }

  lemma {:induction false} DecimalReads(n: nat)
    requires n <= 1000009
    ensures ParseInt(Decimal(n)) == n && forall i :: 0 <= i < |Decimal(n)| ==> IsDigit(Decimal(n)[i])
  {
    if n < 10 {
      assert "" + [DigitChar(n)] == [DigitChar(n)];
      ParseIntAppend("", n, 0);
    } else {
      DecimalReads(n / 10);
      ParseIntAppend(Decimal(n / 10), n % 10, 0);
    }
  }

  lemma SizeFieldReads(n: nat)
    requires 0 < n <= 1000009
    ensures SizeField(" " + Decimal(n)) == Some(n % 0x1_0000)
  {
    DecimalReads(n);
    SkipsOne(Decimal(n));
    hide ParseInt, Decimal, SkipSpaces;
  }

  lemma SkipsOne(t: string)
    requires t != "" && t[0] != ' ' && t[0] != '\t'
    ensures SkipSpaces(" " + t) == t
  {
    var s := " " + t;
    assert s[1..] == t;
    assert SkipSpaces(t) == t;
  }

  lemma HexCharReads(d: nat)
    requires d < 16
    ensures HexVal(HexChar(d)) == d && HexChar(d) != '>'
  {
  }

  lemma {:induction false} HexReads(b: seq<u8>)
    ensures HexOk(Hex(b)) && HexBytes(Hex(b)) == b
    ensures forall i :: 0 <= i < |Hex(b)| ==> Hex(b)[i] != '>'
  {
    if b != [] {
      var rest, last := b[..|b| - 1], b[|b| - 1] as int;
      HexReads(rest);
      HexCharReads(last / 16);
      HexCharReads(last % 16);
      var h := Hex(b);
      assert h[..|h| - 2] == Hex(rest);
      forall i | 0 <= i < |b|
        ensures HexBytes(h)[i] == b[i]
      {
        if i < |rest| {
          assert HexBytes(Hex(rest))[i] == rest[i];
        }
      }
    }
  }

  /** What the printer puts between the brackets. */
  function Inner(g: Seg): string {
    match g
    case Static(data) => "b 0x" + Hex(data)
    case Random(n) => "r " + Decimal(n)
    case Chars(n) => "rc " + Decimal(n)
    case Digits(n) => "rd " + Decimal(n)
    case Timestamp => "t"
    case Counter => "c"
  }

  /** Segments a template can express: sizes and data not empty, and sizes within the 16-bit field. */
  predicate Printable(g: Seg) {
    match g
    case Static(data) => data != []
    case Random(n) => 0 < n < 0x1_0000
    case Chars(n) => 0 < n < 0x1_0000
    case Digits(n) => 0 < n < 0x1_0000
    case _ => true
  }

  lemma PrintedShape(g: Seg)
    ensures PrintSeg(g) == "<" + Inner(g) + ">"
  {
  }

  lemma InnerHasNoBracket(g: Seg)
    requires Printable(g)
    ensures Inner(g) != "" && forall i :: 0 <= i < |Inner(g)| ==> Inner(g)[i] != '>'
  {
    match g
    case Static(data) => HexReads(data);
    case Random(n) => DecimalReads(n);
    case Chars(n) => DecimalReads(n);
    case Digits(n) => DecimalReads(n);
    case _ =>
  }

  lemma StaticReads(data: seq<u8>)
    requires data != []
    ensures ParseStatic(" 0x" + Hex(data)) == Some(Static(data))
  {
    HexReads(data);
    var s := " 0x" + Hex(data);
    assert s[1..] == "0x" + Hex(data);
    assert SkipSpaces(s[1..]) == s[1..];
    assert SkipSpaces(s) == SkipSpaces(s[1..]);
    assert s[1..][2..] == Hex(data);
  }

  lemma TagReads(g: Seg)
    requires Printable(g)
    ensures ParseTag(Inner(g)) == Some(g)
  {
    var s := Inner(g);
    match g
    case Static(data) =>
      StaticReads(data);
      assert s[1..] == " 0x" + Hex(data);
    case Random(n) =>
      SizeFieldReads(n);
      assert s[1..] == " " + Decimal(n);
    case Chars(n) =>
      SizeFieldReads(n);
      assert s[2..] == " " + Decimal(n);
    case Digits(n) =>
      SizeFieldReads(n);
      assert s[2..] == " " + Decimal(n);
    case _ =>
  }

  lemma {:induction false} ClosingFound(s: string, i: nat, e: nat)
    requires i <= e < |s| && s[e] == '>' && forall j :: i <= j < e ==> s[j] != '>'
    ensures Closing(s, i) == e
    decreases e - i
  {
    if i < e {
      ClosingFound(s, i + 1, e);
    }
  }

  lemma TagStep(s: string, e: nat, g: Seg, gs: seq<Seg>)
    requires s != "" && s[0] == '<' && 1 <= e < |s| && Closing(s, 1) == e && ParseTag(s[1..e]) == Some(g)
    requires |gs| < MAX_SEGMENTS && StaticTotal(gs) + StaticSize(g) <= MAX_STATIC
    ensures ParseFrom(s, gs) == ParseFrom(s[e + 1..], gs + [g])
  {
    hide ParseTag, Closing, StaticTotal, StaticSize;
  }

  lemma Framed(inner: string, rest: string)
    ensures var s := "<" + inner + ">" + rest; var e := 1 + |inner|;
            s[1..e] == inner && s[e] == '>' && s[e + 1..] == rest && forall j :: 1 <= j < e ==> s[j] == inner[j - 1]
  {
  }

  lemma OneSegReads(g: Seg, rest: string, gs: seq<Seg>)
    requires Printable(g) && |gs| < MAX_SEGMENTS && StaticTotal(gs) + StaticSize(g) <= MAX_STATIC
    ensures ParseFrom(PrintSeg(g) + rest, gs) == ParseFrom(rest, gs + [g])
  {
    var inner := Inner(g);
    PrintedShape(g);
    InnerHasNoBracket(g);
    TagReads(g);
    hide Inner, PrintSeg, ParseTag, ParseFrom, StaticTotal, StaticSize;
    var s, e := "<" + inner + ">" + rest, 1 + |inner|;
    Framed(inner, rest);
    ClosingFound(s, 1, e);
    TagStep(s, e, g, gs);
  }

  lemma {:induction false} PrintReadsFrom(gs: seq<Seg>, done: seq<Seg>)
    requires forall i :: 0 <= i < |gs| ==> Printable(gs[i])
    requires |done| + |gs| <= MAX_SEGMENTS && StaticTotal(done + gs) <= MAX_STATIC
    ensures ParseFrom(Print(gs), done) == Some(done + gs)
    decreases |gs|
  {
    if gs == [] {
      assert done + gs == done;
    } else {
      assert done + gs == (done + [gs[0]]) + gs[1..];
      StaticPrefix(done + [gs[0]], gs[1..]);
      Totals(done, gs[0]);
      OneSegReads(gs[0], Print(gs[1..]), done);
      PrintReadsFrom(gs[1..], done + [gs[0]]);
    }
  }

  lemma {:induction false} StaticPrefix(a: seq<Seg>, b: seq<Seg>)
    ensures StaticTotal(a) <= StaticTotal(a + b)
    decreases |b|
  {
    if b == [] {
      assert a + b == a;
    } else {
      assert a + b == (a + b[..|b| - 1]) + [b[|b| - 1]];
      Totals(a + b[..|b| - 1], b[|b| - 1]);
      StaticPrefix(a, b[..|b| - 1]);
    }
  }

  /** Every list of printable segments within the limits is read back from its print, exactly. */
  lemma ParseOfPrint(gs: seq<Seg>)
    requires forall i :: 0 <= i < |gs| ==> Printable(gs[i])
    requires 1 <= |gs| <= MAX_SEGMENTS && MaxSize(gs) <= 1500
    ensures Parse(Print(gs)) == Some(gs)
  {
    hide ParseFrom, Print, Printable, MaxSize, StaticTotal;
    StaticWithinSize(gs);
    assert [] + gs == gs;
    PrintReadsFrom(gs, []);
  }

  /** The size field keeps 16 bits: of every size the number parser reads, what is left modulo 2^16 is generated. */
  lemma SizesAreCut(n: nat)
    requires 0 < n <= 1000009
    ensures Parse("<r " + Decimal(n) + ">") == if n % 0x1_0000 <= 1500 then Some([Random(n % 0x1_0000)]) else None
  {
    var tag, g := "r " + Decimal(n), Random(n % 0x1_0000);
    SizedTag(n);
    Totals([], g);
    assert [] + [g] == [g];
    hide ParseTag, Decimal, MaxSize, StaticTotal, Closing;
    Framed(tag, "");
    var s, e := "<" + tag + ">" + "", 1 + |tag|;
    assert s == "<r " + Decimal(n) + ">";
    ClosingFound(s, 1, e);
    TagStep(s, e, g, []);
  }

  lemma SizedTag(n: nat)
    requires 0 < n <= 1000009
    ensures var tag := "r " + Decimal(n); ParseTag(tag) == Some(Random(n % 0x1_0000)) && forall i :: 0 <= i < |tag| ==> tag[i] != '>'
    ensures MaxSize([]) == 0 == StaticTotal([])
  {
    var tag := "r " + Decimal(n);
    DecimalReads(n);
    SizeFieldReads(n);
    assert tag[1..] == " " + Decimal(n);
    hide SizeField, Decimal;
  }
}
