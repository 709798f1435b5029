/** The peer configuration text: reading its sections, filtering out disabled peers, and writing it back. */
module PeerConf {
  import opened ConfText

  /** A stored field: text, or the flag a comment sets. */
  datatype Val = Str(s: string) | Flag(b: bool)

  type Peer = map<string, Val>

  const NAME := "_name"
  const CLIENT_CONF := "_client_conf"
  const EXPIRY := "_expiry"
  const DISABLED := "_disabled"
  const PUBLIC_KEY := "PublicKey"
  const PRESHARED_KEY := "PresharedKey"
  const ALLOWED_IPS := "AllowedIPs"
  const ENDPOINT := "Endpoint"

  predicate Truthy(v: Val) { if v.Str? then v.s != "" else v.b }

  function NewPeer(): Peer {
    map[NAME := Str(""), CLIENT_CONF := Str(""), EXPIRY := Str(""), DISABLED := Flag(false)]
  }

  predicate Starts(s: string, p: string) { p <= s }

  // ---- reading peers ----

  /** What a stripped line does: opens a peer, ends the one being read, sets one of its fields, or nothing. */
  datatype Effect = OpenPeer | Close | Set(key: string, val: Val) | Nothing

  function LineEffect(t: string): Effect {
    if t == "[Peer]" then OpenPeer
    else if Starts(t, "#Name=") then Set(NAME, Str(Strip(t[6..])))
    else if Starts(t, "#ClientConf=") then Set(CLIENT_CONF, Str(Strip(t[12..])))
    else if Starts(t, "#Expiry=") then Set(EXPIRY, Str(Strip(t[8..])))
    else if t == "#Disabled=true" then Set(DISABLED, Flag(true))
    else if Starts(t, "[") then Close
    else if HasEquals(t) && !Starts(t, "#") then Set(KeyOf(t), Str(ValueOf(t)))
    else Nothing
  }

  /** The peers read so far; the last one is still open, or none is. */
  datatype Reading = Reading(peers: seq<Peer>, open: bool)

  function ReadLine(r: Reading, line: string): (r': Reading)
    requires r.open ==> r.peers != []
    ensures r'.open ==> r'.peers != []
  {
    hide LineEffect;
    match LineEffect(Strip(line))
    case OpenPeer => Reading(r.peers + [NewPeer()], true)
    case Close => Reading(r.peers, false)
    case Set(k, v) =>
      if r.open then
        var n := |r.peers| - 1;
        Reading(r.peers[n := r.peers[n][k := v]], true)
      else r
    case Nothing => r
  }

  function ReadLines(r: Reading, ls: seq<string>): (r': Reading)
    requires r.open ==> r.peers != []
    ensures r'.open ==> r'.peers != []
  {
    if ls == [] then r else ReadLine(ReadLines(r, ls[..|ls| - 1]), ls[|ls| - 1])
  }

  function ParsePeers(conf: string): seq<Peer> {
    ReadLines(Reading([], false), SplitLines(conf)).peers
  }

  method ParsePeersLoop(conf: string) returns (peers: seq<Peer>)
    ensures peers == ParsePeers(conf)
  {
    hide LineEffect, SplitLines;
    peers := [];
    var open := false;
    var lines := SplitLines(conf);
    var i := 0;
    while i < |lines|
      invariant 0 <= i <= |lines| && (open ==> peers != [])
      invariant Reading(peers, open) == ReadLines(Reading([], false), lines[..i])
    {
      assert lines[..i + 1][..i] == lines[..i];
      var effect := LineEffect(Strip(lines[i]));
      match effect {
        case OpenPeer =>
          peers := peers + [NewPeer()];
          open := true;
        case Close =>
          open := false;
        case Set(k, v) =>
          if open {
            var n := |peers| - 1;
            peers := peers[n := peers[n][k := v]];
          }
        case Nothing =>
      }
      i := i + 1;
    }
    assert lines[..i] == lines;
  }

  lemma {:induction false} ReadAppend(r: Reading, a: seq<string>, b: seq<string>)
    requires r.open ==> r.peers != []
    ensures ReadLines(r, a + b) == ReadLines(ReadLines(r, a), b)
    decreases |b|
  {
    if b == [] {
      assert a + b == a;
    } else {
      assert (a + b)[..|a + b| - 1] == a + b[..|b| - 1];
      ReadAppend(r, a, b[..|b| - 1]);
    }
  }

  // ---- reading the interface section ----

  datatype Section = Section(inside: bool, keys: map<string, string>)

  function SectionLine(s: Section, line: string): Section {
    var t := Strip(line);
    if t == "[Interface]" then s.(inside := true)
    else
      var inside := s.inside && !Starts(t, "[");
      Section(inside, if inside && HasEquals(t) then s.keys[KeyOf(t) := ValueOf(t)] else s.keys)
  }

  function SectionLines(s: Section, ls: seq<string>): Section {
    if ls == [] then s else SectionLine(SectionLines(s, ls[..|ls| - 1]), ls[|ls| - 1])
  }

  function ParseServerSection(conf: string): map<string, string> {
    SectionLines(Section(false, map[]), SplitLines(conf)).keys
  }

  method ParseServerSectionLoop(conf: string) returns (result: map<string, string>)
    ensures result == ParseServerSection(conf)
  {
    hide SplitLines, Strip;
    result := map[];
    var inIface := false;
    var lines := SplitLines(conf);
    var i := 0;
    while i < |lines|
      invariant 0 <= i <= |lines|
      invariant Section(inIface, result) == SectionLines(Section(false, map[]), lines[..i])
    {
      assert lines[..i + 1][..i] == lines[..i];
      var line := Strip(lines[i]);
      i := i + 1;
      if line == "[Interface]" {
        inIface := true;
        continue;
      }
      if Starts(line, "[") {
        inIface := false;
      }
      if inIface && HasEquals(line) {
        result := result[KeyOf(line) := ValueOf(line)];
      }
    }
    assert lines[..i] == lines;
  }

  lemma {:induction false} SectionAppend(s: Section, a: seq<string>, b: seq<string>)
    ensures SectionLines(s, a + b) == SectionLines(SectionLines(s, a), b)
    decreases |b|
  {
    if b == [] {
      assert a + b == a;
    } else {
      assert (a + b)[..|a + b| - 1] == a + b[..|b| - 1];
      SectionAppend(s, a, b[..|b| - 1]);
    }
  }

  // ---- the filter for the running configuration ----

  /** The filter's state: lines let through, and the peer block being held back until its end is known. */
  datatype Filter = Filter(result: seq<string>, inPeer: bool, held: seq<string>, disabled: bool)

  function Flush(f: Filter): seq<string> {
    if f.inPeer && !f.disabled then f.result + f.held else f.result
  }

  function FilterLine(f: Filter, line: string): Filter {
    var t := Strip(line);
    if t == "[Peer]" then Filter(Flush(f), true, [line], false)
    else if Starts(t, "[") then Filter(Flush(f) + [line], false, [], false)
    else if f.inPeer then f.(held := f.held + [line], disabled := f.disabled || t == "#Disabled=true")
    else f.(result := f.result + [line])
  }

  function FilterLines(ls: seq<string>): Filter {
    if ls == [] then Filter([], false, [], false) else FilterLine(FilterLines(ls[..|ls| - 1]), ls[|ls| - 1])
  }

  function RuntimeLines(conf: string): seq<string> { Flush(FilterLines(SplitLines(conf))) }

  function BuildRuntimeConf(conf: string): string { Join(RuntimeLines(conf)) }

  method BuildRuntimeConfLoop(conf: string) returns (text: string)
    ensures text == BuildRuntimeConf(conf)
  {
    hide SplitLines, Join;
    var lines := SplitLines(conf);
    var result, inPeer, held, disabled := [], false, [], false;
    var i := 0;
    while i < |lines|
      invariant 0 <= i <= |lines|
      invariant Filter(result, inPeer, held, disabled) == FilterLines(lines[..i])
    {
      assert lines[..i + 1][..i] == lines[..i];
      var line := lines[i];
      var t := Strip(line);
      if t == "[Peer]" {
        if inPeer && !disabled {
          result := result + held;
        }
        inPeer, held, disabled := true, [line], false;
      } else if Starts(t, "[") {
        if inPeer && !disabled {
          result := result + held;
        }
        inPeer, held, disabled := false, [], false;
        result := result + [line];
      } else if inPeer {
        held := held + [line];
        if t == "#Disabled=true" {
          disabled := true;
        }
      } else {
        result := result + [line];
      }
      i := i + 1;
    }
    assert lines[..i] == lines;
    if inPeer && !disabled {
      result := result + held;
    }
    text := Join(result);
  }

  // ---- the filter keeps what the text means ----

  /** For each peer of the text, whether its block contains the line that disables it. */
  datatype Marked = Marked(peer: Peer, disabled: bool)

  datatype MarkedReading = MarkedReading(peers: seq<Marked>, open: bool)

  function MarkLine(r: MarkedReading, line: string): (r': MarkedReading)
    requires r.open ==> r.peers != []
    ensures r'.open ==> r'.peers != []
  {
    hide LineEffect;
    var t := Strip(line);
    match LineEffect(t)
    case OpenPeer => MarkedReading(r.peers + [Marked(NewPeer(), false)], true)
    case Close => MarkedReading(r.peers, false)
    case Set(k, v) =>
      if r.open then
        var n := |r.peers| - 1;
        var m := r.peers[n];
        MarkedReading(r.peers[n := Marked(m.peer[k := v], m.disabled || t == "#Disabled=true")], true)
      else r
    case Nothing => r
  }

  function MarkLines(ls: seq<string>): (r: MarkedReading)
    ensures r.open ==> r.peers != []
  {
    if ls == [] then MarkedReading([], false) else MarkLine(MarkLines(ls[..|ls| - 1]), ls[|ls| - 1])
  }

  function Peers(ms: seq<Marked>): (ps: seq<Peer>)
    ensures |ps| == |ms|
  {
    seq(|ms|, i requires 0 <= i < |ms| => ms[i].peer)
  }

  /** The peers whose block does not contain the line. */
  function Enabled(ms: seq<Marked>): seq<Peer> {
    if ms == [] then []
    else
      var last := ms[|ms| - 1];
      Enabled(ms[..|ms| - 1]) + if last.disabled then [] else [last.peer]
  }

  /** Marking does not change what is read. */
  lemma {:induction false} MarkingReads(ls: seq<string>)
    ensures ReadLines(Reading([], false), ls) == Reading(Peers(MarkLines(ls).peers), MarkLines(ls).open)
  {
    if ls != [] {
      MarkingReads(ls[..|ls| - 1]);
      hide LineEffect;
      var r := MarkLines(ls[..|ls| - 1]);
      assert Peers(MarkLines(ls).peers) == ReadLines(Reading([], false), ls).peers;
    }
  }

  lemma EnabledAppend(ms: seq<Marked>, m: Marked)
    ensures Enabled(ms + [m]) == Enabled(ms) + if m.disabled then [] else [m.peer]
  {
    assert (ms + [m])[..|ms|] == ms;
  }

  /** What the filter has let through reads as the enabled peers, and what it holds back as the open one. */
  ghost predicate FilterMeans(f: Filter, r: MarkedReading)
    requires r.open ==> r.peers != []
  {
    var out := ReadLines(Reading([], false), f.result);
    && (f.inPeer <==> r.open)
    && (!f.inPeer ==> out == Reading(Enabled(r.peers), false) && f.held == [] && !f.disabled)
    && (f.inPeer ==>
          var n := |r.peers| - 1;
          && out.peers == Enabled(r.peers[..n])
          && ReadLines(out, f.held) == Reading(out.peers + [r.peers[n].peer], true)
          && f.disabled == r.peers[n].disabled)
  }

  lemma FlushMeans(f: Filter, r: MarkedReading)
    requires (r.open ==> r.peers != []) && FilterMeans(f, r)
    ensures ReadLines(Reading([], false), Flush(f)).peers == Enabled(r.peers)
    ensures !f.inPeer ==> !ReadLines(Reading([], false), Flush(f)).open
  {
    if f.inPeer {
      var n := |r.peers| - 1;
      assert r.peers == r.peers[..n] + [r.peers[n]];
      EnabledAppend(r.peers[..n], r.peers[n]);
      ReadAppend(Reading([], false), f.result, f.held);
    }
  }

  lemma {:induction false} ReadOne(r: Reading, ls: seq<string>, line: string)
    requires r.open ==> r.peers != []
    ensures ReadLines(r, ls + [line]) == ReadLine(ReadLines(r, ls), line)
  {
    assert (ls + [line])[..|ls|] == ls;
  }

  lemma BracketCloses(t: string)
    requires Starts(t, "[") && t != "[Peer]"
    ensures LineEffect(t) == Close
  {
    assert t[0] == '[';
  }

  lemma OtherLines(t: string)
    requires !Starts(t, "[")
    ensures t != "[Peer]" && (LineEffect(t).Set? || LineEffect(t).Nothing?)
    ensures t == "#Disabled=true" ==> LineEffect(t).Set?
  {
  }

  lemma OpenStep(f: Filter, r: MarkedReading, line: string)
    requires (r.open ==> r.peers != []) && FilterMeans(f, r) && Strip(line) == "[Peer]"
    ensures FilterMeans(FilterLine(f, line), MarkLine(r, line))
  {
    FlushMeans(f, r);
    var out := ReadLines(Reading([], false), Flush(f));
    ReadOne(out, [], line);
    assert [] + [line] == [line];
    assert ReadLines(out, []) == out;
    var r' := MarkLine(r, line);
    assert r'.peers[..|r'.peers| - 1] == r.peers;
    hide Enabled, ReadLines;
  }

  lemma CloseStep(f: Filter, r: MarkedReading, line: string)
    requires (r.open ==> r.peers != []) && FilterMeans(f, r) && Starts(Strip(line), "[") && Strip(line) != "[Peer]"
    ensures FilterMeans(FilterLine(f, line), MarkLine(r, line))
  {
    FlushMeans(f, r);
    BracketCloses(Strip(line));
    ReadOne(Reading([], false), Flush(f), line);
    hide Enabled, ReadLines, LineEffect;
  }

  lemma InsideReads(before: seq<Peer>, r: MarkedReading, line: string)
    requires r.open && r.peers != [] && (LineEffect(Strip(line)).Set? || LineEffect(Strip(line)).Nothing?)
    ensures var n := |r.peers| - 1;
            ReadLine(Reading(before + [r.peers[n].peer], true), line) == Reading(before + [MarkLine(r, line).peers[n].peer], true)
  {
    hide LineEffect, Strip;
    var n := |r.peers| - 1;
    var q := MarkLine(r, line).peers[n].peer;
    assert (before + [r.peers[n].peer])[|before| := q] == before + [q];
  }

  /** A line inside a block changes the open peer in the same way on both sides. */
  lemma InsideStep(f: Filter, r: MarkedReading, line: string)
    requires (r.open ==> r.peers != []) && FilterMeans(f, r) && !Starts(Strip(line), "[") && f.inPeer
    ensures FilterMeans(FilterLine(f, line), MarkLine(r, line))
  {
    OtherLines(Strip(line));
    var n := |r.peers| - 1;
    var out := ReadLines(Reading([], false), f.result);
    ReadOne(out, f.held, line);
    var r' := MarkLine(r, line);
    InsideReads(out.peers, r, line);
    assert r'.peers[..n] == r.peers[..n];
    hide Enabled, ReadLines, ReadLine, LineEffect;
  }

  lemma OutsideStep(f: Filter, r: MarkedReading, line: string)
    requires (r.open ==> r.peers != []) && FilterMeans(f, r) && !Starts(Strip(line), "[") && !f.inPeer
    ensures FilterMeans(FilterLine(f, line), MarkLine(r, line))
  {
    OtherLines(Strip(line));
    ReadOne(Reading([], false), f.result, line);
    hide Enabled, ReadLines, LineEffect;
  }

  lemma {:induction false} FilterKeepsPeers(ls: seq<string>)
    ensures FilterMeans(FilterLines(ls), MarkLines(ls))
  {
    if ls == [] {
      assert ReadLines(Reading([], false), []) == Reading([], false);
    } else {
      var rest, line := ls[..|ls| - 1], ls[|ls| - 1];
      FilterKeepsPeers(rest);
      var f, r := FilterLines(rest), MarkLines(rest);
      hide FilterMeans, FilterLine, MarkLine;
      if Strip(line) == "[Peer]" {
        OpenStep(f, r, line);
      } else if Starts(Strip(line), "[") {
        CloseStep(f, r, line);
      } else if f.inPeer {
        InsideStep(f, r, line);
      } else {
        OutsideStep(f, r, line);
      }
    }
  }

  // ---- from lines to text ----

  lemma EmptyLineIsNothing(r: Reading, s: Section)
    requires r.open ==> r.peers != []
    ensures ReadLine(r, "") == r && SectionLine(s, "") == s
  {
  }

  /** Joining and splitting lines changes nothing that is read from them. */
  lemma ReadJoined(ls: seq<string>)
    requires CleanLines(ls)
    ensures ReadLines(Reading([], false), SplitLines(Join(ls))) == ReadLines(Reading([], false), ls)
    ensures SectionLines(Section(false, map[]), SplitLines(Join(ls))) == SectionLines(Section(false, map[]), ls)
  {
    SplitOfJoin(ls);
    if ls != [] && ls[|ls| - 1] == "" {
      EmptyLineIsNothing(ReadLines(Reading([], false), ls[..|ls| - 1]), SectionLines(Section(false, map[]), ls[..|ls| - 1]));
    }
    hide SplitLines, Join, ReadLine, SectionLine;
  }

  lemma {:induction false} FilterClean(ls: seq<string>)
    requires CleanLines(ls)
    ensures CleanLines(FilterLines(ls).result) && CleanLines(FilterLines(ls).held)
  {
    if ls != [] {
      FilterClean(ls[..|ls| - 1]);
    }
  }

  lemma RuntimeLinesClean(conf: string)
    ensures CleanLines(RuntimeLines(conf))
  {
    SplitLinesClean(conf);
    FilterClean(SplitLines(conf));
    hide FilterLines, SplitLines;
  }

  /** For any text: the filtered text reads as exactly the peers whose block has no disabling line, in order. */
  lemma FilteredPeers(conf: string)
    ensures ParsePeers(BuildRuntimeConf(conf)) == Enabled(MarkLines(SplitLines(conf)).peers)
    ensures ParsePeers(conf) == Peers(MarkLines(SplitLines(conf)).peers)
  {
    var ls := SplitLines(conf);
    RuntimeLinesClean(conf);
    ReadJoined(RuntimeLines(conf));
    FilterKeepsPeers(ls);
    FlushMeans(FilterLines(ls), MarkLines(ls));
    MarkingReads(ls);
    hide SplitLines, Join, FilterLines, MarkLines, ReadLines, Enabled, FilterMeans;
  }

  // ---- the filter keeps the interface section ----

  predicate SectionMeans(f: Filter, s: Section) {
    var out := SectionLines(Section(false, map[]), f.result);
    if f.inPeer then out.keys == s.keys && !s.inside && SectionLines(out, f.held) == Section(false, out.keys)
    else out == s
  }

  lemma FlushSection(f: Filter, s: Section)
    requires SectionMeans(f, s)
    ensures var out := SectionLines(Section(false, map[]), Flush(f)); out.keys == s.keys && (!f.inPeer ==> out == s)
  {
    SectionAppend(Section(false, map[]), f.result, f.held);
    hide SectionLines;
  }

  lemma SectionOne(s: Section, ls: seq<string>, line: string)
    ensures SectionLines(s, ls + [line]) == SectionLine(SectionLines(s, ls), line)
    ensures SectionLines(s, [line]) == SectionLine(s, line)
  {
    assert (ls + [line])[..|ls|] == ls;
    assert [line][..0] == [];
    assert SectionLines(s, []) == s;
  }

  lemma SectionStep(f: Filter, s: Section, line: string)
    requires SectionMeans(f, s)
    ensures SectionMeans(FilterLine(f, line), SectionLine(s, line))
  {
    var start := Section(false, map[]);
    FlushSection(f, s);
    SectionOne(start, Flush(f), line);
    SectionOne(start, f.result, line);
    SectionOne(SectionLines(start, f.result), f.held, line);
    SectionOne(SectionLines(start, Flush(f)), [], line);
    hide SectionLines, Strip, HasEquals, KeyOf, ValueOf;
  }

  lemma {:induction false} FilterKeepsSection(ls: seq<string>)
    ensures SectionMeans(FilterLines(ls), SectionLines(Section(false, map[]), ls))
  {
    if ls != [] {
      FilterKeepsSection(ls[..|ls| - 1]);
      SectionStep(FilterLines(ls[..|ls| - 1]), SectionLines(Section(false, map[]), ls[..|ls| - 1]), ls[|ls| - 1]);
      hide SectionMeans, FilterLine, SectionLine;
    }
  }

  /** For any text: the filtered text has the same interface section. */
  lemma FilteredSection(conf: string)
    ensures ParseServerSection(BuildRuntimeConf(conf)) == ParseServerSection(conf)
  {
    var ls := SplitLines(conf);
    RuntimeLinesClean(conf);
    ReadJoined(RuntimeLines(conf));
    FilterKeepsSection(ls);
    FlushSection(FilterLines(ls), SectionLines(Section(false, map[]), ls));
    hide SplitLines, Join, FilterLines, SectionLines, SectionMeans;
  }

  // ---- disabled by the line, or by the field ----

  predicate IsDisabled(p: Peer) { DISABLED in p && Truthy(p[DISABLED]) }

  /** The peers whose own field does not say disabled. */
  function Active(ps: seq<Peer>): seq<Peer> {
    if ps == [] then []
    else Active(ps[..|ps| - 1]) + if IsDisabled(ps[|ps| - 1]) then [] else [ps[|ps| - 1]]
  }

  /** No line writes the field except the comment meant for it. */
  predicate NoDisabledKey(ls: seq<string>) {
    forall i :: 0 <= i < |ls| ==> SetsDisabled(ls[i]) ==> Strip(ls[i]) == "#Disabled=true"
  }

  predicate SetsDisabled(line: string) {
    LineEffect(Strip(line)).Set? && LineEffect(Strip(line)).key == DISABLED
  }

  /** Each block contains the line exactly when its field reads as disabled. */
  predicate MarksAgree(ms: seq<Marked>) {
    forall i :: 0 <= i < |ms| ==> (ms[i].disabled <==> IsDisabled(ms[i].peer))
  }

  lemma MarkStepAgrees(r: MarkedReading, line: string)
    requires (r.open ==> r.peers != []) && MarksAgree(r.peers)
    requires SetsDisabled(line) ==> Strip(line) == "#Disabled=true"
    ensures MarksAgree(MarkLine(r, line).peers)
  {
    DisabledLine();
    hide Strip, LineEffect;
  }

  lemma DisabledLine()
    ensures LineEffect("#Disabled=true") == Set(DISABLED, Flag(true))
  {
    var t := "#Disabled=true";
    assert t[1] == 'D' && "#Name="[1] == 'N' && "#ClientConf="[1] == 'C' && "#Expiry="[1] == 'E';
  }

  lemma {:induction false} FieldAgrees(ls: seq<string>)
    requires NoDisabledKey(ls)
    ensures MarksAgree(MarkLines(ls).peers)
  {
    if ls != [] {
      var rest := ls[..|ls| - 1];
      FieldAgrees(rest);
      MarkStepAgrees(MarkLines(rest), ls[|ls| - 1]);
      hide MarksAgree, MarkLine, SetsDisabled;
    }
  }

  lemma {:induction false} AgreeingFilters(ms: seq<Marked>)
    requires MarksAgree(ms)
    ensures Enabled(ms) == Active(Peers(ms))
  {
    if ms != [] {
      AgreeingFilters(ms[..|ms| - 1]);
      assert Peers(ms)[..|ms| - 1] == Peers(ms[..|ms| - 1]);
    }
  }

  lemma {:induction false} ActiveOnly(ps: seq<Peer>, p: Peer)
    requires p in Active(ps)
    ensures !IsDisabled(p)
  {
    if p in Active(ps[..|ps| - 1]) {
      ActiveOnly(ps[..|ps| - 1], p);
    }
  }

  lemma {:induction false} UnmarkedIsEnabled(ms: seq<Marked>, i: nat)
    requires i < |ms| && !ms[i].disabled
    ensures ms[i].peer in Enabled(ms)
  {
    if i < |ms| - 1 {
      UnmarkedIsEnabled(ms[..|ms| - 1], i);
    }
  }

  /** If no peer the filter keeps reads as disabled, the filter keeps all active ones only by agreeing everywhere. */
  lemma {:induction false} EqualCounts(ms: seq<Marked>)
    requires forall i :: 0 <= i < |ms| && IsDisabled(ms[i].peer) ==> ms[i].disabled
    ensures |Enabled(ms)| <= |Active(Peers(ms))|
    ensures |Enabled(ms)| == |Active(Peers(ms))| ==> MarksAgree(ms)
  {
    if ms != [] {
      EqualCounts(ms[..|ms| - 1]);
      assert Peers(ms)[..|ms| - 1] == Peers(ms[..|ms| - 1]);
      hide IsDisabled;
    }
  }

  lemma EqualFiltersAgree(ms: seq<Marked>)
    requires Enabled(ms) == Active(Peers(ms))
    ensures MarksAgree(ms)
  {
    hide IsDisabled, Enabled, Active, MarksAgree;
    forall i | 0 <= i < |ms| && IsDisabled(ms[i].peer)
      ensures ms[i].disabled
    {
      if !ms[i].disabled {
        UnmarkedIsEnabled(ms, i);
        ActiveOnly(Peers(ms), ms[i].peer);
      }
    }
    EqualCounts(ms);
  }

  /** For any text, the filtered text has the same interface section; and parsing it gives exactly the peers that are
      not disabled, in order, if and only if each block contains the comment line exactly when its field reads as
      disabled. */
  lemma RuntimeConfMeans(conf: string)
    ensures ParsePeers(BuildRuntimeConf(conf)) == Active(ParsePeers(conf)) <==> MarksAgree(MarkLines(SplitLines(conf)).peers)
    ensures ParseServerSection(BuildRuntimeConf(conf)) == ParseServerSection(conf)
  {
    hide SplitLines, MarkLines, ParsePeers, BuildRuntimeConf, ParseServerSection, Enabled, Active, Peers, MarksAgree;
    FilteredPeers(conf);
    FilteredSection(conf);
    var ms := MarkLines(SplitLines(conf)).peers;
    if Enabled(ms) == Active(Peers(ms)) {
      EqualFiltersAgree(ms);
    }
    if MarksAgree(ms) {
      AgreeingFilters(ms);
    }
  }

  /** That is so for every text in which no line but the comment writes the field. */
  lemma CommentsOnlyMeans(conf: string)
    requires NoDisabledKey(SplitLines(conf))
    ensures ParsePeers(BuildRuntimeConf(conf)) == Active(ParsePeers(conf))
  {
    hide SplitLines, MarkLines, ParsePeers, BuildRuntimeConf, Active, MarksAgree, NoDisabledKey;
    FieldAgrees(SplitLines(conf));
    RuntimeConfMeans(conf);
  }

  /** The comment and the field are not the same thing: this peer counts as disabled, yet the filter lets it
      through. */
  lemma KeyedFieldEscapesFilter()
    ensures var conf := Join(["[Peer]", "_disabled = yes"]);
            |ParsePeers(conf)| == 1 && IsDisabled(ParsePeers(conf)[0]) && ParsePeers(BuildRuntimeConf(conf)) == ParsePeers(conf)
  {
    hide SplitLines, Join, MarkLines, BuildRuntimeConf, LineEffect, IsDisabled;
    var ls := ["[Peer]", "_disabled = yes"];
    EscapingText();
    EscapingLines();
    FilteredPeers(Join(ls));
    MarkingReads(ls);
  }

  lemma EscapingText()
    ensures var ls := ["[Peer]", "_disabled = yes"]; SplitLines(Join(ls)) == ls
  {
    hide SplitLines, Join;
    SplitOfJoin(["[Peer]", "_disabled = yes"]);
  }

  /** A line that is neither comment nor section header. */
  lemma PlainLine(t: string)
    requires t != "" && t[0] != '[' && t[0] != '#'
    ensures LineEffect(t) == if HasEquals(t) then Set(KeyOf(t), Str(ValueOf(t))) else Nothing
  {
    hide HasEquals, KeyOf, ValueOf;
  }

  lemma EscapingLines()
    ensures var ms := MarkLines(["[Peer]", "_disabled = yes"]).peers;
            |ms| == 1 && IsDisabled(ms[0].peer) && Enabled(ms) == Peers(ms)
  {
    hide Strip, LineEffect, MarkLine, MarkLines, Enabled, Peers, IsDisabled;
    var a, b := "[Peer]", "_disabled = yes";
    FixedTrim();
    StripTrims(a);
    OpeningLine();
    EscapingLine();
    MarkTwoLines(a, b);
    MarkEscaping(a, b, "yes");
  }

  lemma MarkTwoLines(a: string, b: string)
    ensures MarkLines([a, b]) == MarkLine(MarkLine(MarkedReading([], false), a), b)
  {
    hide MarkLine;
    assert [a, b][..1] == [a] && [a][..0] == [];
    assert MarkLines([a]) == MarkLine(MarkLines([]), a);
  }

  lemma EscapingLine()
    ensures Strip("_disabled = yes") == "_disabled = yes" && LineEffect("_disabled = yes") == Set(DISABLED, Str("yes"))
    ensures "_disabled = yes" != "#Disabled=true"
  {
    var b := "_disabled = yes";
    KeyValue("_disabled", "yes");
    assert b == "_disabled" + " = " + "yes";
    StripTrims(b);
    assert b[0] == '_';
    PlainLine(b);
    hide LineEffect, Strip, KeyOf, ValueOf, HasEquals;
  }

  /** An opening line and one that stores a text in the field. */
  lemma MarkEscaping(a: string, b: string, v: string)
    requires LineEffect(Strip(a)) == OpenPeer && LineEffect(Strip(b)) == Set(DISABLED, Str(v)) && v != ""
    requires Strip(b) != "#Disabled=true"
    ensures var ms := MarkLine(MarkLine(MarkedReading([], false), a), b).peers;
            |ms| == 1 && IsDisabled(ms[0].peer) && Enabled(ms) == Peers(ms)
  {
    hide Strip, LineEffect, NewPeer, DISABLED;
    var ms := MarkLine(MarkLine(MarkedReading([], false), a), b).peers;
    assert ms == [] + [Marked(NewPeer()[DISABLED := Str(v)], false)];
    EnabledAppend([], ms[0]);
    assert Enabled([]) == [];
  }

  // ---- writing back ----

  function Text(p: Peer, k: string): string {
    if k in p && p[k].Str? then p[k].s else ""
  }

  function Opt(text: string, line: string): seq<string> { if text != "" then [line] else [] }

  /** The lines of a rendered peer. */
  function PeerLines(p: Peer): (ls: seq<string>)
    ensures ls != []
  {
    ["[Peer]"]
    + Opt(Text(p, NAME), "#Name=" + Text(p, NAME))
    + Opt(Text(p, CLIENT_CONF), "#ClientConf=" + Text(p, CLIENT_CONF))
    + Opt(Text(p, EXPIRY), "#Expiry=" + Text(p, EXPIRY))
    + (if IsDisabled(p) then ["#Disabled=true"] else [])
    + Opt(Text(p, PUBLIC_KEY), PUBLIC_KEY + " = " + Text(p, PUBLIC_KEY))
    + Opt(Text(p, PRESHARED_KEY), PRESHARED_KEY + " = " + Text(p, PRESHARED_KEY))
    + Opt(Text(p, ALLOWED_IPS), ALLOWED_IPS + " = " + Text(p, ALLOWED_IPS))
    + Opt(Text(p, ENDPOINT), ENDPOINT + " = " + Text(p, ENDPOINT))
  }

  function PeerToConf(p: Peer): string { Join(PeerLines(p)) }

  function BeforePeers(ls: seq<string>): seq<string> {
    if ls == [] || Strip(ls[0]) == "[Peer]" then [] else [ls[0]] + BeforePeers(ls[1..])
  }

  function DropBlank(ls: seq<string>): seq<string> {
    if ls != [] && Strip(ls[|ls| - 1]) == "" then DropBlank(ls[..|ls| - 1]) else ls
  }

  function InterfaceLines(conf: string): seq<string> { DropBlank(BeforePeers(SplitLines(conf))) }

  function ExtractInterfaceBlock(conf: string): string { Join(InterfaceLines(conf)) }

  method ExtractInterfaceBlockLoop(conf: string) returns (text: string)
    ensures text == ExtractInterfaceBlock(conf)
  {
    hide SplitLines, Strip, Join;
    var lines := SplitLines(conf);
    var result := [];
    var i := 0;
    assert lines[0..] == lines && [] + BeforePeers(lines) == BeforePeers(lines);
    while i < |lines|
      invariant 0 <= i <= |lines| && BeforePeers(lines) == result + BeforePeers(lines[i..])
    {
      assert lines[i..][1..] == lines[i + 1..];
      if Strip(lines[i]) == "[Peer]" {
        break;
      }
      result := result + [lines[i]];
      i := i + 1;
    }
    assert result == BeforePeers(lines);
    while result != [] && Strip(result[|result| - 1]) == ""
      invariant DropBlank(result) == DropBlank(BeforePeers(lines))
      decreases |result|
    {
      result := result[..|result| - 1];
    }
    text := Join(result);
  }

  method RebuildConfLoop(conf: string, ps: seq<Peer>) returns (text: string)
    ensures text == RebuildConf(conf, ps)
  {
    hide Join, PeerToConf, InterfaceLines;
    var parts := [ExtractInterfaceBlock(conf)];
    var i := 0;
    while i < |ps|
      invariant 0 <= i <= |ps| && parts == [ExtractInterfaceBlock(conf)] + PeerParts(ps[..i])
    {
      assert ps[..i + 1][..i] == ps[..i];
      parts := parts + [""];
      parts := parts + [PeerToConf(ps[i])];
      i := i + 1;
    }
    assert ps[..i] == ps;
    text := Join(parts) + "\n";
  }

  function PeerParts(ps: seq<Peer>): seq<string> {
    if ps == [] then [] else PeerParts(ps[..|ps| - 1]) + ["", PeerToConf(ps[|ps| - 1])]
  }

  function RebuildConf(conf: string, ps: seq<Peer>): string {
    Join([ExtractInterfaceBlock(conf)] + PeerParts(ps)) + "\n"
  }

  /** What survives being written and read again. */
  datatype Fields = Fields(name: string, clientConf: string, expiry: string, disabled: bool,
                           publicKey: string, presharedKey: string, allowedIPs: string, endpoint: string)

  function Retained(p: Peer): Fields {
    Fields(Text(p, NAME), Text(p, CLIENT_CONF), Text(p, EXPIRY), IsDisabled(p),
           Text(p, PUBLIC_KEY), Text(p, PRESHARED_KEY), Text(p, ALLOWED_IPS), Text(p, ENDPOINT))
  }

  function AllRetained(ps: seq<Peer>): (fs: seq<Fields>)
    ensures |fs| == |ps|
  {
    seq(|ps|, i requires 0 <= i < |ps| => Retained(ps[i]))
  }

  /** A value that can stand on a line. */
  predicate CleanText(v: string) { Trim(v) && NoBreaks(v) }

  predicate Clean(p: Peer) {
    forall k :: k in p && p[k].Str? ==> CleanText(p[k].s)
  }

  predicate AllClean(ps: seq<Peer>) { forall i :: 0 <= i < |ps| ==> Clean(ps[i]) }

  function Put(p: Peer, text: string, k: string): Peer { if text != "" then p[k := Str(text)] else p }

  /** The peer read back from a rendered one. */
  function Rendered(p: Peer): Peer {
    var q4 := Put(RenderedComments(p), Text(p, PUBLIC_KEY), PUBLIC_KEY);
    var q5 := Put(q4, Text(p, PRESHARED_KEY), PRESHARED_KEY);
    var q6 := Put(q5, Text(p, ALLOWED_IPS), ALLOWED_IPS);
    Put(q6, Text(p, ENDPOINT), ENDPOINT)
  }

  /** Its comment fields. */
  function RenderedComments(p: Peer): Peer {
    var q0 := Put(NewPeer(), Text(p, NAME), NAME);
    var q1 := Put(q0, Text(p, CLIENT_CONF), CLIENT_CONF);
    var q2 := Put(q1, Text(p, EXPIRY), EXPIRY);
    if IsDisabled(p) then q2[DISABLED := Flag(true)] else q2
  }

  lemma KeysDiffer()
    ensures NAME != CLIENT_CONF && NAME != EXPIRY && NAME != DISABLED && NAME != PUBLIC_KEY && NAME != PRESHARED_KEY
    ensures NAME != ALLOWED_IPS && NAME != ENDPOINT && CLIENT_CONF != EXPIRY && CLIENT_CONF != DISABLED
    ensures CLIENT_CONF != PUBLIC_KEY && CLIENT_CONF != PRESHARED_KEY && CLIENT_CONF != ALLOWED_IPS && CLIENT_CONF != ENDPOINT
    ensures EXPIRY != DISABLED && EXPIRY != PUBLIC_KEY && EXPIRY != PRESHARED_KEY && EXPIRY != ALLOWED_IPS && EXPIRY != ENDPOINT
    ensures DISABLED != PUBLIC_KEY && DISABLED != PRESHARED_KEY && DISABLED != ALLOWED_IPS && DISABLED != ENDPOINT
    ensures PUBLIC_KEY != PRESHARED_KEY && PUBLIC_KEY != ALLOWED_IPS && PUBLIC_KEY != ENDPOINT
    ensures PRESHARED_KEY != ALLOWED_IPS && PRESHARED_KEY != ENDPOINT && ALLOWED_IPS != ENDPOINT
  {
    assert CLIENT_CONF[0] == '_' && PRESHARED_KEY[0] == 'P' && DISABLED[0] == '_' && PUBLIC_KEY[0] == 'P';
  }

  /** Storing one field leaves the others alone. */
  lemma PutField(q: Peer, v: string, k: string)
    ensures Text(Put(q, v, k), k) == if v != "" then v else Text(q, k)
    ensures forall j :: j != k ==> Text(Put(q, v, k), j) == Text(q, j)
    ensures k != DISABLED ==> (IsDisabled(Put(q, v, k)) <==> IsDisabled(q))
  {
  }

  lemma PutFlag(q: Peer)
    ensures IsDisabled(q[DISABLED := Flag(true)])
    ensures forall j :: j != DISABLED ==> Text(q[DISABLED := Flag(true)], j) == Text(q, j)
  {
  }

  lemma NewPeerBlank()
    ensures forall k :: Text(NewPeer(), k) == ""
    ensures !IsDisabled(NewPeer())
  {
    KeysDiffer();
    hide NAME, CLIENT_CONF, EXPIRY, DISABLED;
  }

  lemma CommentsRetain(p: Peer)
    ensures var q := RenderedComments(p);
            && Text(q, NAME) == Text(p, NAME) && Text(q, CLIENT_CONF) == Text(p, CLIENT_CONF)
            && Text(q, EXPIRY) == Text(p, EXPIRY) && IsDisabled(q) == IsDisabled(p)
            && forall j :: j != NAME && j != CLIENT_CONF && j != EXPIRY && j != DISABLED ==> Text(q, j) == ""
  {
    var q0 := Put(NewPeer(), Text(p, NAME), NAME);
    var q1 := Put(q0, Text(p, CLIENT_CONF), CLIENT_CONF);
    var q2 := Put(q1, Text(p, EXPIRY), EXPIRY);
    KeysDiffer();
    hide NAME, CLIENT_CONF, EXPIRY, DISABLED, Text, Put, IsDisabled, NewPeer;
    NewPeerBlank();
    PutField(NewPeer(), Text(p, NAME), NAME);
    PutField(q0, Text(p, CLIENT_CONF), CLIENT_CONF);
    PutField(q1, Text(p, EXPIRY), EXPIRY);
    PutFlag(q2);
    forall j | j != NAME && j != CLIENT_CONF && j != EXPIRY && j != DISABLED
      ensures Text(RenderedComments(p), j) == ""
    {
      assert Text(q2, j) == Text(q1, j) == Text(q0, j) == Text(NewPeer(), j);
    }
  }

  lemma RenderedRetains(p: Peer)
    ensures Retained(Rendered(p)) == Retained(p)
  {
    var q3 := RenderedComments(p);
    var q4 := Put(q3, Text(p, PUBLIC_KEY), PUBLIC_KEY);
    var q5 := Put(q4, Text(p, PRESHARED_KEY), PRESHARED_KEY);
    var q6 := Put(q5, Text(p, ALLOWED_IPS), ALLOWED_IPS);
    KeysDiffer();
    hide NAME, CLIENT_CONF, EXPIRY, DISABLED, PUBLIC_KEY, PRESHARED_KEY, ALLOWED_IPS, ENDPOINT;
    hide Text, Put, IsDisabled, RenderedComments;
    CommentsRetain(p);
    PutField(q3, Text(p, PUBLIC_KEY), PUBLIC_KEY);
    PutField(q4, Text(p, PRESHARED_KEY), PRESHARED_KEY);
    PutField(q5, Text(p, ALLOWED_IPS), ALLOWED_IPS);
    PutField(q6, Text(p, ENDPOINT), ENDPOINT);
  }

  /** Stripping leaves a comment with a clean value as it is. */
  lemma CommentLine(prefix: string, v: string)
    requires CleanText(v) && v != "" && prefix != "" && prefix[0] == '#'
    ensures var t := prefix + v; Strip(t) == t && t[0] == '#' && t[|prefix|..] == v && Strip(v) == v && Starts(t, prefix)
  {
    var t := prefix + v;
    assert t[0] == '#' && t[|t| - 1] == v[|v| - 1];
    StripTrims(t);
    StripTrims(v);
  }

  lemma NameLine(v: string)
    requires CleanText(v) && v != ""
    ensures LineEffect(Strip("#Name=" + v)) == Set(NAME, Str(v))
  {
    CommentLine("#Name=", v);
    hide Strip;
  }

  lemma ClientConfLine(v: string)
    requires CleanText(v) && v != ""
    ensures LineEffect(Strip("#ClientConf=" + v)) == Set(CLIENT_CONF, Str(v))
  {
    CommentLine("#ClientConf=", v);
    var t := "#ClientConf=" + v;
    assert t[1] == 'C';
    hide Strip;
  }

  lemma ExpiryLine(v: string)
    requires CleanText(v) && v != ""
    ensures LineEffect(Strip("#Expiry=" + v)) == Set(EXPIRY, Str(v))
  {
    CommentLine("#Expiry=", v);
    var t := "#Expiry=" + v;
    assert t[1] == 'E';
    hide Strip;
  }

  /** A key that can start a line. */
  predicate PlainKey(k: string) {
    k != "" && Trim(k) && k[0] != '[' && k[0] != '#' && forall i :: 0 <= i < |k| ==> k[i] != '='
  }

  lemma FieldKeys()
    ensures PlainKey(PUBLIC_KEY) && PlainKey(PRESHARED_KEY) && PlainKey(ALLOWED_IPS) && PlainKey(ENDPOINT)
  {
  }

  lemma KeyLine(k: string, v: string)
    requires CleanText(v) && v != "" && PlainKey(k)
    ensures LineEffect(Strip(k + " = " + v)) == Set(k, Str(v))
  {
    var t := k + " = " + v;
    KeyValue(k, v);
    StripTrims(t);
    assert t[0] == k[0];
    PlainLine(t);
    hide LineEffect, Strip, HasEquals, KeyOf, ValueOf;
  }

  // ---- reading what was written ----

  /** An optional line that stores a field, read while a peer is open. */
  lemma ReadOpt(before: seq<Peer>, q: Peer, text: string, line: string, k: string)
    requires text != "" ==> LineEffect(Strip(line)) == Set(k, Str(text))
    ensures ReadLines(Reading(before + [q], true), Opt(text, line)) == Reading(before + [Put(q, text, k)], true)
  {
    var r := Reading(before + [q], true);
    assert ReadLines(r, []) == r;
    if text != "" {
      ReadOne(r, [], line);
      assert [] + [line] == [line];
      StoreInLast(before, q, k, Str(text));
    }
    hide LineEffect, Strip, ReadLines;
  }

  lemma StoreInLast(before: seq<Peer>, q: Peer, k: string, v: Val)
    ensures (before + [q])[|before| := q[k := v]] == before + [q[k := v]]
  {
  }

  lemma ReadSingle(r: Reading, line: string)
    requires r.open ==> r.peers != []
    ensures ReadLines(r, [line]) == ReadLine(r, line) && ReadLines(r, []) == r
  {
    ReadOne(r, [], line);
    assert [] + [line] == [line];
    hide ReadLine;
  }

  lemma FixedLines()
    ensures LineEffect(Strip("#Disabled=true")) == Set(DISABLED, Flag(true)) && LineEffect(Strip("[Peer]")) == OpenPeer
  {
    hide Strip, LineEffect;
    DisabledLine();
    OpeningLine();
    FixedTrim();
    StripTrims("#Disabled=true");
    StripTrims("[Peer]");
  }

  lemma OpeningLine()
    ensures LineEffect("[Peer]") == OpenPeer
  {
  }

  lemma FixedTrim()
    ensures Trim("#Disabled=true") && Trim("[Peer]")
  {
    var a, b := "#Disabled=true", "[Peer]";
    assert a[|a| - 1] == 'e' && b[|b| - 1] == ']';
  }

  lemma ReadDisabled(before: seq<Peer>, q: Peer, on: bool)
    ensures ReadLines(Reading(before + [q], true), if on then ["#Disabled=true"] else [])
         == Reading(before + [if on then q[DISABLED := Flag(true)] else q], true)
  {
    hide LineEffect, Strip, ReadLines, DISABLED;
    ReadSingle(Reading(before + [q], true), "#Disabled=true");
    FixedLines();
    StoreInLast(before, q, DISABLED, Flag(true));
  }

  lemma ReadOpening(r: Reading)
    requires r.open ==> r.peers != []
    ensures ReadLines(r, ["[Peer]"]) == Reading(r.peers + [NewPeer()], true)
  {
    hide LineEffect, Strip, ReadLines, NewPeer;
    ReadSingle(r, "[Peer]");
    FixedLines();
  }

  lemma CleanField(p: Peer, k: string)
    requires Clean(p)
    ensures CleanText(Text(p, k))
  {
  }

  /** The comment lines of a rendered peer. */
  function CommentLines(p: Peer): seq<string> {
    ["[Peer]"]
    + Opt(Text(p, NAME), "#Name=" + Text(p, NAME))
    + Opt(Text(p, CLIENT_CONF), "#ClientConf=" + Text(p, CLIENT_CONF))
    + Opt(Text(p, EXPIRY), "#Expiry=" + Text(p, EXPIRY))
    + (if IsDisabled(p) then ["#Disabled=true"] else [])
  }

  lemma ReadComments(r: Reading, p: Peer)
    requires (r.open ==> r.peers != []) && Clean(p)
    ensures ReadLines(r, CommentLines(p)) == Reading(r.peers + [RenderedComments(p)], true)
  {
    var a := ["[Peer]"];
    var b := Opt(Text(p, NAME), "#Name=" + Text(p, NAME));
    var c := Opt(Text(p, CLIENT_CONF), "#ClientConf=" + Text(p, CLIENT_CONF));
    var d := Opt(Text(p, EXPIRY), "#Expiry=" + Text(p, EXPIRY));
    var e := if IsDisabled(p) then ["#Disabled=true"] else [];
    assert CommentLines(p) == a + b + c + d + e;
    CleanField(p, NAME);
    CleanField(p, CLIENT_CONF);
    CleanField(p, EXPIRY);
    hide NAME, CLIENT_CONF, EXPIRY, DISABLED, Text, Put, IsDisabled, NewPeer, LineEffect, Strip, ReadLines, Opt, CommentLines, CleanText;
    ReadAppend(r, a, b);
    ReadAppend(r, a + b, c);
    ReadAppend(r, a + b + c, d);
    ReadAppend(r, a + b + c + d, e);
    ReadOpening(r);
    if Text(p, NAME) != "" { NameLine(Text(p, NAME)); }
    if Text(p, CLIENT_CONF) != "" { ClientConfLine(Text(p, CLIENT_CONF)); }
    if Text(p, EXPIRY) != "" { ExpiryLine(Text(p, EXPIRY)); }
    var q0 := Put(NewPeer(), Text(p, NAME), NAME);
    var q1 := Put(q0, Text(p, CLIENT_CONF), CLIENT_CONF);
    var q2 := Put(q1, Text(p, EXPIRY), EXPIRY);
    ReadOpt(r.peers, NewPeer(), Text(p, NAME), "#Name=" + Text(p, NAME), NAME);
    ReadOpt(r.peers, q0, Text(p, CLIENT_CONF), "#ClientConf=" + Text(p, CLIENT_CONF), CLIENT_CONF);
    ReadOpt(r.peers, q1, Text(p, EXPIRY), "#Expiry=" + Text(p, EXPIRY), EXPIRY);
    ReadDisabled(r.peers, q2, IsDisabled(p));
  }

  lemma KeyOpt(before: seq<Peer>, q: Peer, p: Peer, k: string)
    requires Clean(p) && PlainKey(k)
    ensures ReadLines(Reading(before + [q], true), Opt(Text(p, k), k + " = " + Text(p, k)))
         == Reading(before + [Put(q, Text(p, k), k)], true)
  {
    CleanField(p, k);
    hide LineEffect, Strip, ReadLines, Opt, Put, Text;
    if Text(p, k) != "" { KeyLine(k, Text(p, k)); }
    ReadOpt(before, q, Text(p, k), k + " = " + Text(p, k), k);
  }

  /** A rendered peer is read as one peer, with the fields that were written. */
  lemma ReadRendered(r: Reading, p: Peer)
    requires (r.open ==> r.peers != []) && Clean(p)
    ensures ReadLines(r, PeerLines(p)) == Reading(r.peers + [Rendered(p)], true)
  {
    var a := CommentLines(p);
    var b := Opt(Text(p, PUBLIC_KEY), PUBLIC_KEY + " = " + Text(p, PUBLIC_KEY));
    var c := Opt(Text(p, PRESHARED_KEY), PRESHARED_KEY + " = " + Text(p, PRESHARED_KEY));
    var d := Opt(Text(p, ALLOWED_IPS), ALLOWED_IPS + " = " + Text(p, ALLOWED_IPS));
    var e := Opt(Text(p, ENDPOINT), ENDPOINT + " = " + Text(p, ENDPOINT));
    assert PeerLines(p) == a + b + c + d + e;
    FieldKeys();
    hide PUBLIC_KEY, PRESHARED_KEY, ALLOWED_IPS, ENDPOINT, Text, Put, LineEffect, Strip, ReadLines, Opt, CommentLines,
      PeerLines, RenderedComments, PlainKey, Clean;
    ReadAppend(r, a, b);
    ReadAppend(r, a + b, c);
    ReadAppend(r, a + b + c, d);
    ReadAppend(r, a + b + c + d, e);
    ReadComments(r, p);
    var q4 := Put(RenderedComments(p), Text(p, PUBLIC_KEY), PUBLIC_KEY);
    var q5 := Put(q4, Text(p, PRESHARED_KEY), PRESHARED_KEY);
    var q6 := Put(q5, Text(p, ALLOWED_IPS), ALLOWED_IPS);
    KeyOpt(r.peers, RenderedComments(p), p, PUBLIC_KEY);
    KeyOpt(r.peers, q4, p, PRESHARED_KEY);
    KeyOpt(r.peers, q5, p, ALLOWED_IPS);
    KeyOpt(r.peers, q6, p, ENDPOINT);
  }

  // ---- the rebuilt text ----

  /** The lines of the rebuilt text. */
  function RebuiltLines(head: seq<string>, ps: seq<Peer>): seq<string> {
    if ps == [] then head else RebuiltLines(head, ps[..|ps| - 1]) + [""] + PeerLines(ps[|ps| - 1])
  }

  lemma {:induction false} JoinAppend(a: seq<string>, b: seq<string>)
    requires a != [] && b != []
    ensures Join(a + b) == Join(a) + "\n" + Join(b)
    decreases |a|
  {
    if |a| == 1 {
      assert (a + b)[1..] == b;
    } else {
      assert (a + b)[1..] == a[1..] + b;
      JoinAppend(a[1..], b);
    }
  }

  lemma JoinOne(x: string)
    ensures Join([x]) == x
  {
  }

  /** Joining parts that are themselves joined lines is joining all the lines. */
  lemma {:induction false} PartsAreLines(head: seq<string>, ps: seq<Peer>)
    requires head != []
    ensures Join([Join(head)] + PeerParts(ps)) == Join(RebuiltLines(head, ps)) && RebuiltLines(head, ps) != []
  {
    hide Join, PeerLines;
    if ps == [] {
      assert [Join(head)] + PeerParts(ps) == [Join(head)];
      JoinOne(Join(head));
    } else {
      var rest, p := ps[..|ps| - 1], ps[|ps| - 1];
      PartsAreLines(head, rest);
      var parts, lines := [Join(head)] + PeerParts(rest), RebuiltLines(head, rest);
      assert [Join(head)] + PeerParts(ps) == parts + ["", PeerToConf(p)];
      JoinAppend(parts, ["", PeerToConf(p)]);
      JoinAppend([""], [PeerToConf(p)]);
      assert ["", PeerToConf(p)] == [""] + [PeerToConf(p)];
      JoinOne("");
      JoinOne(PeerToConf(p));
      JoinAppend(lines, [""] + PeerLines(p));
      JoinAppend([""], PeerLines(p));
      assert lines + ([""] + PeerLines(p)) == RebuiltLines(head, ps);
    }
  }

  /** The interface block as lines: an empty block still makes one (empty) line. */
  function Head(conf: string): seq<string> {
    if InterfaceLines(conf) == [] then [""] else InterfaceLines(conf)
  }

  lemma RebuiltText(conf: string, ps: seq<Peer>)
    ensures RebuildConf(conf, ps) == Join(RebuiltLines(Head(conf), ps) + [""])
  {
    var lines := RebuiltLines(Head(conf), ps);
    assert Join(Head(conf)) == ExtractInterfaceBlock(conf) by {
      JoinOne("");
      assert Join([]) == "";
    }
    PartsAreLines(Head(conf), ps);
    JoinAppend(lines, [""]);
    JoinOne("");
    hide Join, RebuiltLines, Head, PeerParts;
  }

  lemma {:induction false} BeforePeersClean(ls: seq<string>)
    requires CleanLines(ls)
    ensures CleanLines(BeforePeers(ls)) && forall i :: 0 <= i < |BeforePeers(ls)| ==> Strip(BeforePeers(ls)[i]) != "[Peer]"
  {
    if ls != [] && Strip(ls[0]) != "[Peer]" {
      BeforePeersClean(ls[1..]);
    }
  }

  lemma {:induction false} DropBlankKeeps(ls: seq<string>)
    ensures DropBlank(ls) <= ls
  {
    if ls != [] && Strip(ls[|ls| - 1]) == "" {
      DropBlankKeeps(ls[..|ls| - 1]);
    }
  }

  lemma HeadHasNoPeer(conf: string)
    ensures CleanLines(Head(conf)) && forall i :: 0 <= i < |Head(conf)| ==> Strip(Head(conf)[i]) != "[Peer]"
  {
    SplitLinesClean(conf);
    BeforePeersClean(SplitLines(conf));
    DropBlankKeeps(BeforePeers(SplitLines(conf)));
    hide SplitLines, BeforePeers, DropBlank;
  }

  lemma {:induction false} NoPeerReadsNothing(ls: seq<string>)
    requires forall i :: 0 <= i < |ls| ==> Strip(ls[i]) != "[Peer]"
    ensures ReadLines(Reading([], false), ls) == Reading([], false)
  {
    if ls != [] {
      NoPeerReadsNothing(ls[..|ls| - 1]);
    }
  }

  function AllRendered(ps: seq<Peer>): (rs: seq<Peer>)
    ensures |rs| == |ps|
  {
    seq(|ps|, i requires 0 <= i < |ps| => Rendered(ps[i]))
  }

  lemma {:induction false} RebuiltReads(head: seq<string>, ps: seq<Peer>)
    requires AllClean(ps) && forall i :: 0 <= i < |head| ==> Strip(head[i]) != "[Peer]"
    ensures ReadLines(Reading([], false), RebuiltLines(head, ps)) == Reading(AllRendered(ps), ps != [])
  {
    if ps == [] {
      NoPeerReadsNothing(head);
      assert AllRendered([]) == [];
    } else {
      var rest, p := ps[..|ps| - 1], ps[|ps| - 1];
      RebuiltReads(head, rest);
      RenderedAppend(ps);
      hide ReadLines, PeerLines, Rendered, Clean, AllRendered, NewPeer;
      RebuiltStep(RebuiltLines(head, rest), Reading(AllRendered(rest), rest != []), p);
    }
  }

  lemma RenderedAppend(ps: seq<Peer>)
    requires ps != []
    ensures AllRendered(ps) == AllRendered(ps[..|ps| - 1]) + [Rendered(ps[|ps| - 1])]
  {
    hide Rendered;
  }

  lemma RebuiltStep(lines: seq<string>, r: Reading, p: Peer)
    requires (r.open ==> r.peers != []) && ReadLines(Reading([], false), lines) == r && Clean(p)
    ensures ReadLines(Reading([], false), lines + [""] + PeerLines(p)) == Reading(r.peers + [Rendered(p)], true)
  {
    hide ReadLines, ReadLine, PeerLines, Rendered, Clean;
    ReadOne(Reading([], false), lines, "");
    EmptyLineIsNothing(r, Section(false, map[]));
    ReadAppend(Reading([], false), lines + [""], PeerLines(p));
    ReadRendered(r, p);
  }

  lemma CleanConcat(a: seq<string>, b: seq<string>)
    requires CleanLines(a) && CleanLines(b)
    ensures CleanLines(a + b)
  {
    hide NoBreaks;
  }

  /** An optional line made of a prefix and a clean value. */
  lemma OptClean(prefix: string, v: string)
    requires NoBreaks(prefix) && NoBreaks(v)
    ensures CleanLines(Opt(v, prefix + v))
  {
  }

  lemma CommentLinesClean(p: Peer)
    requires Clean(p)
    ensures CleanLines(CommentLines(p))
  {
    var a := ["[Peer]"];
    var b := Opt(Text(p, NAME), "#Name=" + Text(p, NAME));
    var c := Opt(Text(p, CLIENT_CONF), "#ClientConf=" + Text(p, CLIENT_CONF));
    var d := Opt(Text(p, EXPIRY), "#Expiry=" + Text(p, EXPIRY));
    var e := if IsDisabled(p) then ["#Disabled=true"] else [];
    assert CommentLines(p) == a + b + c + d + e;
    CleanField(p, NAME);
    CleanField(p, CLIENT_CONF);
    CleanField(p, EXPIRY);
    assert NoBreaks("[Peer]") && NoBreaks("#Disabled=true");
    assert NoBreaks("#Name=") && NoBreaks("#ClientConf=") && NoBreaks("#Expiry=");
    OptClean("#Name=", Text(p, NAME));
    OptClean("#ClientConf=", Text(p, CLIENT_CONF));
    OptClean("#Expiry=", Text(p, EXPIRY));
    assert CleanLines(a) && CleanLines(e);
    hide Text, IsDisabled, CleanLines, NoBreaks, Opt, CommentLines;
    CleanConcat(a, b);
    CleanConcat(a + b, c);
    CleanConcat(a + b + c, d);
    CleanConcat(a + b + c + d, e);
  }

  lemma KeyClean(p: Peer, k: string)
    requires Clean(p) && NoBreaks(k)
    ensures CleanLines(Opt(Text(p, k), k + " = " + Text(p, k)))
  {
    CleanField(p, k);
    assert NoBreaks(k + " = ");
    OptClean(k + " = ", Text(p, k));
  }

  lemma PeerLinesClean(p: Peer)
    requires Clean(p)
    ensures CleanLines(PeerLines(p))
  {
    var a := CommentLines(p);
    var b := Opt(Text(p, PUBLIC_KEY), PUBLIC_KEY + " = " + Text(p, PUBLIC_KEY));
    var c := Opt(Text(p, PRESHARED_KEY), PRESHARED_KEY + " = " + Text(p, PRESHARED_KEY));
    var d := Opt(Text(p, ALLOWED_IPS), ALLOWED_IPS + " = " + Text(p, ALLOWED_IPS));
    var e := Opt(Text(p, ENDPOINT), ENDPOINT + " = " + Text(p, ENDPOINT));
    assert PeerLines(p) == a + b + c + d + e;
    CommentLinesClean(p);
    KeysClean();
    KeyClean(p, PUBLIC_KEY);
    KeyClean(p, PRESHARED_KEY);
    KeyClean(p, ALLOWED_IPS);
    KeyClean(p, ENDPOINT);
    hide Text, CleanLines, NoBreaks, Opt, CommentLines, PeerLines;
    CleanConcat(a, b);
    CleanConcat(a + b, c);
    CleanConcat(a + b + c, d);
    CleanConcat(a + b + c + d, e);
  }

  lemma KeysClean()
    ensures NoBreaks(PUBLIC_KEY) && NoBreaks(PRESHARED_KEY) && NoBreaks(ALLOWED_IPS) && NoBreaks(ENDPOINT)
  {
  }

  lemma {:induction false} RebuiltClean(head: seq<string>, ps: seq<Peer>)
    requires CleanLines(head) && AllClean(ps)
    ensures CleanLines(RebuiltLines(head, ps))
  {
    if ps != [] {
      var rest, p := ps[..|ps| - 1], ps[|ps| - 1];
      RebuiltClean(head, rest);
      PeerLinesClean(p);
      assert CleanLines([""]);
      hide CleanLines, PeerLines, Clean;
      CleanConcat(RebuiltLines(head, rest), [""]);
      CleanConcat(RebuiltLines(head, rest) + [""], PeerLines(p));
    }
  }

  /** For any text and any peers with clean values: the rebuilt text reads as exactly those peers, each with the
      fields that are written. */
  lemma RebuildRoundTrip(conf: string, ps: seq<Peer>)
    requires AllClean(ps)
    ensures ParsePeers(RebuildConf(conf, ps)) == AllRendered(ps)
    ensures AllRetained(ParsePeers(RebuildConf(conf, ps))) == AllRetained(ps)
  {
    RebuiltSplit(conf, ps);
    HeadHasNoPeer(conf);
    RebuiltReads(Head(conf), ps);
    forall i | 0 <= i < |ps|
      ensures AllRetained(AllRendered(ps))[i] == AllRetained(ps)[i]
    {
      RenderedRetains(ps[i]);
    }
    hide SplitLines, RebuildConf, RebuiltLines, Head, Rendered, Retained, ReadLines;
  }

  lemma RebuiltSplit(conf: string, ps: seq<Peer>)
    requires AllClean(ps)
    ensures SplitLines(RebuildConf(conf, ps)) == RebuiltLines(Head(conf), ps)
  {
    var lines := RebuiltLines(Head(conf), ps);
    RebuiltText(conf, ps);
    HeadHasNoPeer(conf);
    RebuiltClean(Head(conf), ps);
    assert CleanLines([""]);
    hide SplitLines, RebuildConf, RebuiltLines, Head, CleanLines, Join;
    CleanConcat(lines, [""]);
    SplitOfJoin(lines + [""]);
  }

  /** Changing one peer leaves every other peer's retained fields as they were. */
  lemma ChangeOnePeer(conf: string, ps: seq<Peer>, i: nat, p: Peer)
    requires AllClean(ps) && Clean(p) && i < |ps|
    ensures AllRetained(ParsePeers(RebuildConf(conf, ps[i := p]))) == AllRetained(ps)[i := Retained(p)]
  {
    RebuildRoundTrip(conf, ps[i := p]);
    assert AllRetained(ps[i := p]) == AllRetained(ps)[i := Retained(p)];
    hide ParsePeers, RebuildConf, Retained;
  }

  // ---- parsed peers are clean ----

  lemma EffectClean(line: string)
    requires NoBreaks(line)
    ensures var e := LineEffect(Strip(line)); e.Set? && e.val.Str? ==> CleanText(e.val.s)
  {
    var t := Strip(line);
    StripNoBreaks(line);
    if LineEffect(t).Set? && LineEffect(t).val.Str? {
      if Starts(t, "#Name=") { TailClean(t, 6); }
      else if Starts(t, "#ClientConf=") { TailClean(t, 12); }
      else if Starts(t, "#Expiry=") { TailClean(t, 8); }
      else { TailClean(t, EqualsAt(t, 0) + 1); }
    }
  }

  lemma TailClean(t: string, i: nat)
    requires NoBreaks(t) && i <= |t|
    ensures CleanText(Strip(t[i..]))
  {
    StripTrims(t[i..]);
    StripNoBreaks(t[i..]);
  }

  lemma ReadLineClean(r: Reading, line: string)
    requires (r.open ==> r.peers != []) && AllClean(r.peers) && NoBreaks(line)
    ensures AllClean(ReadLine(r, line).peers)
  {
    EffectClean(line);
    assert CleanText("");
    hide LineEffect, Strip, CleanText;
  }

  lemma {:induction false} ReadLinesClean(ls: seq<string>)
    requires CleanLines(ls)
    ensures AllClean(ReadLines(Reading([], false), ls).peers)
  {
    if ls != [] {
      ReadLinesClean(ls[..|ls| - 1]);
      ReadLineClean(ReadLines(Reading([], false), ls[..|ls| - 1]), ls[|ls| - 1]);
      hide ReadLine, AllClean, NoBreaks;
    }
  }

  lemma ParsedPeersClean(conf: string)
    ensures AllClean(ParsePeers(conf))
  {
    SplitLinesClean(conf);
    ReadLinesClean(SplitLines(conf));
    hide SplitLines, ReadLines, AllClean;
  }

  /** For any text: parsing, rebuilding from the parsed peers and parsing again gives back every peer's retained
      fields, in order. */
  lemma ParseRebuildParse(conf: string)
    ensures AllRetained(ParsePeers(RebuildConf(conf, ParsePeers(conf)))) == AllRetained(ParsePeers(conf))
  {
    ParsedPeersClean(conf);
    RebuildRoundTrip(conf, ParsePeers(conf));
    hide ParsePeers, RebuildConf, AllClean;
  }

  // ---- the interface section of the rebuilt text ----

  lemma SectionIgnoresBlank(s: Section, line: string)
    requires Strip(line) == ""
    ensures SectionLine(s, line) == s
  {
  }

  lemma {:induction false} DropBlankSection(ls: seq<string>)
    ensures SectionLines(Section(false, map[]), DropBlank(ls)) == SectionLines(Section(false, map[]), ls)
  {
    if ls != [] && Strip(ls[|ls| - 1]) == "" {
      DropBlankSection(ls[..|ls| - 1]);
      SectionIgnoresBlank(SectionLines(Section(false, map[]), ls[..|ls| - 1]), ls[|ls| - 1]);
      hide SectionLine;
    }
  }

  /** Lines that begin with a visible character other than a bracket. */
  predicate HeaderFree(ls: seq<string>) {
    forall i :: 0 <= i < |ls| ==> ls[i] != "" && !IsSpace(ls[i][0]) && ls[i][0] != '['
  }

  lemma NoHeader(line: string)
    requires line != "" && !IsSpace(line[0]) && line[0] != '['
    ensures Strip(line) != "[Interface]" && !Starts(Strip(line), "[")
  {
    assert LStrip(line) == line;
    RStripEnds(line);
    var t := Strip(line);
    if t != "" {
      assert t[0] == line[0];
    }
  }

  lemma {:induction false} HeaderFreeKeeps(s: Section, ls: seq<string>)
    requires !s.inside && HeaderFree(ls)
    ensures SectionLines(s, ls) == s
  {
    if ls != [] {
      HeaderFreeKeeps(s, ls[..|ls| - 1]);
      NoHeader(ls[|ls| - 1]);
      hide Strip;
    }
  }

  lemma HeaderFreeConcat(a: seq<string>, b: seq<string>)
    requires HeaderFree(a) && HeaderFree(b)
    ensures HeaderFree(a + b)
  {
  }

  lemma OptHeaderFree(prefix: string, v: string)
    requires prefix != "" && !IsSpace(prefix[0]) && prefix[0] != '['
    ensures HeaderFree(Opt(v, prefix + v))
  {
    assert (prefix + v)[0] == prefix[0];
  }

  /** All lines of a rendered peer but the first. */
  function TailLines(p: Peer): seq<string> {
    Opt(Text(p, NAME), "#Name=" + Text(p, NAME))
    + Opt(Text(p, CLIENT_CONF), "#ClientConf=" + Text(p, CLIENT_CONF))
    + Opt(Text(p, EXPIRY), "#Expiry=" + Text(p, EXPIRY))
    + (if IsDisabled(p) then ["#Disabled=true"] else [])
    + Opt(Text(p, PUBLIC_KEY), PUBLIC_KEY + " = " + Text(p, PUBLIC_KEY))
    + Opt(Text(p, PRESHARED_KEY), PRESHARED_KEY + " = " + Text(p, PRESHARED_KEY))
    + Opt(Text(p, ALLOWED_IPS), ALLOWED_IPS + " = " + Text(p, ALLOWED_IPS))
    + Opt(Text(p, ENDPOINT), ENDPOINT + " = " + Text(p, ENDPOINT))
  }

  lemma KeyHeaderFree(p: Peer, k: string)
    requires PlainKey(k)
    ensures HeaderFree(Opt(Text(p, k), k + " = " + Text(p, k)))
  {
    assert (k + " = ")[0] == k[0];
    OptHeaderFree(k + " = ", Text(p, k));
  }

  lemma TailHeaderFree(p: Peer)
    ensures HeaderFree(TailLines(p)) && PeerLines(p) == ["[Peer]"] + TailLines(p)
  {
    var a := Opt(Text(p, NAME), "#Name=" + Text(p, NAME));
    var b := Opt(Text(p, CLIENT_CONF), "#ClientConf=" + Text(p, CLIENT_CONF));
    var c := Opt(Text(p, EXPIRY), "#Expiry=" + Text(p, EXPIRY));
    var d := if IsDisabled(p) then ["#Disabled=true"] else [];
    var e := Opt(Text(p, PUBLIC_KEY), PUBLIC_KEY + " = " + Text(p, PUBLIC_KEY));
    var f := Opt(Text(p, PRESHARED_KEY), PRESHARED_KEY + " = " + Text(p, PRESHARED_KEY));
    var g := Opt(Text(p, ALLOWED_IPS), ALLOWED_IPS + " = " + Text(p, ALLOWED_IPS));
    var h := Opt(Text(p, ENDPOINT), ENDPOINT + " = " + Text(p, ENDPOINT));
    assert HeaderFree(d);
    OptHeaderFree("#Name=", Text(p, NAME));
    OptHeaderFree("#ClientConf=", Text(p, CLIENT_CONF));
    OptHeaderFree("#Expiry=", Text(p, EXPIRY));
    FieldKeys();
    hide NAME, CLIENT_CONF, EXPIRY, PUBLIC_KEY, PRESHARED_KEY, ALLOWED_IPS, ENDPOINT, HeaderFree, Opt, Text, PlainKey, IsDisabled;
    KeyHeaderFree(p, PUBLIC_KEY);
    KeyHeaderFree(p, PRESHARED_KEY);
    KeyHeaderFree(p, ALLOWED_IPS);
    KeyHeaderFree(p, ENDPOINT);
    HeaderFreeConcat(a, b);
    HeaderFreeConcat(a + b, c);
    HeaderFreeConcat(a + b + c, d);
    HeaderFreeConcat(a + b + c + d, e);
    HeaderFreeConcat(a + b + c + d + e, f);
    HeaderFreeConcat(a + b + c + d + e + f, g);
    HeaderFreeConcat(a + b + c + d + e + f + g, h);
    assert TailLines(p) == a + b + c + d + e + f + g + h;
    Regrouped(["[Peer]"], a, b, c, d, e, f, g, h);
  }

  lemma Regrouped(x: seq<string>, a: seq<string>, b: seq<string>, c: seq<string>, d: seq<string>, e: seq<string>,
                  f: seq<string>, g: seq<string>, h: seq<string>)
    ensures x + a + b + c + d + e + f + g + h == x + (a + b + c + d + e + f + g + h)
  {
    OneGroup(x, a, b);
    OneGroup(x, a + b, c);
    OneGroup(x, a + b + c, d);
    OneGroup(x, a + b + c + d, e);
    OneGroup(x, a + b + c + d + e, f);
    OneGroup(x, a + b + c + d + e + f, g);
    OneGroup(x, a + b + c + d + e + f + g, h);
  }

  lemma OneGroup(x: seq<string>, a: seq<string>, b: seq<string>)
    ensures x + a + b == x + (a + b)
  {
  }

  lemma PeerKeepsSection(s: Section, p: Peer)
    ensures SectionLines(s, PeerLines(p)) == Section(false, s.keys)
  {
    TailHeaderFree(p);
    SectionAppend(s, ["[Peer]"], TailLines(p));
    SectionOne(s, [], "[Peer]");
    FixedTrim();
    StripTrims("[Peer]");
    HeaderFreeKeeps(Section(false, s.keys), TailLines(p));
    hide SectionLines, PeerLines, TailLines, Strip, HeaderFree;
  }

  lemma {:induction false} RebuiltSection(head: seq<string>, ps: seq<Peer>)
    ensures SectionLines(Section(false, map[]), RebuiltLines(head, ps)).keys == SectionLines(Section(false, map[]), head).keys
  {
    if ps != [] {
      var start, rest, p := Section(false, map[]), ps[..|ps| - 1], ps[|ps| - 1];
      RebuiltSection(head, rest);
      var lines := RebuiltLines(head, rest);
      SectionOne(start, lines, "");
      SectionIgnoresBlank(SectionLines(start, lines), "");
      SectionAppend(start, lines + [""], PeerLines(p));
      PeerKeepsSection(SectionLines(start, lines), p);
      hide SectionLines, SectionLine, PeerLines;
    }
  }

  /** For any text: the rebuilt text has exactly the interface keys that stood before the first peer. */
  lemma RebuildKeepsInterface(conf: string, ps: seq<Peer>)
    requires AllClean(ps)
    ensures ParseServerSection(RebuildConf(conf, ps))
         == SectionLines(Section(false, map[]), BeforePeers(SplitLines(conf))).keys
  {
    RebuiltSplit(conf, ps);
    RebuiltSection(Head(conf), ps);
    DropBlankSection(BeforePeers(SplitLines(conf)));
    SectionOne(Section(false, map[]), [], "");
    SectionIgnoresBlank(Section(false, map[]), "");
    assert SectionLines(Section(false, map[]), []) == Section(false, map[]);
    hide SplitLines, RebuildConf, RebuiltLines, SectionLines, SectionLine, BeforePeers, DropBlank, AllClean;
  }
}
