/** The configuration text character by character: what counts as white space, what each kind of line says, and what
    a peer looks like when written. */
module PeerConfText {
  import opened ConfText
  import opened PeerConf

  /** The line ends and the white space of Python's text methods, by code point. */
  lemma WhiteSpace(c: char)
    ensures IsBreak(c) <==> c as int in {0x0a, 0x0b, 0x0c, 0x0d, 0x1c, 0x1d, 0x1e, 0x85, 0x2028, 0x2029}
    ensures IsSpace(c) <==>
              || 0x09 <= c as int <= 0x0d || 0x1c <= c as int <= 0x20
              || c as int in {0x85, 0xa0, 0x1680, 0x2028, 0x2029, 0x202f, 0x205f, 0x3000} || 0x2000 <= c as int <= 0x200a
  {
  }

  lemma After(p: string, v: string)
    ensures (p + v)[|p|..] == v && p <= p + v
  {
  }

  lemma NotPrefix(p: string, q: string, v: string, i: nat)
    requires i < |p| && i < |q| && p[i] != q[i]
    ensures !Starts(p + v, q) && p + v != q
  {
    assert (p + v)[i] == p[i];
  }

  /** Comments that carry a field, the comment that disables, the brackets, and a key with its value. */
  lemma LinesSay(v: string)
    requires Trim(v)
    ensures LineEffect("#Name=" + v) == Set("_name", Str(v))
    ensures LineEffect("#ClientConf=" + v) == Set("_client_conf", Str(v))
    ensures LineEffect("#Expiry=" + v) == Set("_expiry", Str(v))
    ensures LineEffect("#Disabled=true") == Set("_disabled", Flag(true))
    ensures LineEffect("[Peer]") == OpenPeer && LineEffect("[Interface]") == Close && LineEffect("") == Nothing
  {
    NameSays(v);
    ConfSays(v);
    ExpirySays(v);
    FixedLinesSay();
    hide LineEffect;
  }

  lemma NameSays(v: string)
    requires Trim(v)
    ensures LineEffect("#Name=" + v) == Set("_name", Str(v))
  {
    hide Strip;
    StripTrims(v);
    After("#Name=", v);
    NotPrefix("#Name=", "[Peer]", v, 0);
  }

  lemma ConfSays(v: string)
    requires Trim(v)
    ensures LineEffect("#ClientConf=" + v) == Set("_client_conf", Str(v))
  {
    hide Strip;
    StripTrims(v);
    After("#ClientConf=", v);
    NotPrefix("#ClientConf=", "[Peer]", v, 0);
    NotPrefix("#ClientConf=", "#Name=", v, 1);
  }

  lemma ExpirySays(v: string)
    requires Trim(v)
    ensures LineEffect("#Expiry=" + v) == Set("_expiry", Str(v))
  {
    hide Strip;
    StripTrims(v);
    After("#Expiry=", v);
    NotPrefix("#Expiry=", "[Peer]", v, 0);
    NotPrefix("#Expiry=", "#Name=", v, 1);
    NotPrefix("#Expiry=", "#ClientConf=", v, 1);
  }

  lemma FixedLinesSay()
    ensures LineEffect("#Disabled=true") == Set("_disabled", Flag(true))
    ensures LineEffect("[Peer]") == OpenPeer && LineEffect("[Interface]") == Close && LineEffect("") == Nothing
  {
    hide Strip;
    assert "#Disabled=true" + "" == "#Disabled=true" && "[Interface]" + "" == "[Interface]";
    NotPrefix("#Disabled=true", "[Peer]", "", 0);
    NotPrefix("#Disabled=true", "#Name=", "", 1);
    NotPrefix("#Disabled=true", "#ClientConf=", "", 1);
    NotPrefix("#Disabled=true", "#Expiry=", "", 1);
    NotPrefix("[Interface]", "[Peer]", "", 1);
    NotPrefix("[Interface]", "#Name=", "", 0);
    NotPrefix("[Interface]", "#ClientConf=", "", 0);
    NotPrefix("[Interface]", "#Expiry=", "", 0);
    NotPrefix("[Interface]", "#Disabled=true", "", 0);
    assert EqualsAt("", 0) == 0;
  }

  /** Any other comment says nothing. */
  lemma OtherComments(t: string)
    requires Starts(t, "#") && t != "#Disabled=true"
    requires !Starts(t, "#Name=") && !Starts(t, "#ClientConf=") && !Starts(t, "#Expiry=")
    ensures LineEffect(t) == Nothing
  {
    assert t[0] == '#';
  }

  /** A key that is no comment and no bracket sets its field. */
  lemma KeysSay(k: string, v: string)
    requires Trim(k) && Trim(v) && k != "" && v != "" && (forall i :: 0 <= i < |k| ==> k[i] != '=')
    requires k[0] != '#' && k[0] != '['
    ensures LineEffect(k + " = " + v) == Set(k, Str(v))
  {
    var t := k + " = " + v;
    KeyValue(k, v);
    assert t[0] == k[0];
    hide Strip, HasEquals, KeyOf, ValueOf;
    Unlike(t, "[Peer]");
    Unlike(t, "#Name=");
    Unlike(t, "#ClientConf=");
    Unlike(t, "#Expiry=");
    Unlike(t, "#Disabled=true");
    Unlike(t, "[");
    Unlike(t, "#");
  }

  lemma Unlike(t: string, q: string)
    requires t != "" && q != "" && t[0] != q[0]
    ensures !Starts(t, q) && t != q
  {
  }

  /** A peer with all its fields, as written: the comments, then the keys, in this order. */
  lemma FullPeer(p: Peer, name: string, conf: string, expiry: string, key: string, psk: string, ips: string, endpoint: string)
    requires name != "" && conf != "" && expiry != "" && key != "" && psk != "" && ips != "" && endpoint != ""
    requires p == map["_name" := Str(name), "_client_conf" := Str(conf), "_expiry" := Str(expiry), "_disabled" := Flag(true),
                      "PublicKey" := Str(key), "PresharedKey" := Str(psk), "AllowedIPs" := Str(ips), "Endpoint" := Str(endpoint)]
    ensures PeerLines(p) ==
              ["[Peer]", "#Name=" + name, "#ClientConf=" + conf, "#Expiry=" + expiry, "#Disabled=true",
               "PublicKey = " + key, "PresharedKey = " + psk, "AllowedIPs = " + ips, "Endpoint = " + endpoint]
  {
    assert Text(p, NAME) == name && Text(p, CLIENT_CONF) == conf && Text(p, EXPIRY) == expiry;
    assert Text(p, PUBLIC_KEY) == key && Text(p, PRESHARED_KEY) == psk && Text(p, ALLOWED_IPS) == ips && Text(p, ENDPOINT) == endpoint;
    assert IsDisabled(p);
    hide Text, IsDisabled;
    assert PUBLIC_KEY + " = " == "PublicKey = " && PRESHARED_KEY + " = " == "PresharedKey = ";
    assert ALLOWED_IPS + " = " == "AllowedIPs = " && ENDPOINT + " = " == "Endpoint = ";
  }

  /** Fields that are empty or missing are not written. */
  lemma NewPeerLines()
    ensures PeerLines(NewPeer()) == ["[Peer]"]
    ensures NewPeer() == map["_name" := Str(""), "_client_conf" := Str(""), "_expiry" := Str(""), "_disabled" := Flag(false)]
  {
  }

  /** The keys below an interface header are read, those below another header are not. */
  lemma SectionText(k: string, v: string)
    requires CleanText(k) && CleanText(v) && k != "" && v != "" && (forall i :: 0 <= i < |k| ==> k[i] != '=') && k[0] != '['
    ensures ParseServerSection("[Interface]" + "\n" + (k + " = " + v)) == map[k := v]
    ensures ParseServerSection("[Server]" + "\n" + (k + " = " + v)) == map[]
  {
    var t := k + " = " + v;
    assert NoBreaks(t);
    OneLine(t);
    FirstLine("[Interface]", t);
    FirstLine("[Server]", t);
    TwoLines("[Interface]", t);
    TwoLines("[Server]", t);
    HeaderLines();
    KeyLine(Section(true, map[]), k, v);
    KeyLine(Section(false, map[]), k, v);
    hide Strip, SplitLines, SectionLines, SectionLine;
  }

  lemma HeaderLines()
    ensures SectionLine(Section(false, map[]), "[Interface]") == Section(true, map[])
    ensures SectionLine(Section(false, map[]), "[Server]") == Section(false, map[])
  {
    hide Strip;
    StripTrims("[Interface]");
    StripTrims("[Server]");
    assert "[Server]" + "" == "[Server]";
    NotPrefix("[Server]", "[Interface]", "", 1);
    assert Starts("[Server]", "[");
  }

  lemma KeyLine(s: Section, k: string, v: string)
    requires Trim(k) && Trim(v) && k != "" && v != "" && (forall i :: 0 <= i < |k| ==> k[i] != '=') && k[0] != '['
    ensures SectionLine(s, k + " = " + v) == Section(s.inside, if s.inside then s.keys[k := v] else s.keys)
  {
    var t := k + " = " + v;
    KeyValue(k, v);
    StripTrims(t);
    assert t[0] == k[0];
    hide Strip, HasEquals, KeyOf, ValueOf;
  }

  lemma OneLine(t: string)
    requires NoBreaks(t) && t != ""
    ensures SplitLines(t) == [t]
  {
    assert BreakAt(t, 0) == |t|;
  }

  lemma TwoLines(a: string, b: string)
    ensures SectionLines(Section(false, map[]), [a] + [b]) == SectionLine(SectionLine(Section(false, map[]), a), b)
  {
    var none: seq<string> := [];
    assert ([a] + [b])[..1] == [a] && [a][..0] == none;
    assert SectionLines(Section(false, map[]), none) == Section(false, map[]);
    assert SectionLines(Section(false, map[]), [a]) == SectionLine(Section(false, map[]), a);
  }
}
