/** Translation and disguise together: what the packet loops make of a packet as it arrives, and what comes out of a
    lossless link. */
module Link {
  import opened Wrappers
  import opened Words
  import opened Transform
  import Hot = HotPath
  import Obfs

  // ---- one packet, as the loops receive it ----

  /** Take the disguise off, then translate: what the loop towards the client does. */
  function Translated(r: Obfs.Session, q: seq<u8>, c: Config): Option<seq<u8>>
    requires Usable(c)
  {
    var p := Obfs.Payload(r, q);
    if p.None? then None else Inbound(p.value, c)
  }

  /** The gateway's loop tries its shortcut on the packet as it came, before the disguise is off. */
  function GatewayReceives(r: Obfs.Session, q: seq<u8>, c: Config): Option<seq<u8>>
    requires Usable(c)
  {
    if Hot.Fires(q, c) then Some(SetType(q[c.s4..], 4)) else Translated(r, q, c)
  }

  /** Without a disguise the gateway's shortcut makes no difference. */
  lemma GatewayWithoutDisguise(r: Obfs.Session, q: seq<u8>, c: Config)
    requires Usable(c) && r.profile == Obfs.Off
    ensures GatewayReceives(r, q, c) == Translated(r, q, c)
  {
    hide Inbound, SetType, Validate;
    assert q[0..|q|] == q;
    if Hot.Fires(q, c) {
      Hot.ShortcutIsGeneral(q, c);
    }
  }

  /** With a disguise, the gateway makes of a packet what unwrapping and translating would, if and only if its
      shortcut does not fire. */
  lemma GatewayAgrees(r: Obfs.Session, q: seq<u8>, c: Config)
    requires Usable(c) && r.profile != Obfs.Off
    ensures GatewayReceives(r, q, c) == Translated(r, q, c) <==> !Hot.Fires(q, c)
  {
    if Hot.Fires(q, c) && Translated(r, q, c).Some? {
      var p := Obfs.Payload(r, q).value;
      PayloadIsShorter(r, q);
      InboundType(p, c);
      OffsetIsPad(p, c);
      hide Inbound, SetType, Validate, Classify, Obfs.Payload, Hot.Fires, Read32;
      TypesDiffer();
    }
  }

  /** A configuration without padding whose transport headers range over all values from 10 on. */
  function WideTransport(): Config {
    Config(0, 0, 0, 0, 0, 0, 0, HRange(5, 5), HRange(6, 6), HRange(7, 7), HRange(10, 0xffff_ffff), [], [], [], Gateway, [], [], [],
           false, false, 10, false, 148, 92, 64, true, None, None)
  }

  /** The two do differ: under this configuration, and for any seeds, the first packet of a `source_query` session, if
      it carries a transport packet of 32 bytes, would come back by unwrapping, but the gateway makes another of it. */
  lemma ShortcutBeforeUnwrapping(p: seq<u8>, seed: u64, seed': u64, rand: u64)
    requires KindOf(p) == Transport && |p| == 32
    ensures Usable(WideTransport())
    ensures var c := WideTransport();
            var q := Obfs.Wrapped(Obfs.Init(Obfs.SourceQuery, seed), Outbound(p, [], c, None, rand));
            var r := Obfs.Init(Obfs.SourceQuery, seed');
            Translated(r, q, c) == Some(p) && GatewayReceives(r, q, c) != Some(p)
  {
    var c := WideTransport();
    var o := Outbound(p, [], c, None, rand);
    var s, r := Obfs.Init(Obfs.SourceQuery, seed), Obfs.Init(Obfs.SourceQuery, seed');
    TransportSent(p, [], c, None, rand);
    TransportRoundTrip(p, [], c, c, None, rand);
    SourceQueryPacket(s, o);
    Obfs.FirstDelivery(Obfs.SourceQuery, seed, seed', o);
    assert [] + o + Obfs.Trail(Obfs.SourceQuery, Obfs.SeqAfter(seed, 0)) == o;
    hide Outbound, Inbound, Obfs.Wrapped, Obfs.Payload, SetType, Obfs.Init, Obfs.Trail, Obfs.SeqAfter, Validate;
    GatewayAgrees(r, Obfs.Wrapped(s, o), c);
  }

  lemma SourceQueryPacket(s: Obfs.Session, o: seq<u8>)
    requires s.profile == Obfs.SourceQuery && s.markerTxLeft > 0 && |o| == 32
    ensures Obfs.Fits(s, o) && |Obfs.Wrapped(s, o)| == 42 && Read32(Obfs.Wrapped(s, o), 0) == 0xffff_ffff
  {
    var h := Obfs.SourceHeader(s.txSeq);
    assert Obfs.Wrapped(s, o)[..4] == h[..4];
    hide Obfs.Marker;
  }

  /** Every disguise has a header. */
  lemma PayloadIsShorter(r: Obfs.Session, q: seq<u8>)
    requires r.profile != Obfs.Off && Obfs.Payload(r, q).Some?
    ensures |Obfs.Payload(r, q).value| < |q|
  {
    BodyIsInside(r.profile, q);
    hide Obfs.Body;
  }

  lemma BodyIsInside(p: Obfs.Profile, q: seq<u8>)
    requires p != Obfs.Off && Obfs.Body(p, q).Some?
    ensures Obfs.Body(p, q).value.0 > 0
  {
  }

  /** Whatever a packet is taken for, what is stripped is the padding of that kind. */
  lemma OffsetIsPad(p: seq<u8>, c: Config)
    requires Usable(c) && Classify(p, c).Some?
    ensures var k := Classify(p, c).value.0; k != Unknown && Classify(p, c).value.1 == Pad(c, k)
  {
    hide Read32, Validate;
  }

  // ---- the whole link ----

  /** The translated packets of a stream. */
  function SentAll(ps: seq<seq<u8>>, heads: seq<seq<u8>>, c: Config, key: Option<seq<u8>>, rands: seq<u64>): (os: seq<seq<u8>>)
    requires Usable(c) && KeyOk(key) && |ps| == |heads| == |rands|
    ensures |os| == |ps|
  {
    seq(|ps|, i requires 0 <= i < |ps| => Outbound(ps[i], heads[i], c, key, rands[i]))
  }

  /** What the far end hands on for the k-th packet of a lossless stream between freshly started sessions. */
  function Delivered(profile: Obfs.Profile, seed: u64, seed': u64, os: seq<seq<u8>>, rc: Config, k: nat): Option<seq<u8>>
    requires Usable(rc)
  {
    var out := Obfs.Stream(Obfs.Init(profile, seed), Obfs.Init(profile, seed'), os);
    if k >= |out| || out[k].None? then None else Inbound(out[k].value, rc)
  }

  /** Over a lossless disguised link, the k-th packet (counted from 0) comes back if and only if it is the first or
      one from the fourth on, its disguise leaves no zeros behind it, and it cannot be mistaken for another kind. */
  lemma LinkDelivers(profile: Obfs.Profile, seed: u64, seed': u64, ps: seq<seq<u8>>, heads: seq<seq<u8>>, c: Config, rc: Config,
                     key: Option<seq<u8>>, rands: seq<u64>, k: nat)
    requires profile != Obfs.Off && Usable(c) && Usable(rc) && SameLayout(c, rc) && KeyOk(key)
    requires |ps| == |heads| == |rands| && k < |ps| && KindOf(ps[k]) != Unknown && Padded(heads[k], c)
    requires Obfs.AllFit(Obfs.Init(profile, seed), SentAll(ps, heads, c, key, rands))
    ensures var os := SentAll(ps, heads, c, key, rands);
            && |os[k]| >= 32
            && (Delivered(profile, seed, seed', os, rc, k) == Some(Restored(ps[k], c, rc, key, rands[k])) <==>
                  (k == 0 || k >= 3) && |Obfs.Trail(profile, Obfs.SeqAfter(seed, k))| == 0 && Unmistakable(KindOf(ps[k]), os[k], rc, true))
  {
    hide Obfs.Stream, Obfs.Init, Obfs.Trail, Obfs.AllFit, Obfs.SeqAfter, Obfs.Marker, Outbound, Inbound, Restored, Unmistakable, KindOf;
    var os := SentAll(ps, heads, c, key, rands);
    Obfs.LosslessStream(profile, seed, seed', os, k);
    RoundTrip(ps[k], heads[k], c, rc, key, rands[k]);
    var front := if k == 1 || k == 2 then Obfs.Marker() else [];
    var trail := Obfs.Trail(profile, Obfs.SeqAfter(seed, k));
    var x := front + os[k] + trail;
    if |front| + |trail| == 0 {
      assert x == os[k];
    } else {
      LongerIsAnother(ps[k], heads[k], c, rc, key, rands[k], x);
    }
  }

  /** The zeros lose handshakes: a response sent first over `stun_ice` or `dns_like` does not come back unless the
      seed is a multiple of four. */
  lemma ZerosLoseResponse(profile: Obfs.Profile, seed: u64, seed': u64, p: seq<u8>, headroom: seq<u8>, c: Config, rc: Config,
                          key: Option<seq<u8>>, rand: u64)
    requires (profile == Obfs.StunIce || profile == Obfs.DnsLike) && seed as int % 4 != 0
    requires Usable(c) && Usable(rc) && SameLayout(c, rc) && KeyOk(key) && KindOf(p) == Resp && Padded(headroom, c)
    ensures Delivered(profile, seed, seed', [Outbound(p, headroom, c, key, rand)], rc, 0) != Some(Restored(p, c, rc, key, rand))
  {
    hide Outbound, Restored, Delivered, Obfs.Init, Obfs.AllFit, Unmistakable;
    var os := SentAll([p], [headroom], c, key, [rand]);
    assert os == [Outbound(p, headroom, c, key, rand)];
    SentLength(p, headroom, c, key, rand);
    PadsFit(c);
    OneFits(profile, seed, os[0]);
    assert Obfs.SeqAfter(seed, 0) == seed;
    LinkDelivers(profile, seed, seed', [p], [headroom], c, rc, key, [rand], 0);
  }

  lemma OneFits(profile: Obfs.Profile, seed: u64, o: seq<u8>)
    requires |o| <= 1500
    ensures Obfs.AllFit(Obfs.Init(profile, seed), [o])
  {
    Obfs.AdmittedPacketsFit(Obfs.Init(profile, seed), o);
    hide Obfs.Fits, Obfs.Init;
  }

  /** The receiver gets a packet back only from bytes exactly as long as what was sent. */
  lemma LongerIsAnother(p: seq<u8>, headroom: seq<u8>, c: Config, rc: Config, key: Option<seq<u8>>, rand: u64, x: seq<u8>)
    requires Usable(c) && Usable(rc) && SameLayout(c, rc) && KeyOk(key) && KindOf(p) != Unknown && Padded(headroom, c)
    requires |x| > |Outbound(p, headroom, c, key, rand)|
    ensures Inbound(x, rc) != Some(Restored(p, c, rc, key, rand))
  {
    SentLength(p, headroom, c, key, rand);
    RestoredType(p, c, rc, key, rand);
    if Inbound(x, rc).Some? {
      assert Classify(x, rc).Some?;
      InboundType(x, rc);
      OffsetIsPad(x, rc);
      TypesDiffer();
    }
    hide Outbound, Inbound, Restored, Classify, Read32, Validate;
  }

  lemma SentLength(p: seq<u8>, headroom: seq<u8>, c: Config, key: Option<seq<u8>>, rand: u64)
    requires Usable(c) && KeyOk(key) && KindOf(p) != Unknown && Padded(headroom, c)
    ensures |Outbound(p, headroom, c, key, rand)| == Pad(c, KindOf(p)) + |p|
  {
    if KindOf(p) == Transport {
      if !c.h4Noop {
        TransportSent(p, headroom, c, key, rand);
      }
    } else {
      SentShape(p, headroom, c, key, rand);
    }
    hide RemacKind, SetType, Read32, Validate;
  }
}
