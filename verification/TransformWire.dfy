/** The translation in terms of the bytes on the wire and the keys of the two ends. */
module TransformWire {
  import opened Wrappers
  import opened Words
  import opened Transform
  import opened TransformBuffers
  import Rfc = Rfc7693
  import Mac = Blake2sStream
  import FastRand
  import Bits

  /** Junk is asked for exactly when the other end takes the packet for a handshake initiation and the configuration
      has junk; never for a packet that is no WireGuard packet. */
  lemma JunkBeforeInitiations(p: seq<u8>, headroom: seq<u8>, c: Config, rc: Config, key: Option<seq<u8>>, rand: u64)
    requires Usable(c) && Usable(rc) && SameLayout(c, rc) && KeyOk(key)
    ensures KindOf(p) == Unknown ==> !SendsJunk(p, c)
    ensures var q := Outbound(p, headroom, c, key, rand);
            KindOf(p) != Unknown && |q| >= 32 && Unmistakable(KindOf(p), q, rc, Padded(headroom, c)) ==>
              Classify(q, rc).Some? && (SendsJunk(p, c) <==> c.jc > 0 && Classify(q, rc).value.0 == Init)
  {
    var q := Outbound(p, headroom, c, key, rand);
    if KindOf(p) != Unknown && |q| >= 32 && Unmistakable(KindOf(p), q, rc, Padded(headroom, c)) {
      SentKindIsSeen(p, headroom, c, rc, key, rand);
    }
    hide Outbound, Classify, Unmistakable, Read32;
  }

  /** Sent bytes that cannot be mistaken are taken for the kind they were sent as. */
  lemma SentKindIsSeen(p: seq<u8>, headroom: seq<u8>, c: Config, rc: Config, key: Option<seq<u8>>, rand: u64)
    requires Usable(c) && Usable(rc) && SameLayout(c, rc) && KeyOk(key) && KindOf(p) != Unknown
    requires var q := Outbound(p, headroom, c, key, rand);
             |q| >= 32 && Unmistakable(KindOf(p), q, rc, Padded(headroom, c))
    ensures var r := Classify(Outbound(p, headroom, c, key, rand), rc); r.Some? && r.value.0 == KindOf(p)
  {
    var q := Outbound(p, headroom, c, key, rand);
    if KindOf(p) == Transport {
      TransportRoundTrip(p, headroom, c, rc, key, rand);
      hide Outbound, Unmistakable, Read32;
      if Classify(q, rc).Some? {
        InboundType(q, rc);
        TypesDiffer();
      }
    } else {
      HandshakeClassified(p, headroom, c, rc, key, rand);
      hide Outbound, Unmistakable, Read32, Classify;
    }
  }

  /** What is accepted: parameters in their ranges and header ranges of which no two share a value. */
  lemma ValidateAccepts(c: Config)
    requires WellRanged(c)
    ensures Validate(c).None? <==>
              && 0 <= c.jc && 0 <= c.jmin && 0 <= c.jmax < 65535 && (c.jmax == 0 || c.jmin <= c.jmax)
              && 0 <= c.s1 <= 1352 && 0 <= c.s2 <= 1408 && 0 <= c.s3 <= 1436 && 0 <= c.s4 <= 1500
              && forall v: u32 :: !(c.h1.Contains(v) && c.h2.Contains(v)) && !(c.h1.Contains(v) && c.h3.Contains(v))
                                  && !(c.h1.Contains(v) && c.h4.Contains(v)) && !(c.h2.Contains(v) && c.h3.Contains(v))
                                  && !(c.h2.Contains(v) && c.h4.Contains(v)) && !(c.h3.Contains(v) && c.h4.Contains(v))
  {
    OverlapsIsCommonValue(c.h1, c.h2);
    OverlapsIsCommonValue(c.h1, c.h3);
    OverlapsIsCommonValue(c.h1, c.h4);
    OverlapsIsCommonValue(c.h2, c.h3);
    OverlapsIsCommonValue(c.h2, c.h4);
    OverlapsIsCommonValue(c.h3, c.h4);
  }

  // ---- keys ----

  function Ascii(s: string): seq<u8>
    requires forall i :: 0 <= i < |s| ==> s[i] < 128 as char
  {
    seq(|s|, i requires 0 <= i < |s| => s[i] as u8)
  }

  const MAC1_LABEL := "mac1----"

  /** The MAC1 key made of a public key. */
  function KeyOf(pubkey: seq<u8>): seq<u8> {
    hide Rfc.Blake2s;
    Rfc.Blake2s([], Ascii(MAC1_LABEL) + pubkey, 32)
  }

  lemma KeyIsMac1Key(pubkey: seq<u8>)
    ensures Mac.Mac1Key(pubkey) == KeyOf(pubkey)
  {
    assert Mac.Label() == Ascii(MAC1_LABEL);
    hide Rfc.Blake2s;
  }

  /** The key under which packets to the holder of a public key are authenticated; none for the zero key. */
  function KeyTo(pubkey: seq<u8>): Option<seq<u8>> {
    if forall i :: 0 <= i < |pubkey| ==> pubkey[i] == 0 then None
    else Some(KeyOf(pubkey))
  }

  /** A client authenticates what it sends to the server's public key and what it receives to its own; a gateway or
      server the other way round. */
  lemma KeysOfMode(c: Config)
    requires KeysSized(c)
    ensures Derived(c).mac1keyOut == KeyTo(if c.mode == Client then c.serverPub else c.clientPub)
    ensures Derived(c).mac1keyIn == KeyTo(if c.mode == Client then c.clientPub else c.serverPub)
  {
    KeyIsMac1Key(c.serverPub);
    KeyIsMac1Key(c.clientPub);
    ZeroKey(c.serverPub);
    ZeroKey(c.clientPub);
    hide Mac.Mac1Key, KeyOf, Rfc.Zeros;
  }

  lemma ZeroKey(k: seq<u8>)
    requires |k| == 32
    ensures k == Rfc.Zeros(32) <==> forall i :: 0 <= i < |k| ==> k[i] == 0
  {
  }

  lemma {:induction false} PeerKeysInOrder(pubs: seq<seq<u8>>, i: nat)
    requires i < |pubs|
    ensures |Mac1Keys(pubs)| == |pubs| && Mac1Keys(pubs)[i] == KeyOf(pubs[i])
  {
    hide Mac.Mac1Key, KeyOf;
    var last := |pubs| - 1;
    KeyIsMac1Key(pubs[last]);
    if last > 0 {
      PeerKeysInOrder(pubs[..last], if i < last then i else 0);
    }
  }

  // ---- random padding ----

  /** Response and cookie padding come from the random word with fixed bits turned over. */
  lemma SeedsDiffer(rand: u64)
    ensures Bits.Xor64(PadSeed(Resp, rand), rand) == 0x12345
    ensures Bits.Xor64(PadSeed(Cookie, rand), rand) == 0x67890
    ensures PadSeed(Init, rand) == rand
  {
    TurnedBack(rand, 0x12345);
    TurnedBack(rand, 0x67890);
    hide Bits.Xor64;
  }

  lemma TurnedBack(x: u64, y: u64)
    ensures Bits.Xor64(Bits.Xor64(x, y), x) == y
  {
    Bits.XorCancels(x as int, y as int);
    Bits.XorCommutes(x as int, Bits.Xor(x as int, y as int));
    hide Bits.Xor;
  }
}
