/** The shortcuts the packet loops take for transport packets, against the general translation. */
module HotPath {
  import opened Wrappers
  import opened Words
  import opened Transform
  import opened TransformBuffers
  import FastRand

  // ---- receiving ----

  /** The size rules out a handshake and the header word is in the transport range. */
  predicate Fires(p: seq<u8>, c: Config)
    requires Usable(c)
  {
    && |p| >= c.s4 + WG_TRANSPORT_MIN
    && (!c.transportSizeAmbiguous || (|p| != c.initTotal && |p| != c.respTotal && |p| != c.cookieTotal))
    && c.s4 >= 0 && c.h4.Contains(Read32(p, c.s4))
  }

  /** Whenever the shortcut fires, the general translation takes the packet for transport data at the same offset
      and makes the same bytes of it. */
  lemma ShortcutIsGeneral(p: seq<u8>, c: Config)
    requires Usable(c) && Fires(p, c)
    ensures Classify(p, c) == Some((Transport, c.s4)) && Inbound(p, c) == Some(SetType(p[c.s4..], 4))
  {
    PadsFit(c);
    hide Validate, Read32, SetType;
  }

  /** The only packets of transport kind the shortcut leaves to the general translation have the size of a
      handshake. */
  lemma ShortcutMissesOnlySizes(p: seq<u8>, c: Config)
    requires Usable(c) && Classify(p, c).Some? && Classify(p, c).value.0 == Transport && !Fires(p, c)
    ensures c.transportSizeAmbiguous && |p| in {c.initTotal, c.respTotal, c.cookieTotal}
  {
    hide Validate, Read32;
  }

  method InboundShortcut(buf: array<u8>, n: nat, c: Config) returns (fired: bool)
    requires n <= buf.Length && Usable(c)
    modifies buf
    ensures fired == Fires(old(buf[..n]), c)
    ensures fired ==> c.s4 <= n && Some(buf[c.s4..n]) == Inbound(old(buf[..n]), c)
    ensures !fired ==> buf[..] == old(buf[..])
    ensures buf[n..] == old(buf[n..])
  {
    PadsFit(c);
    hide Validate, Read32, SetType;
    ghost var p, rest := buf[..n], buf[n..];
    if n >= c.s4 + WG_TRANSPORT_MIN {
      if !c.transportSizeAmbiguous || (n != c.initTotal && n != c.respTotal && n != c.cookieTotal) {
        var h := Read32(buf[..n], c.s4);
        if c.h4.Contains(h) {
          ShortcutIsGeneral(p, c);
          assert buf[c.s4..n] == p[c.s4..];
          Retype(buf, c.s4, n - c.s4, 4);
          return true;
        }
      }
    }
    return false;
  }

  /** What the loop towards the client does with a packet whose disguise is off: the shortcut, else the general
      translation. The outcome is always the general translation's. */
  method ReceivePacket(buf: array<u8>, n: nat, c: Config) returns (r: Option<nat>, outLen: nat)
    requires n <= buf.Length && Usable(c)
    modifies buf
    ensures r.Some? <==> Inbound(old(buf[..n]), c).Some?
    ensures r.Some? ==> r.value + outLen == n && Some(buf[r.value..n]) == Inbound(old(buf[..n]), c)
  {
    PadsFit(c);
    hide Validate, Inbound, Fires, Classify;
    var fired := InboundShortcut(buf, n, c);
    if fired {
      return Some(c.s4), n - c.s4;
    }
    assert buf[..n] == old(buf[..])[..n];
    r, outLen := TransformInbound(buf, n, c);
  }

  // ---- sending ----

  /** Every value of a range can be picked. */
  lemma PickReaches(r: HRange, v: u32) returns (rand: u64)
    requires r.min <= r.max && r.Contains(v)
    ensures r.Pick(rand) == v
  {
    rand := (v - r.min) as u64;
    SmallRemainder(rand as int, r.max as int - r.min as int + 1);
  }

  lemma SmallRemainder(x: nat, m: nat)
    requires x < m
    ensures x % m == x
  {
  }

  /** The sending shortcut, with the packet behind a headroom of exactly s4 bytes and a header value h4 drawn from
      the ring. When it fires, what it sends is what the general translation sends for some random word. */
  method OutboundShortcut(buf: array<u8>, n: nat, c: Config, h4: u32, ghost key: Option<seq<u8>>)
    returns (fired: bool, total: nat, ghost rand: u64)
    requires Usable(c) && c.s4 + n <= buf.Length && c.s4 >= 0 && c.h4.Contains(h4) && KeyOk(key)
    modifies buf
    ensures fired <==> KindOf(old(buf[c.s4..c.s4 + n])) == Transport
    ensures fired ==>
              && total == c.s4 + n
              && buf[..total] == Outbound(old(buf[c.s4..c.s4 + n]), old(buf[..c.s4]), c, key, rand)
              && !SendsJunk(old(buf[c.s4..c.s4 + n]), c)
    ensures !fired ==> buf[..] == old(buf[..])
  {
    hide Validate, Read32, SetType, RemacKind;
    ghost var p, head := buf[c.s4..c.s4 + n], buf[..c.s4];
    rand := PickReaches(c.h4, h4);
    var prefix := c.s4;
    fired, total := false, 0;
    if n >= WG_TRANSPORT_MIN {
      var h := Read32(buf[prefix..prefix + n], 0);
      if h == 4 {
        if !c.h4Noop {
          Retype(buf, prefix, n, h4);
          assert buf[..prefix + n] == head + SetType(p, h4);
          assert head[|head| - c.s4..] == head;
          assert [] + SetType(p, h4) == SetType(p, h4);
        }
        fired := true;
        total := if prefix > 0 then prefix + n else n;
      }
    }
  }
}
