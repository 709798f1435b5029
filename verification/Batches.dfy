/** Sending a batch of datagrams in few system calls, and taking a coalesced buffer apart again. The kernel is an
    oracle: it may refuse the segmented send, and it may accept any number of the datagrams offered to it. */
module Batches {
  import opened Words
  import opened Powers

  type Datagram = seq<u8>

  const BATCH_SIZE: nat := 32
  const EIO: int := 5
  const ENOPROTOOPT: int := 92

  function Concat(ds: seq<Datagram>): seq<u8> {
    if ds == [] then [] else ds[0] + Concat(ds[1..])
  }

  /** The segmentation rule of the kernel and of the receiving loop: pieces of size seg, the last one what is left. */
  function Split(data: seq<u8>, seg: nat): seq<Datagram>
    requires seg > 0
  {
    if data == [] then []
    else if |data| <= seg then [data]
    else [data[..seg]] + Split(data[seg..], seg)
  }

  /** How many datagrams from position i on belong to the segmented send: all of the first one's size. */
  function SameSize(ds: seq<Datagram>, i: nat): (k: nat)
    requires 0 < i <= |ds|
    ensures i <= k <= |ds|
    decreases |ds| - i
  {
    if i < |ds| && |ds[i]| == |ds[0]| then SameSize(ds, i + 1) else i
  }

  /** The datagrams one segmented send covers: those of equal size, and one shorter one after them. */
  function GsoCount(ds: seq<Datagram>): (k: nat)
    requires ds != []
    ensures 1 <= k <= |ds|
  {
    var k := SameSize(ds, 1);
    if k < |ds| && |ds[k]| < |ds[0]| then k + 1 else k
  }

  lemma {:induction false} SameSizeMeans(ds: seq<Datagram>, i: nat)
    requires 0 < i <= |ds| && forall j :: 0 <= j < i ==> |ds[j]| == |ds[0]|
    ensures var k := SameSize(ds, i);
            i <= k <= |ds| && (forall j :: 0 <= j < k ==> |ds[j]| == |ds[0]|) && (k < |ds| ==> |ds[k]| != |ds[0]|)
    decreases |ds| - i
  {
    if i < |ds| && |ds[i]| == |ds[0]| {
      SameSizeMeans(ds, i + 1);
    }
  }

  /** Datagrams a segmented send can carry: all of one size but the last, which may be shorter. */
  predicate Segmented(ds: seq<Datagram>, seg: nat) {
    forall j :: 0 <= j < |ds| ==> |ds[j]| <= seg && (j < |ds| - 1 ==> |ds[j]| == seg)
  }

  /** One segmented send covers the longest prefix it can carry. */
  lemma GsoPrefix(ds: seq<Datagram>)
    requires ds != []
    ensures 1 <= GsoCount(ds) <= |ds| && Segmented(ds[..GsoCount(ds)], |ds[0]|)
    ensures forall n :: GsoCount(ds) < n <= |ds| ==> !Segmented(ds[..n], |ds[0]|)
  {
    SameSizeMeans(ds, 1);
    var k := GsoCount(ds);
    forall n | k < n <= |ds|
      ensures !Segmented(ds[..n], |ds[0]|)
    {
      assert ds[..n][k] == ds[k] && ds[..n][k - 1] == ds[k - 1];
    }
  }

  /** Segmented datagrams, joined and split again, come back exactly when the last one is not empty. */
  lemma {:induction false} SplitOfConcat(ds: seq<Datagram>, seg: nat)
    requires seg > 0 && ds != [] && Segmented(ds, seg)
    ensures Split(Concat(ds), seg) == ds <==> ds[|ds| - 1] != []
    ensures ds[|ds| - 1] == [] ==> Split(Concat(ds), seg) == ds[..|ds| - 1]
    decreases |ds|
  {
    var rest := ds[1..];
    if rest == [] {
      assert Concat(ds) == ds[0] + [] == ds[0];
    } else {
      SplitOfConcat(rest, seg);
      assert Segmented(rest, seg);
      var data := Concat(ds);
      assert data == ds[0] + Concat(rest) && data[..seg] == ds[0] && data[seg..] == Concat(rest);
      if Concat(rest) == [] {
        SplitEmpty(rest, seg);
        assert data == ds[0];
      }
      assert ds == [ds[0]] + rest;
    }
  }

  lemma SplitEmpty(rest: seq<Datagram>, seg: nat)
    requires rest != [] && Segmented(rest, seg) && Concat(rest) == [] && seg > 0
    ensures rest == [[]]
  {
    assert Concat(rest) == rest[0] + Concat(rest[1..]);
    assert |rest[0]| == 0;
  }

  /** No datagram is empty: the packet loops never queue one. */
  predicate NonEmpty(ds: seq<Datagram>) {
    forall j :: 0 <= j < |ds| ==> ds[j] != []
  }

  /** What the kernel makes of one segmented send is exactly the datagrams it was made from. */
  lemma GsoIsLossless(ds: seq<Datagram>)
    requires ds != [] && NonEmpty(ds)
    ensures Split(Concat(ds[..GsoCount(ds)]), |ds[0]|) == ds[..GsoCount(ds)]
  {
    GsoPrefix(ds);
    var k := GsoCount(ds);
    assert ds[..k][k - 1] == ds[k - 1];
    SplitOfConcat(ds[..k], |ds[0]|);
  }

  class Sender {
    var gsoOk: bool
    /** Everything the kernel has been handed and taken, in order. */
    var wire: seq<Datagram>

    constructor ()
      ensures gsoOk && wire == []
    {
      gsoOk, wire := true, [];
    }

    /** One segmented send; `answer` is the kernel's: negative for an error number. Returns the datagrams covered,
        zero if none could be, or the negated error. */
    method SendGso(batch: seq<Datagram>, answer: int) returns (n: int)
      requires NonEmpty(batch) && forall j :: 0 <= j < |batch| ==> |batch[j]| < 0x1_0000
      modifies this`wire
      ensures n == if |batch| <= 1 || GsoCount(batch) <= 1 then 0 else if answer < 0 then answer else GsoCount(batch)
      ensures wire == if n < 0 then old(wire) else old(wire) + batch[..n]
    {
      if |batch| <= 1 {
        return 0;
      }
      var segSize := |batch[0]|;
      var gsoCount := 1;
      while gsoCount < |batch| && |batch[gsoCount]| == segSize
        invariant 1 <= gsoCount <= |batch|
        invariant SameSize(batch, 1) == SameSize(batch, gsoCount)
      {
        gsoCount := gsoCount + 1;
      }
      if gsoCount < |batch| && |batch[gsoCount]| < segSize {
        gsoCount := gsoCount + 1;
      }
      if gsoCount <= 1 {
        return 0;
      }
      if answer < 0 {
        return answer;
      }
      GsoIsLossless(batch);
      wire := wire + Split(Concat(batch[..gsoCount]), segSize);
      return gsoCount;
    }

    /** Segmented first, then whatever is left in plain batches; `answers` are the kernel's replies, at most as many
        as were offered, and none left means failure. The kernel always gets a prefix of the batch, in order and
        each datagram once; the whole batch if every plain send takes at least one. A segmented send is tried exactly
        when it can cover two datagrams, and given up for good when the kernel answers that it cannot. */
    method SendBatchGso(batch: seq<Datagram>, addressed: bool, gsoAnswer: int, answers: seq<int>) returns (sent: nat)
      requires NonEmpty(batch) && forall j :: 0 <= j < |batch| ==> |batch[j]| < 0x1_0000
      modifies this
      ensures sent <= |batch| && wire == old(wire) + batch[..sent]
      ensures |answers| >= |batch| && (forall i :: 0 <= i < |answers| ==> answers[i] >= 1) ==> sent == |batch|
      ensures var tried := old(gsoOk) && addressed && |batch| > 1 && GsoCount(batch) > 1;
              && gsoOk == (old(gsoOk) && !(tried && (gsoAnswer == -EIO || gsoAnswer == -ENOPROTOOPT)))
              && (tried && gsoAnswer >= 0 ==> sent >= GsoCount(batch))
              && (answers == [] ==> sent == if tried && gsoAnswer >= 0 then GsoCount(batch) else 0)
    {
      sent := 0;
      if gsoOk && |batch| > 1 && addressed {
        var n := SendGso(batch, gsoAnswer);
        if n < 0 {
          if -n == ENOPROTOOPT || -n == EIO {
            gsoOk := false;
          }
        } else {
          sent := n;
        }
      }
      assert sent == 0 ==> wire == old(wire) + batch[..0];
      sent := SendRest(batch, sent, answers, old(wire));
    }

    /** Plain sends for what follows the first `done` datagrams, until all are taken or a call fails. */
    method SendRest(batch: seq<Datagram>, done: nat, answers: seq<int>, ghost before: seq<Datagram>) returns (sent: nat)
      requires done <= |batch| && wire == before + batch[..done]
      modifies this`wire
      ensures done <= sent <= |batch| && wire == before + batch[..sent]
      ensures |answers| >= |batch| && (forall i :: 0 <= i < |answers| ==> answers[i] >= 1) ==> sent == |batch|
      ensures answers == [] ==> sent == done
    {
      sent := done;
      var call := 0;
      while sent < |batch|
        invariant done <= sent <= |batch| && call <= sent && call <= |answers|
        invariant wire == before + batch[..sent]
        invariant answers == [] ==> sent == done
        decreases |batch| - sent
      {
        var r := if call == |answers| then -1 else if answers[call] > |batch| - sent then |batch| - sent else answers[call];
        if r <= 0 {
          break;
        }
        Extended(batch, sent, r);
        wire := wire + batch[sent..sent + r];
        sent := sent + r;
        call := call + 1;
      }
    }
  }

  lemma Extended(batch: seq<Datagram>, n: nat, r: nat)
    requires n + r <= |batch|
    ensures batch[..n + r] == batch[..n] + batch[n..n + r]
  {
  }

  // ---- receiving ----

  function CountAccepted(ds: seq<Datagram>, accepts: Datagram -> bool): nat {
    if ds == [] then 0 else CountAccepted(ds[..|ds| - 1], accepts) + if accepts(ds[|ds| - 1]) then 1 else 0
  }

  lemma {:induction false} SplitSteps(data: seq<u8>, seg: nat, off: nat, k: nat)
    requires seg > 0 && off == k * seg && off < |data|
    ensures k < |Split(data, seg)|
    ensures Split(data, seg)[k] == data[off..if off + seg > |data| then |data| else off + seg]
    ensures k + 1 == |Split(data, seg)| <==> off + seg >= |data|
    decreases k
  {
    if k > 0 {
      assert off - seg == (k - 1) * seg;
      if |data| <= seg {
        assert off < seg;
        assert false by { AtLeastSeg(k, seg); }
      }
      SplitSteps(data[seg..], seg, off - seg, k - 1);
    }
  }

  lemma AtLeastSeg(k: nat, seg: nat)
    requires k > 0
    ensures k * seg >= seg
  {
  }

  lemma NextOffset(k: nat, seg: nat)
    ensures (k + 1) * seg == k * seg + seg
  {
  }

  /** The splitting loop: each piece is processed until the buffer is used up or the send batch is full. It sees the
      pieces in order from the first, and misses some only when 32 have been accepted. */
  method SplitLoop(data: seq<u8>, seg: nat, accepts: Datagram -> bool) returns (processed: seq<Datagram>, nsend: nat)
    requires seg > 0
    ensures processed <= Split(data, seg)
    ensures nsend == CountAccepted(processed, accepts) <= BATCH_SIZE
    ensures |processed| < |Split(data, seg)| ==> nsend == BATCH_SIZE
    ensures |Split(data, seg)| <= BATCH_SIZE ==> processed == Split(data, seg)
  {
    processed, nsend := [], 0;
    var off := 0;
    ghost var all := Split(data, seg);
    while off < |data| && nsend < BATCH_SIZE
      invariant off == |processed| * seg
      invariant |processed| <= |all| && processed == all[..|processed|]
      invariant off >= |data| ==> |processed| == |all|
      invariant nsend == CountAccepted(processed, accepts) <= BATCH_SIZE && nsend <= |processed|
      decreases |data| - off
    {
      var end := if off + seg > |data| then |data| else off + seg;
      SplitSteps(data, seg, off, |processed|);
      NextOffset(|processed|, seg);
      var pkt := data[off..end];
      assert (processed + [pkt])[..|processed|] == processed;
      processed := processed + [pkt];
      if accepts(pkt) {
        nsend := nsend + 1;
      }
      off := off + seg;
    }
    assert all[..|all|] == all;
  }

  /** Sent segmented, coalesced on the way and split by the receiver: the same datagrams, in order. */
  method GsoThenGro(batch: seq<Datagram>) returns (received: seq<Datagram>)
    requires batch != [] && NonEmpty(batch) && |batch| <= BATCH_SIZE
    ensures received == batch[..GsoCount(batch)]
  {
    GsoPrefix(batch);
    GsoIsLossless(batch);
    var nsend;
    received, nsend := SplitLoop(Concat(batch[..GsoCount(batch)]), |batch[0]|, _ => true);
  }
}
