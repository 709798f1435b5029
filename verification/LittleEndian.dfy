/** Little-endian byte strings as numbers. */
module LittleEndian {
  import opened Words
  import opened Powers

  function LeVal(b: seq<u8>): nat {
    if b == [] then 0 else b[0] as int + 256 * LeVal(b[1..])
  }

  function LeBytes(v: nat, n: nat): (b: seq<u8>)
    ensures |b| == n
  {
    if n == 0 then [] else [(v % 256) as u8] + LeBytes(v / 256, n - 1)
  }

  lemma {:induction false} LeValBound(b: seq<u8>)
    ensures LeVal(b) < Pow2(8 * |b|)
  {
    if b != [] {
      LeValBound(b[1..]);
      Pow2Times256(8 * |b| - 8);
    }
  }

  lemma Pow2Times256(n: nat)
    ensures Pow2(n + 8) == 256 * Pow2(n)
  {
    Pow2Values();
    Pow2Add(8, n);
  }

  lemma {:induction false} LeValAppend(a: seq<u8>, b: seq<u8>)
    ensures LeVal(a + b) == LeVal(a) + Pow2(8 * |a|) * LeVal(b)
  {
    if a == [] {
      assert a + b == b;
    } else {
      assert (a + b)[1..] == a[1..] + b;
      LeValAppend(a[1..], b);
      hide Pow2;
      Pow2Times256(8 * |a| - 8);
      ShiftByte(Pow2(8 * |a| - 8), LeVal(b));
    }
  }

  lemma ShiftByte(p: int, v: int)
    ensures 256 * (p * v) == (256 * p) * v
  {
  }

  /** Two byte strings of one length denote the same number only when they are the same string. */
  lemma {:induction false} LeValInjective(a: seq<u8>, b: seq<u8>)
    requires |a| == |b| && LeVal(a) == LeVal(b)
    ensures a == b
  {
    if a != [] {
      LeValInjective(a[1..], b[1..]);
      assert a == [a[0]] + a[1..] && b == [b[0]] + b[1..];
    }
  }

  lemma LeValSplit(b: seq<u8>, k: nat)
    requires k <= |b|
    ensures LeVal(b) / Pow2(8 * k) == LeVal(b[k..]) && LeVal(b) % Pow2(8 * k) == LeVal(b[..k])
  {
    assert b == b[..k] + b[k..];
    LeValAppend(b[..k], b[k..]);
    LeValBound(b[..k]);
    hide LeVal;
    DivUnique(LeVal(b), Pow2(8 * k), LeVal(b[k..]), LeVal(b[..k]));
  }

  /** A stretch of bytes is the corresponding stretch of binary digits. */
  lemma LeValSlice(b: seq<u8>, off: nat, n: nat)
    requires off + n <= |b|
    ensures LeVal(b[off..off + n]) == LeVal(b) / Pow2(8 * off) % Pow2(8 * n)
  {
    hide LeVal;
    LeValSplit(b, off);
    LeValSplit(b[off..], n);
    assert b[off..][..n] == b[off..off + n];
  }
}
