/** Words read and written as little-endian bytes. */
module ByteWords {
  import opened Words
  import opened Powers
  import opened Bits
  import opened LittleEndian

  lemma WeightValues()
    ensures Pow2(24) == 0x100_0000 && Pow2(40) == 0x100_0000_0000 && Pow2(48) == 0x1_0000_0000_0000 && Pow2(56) == 0x100_0000_0000_0000
  {
    Pow2Values();
    Pow2Add(8, 16);
    Pow2Add(8, 32);
    Pow2Add(16, 32);
    Pow2Add(24, 32);
  }

  /** Or-ing a byte in above what is already there adds it. */
  lemma OrByte(v: nat, x: u8, n: nat)
    requires v < Pow2(n)
    ensures Or(v, x as int * Pow2(n)) == v + x as int * Pow2(n) < Pow2(n + 8)
  {
    hide Or, Pow2;
    var p := Pow2(n);
    Pow2Times256(n);
    assert x as int * p <= 255 * p;
    OrDisjoint(x as int, v, n);
    OrCommutes(v, x as int * p);
  }

  lemma EightBytes(b: seq<u8>)
    requires |b| == 8
    ensures LeVal(b) == b[0] as int + 0x100 * b[1] as int + 0x1_0000 * b[2] as int + 0x100_0000 * b[3] as int
                      + 0x1_0000_0000 * b[4] as int + 0x100_0000_0000 * b[5] as int
                      + 0x1_0000_0000_0000 * b[6] as int + 0x100_0000_0000_0000 * b[7] as int
  {
    LeTail(b, 7);
    LeTail(b, 6);
    LeTail(b, 5);
    LeTail(b, 4);
    LeTail(b, 3);
    LeTail(b, 2);
    LeTail(b, 1);
  }

  lemma LeTail(b: seq<u8>, k: nat)
    requires k < |b|
    ensures LeVal(b[k..]) == b[k] as int + 256 * LeVal(b[k + 1..])
    ensures LeVal(b[|b|..]) == 0
  {
    assert b[k..][1..] == b[k + 1..];
  }

  lemma NextDigit(v: nat, w: nat)
    requires w > 0
    ensures v / w == v / w % 256 + 256 * (v / (w * 256))
  {
    DivDiv(v, w, 256);
  }

  lemma ValueOfWords(b: seq<u8>)
    requires |b| == 32
    ensures LeVal(b) == LeVal(b[0..8]) + TWO64 * LeVal(b[8..16]) + TWO64 * TWO64 * LeVal(b[16..24]) + TWO64 * TWO64 * TWO64 * LeVal(b[24..32])
  {
    hide LeVal;
    Pow2Values();
    LeValSplitFirst(b);
    LeValSplitFirst(b[8..]);
    LeValSplitFirst(b[16..]);
    assert b[8..][..8] == b[8..16] && b[8..][8..] == b[16..] && b[16..][..8] == b[16..24] && b[16..][8..] == b[24..32] && b[..8] == b[0..8];
  }

  lemma LeValSplitFirst(b: seq<u8>)
    requires |b| >= 8
    ensures LeVal(b) == LeVal(b[..8]) + TWO64 * LeVal(b[8..])
  {
    hide LeVal;
    Pow2Values();
    LeValAppend(b[..8], b[8..]);
    assert b == b[..8] + b[8..];
  }
}
