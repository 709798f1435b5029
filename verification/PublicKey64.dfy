/** X25519 public keys with the 64-bit back end. */
module PublicKey64 {
  import opened Words
  import opened LittleEndian
  import opened Field25519
  import opened X25519
  import opened Scalars
  import opened Limbs51
  import opened Curve64
  import opened Ladder64
  import opened Invert64
  import opened Format64
  import Powers
  import PublicKeys

  /** The affine x-coordinate, encoded. */
  method ScalarOfPoint(scalar: array<u8>, point: Point)
    requires scalar.Length == 32 && TightPoint(point)
    modifies scalar
    ensures LeVal(scalar[..]) == old(PublicKeys.Affine(Elem(point.x), Elem(point.z)))
  {
    hide Val, Red, FPow, FMul, Tight, View;
    var zmone := new u64[5];
    var sc := new u64[5];
    Crecip(zmone, point.z);
    TightIsLoose(View(point.x));
    TightIsLoose(View(zmone));
    Fmul(sc, point.x, zmone);
    TightIsBelow(View(sc));
    Fcontract(scalar, sc);
  }

  lemma TightIsLoose(x: L5)
    requires Tight(x)
    ensures Loose(x)
  {
  }

  lemma TightIsBelow(x: L5)
    requires Tight(x)
    ensures Below(x, 0x8000_0000_0000_0000)
  {
  }

  method Curve25519Generic(mypublic: array<u8>, secret: array<u8>, basepoint: array<u8>)
    requires mypublic.Length == 32 && secret.Length == 32 && basepoint.Length == 32
    modifies mypublic
    ensures LeVal(mypublic[..]) == old(PublicKeys.Key64(secret[..], basepoint[..]))
  {
    hide Val, View, FPow, FMul, Tight, Run, Eager, ScalarBits, LeVal, Clamped, Powers.Pow2, PublicKeys.Affine;
    var q := NewPoint();
    Fexpand(q.x, basepoint);
    assert Elem(q.x) == PublicKeys.BaseU(basepoint[..]);
    OneElem(q.z);
    assert Elem(q.x) == PublicKeys.BaseU(basepoint[..]);
    var e := new u8[32];
    forall i | 0 <= i < 32 { e[i] := secret[i]; }
    assert e[..] == secret[..];
    ClampSecret(e);
    assert basepoint[..] == old(basepoint[..]);
    assert Elem(q.x) == PublicKeys.BaseU(basepoint[..]);
    var nq := NewPoint();
    BelowIsTight(View(q.x));
    assert e[..] == Clamped(secret[..]);
    LadderCmult(nq, e, q);
    ghost var s := PublicKeys.Point64(secret[..], basepoint[..]);
    assert Elem(nq.x) == s.x2 && Elem(nq.z) == s.z2;
    assert secret[..] == old(secret[..]);
    assert PublicKeys.Affine(s.x2, s.z2) == PublicKeys.Key64(old(secret[..]), old(basepoint[..]));
    ScalarOfPoint(mypublic, nq);
  }

  method OneElem(z: array<u64>)
    requires z.Length == 5 && View(z) == ZERO
    modifies z
    ensures TightArray(z) && Elem(z) == 1
  {
    z[0] := 1;
    assert View(z) == ZERO.(a0 := 1);
  }

  lemma BelowIsTight(x: L5)
    requires Below(x, TWO51)
    ensures Tight(x)
  {
  }
}
