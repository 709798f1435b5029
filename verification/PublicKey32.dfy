/** X25519 public keys with the 32-bit back end. */
module PublicKey32 {
  import opened Words
  import opened LittleEndian
  import opened Field25519
  import opened X25519
  import opened Scalars
  import opened Limbs26
  import opened Fiat32
  import opened Fiat32Invert
  import opened Fiat32Format
  import opened Fiat32Ladder
  import Powers
  import PublicKeys

  /** The affine x-coordinate, encoded. */
  method AffineBytes(out: array<u8>, x2: array<u32>, z2: array<u32>)
    requires out.Length == 32 && TightArray(x2) && TightArray(z2) && x2 != z2
    modifies out, x2, z2
    ensures LeVal(out[..]) == old(PublicKeys.Affine(Elem(x2), Elem(z2)))
  {
    hide Val, Red, FPow, FMul, Tight, Loose, View;
    var l := new u32[10];
    Copy(l, z2);
    TightIsLoose(View(l));
    FeLooseInvert(z2, l);
    FeMulTight(x2, x2, z2);
    FeToBytes(out, x2);
  }

  method Copy(h: array<u32>, f: array<u32>)
    requires h.Length == 10 && f.Length == 10
    modifies h
    ensures View(h) == old(View(f))
  {
    Store(h, f[0], f[1], f[2], f[3], f[4], f[5], f[6], f[7], f[8], f[9]);
  }

  /** The element v. */
  method Small(h: array<u32>, v: u32)
    requires h.Length == 10 && v <= 1
    modifies h
    ensures TightArray(h) && Elem(h) == v as int
  {
    Store(h, v, 0, 0, 0, 0, 0, 0, 0, 0, 0);
    RedRange(v as int);
  }

  lemma DigitsAreTight(x: L10)
    requires Below(x, TWO26, TWO25)
    ensures Tight(x)
  {
  }

  /** The u-coordinate of the base point. */
  method Base(x1: array<u32>, point: array<u8>)
    requires x1.Length == 10 && point.Length == 32
    modifies x1
    ensures TightArray(x1) && Elem(x1) == PublicKeys.BaseU(point[..])
  {
    hide Val, Red, View, LeVal;
    FeFromBytes(x1, point);
    DigitsAreTight(View(x1));
  }

  /** The ladder from the neutral point and the base point, on fresh arrays. */
  method RunLadder(e: array<u8>, x1: array<u32>) returns (x2: array<u32>, z2: array<u32>)
    requires e.Length == 32 && TightArray(x1)
    ensures fresh(x2) && fresh(z2) && x2 != z2 && TightArray(x2) && TightArray(z2)
    ensures var s := Rfc7748(Elem(x1), ScalarBits(e[..], 255)); Elem(x2) == s.x2 && Elem(z2) == s.z2
  {
    hide Val, Red, View, Tight, ScalarBits, Rfc7748;
    x2 := new u32[10];
    z2 := new u32[10];
    var x3 := new u32[10];
    var z3 := new u32[10];
    Small(x2, 1);
    Small(z2, 0);
    Copy(x3, x1);
    Small(z3, 1);
    Ladder255(e, x1, x2, z2, x3, z3);
  }

  method ClampedCopy(scalar: array<u8>) returns (e: array<u8>)
    requires scalar.Length == 32
    ensures fresh(e) && e.Length == 32 && e[..] == Clamped(scalar[..])
  {
    hide Powers.Pow2, LeVal;
    e := new u8[32];
    forall i | 0 <= i < 32 { e[i] := scalar[i]; }
    assert e[..] == scalar[..];
    ClampSecret(e);
  }

  method Curve25519Generic(out: array<u8>, scalar: array<u8>, point: array<u8>)
    requires out.Length == 32 && scalar.Length == 32 && point.Length == 32
    modifies out
    ensures LeVal(out[..]) == old(PublicKeys.RfcKey(scalar[..], point[..]))
  {
    hide Val, Red, View, LeVal, FPow, FMul, Tight, Loose, ScalarBits, Clamped, Rfc7748, PublicKeys.Affine, PublicKeys.BaseU;
    var e := ClampedCopy(scalar);
    var x1 := new u32[10];
    Base(x1, point);
    var x2, z2 := RunLadder(e, x1);
    AffineBytes(out, x2, z2);
  }
}

/** The two back ends against each other. */
module BackEndsAgree {
  import opened Words
  import opened LittleEndian
  import opened PublicKeys
  import PublicKey32
  import PublicKey64

  /** For base point 9 the two builds of the program derive the same 32 bytes from every secret key. */
  method SamePublicKey(secret: array<u8>, nine: array<u8>) returns (pub64: array<u8>, pub32: array<u8>)
    requires secret.Length == 32 && nine.Length == 32 && IsNine(nine[..])
    ensures pub64.Length == 32 && pub64[..] == pub32[..]
    ensures LeVal(pub32[..]) == RfcKey(secret[..], nine[..])
  {
    hide LeVal, IsNine, RfcKey, Key64;
    Key64IsRfcKey(secret[..], nine[..]);
    ghost var k, u := secret[..], nine[..];
    pub64 := new u8[32];
    PublicKey64.Curve25519Generic(pub64, secret, nine);
    assert secret[..] == k && nine[..] == u;
    pub32 := new u8[32];
    PublicKey32.Curve25519Generic(pub32, secret, nine);
    assert secret[..] == k && nine[..] == u;
    LeValInjective(pub64[..], pub32[..]);
  }
}
