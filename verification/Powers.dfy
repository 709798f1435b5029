/** Powers of two and the division facts used with them. */
module Powers {
  function Pow2(n: nat): (p: nat)
    ensures p > 0
  {
    if n == 0 then 1 else 2 * Pow2(n - 1)
  }

  lemma {:induction false} Pow2Add(m: nat, n: nat)
    ensures Pow2(m + n) == Pow2(m) * Pow2(n)
  {
    if m > 0 {
      Pow2Add(m - 1, n);
      assert Pow2(m) * Pow2(n) == 2 * (Pow2(m - 1) * Pow2(n));
    }
  }

  lemma Pow2Values()
    ensures Pow2(8) == 0x100 && Pow2(16) == 0x1_0000 && Pow2(32) == 0x1_0000_0000
    ensures Pow2(63) == 0x8000_0000_0000_0000 && Pow2(64) == 0x1_0000_0000_0000_0000
  {
    assert Pow2(4) == 16;
    Pow2Add(4, 4);
    Pow2Add(8, 8);
    Pow2Add(16, 16);
    Pow2Add(32, 32);
  }

  lemma SmallMultiple(d: int, p: int)
    requires p > 0 && -p < d * p < p
    ensures d == 0
  {
  }

  lemma DivUnique(x: int, p: int, q: int, r: int)
    requires p > 0 && x == q * p + r && 0 <= r < p
    ensures x / p == q && x % p == r
  {
    var d := x / p - q;
    assert d * p == (x / p) * p - q * p;
    SmallMultiple(d, p);
  }

  lemma MixedDigits(q: nat, r: nat, s: nat, m: nat, p: nat)
    requires m > 0 && p > 0 && r < p && s < m
    ensures ((q * p + r) * m + s) == q * (m * p) + (r * m + s) && 0 <= r * m + s < m * p
  {
    assert r * m <= (p - 1) * m == m * p - m;
    Regroup(q, r, m, p);
  }

  lemma Regroup(q: int, r: int, m: int, p: int)
    ensures (q * p + r) * m == q * (m * p) + r * m
  {
    assert (q * p + r) * m == q * p * m + r * m;
  }

  lemma DivDiv(a: nat, m: nat, p: nat)
    requires m > 0 && p > 0
    ensures m * p > 0 && a / m / p == a / (m * p)
  {
    var b, s := a / m, a % m;
    DivSplit(a, m, b, s);
    DivSplit(b, p, b / p, b % p);
    MixedDigits(b / p, b % p, s, m, p);
    DivDivParts(a, m, p, b / p, b % p, s);
  }

  lemma DivSplit(a: nat, m: nat, q: int, r: int)
    requires m > 0 && q == a / m && r == a % m
    ensures a == q * m + r && 0 <= r < m && 0 <= q
  {
  }

  lemma DivDivParts(a: nat, m: nat, p: nat, q: nat, r: nat, s: nat)
    requires m > 0 && p > 0 && 0 <= r * m + s < m * p && a == q * (m * p) + (r * m + s)
    ensures m * p > 0 && q == a / (m * p)
  {
    DivUnique(a, m * p, q, r * m + s);
  }
}
