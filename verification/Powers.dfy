/** Powers of four and the arithmetic of the skip distances. */
module Powers {
  function Pow4(k: nat): (r: nat)
    ensures r >= 1
  {
    if k == 0 then 1 else 4 * Pow4(k - 1)
  }

  lemma {:induction false} Pow4Increases(j: nat, k: nat)
    requires j < k
    ensures Pow4(j) < Pow4(k)
  {
    if j + 1 < k {
      Pow4Increases(j, k - 1);
    }
  }

  /** Four times a divisor divides only what the divisor divides. */
  lemma DividesDown(c: nat, p: nat)
    requires p >= 1 && c % (4 * p) == 0
    ensures c % p == 0
  {
    var q := c / (4 * p);
    assert c == (4 * p) * q;
    assert c == p * (4 * q);
    ModOfMultiple(p, 4 * q);
  }

  lemma ModOfMultiple(p: nat, q: nat)
    requires p >= 1
    ensures (p * q) % p == 0
    ensures (p * q) / p == q
  {
    DivModUnique(p * q, p, q, 0);
  }

  /** Quotient and remainder are unique. */
  lemma DivModUnique(c: nat, p: nat, q: nat, r: nat)
    requires p >= 1 && c == p * q + r && r < p
    ensures c / p == q && c % p == r
  {
    var q', r' := c / p, c % p;
    assert c == p * q' + r';
    if q' < q {
      MulGap(p, q', q);
    } else if q < q' {
      MulGap(p, q, q');
    }
  }

  lemma MulGap(p: nat, a: nat, b: nat)
    requires a < b
    ensures p * a + p <= p * b
  {
    var n := b - a;
    assert p * b == p * a + p * n;
    assert p * n == p + p * (n - 1);
  }

  /** Multiples, by repeated subtraction. */
  ghost predicate Multiple(c: nat, p: nat)
    requires p >= 1
  {
    c == 0 || (c >= p && Multiple(c - p, p))
  }

  lemma {:induction false} MultipleIsMod(c: nat, p: nat)
    requires p >= 1
    ensures Multiple(c, p) <==> c % p == 0
  {
    if c >= p {
      MultipleIsMod(c - p, p);
      var q, r := (c - p) / p, (c - p) % p;
      assert c == p * (q + 1) + r;
      DivModUnique(c, p, q + 1, r);
    } else {
      DivModUnique(c, p, 0, c);
    }
  }

  lemma {:induction false} MultipleOfOne(c: nat)
    ensures Multiple(c, 1)
  {
    if c > 0 {
      MultipleOfOne(c - 1);
    }
  }
}
