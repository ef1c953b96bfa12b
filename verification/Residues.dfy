/** How residues count up and wrap around. */
module Residues {
  lemma NextMultiple(t: nat, a: nat, b: nat)
    requires a < b
    ensures t * a + t <= t * b
  {
    assert t * b == t * a + t * (b - a);
    assert t * (b - a) == t + t * (b - a - 1);
  }

  lemma QuotientIs(t: nat, q: nat, r: nat, q': nat, r': nat)
    requires r < t && r' < t && t * q + r == t * q' + r'
    ensures r == r'
  {
    if q < q' {
      NextMultiple(t, q, q');
    } else if q' < q {
      NextMultiple(t, q', q);
    }
  }

  lemma ModuloIs(n: nat, t: nat, q: nat, r: nat)
    requires t >= 1 && r < t && n == t * q + r
    ensures n % t == r
  {
    QuotientIs(t, q, r, n / t, n % t);
  }

  lemma SuccessorModulo(n: nat, t: nat)
    requires t >= 1
    ensures (n + 1) % t == if n % t + 1 >= t then 0 else n % t + 1
  {
    var q, r := n / t, n % t;
    assert n == t * q + r;
    if r + 1 >= t {
      assert n + 1 == t * (q + 1);
      ModuloIs(n + 1, t, q + 1, 0);
    } else {
      ModuloIs(n + 1, t, q, r + 1);
    }
  }
}
