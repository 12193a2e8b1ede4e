/** Division and remainder. */
module Arithmetic {

  lemma SmallModulus(x: nat, m: nat)
    requires x < m
    ensures x % m == x
  {
  }

  lemma OneTurn(x: nat, m: nat)
    requires x < m
    ensures (x + m) % m == x
  {
    var q, r := (x + m) / m, (x + m) % m;
    assert x + m == m * q + r;
    assert q >= 2 ==> m * q >= m * 2;
    assert q <= 0 ==> m * q <= 0;
  }

  lemma DivMod(w: nat, b: nat, q: nat)
    requires b > 0 && w < q * b
    ensures w / b < q && w == (w / b) * b + w % b
  {
    var d := w / b;
    assert d >= q ==> d * b >= q * b;
  }

  lemma DivModBack(h: nat, l: nat, b: nat)
    requires l < b
    ensures (h * b + l) / b == h && (h * b + l) % b == l
  {
    var x := h * b + l;
    var q, r := x / b, x % b;
    assert x == q * b + r;
    assert q > h ==> q * b >= (h + 1) * b;
    assert q < h ==> (q + 1) * b <= h * b;
  }
}
