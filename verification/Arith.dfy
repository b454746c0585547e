/** Facts about products and quotients that the solver does not find on its own. */
module Arith {

  function Max(a: int, b: int): int { if a < b then b else a }

  lemma MulMono(a: int, b: int, c: int)
    requires a <= b && c >= 0
    ensures a * c <= b * c
  {
    assert b * c - a * c == (b - a) * c;
  }

  /** c goes into a exactly q times when a lies between q * c and its successor. */
  lemma DivUnique(a: int, c: int, q: int)
    requires c >= 1 && q * c <= a < q * c + c
    ensures a / c == q && a % c == a - q * c
  {
    var d := q - a / c;
    assert a == a / c * c + a % c;
    assert d * c == q * c - a / c * c;
    if d >= 1 { MulMono(1, d, c); }
    if d <= -1 { MulMono(d, -1, c); }
  }

  lemma DivExact(q: int, c: int, x: int)
    requires c >= 1 && x == q * c
    ensures x / c == q && x % c == 0
  {
    DivUnique(x, c, q);
  }

  lemma DivBounds(a: int, c: int)
    requires c >= 1
    ensures a / c * c <= a < a / c * c + c
    ensures a >= 0 ==> a / c >= 0
  {
    assert a == a / c * c + a % c;
  }

  lemma DivMono(a: int, b: int, c: int)
    requires c >= 1 && a <= b
    ensures a / c <= b / c
  {
    DivBounds(a, c);
    DivBounds(b, c);
    var d := b / c - a / c;
    assert d * c == b / c * c - a / c * c;
    if d <= -1 { MulMono(d, -1, c); }
  }

  /** A quotient is at most q when the dividend is below q + 1 times the divisor. */
  lemma DivAtMost(a: int, c: int, q: int)
    requires c >= 1 && a < (q + 1) * c
    ensures a / c <= q
  {
    DivBounds(a, c);
    var d := a / c - q;
    assert (d - 1) * c == a / c * c - (q + 1) * c;
    if d >= 1 { MulMono(0, d - 1, c); }
  }

  lemma MulOrder(a: int, b: int, c: int)
    requires c >= 1
    ensures a * c <= b * c <==> a <= b
    ensures a * c < b * c <==> a < b
  {
    if a <= b { MulMono(a, b, c); }
    if a > b { MulMono(b + 1, a, c); }
    if a < b { MulMono(a + 1, b, c); }
  }
}
