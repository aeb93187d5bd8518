/** C's division of naturals as repeated subtraction, which the solver can follow for any
    divisor. */
module Arith {
  function Quot(v: nat, b: nat): (q: nat)
    requires b >= 1
    ensures (b >= 2 && v > 0 ==> q < v) && (q == 0 <==> v < b)
  {
    if v < b then 0 else 1 + Quot(v - b, b)
  }

  function Rem(v: nat, b: nat): (r: nat)
    requires b >= 1
    ensures r < b
  {
    if v < b then v else Rem(v - b, b)
  }

  lemma {:induction false} QuotRem(v: nat, b: nat)
    requires b >= 1
    ensures v == b * Quot(v, b) + Rem(v, b)
  {
    if v >= b {
      QuotRem(v - b, b);
      assert b * (1 + Quot(v - b, b)) == b + b * Quot(v - b, b);
    }
  }

  lemma MulMono(n: nat, a: int, b: int)
    requires a <= b
    ensures n * a <= n * b
  {
  }

  lemma DivUnique(a: int, n: nat, q: int, r: nat)
    requires a == n * q + r && r < n
    ensures a / n == q && a % n == r
  {
    var q', r' := a / n, a % n;
    assert a == n * q' + r';
    if q' < q {
      MulMono(n, q' + 1, q);
    }
    if q < q' {
      MulMono(n, q + 1, q');
    }
  }

  /** The operators `/` and `%` of C, which round towards zero. */
  method Divide(v: int, b: nat) returns (q: int, r: int)
    requires b >= 1
    ensures v >= 0 ==> q == Quot(v, b) && r == Rem(v, b)
    ensures v < 0 ==> -q == Quot(-v, b) && -r == Rem(-v, b)
  {
    var n: nat := if v < 0 then -v else v;
    QuotRem(n, b);
    DivUnique(n, b, Quot(n, b), Rem(n, b));
    q, r := if v < 0 then -(n / b) else n / b, if v < 0 then -(n % b) else n % b;
  }
}
