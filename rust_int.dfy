/**
 * Rust's integer operators where they differ from Dafny's: `/` on `i32`
 * truncates toward zero (Dafny's `/` is Euclidean), and `min`/`max`.
 */
module RustInt {
  function Abs(a: int): (r: nat)
    ensures r == a || r == -a
  {
    if a < 0 then -a else a
  }

  /** `a / b` on signed integers: the quotient rounded toward zero, so the
      remainder `a - q*b` has the sign of `a` and is smaller than `|b|`. */
  function Div(a: int, b: int): (q: int)
    requires b != 0
    ensures 0 <= a ==> 0 <= a - q * b < Abs(b)
    ensures a < 0 ==> -(Abs(b) as int) < a - q * b <= 0
  {
    var d := Abs(b);
    var n := Abs(a) / d;
    var q := if (a < 0) != (b < 0) then -n else n;
    var m := n * d;
    assert 0 <= Abs(a) - m < d by { EuclidOnNat(Abs(a), d); }
    assert q * b == (if a < 0 then -m else m) by { SignedProduct(q, b, n, d, (a < 0) != (b < 0)); }
    q
  }

  lemma EuclidOnNat(x: nat, d: nat)
    requires 0 < d
    ensures 0 <= x - (x / d) * d < d
  {
  }

  lemma SignedProduct(q: int, b: int, n: int, d: int, flip: bool)
    requires d == Abs(b) && q == (if flip then -n else n)
    ensures q * b == (if flip == (b < 0) then n * d else -(n * d))
  {
    if b < 0 {
      assert b == -d;
      if flip { assert q * b == (-n) * (-d) == n * d; } else { assert q * b == n * (-d) == -(n * d); }
    } else {
      assert b == d;
      if flip { assert q * b == (-n) * d == -(n * d); }
    }
  }

  function Min(a: int, b: int): (m: int)
    ensures m <= a && m <= b && (m == a || m == b)
  {
    if a <= b then a else b
  }

  function Max(a: int, b: int): (m: int)
    ensures a <= m && b <= m && (m == a || m == b)
  {
    if a >= b then a else b
  }
}
