/** Integer helpers shared by the paging code. */
module Arith {

  function Min(a: int, b: int): (r: int)
    ensures r <= a && r <= b && (r == a || r == b)
  {
    if a <= b then a else b
  }

  function Max(a: int, b: int): (r: int)
    ensures r >= a && r >= b && (r == a || r == b)
  {
    if a >= b then a else b
  }

  /** `Math.ceil(n / d)` for a positive divisor, as the number of blocks of `d` needed to cover `n`. */
  function CeilDiv(n: int, d: int): (c: nat)
    requires d >= 1
    decreases n
  {
    if n <= 0 then 0 else 1 + CeilDiv(n - d, d)
  }

  /** The defining bounds of the ceiling: the smallest `c` with `n <= c * d`. */
  lemma {:induction false} CeilDivBounds(n: int, d: int)
    requires d >= 1
    ensures n <= CeilDiv(n, d) * d
    ensures n > 0 ==> (CeilDiv(n, d) - 1) * d < n
    ensures n > 0 ==> CeilDiv(n, d) >= 1
    decreases n
  {
    if n > 0 {
      var c := CeilDiv(n - d, d);
      CeilDivBounds(n - d, d);
      assert CeilDiv(n, d) * d == c * d + d;
      assert (CeilDiv(n, d) - 1) * d == c * d;
    }
  }
}
