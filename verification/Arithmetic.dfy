/** The smaller, the larger, and one or none. */
module Arithmetic {

  function Min(a: int, b: int): (m: int)
    ensures m <= a && m <= b && (m == a || m == b)
  {
    if a <= b then a else b
  }

  function Max(a: int, b: int): (m: int)
    ensures m >= a && m >= b && (m == a || m == b)
  {
    if a >= b then a else b
  }

  function One(b: bool): (n: nat)
    ensures n == 1 <==> b
    ensures n == 0 <==> !b
  {
    if b then 1 else 0
  }
}
