/** Amounts of money as exact reals and whole cents. */
module Money {

  function Abs(x: real): real {
    if x < 0.0 then -x else x
  }

  function Max(a: real, b: real): real {
    if a < b then b else a
  }

  /** To whole cents, a half away from zero, without the sign. */
  function UnsignedHalfUp(x: real): (cents: nat)
    ensures -0.5 <= cents as real - Abs(x) * 100.0 <= 0.5
  {
    (Abs(x) * 100.0 + 0.5).Floor
  }

  /** To whole cents, a half to the even neighbour. */
  function HalfEven(x: real): (cents: int)
    ensures -0.5 <= cents as real - x * 100.0 <= 0.5
    ensures WholeCents(x) ==> cents as real == x * 100.0
  {
    var floor := (x * 100.0).Floor;
    var rest := x * 100.0 - floor as real;
    if rest < 0.5 || (rest == 0.5 && floor % 2 == 0) then floor else floor + 1
  }

  /** `round(x, 2)`. */
  function Round2(x: real): (y: real)
    ensures WholeCents(x) ==> y == x
  {
    HalfEven(x) as real / 100.0
  }

  predicate WholeCents(x: real) {
    (x * 100.0).Floor as real == x * 100.0
  }
}
