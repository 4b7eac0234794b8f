/** Whole numbers. */
module Numbers {

  function Min(a: int, b: int): int {
    if a < b then a else b
  }

  function Max(a: int, b: int): int {
    if a < b then b else a
  }

  function Magnitude(n: int): nat {
    if n < 0 then -n else n
  }
}
