/**
  What the C code of every modelled file shares: the byte that ends a string, and division.
*/
module CLang {

  const NUL := '\0'

  // C's division rounds towards zero.
  function TruncDiv(a: int, b: int): int
    requires b != 0
  {
    if a >= 0 then a / b else -(-a / b)
  }
}
