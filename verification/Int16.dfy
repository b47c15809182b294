/** 16-bit signed integers, the width of the PLC's INT variables. */
module Int16 {

  /** The value of `n` converted to int16_t. */
  function ToInt16(n: int): (r: int)
    ensures -32768 <= r < 32768
    ensures r == n <==> -32768 <= n < 32768
  {
    (n + 32768) % 65536 - 32768
  }

  /** Incrementing an int16_t goes on counting modulo 2^16. */
  lemma NextInt16(n: int)
    ensures ToInt16(ToInt16(n) + 1) == ToInt16(n + 1)
  {
  }
}
