/** The range of the source's 64-bit signed integers. */
module Int64 {
  const MAX_INT64: int := 0x7fff_ffff_ffff_ffff

  predicate Representable(n: int) { -MAX_INT64 - 1 <= n <= MAX_INT64 }
}
