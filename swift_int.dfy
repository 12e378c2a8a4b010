/** Swift's `Int`, 64 bits wide on the platforms the source targets. Its
    arithmetic traps on overflow, so an operation that would leave this
    range is one the source does not complete. */
module SwiftInt {

  const IntMin: int := -0x8000_0000_0000_0000
  const IntMax: int := 0x7fff_ffff_ffff_ffff

  /** A value Swift's 64-bit `Int` can hold. */
  predicate IsInt(x: int)
  {
    IntMin <= x <= IntMax
  }
}
