/** Datatypes and helpers shared by every component. */
module Common {

  datatype Option<+T> = None | Some(value: T)

  /** What becomes of a command sent to a server: a lost reply means it was executed all the same. */
  datatype Fate = Delivered | RequestLost | ReplyLost

  /** Go's int is 64 bits wide on the platforms the stores run on. */
  const MAX_INT64: int := 0x7FFF_FFFF_FFFF_FFFF
  const MIN_INT64: int := -0x8000_0000_0000_0000
  const TWO_TO_THE_64: int := 0x1_0000_0000_0000_0000
  const TWO_TO_THE_32: int := 0x1_0000_0000

  /** Two's-complement truncation to 64 bits. */
  function Wrap64(x: int): (r: int)
    ensures MIN_INT64 <= r <= MAX_INT64
    ensures MIN_INT64 <= x <= MAX_INT64 ==> r == x
    ensures (x - r) % TWO_TO_THE_64 == 0
  {
    (x + 0x8000_0000_0000_0000) % TWO_TO_THE_64 - 0x8000_0000_0000_0000
  }

  /** Two's-complement truncation to 32 bits: Go's int32 conversion and Java's int counter. */
  function Wrap32(x: int): (r: int)
    ensures -0x8000_0000 <= r <= 0x7FFF_FFFF
    ensures -0x8000_0000 <= x <= 0x7FFF_FFFF ==> r == x
    ensures (x - r) % TWO_TO_THE_32 == 0
  {
    (x + 0x8000_0000) % TWO_TO_THE_32 - 0x8000_0000
  }
}
