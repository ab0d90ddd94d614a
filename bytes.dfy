/** Go strings and `[]byte` values are byte sequences; `len` counts bytes. */
module Bytes {

  newtype byte = b: int | 0 <= b < 256

  /** The byte for `.` */
  const Dot: byte := 46

  /** Go's `\d`: ASCII `0`-`9` only. */
  predicate IsDigit(b: byte) {
    48 <= b <= 57
  }
}
