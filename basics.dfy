/** Shared vocabulary: bytes (std::string is a byte string), options, C++ int. */
module Basics {

  newtype byte = b: int | 0 <= b < 256

  /** A std::string: a sequence of bytes (UTF-8 where the text is Cyrillic). */
  type Bytes = seq<byte>

  /** A C++ `int`. */
  newtype int32 = x: int | -0x8000_0000 <= x < 0x8000_0000

  datatype Option<T> = None | Some(value: T)

  // ASCII bytes used by the importer.
  const Tab: byte := 0x09
  const LineFeed: byte := 0x0A
  const CarriageReturn: byte := 0x0D
  const Space: byte := 0x20
  const Quote: byte := 0x22
  const Plus: byte := 0x2B
  const Comma: byte := 0x2C
  const Minus: byte := 0x2D
  const Dot: byte := 0x2E
  const Equals: byte := 0x3D

  predicate IsDigit(b: byte) {
    0x30 <= b <= 0x39
  }

  function DigitValue(b: byte): (v: nat)
    requires IsDigit(b)
    ensures v < 10
  {
    (b - 0x30) as nat
  }

  /** "income" */
  const Income: Bytes := [0x69, 0x6E, 0x63, 0x6F, 0x6D, 0x65]
  /** "expense" */
  const Expense: Bytes := [0x65, 0x78, 0x70, 0x65, 0x6E, 0x73, 0x65]
}
