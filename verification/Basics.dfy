/** Types that several parts of the model share. */
module Basics {
  datatype Option<+T> = None | Some(value: T)

  type Byte = x: int | 0 <= x < 256
  type U16 = x: int | 0 <= x < 0x1_0000
  type U32 = x: int | 0 <= x < 0x1_0000_0000
  type Bytes = seq<Byte>

  /** Two bytes as a number, in network byte order. */
  function Be16(hi: Byte, lo: Byte): U16 { hi * 256 + lo }
}
