/** Machine words. */
module Words {

  type Byte = b: nat | b < 256

  const U32_MAX: nat := 0xFFFF_FFFF

  const U64_MAX: nat := 0xFFFF_FFFF_FFFF_FFFF

  type U32 = n: nat | n <= 0xFFFF_FFFF
}
