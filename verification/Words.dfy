/** The sizes of machine words. */
module Words {
  const TWO_32 := 0x1_0000_0000
  const TWO_64 := 0x1_0000_0000_0000_0000
}
