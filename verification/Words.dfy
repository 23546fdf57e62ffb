/** The unsigned integers of the machine. */
module Words {
  const WORD_RANGE := 0x1_0000_0000

  type Byte = x: nat | x < 0x100
  type Word = x: nat | x < WORD_RANGE
}
