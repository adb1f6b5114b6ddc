/** Numbers as requests and replies carry them. */
module Wire {
  type Card32 = x: nat | x < 0x1_0000_0000
}
