/** Powers of two that machine words stop at. */
module Words {
  const TWO_30: nat := 0x4000_0000
  const TWO_31: nat := 0x8000_0000
  const TWO_32: nat := 0x1_0000_0000
  const TWO_53: nat := 0x20_0000_0000_0000
  const TWO_60: nat := 0x1000_0000_0000_0000
  const TWO_64: nat := 0x1_0000_0000_0000_0000
}
