/** The widths the stored structures keep to. */
module MachineWords {
  const U64_MAX: nat := 0xFFFF_FFFF_FFFF_FFFF

  /** The link that names no node: the last 32-bit index. */
  const NIL: nat := 0xFFFF_FFFF
}
