/** The widths of the source's unsigned integers; `usize` is 64 bits wide. */
module Words {
  const U32_MAX: nat := 0xFFFF_FFFF
  const USIZE_MAX: nat := 0xFFFF_FFFF_FFFF_FFFF
}
