/** The unsigned integer widths of the run-time counters. */
module MachineInts {
  const U8_MAX := 0xFF
  const U32_MAX := 0xFFFF_FFFF
  const U64_MAX := 0xFFFF_FFFF_FFFF_FFFF
  const I64_MAX := 0x7FFF_FFFF_FFFF_FFFF
  const I64_MIN := -0x8000_0000_0000_0000

  type u8 = n: nat | n <= U8_MAX
  type u32 = n: nat | n <= U32_MAX
  type u64 = n: nat | n <= U64_MAX

  /** Wrapping addition on a counter whose largest value is `top`. */
  function WrapAdd(a: nat, b: nat, top: nat): (r: nat)
    ensures r <= top
    ensures a + b <= top ==> r == a + b
  {
    (a + b) % (top + 1)
  }

  function SaturatingAdd(a: nat, b: nat, top: nat): nat {
    if a + b > top then top else a + b
  }

  function SaturatingSub(a: nat, b: nat): (r: nat)
    ensures r == 0 || r + b == a
    ensures b <= a ==> r + b == a
  {
    if b > a then 0 else a - b
  }
}
