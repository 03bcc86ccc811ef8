/**
 * Shared vocabulary of the firmware model: optional values, fixed-width
 * integer bounds, the errno numbers the C code returns and the wrapping
 * millisecond tick arithmetic every timeout uses.
 */
module Common {

  datatype Option<T> = None | Some(value: T)

  /** An 8-bit unsigned value (uint8_t, a byte moved over USB or I2C). */
  newtype byte = x: int | 0 <= x < 0x100

  const U8_MAX: nat := 0xFF
  const U16_MAX: nat := 0xFFFF
  const U32_MOD: nat := 0x1_0000_0000
  const U32_MAX: nat := 0xFFFF_FFFF

  predicate IsU8(x: int) { 0 <= x <= U8_MAX }
  predicate IsU16(x: int) { 0 <= x <= U16_MAX }
  predicate IsU32(x: int) { 0 <= x <= U32_MAX }

  /** Assignment of an int expression to a uint16_t: keeps the low 16 bits. */
  function TruncU16(x: int): (r: nat)
    ensures r <= U16_MAX
    ensures 0 <= x <= U16_MAX ==> r == x
  {
    x % 0x1_0000
  }

  /** Assignment of an int expression to a uint32_t: keeps the low 32 bits. */
  function TruncU32(x: int): (r: nat)
    ensures r <= U32_MAX
    ensures 0 <= x <= U32_MAX ==> r == x
  {
    x % U32_MOD
  }

  /**
   * `hwtick_get() - start` on uint32_t ticks: the millisecond counter wraps,
   * and the unsigned subtraction still yields the time elapsed since `start`.
   */
  function Elapsed(now: nat, start: nat): (r: nat)
    requires IsU32(now) && IsU32(start)
    ensures r <= U32_MAX
    ensures start <= now ==> r == now - start
    ensures now < start ==> r == U32_MOD - start + now
  {
    (now - start) % U32_MOD
  }

  /** A value of the wrapping 32-bit millisecond tick. */
  type Tick = x: nat | x <= U32_MAX

  // errno numbers as defined by the newlib C library of the RX GCC toolchain.
  const EIO: int := 5
  const EACCES: int := 13
  const EFAULT: int := 14
  const EBUSY: int := 16
  const EINVAL: int := 22
  const ENODATA: int := 61
  const ETIMEDOUT: int := 116
  const ENOTSUP: int := 134
  const EOVERFLOW: int := 139

  function Min(a: int, b: int): (r: int)
    ensures r <= a && r <= b && (r == a || r == b)
  {
    if a < b then a else b
  }
}
