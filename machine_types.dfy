/**
 * Fixed-width integers of the kernel's C code, written as bounded subsets of `int`,
 * and an Option type for lookups that may find nothing.
 */
module MachineTypes {

  const U32_MODULUS: int := 0x1_0000_0000
  const U64_MODULUS: int := 0x1_0000_0000_0000_0000

  /** C `unsigned int` (32 bits on the driver's ARM target). */
  type u32 = x: int | 0 <= x < U32_MODULUS

  /** C `u64`, the value type of a simple debugfs attribute. */
  type u64 = x: int | 0 <= x < U64_MODULUS

  /** C `int` (32 bits). */
  type i32 = x: int | -0x8000_0000 <= x < 0x8000_0000

  /** Largest `u64`: what a write of -1 to a debugfs attribute delivers. */
  const U64_MAX: u64 := U64_MODULUS - 1

  /** The value a C conversion to a 32-bit unsigned type produces: reduction modulo 2^32. */
  function ToU32(x: int): (r: u32)
    ensures 0 <= x < U32_MODULUS ==> r == x
    ensures (r - x) % U32_MODULUS == 0
  {
    x % U32_MODULUS
  }

  datatype Option<T> = None | Some(value: T)

  /** Kernel error numbers returned by the file operations. */
  const ENOMEM: int := 12
  const ENODEV: int := 19
}
