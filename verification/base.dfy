/** Building blocks shared by every module: optional values, results, and the
    fixed-width unsigned integers of the DNS and VM wire formats. */
module Base {

  datatype Option<+T> = None | Some(value: T)

  /** A value or an error. */
  datatype Result<+T, +E> = Ok(value: T) | Err(error: E)

  type byte = b: int | 0 <= b < 0x100
  type uint16 = n: int | 0 <= n < 0x1_0000
  type uint32 = n: int | 0 <= n < 0x1_0000_0000

  const MaxUint32: int := 0xFFFF_FFFF
}
