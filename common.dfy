/** Shared vocabulary: unsigned 32-bit arithmetic, optional values and extents. */
module Common {
  /** 2^32, the modulus of C++ `uint32_t` arithmetic. */
  const U32_LIMIT: int := 0x1_0000_0000
  /** `UINT32_MAX`, also Vulkan's `VK_QUEUE_FAMILY_IGNORED` and the "unbound" marker. */
  const U32_MAX: int := 0xFFFF_FFFF

  type u32 = x: int | 0 <= x < 0x1_0000_0000

  /** `uint32_t` subtraction: wraps modulo 2^32. */
  function Sub32(a: u32, b: u32): (r: u32)
    ensures b <= a ==> r == a - b
    ensures a < b ==> r == a - b + U32_LIMIT
  {
    if b <= a then a - b else a - b + U32_LIMIT
  }

  /** `uint32_t` addition: wraps modulo 2^32. */
  function Add32(a: u32, b: u32): (r: u32)
    ensures a + b < U32_LIMIT ==> r == a + b
    ensures U32_LIMIT <= a + b ==> r == a + b - U32_LIMIT
  {
    if a + b < U32_LIMIT then a + b else a + b - U32_LIMIT
  }

  datatype Option<T> = None | Some(value: T)

  /** `vk::Extent2D`. */
  datatype Extent2D = Extent2D(width: u32, height: u32)
}
