/**
 * `checked_cast`: a narrowing conversion between unsigned integer types
 * that asserts the value fits the target type before casting.
 */
module CheckedCast {
  /** The unsigned types the cast is instantiated with; signed types are refused at compile time. */
  datatype UnsignedType = U8 | U16 | U32 | U64

  /** `sizeof` in bytes. */
  function Size(t: UnsignedType): nat
  {
    match t
    case U8 => 1
    case U16 => 2
    case U32 => 4
    case U64 => 8
  }

  /** 256 to the power `n`: the number of values `n` bytes can hold. */
  function Pow256(n: nat): nat
  {
    if n == 0 then 1 else 256 * Pow256(n - 1)
  }

  /** `std::numeric_limits<T>::max()`: every bit of the type's `sizeof` bytes set. */
  function MaxOf(t: UnsignedType): (m: nat)
    ensures m + 1 == Pow256(Size(t))
  {
    match t
    case U8 => 0xFF
    case U16 => assert Pow256(2) == 256 * Pow256(1); 0xFFFF
    case U32 => assert Pow256(4) == 256 * 256 * Pow256(2); 0xFFFF_FFFF
    case U64 => assert Pow256(8) == 256 * 256 * 256 * 256 * Pow256(4); 0xFFFF_FFFF_FFFF_FFFF
  }

  /** A larger `sizeof` always means a larger range. */
  lemma MaxOfMonotone(a: UnsignedType, b: UnsignedType)
    requires Size(a) <= Size(b)
    ensures MaxOf(a) <= MaxOf(b)
  {
    match a
    case U8 =>
    case U16 =>
    case U32 =>
    case U64 => assert b == U64;
  }

  /** `static_cast` to an unsigned type: reduction modulo 2^bits, lossless exactly on the target's range. */
  function StaticCast(target: UnsignedType, value: nat): (r: nat)
    ensures r <= MaxOf(target)
    ensures r == value <==> value <= MaxOf(target)
  {
    value % (MaxOf(target) + 1)
  }

  /** What a call produces: the converted value, or the failed `assert` of a debug build. */
  datatype CastResult = Cast(value: nat) | AssertFailed

  /**
   * `checked_cast<Target, Source>(value)`. The two `static_assert`s (the
   * target no wider than the source; both unsigned) are compile-time
   * demands on the caller, and the value is one of the source type. The
   * run-time `assert` exists only in a debug build (`debug`); a release
   * build (`NDEBUG`) returns the truncating `static_cast` whatever the
   * value.
   */
  function CheckedCast(target: UnsignedType, source: UnsignedType, value: nat, debug: bool): (r: CastResult)
    requires Size(target) <= Size(source)
    requires value <= MaxOf(source)
    ensures debug ==> (r.Cast? <==> value <= MaxOf(target))
    ensures debug && r.Cast? ==> r.value == value
    ensures !debug ==> r == Cast(StaticCast(target, value))
  {
    if debug && value > MaxOf(target) then AssertFailed else Cast(StaticCast(target, value))
  }

  /**
   * Widening the result back to the source type gives the original value:
   * a successful `checked_cast` of a debug build never loses information,
   * and the same-type cast always succeeds unchanged in either build.
   */
  lemma CheckedCastRoundTrip(target: UnsignedType, source: UnsignedType, value: nat)
    requires Size(target) <= Size(source)
    requires value <= MaxOf(source)
    ensures CheckedCast(target, source, value, true).Cast? ==>
      StaticCast(source, CheckedCast(target, source, value, true).value) == value
    ensures CheckedCast(source, source, value, true) == Cast(value)
    ensures CheckedCast(source, source, value, false) == Cast(value)
  {
    MaxOfMonotone(target, source);
  }

  /**
   * A release build agrees with a debug build wherever the debug build
   * succeeds, and silently truncates where it would fail: 256 cast from
   * `uint16_t` to `uint8_t` becomes 0.
   */
  lemma ReleaseCastTruncates(target: UnsignedType, source: UnsignedType, value: nat)
    requires Size(target) <= Size(source)
    requires value <= MaxOf(source)
    ensures CheckedCast(target, source, value, true).Cast? ==>
      CheckedCast(target, source, value, false) == CheckedCast(target, source, value, true)
    ensures CheckedCast(U8, U16, 256, false) == Cast(0) && CheckedCast(U8, U16, 256, true) == AssertFailed
  {
  }
}
