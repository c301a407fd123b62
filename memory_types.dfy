/**
 * Selection of a device memory type for an allocation: the first memory
 * type that the resource's type-bit mask allows and whose property flags
 * contain every requested property.
 */
module MemoryTypes {
  import opened Common

  datatype MemoryProperty =
    | DeviceLocal | HostVisible | HostCoherent | HostCached | LazilyAllocated | Protected

  /** `vk::MemoryPropertyFlags`, as the set of flags that are raised. */
  type PropertyFlags = set<MemoryProperty>

  /** `VK_MAX_MEMORY_TYPES`: a device reports at most this many memory types. */
  const MAX_MEMORY_TYPES: nat := 32

  /** `t >> i` on an unsigned integer: `i` halvings. */
  function ShiftRight(t: nat, i: nat): nat
  {
    if i == 0 then t else ShiftRight(t / 2, i - 1)
  }

  /** One more shift of `t >> i` is `t >> (i + 1)`. */
  lemma {:induction false} ShiftRightStep(t: nat, i: nat)
    ensures ShiftRight(t, i) / 2 == ShiftRight(t, i + 1)
    decreases i
  {
    if i > 0 {
      ShiftRightStep(t / 2, i - 1);
    }
  }

  /** Whether bit `i` of the type-bit mask is raised. */
  predicate TypeBit(typeBits: u32, i: nat)
  {
    ShiftRight(typeBits, i) % 2 == 1
  }

  /** Whether memory type `i` may back the resource and offers every property of `mask`. */
  predicate Suitable(typeBits: u32, types: seq<PropertyFlags>, mask: PropertyFlags, i: nat)
    requires |types| <= MAX_MEMORY_TYPES
  {
    i < |types| && TypeBit(typeBits, i) && mask <= types[i]
  }

  /** First suitable memory type at index `from` or later. */
  function FirstSuitableFrom(typeBits: u32, types: seq<PropertyFlags>, mask: PropertyFlags, from: nat): (r: Option<nat>)
    requires |types| <= MAX_MEMORY_TYPES && from <= |types|
    ensures r.Some? ==> from <= r.value && Suitable(typeBits, types, mask, r.value)
    ensures r.Some? ==> forall j :: from <= j < r.value ==> !Suitable(typeBits, types, mask, j)
    ensures r.None? ==> forall j :: from <= j < |types| ==> !Suitable(typeBits, types, mask, j)
    decreases |types| - from
  {
    if from == |types| then None
    else if Suitable(typeBits, types, mask, from) then Some(from)
    else FirstSuitableFrom(typeBits, types, mask, from + 1)
  }

  /**
   * The memory type an allocation should use: the lowest suitable index, or
   * None when no memory type is suitable.
   */
  function FindMemoryType(typeBits: u32, types: seq<PropertyFlags>, mask: PropertyFlags): (r: Option<nat>)
    requires |types| <= MAX_MEMORY_TYPES
    ensures r.Some? <==> exists j :: 0 <= j < |types| && Suitable(typeBits, types, mask, j)
    ensures r.Some? ==> Suitable(typeBits, types, mask, r.value)
    ensures r.Some? ==> forall j :: 0 <= j < r.value ==> !Suitable(typeBits, types, mask, j)
  {
    FirstSuitableFrom(typeBits, types, mask, 0)
  }

  /**
   * `GetMemoryType` as the engine writes it: walks the memory types while
   * shifting the type-bit mask right, and returns the first index that fits;
   * when nothing fits it returns `false`, converted to index 0.
   */
  method GetMemoryType(typeBits: u32, types: seq<PropertyFlags>, mask: PropertyFlags) returns (index: u32)
    requires |types| <= MAX_MEMORY_TYPES
    ensures (exists j :: 0 <= j < |types| && Suitable(typeBits, types, mask, j)) ==>
      Suitable(typeBits, types, mask, index) && forall j :: 0 <= j < index ==> !Suitable(typeBits, types, mask, j)
    ensures (forall j :: 0 <= j < |types| ==> !Suitable(typeBits, types, mask, j)) ==> index == 0
  {
    var bits: nat := typeBits;
    var i := 0;
    while i < |types|
      invariant 0 <= i <= |types|
      invariant bits == ShiftRight(typeBits, i)
      invariant forall j :: 0 <= j < i ==> !Suitable(typeBits, types, mask, j)
    {
      if bits % 2 == 1 && mask <= types[i] {
        return i;
      }
      ShiftRightStep(typeBits, i);
      bits := bits / 2;
      i := i + 1;
    }
    return 0;
  }

  /** What `GetMemoryType` returns, as a function of its inputs. */
  function MemoryTypeIndex(typeBits: u32, types: seq<PropertyFlags>, mask: PropertyFlags): (r: nat)
    requires |types| <= MAX_MEMORY_TYPES
    ensures FindMemoryType(typeBits, types, mask).Some? ==> r == FindMemoryType(typeBits, types, mask).value
    ensures FindMemoryType(typeBits, types, mask).None? ==> r == 0
  {
    match FindMemoryType(typeBits, types, mask)
    case Some(i) => i
    case None => 0
  }

  /**
   * The failure result of `GetMemoryType` is indistinguishable from a real
   * match on memory type 0: a resource that no memory type can back gets the
   * same index as one that memory type 0 backs.
   */
  lemma NoMatchAliasesTypeZero()
    ensures FindMemoryType(0, [{DeviceLocal}], {DeviceLocal}).None?
    ensures FindMemoryType(1, [{DeviceLocal}], {DeviceLocal}) == Some(0)
    ensures MemoryTypeIndex(0, [{DeviceLocal}], {DeviceLocal}) == MemoryTypeIndex(1, [{DeviceLocal}], {DeviceLocal}) == 0
  {
    assert Suitable(1, [{DeviceLocal}], {DeviceLocal}, 0);
    assert !Suitable(0, [{DeviceLocal}], {DeviceLocal}, 0);
  }
}
