/**
 * Swapchain parameter choice and the small list/set helpers used while
 * creating the instance and picking a device: extent clamping, image count,
 * sharing mode, surface format, device-extension support and duplicate-free
 * appends.
 */
module Swapchain {
  import opened Common

  /** The fields of `vk::SurfaceCapabilitiesKHR` that the engine reads. */
  datatype SurfaceCapabilities = SurfaceCapabilities(
    minImageCount: u32,
    maxImageCount: u32,
    currentExtent: Extent2D,
    minImageExtent: Extent2D,
    maxImageExtent: Extent2D)

  /** The extent `ChooseSwapExtent` falls back to when the surface leaves it open. */
  const FALLBACK_EXTENT: Extent2D := Extent2D(1440, 1600)

  /** `std::max(lo, std::min(hi, v))`. */
  function Clamp(lo: u32, hi: u32, v: u32): (r: u32)
    ensures lo <= r
    ensures r == lo || r == hi || r == v
    ensures lo <= hi ==> r <= hi
    ensures lo <= v <= hi ==> r == v
    ensures v < lo ==> r == lo
    ensures lo <= hi < v ==> r == hi
  {
    var m := if hi < v then hi else v;
    if lo < m then m else lo
  }

  /** Clamping twice into the same non-empty range is clamping once. */
  lemma ClampIdempotent(lo: u32, hi: u32, v: u32)
    requires lo <= hi
    ensures Clamp(lo, hi, Clamp(lo, hi, v)) == Clamp(lo, hi, v)
  {
  }

  /** Clamping is monotone in the clamped value. */
  lemma ClampMonotone(lo: u32, hi: u32, v: u32, w: u32)
    requires v <= w
    ensures Clamp(lo, hi, v) <= Clamp(lo, hi, w)
  {
  }

  /**
   * The extent a swapchain is created with: the surface's current extent
   * when the surface fixes it (width not `UINT32_MAX`), otherwise `wanted`
   * clamped per dimension into the surface's allowed range.
   */
  function SwapExtent(caps: SurfaceCapabilities, wanted: Extent2D): (r: Extent2D)
    ensures caps.currentExtent.width != U32_MAX ==> r == caps.currentExtent
    ensures caps.currentExtent.width == U32_MAX ==>
      r.width == Clamp(caps.minImageExtent.width, caps.maxImageExtent.width, wanted.width) &&
      r.height == Clamp(caps.minImageExtent.height, caps.maxImageExtent.height, wanted.height)
  {
    if caps.currentExtent.width != U32_MAX then caps.currentExtent
    else Extent2D(Clamp(caps.minImageExtent.width, caps.maxImageExtent.width, wanted.width),
                  Clamp(caps.minImageExtent.height, caps.maxImageExtent.height, wanted.height))
  }

  /** Inside the surface's range whenever the surface leaves the extent open. */
  lemma SwapExtentWithinLimits(caps: SurfaceCapabilities, wanted: Extent2D)
    requires caps.currentExtent.width == U32_MAX
    requires caps.minImageExtent.width <= caps.maxImageExtent.width
    requires caps.minImageExtent.height <= caps.maxImageExtent.height
    ensures caps.minImageExtent.width <= SwapExtent(caps, wanted).width <= caps.maxImageExtent.width
    ensures caps.minImageExtent.height <= SwapExtent(caps, wanted).height <= caps.maxImageExtent.height
    ensures caps.minImageExtent.width <= wanted.width <= caps.maxImageExtent.width &&
            caps.minImageExtent.height <= wanted.height <= caps.maxImageExtent.height
            ==> SwapExtent(caps, wanted) == wanted
  {
  }

  /** Choosing again from the chosen extent changes nothing. */
  lemma SwapExtentIdempotent(caps: SurfaceCapabilities, wanted: Extent2D)
    requires caps.minImageExtent.width <= caps.maxImageExtent.width
    requires caps.minImageExtent.height <= caps.maxImageExtent.height
    ensures SwapExtent(caps, SwapExtent(caps, wanted)) == SwapExtent(caps, wanted)
  {
    if caps.currentExtent.width == U32_MAX {
      ClampIdempotent(caps.minImageExtent.width, caps.maxImageExtent.width, wanted.width);
      ClampIdempotent(caps.minImageExtent.height, caps.maxImageExtent.height, wanted.height);
    }
  }

  /** The headset engine's `ChooseSwapExtent`: the open case aims at 1440x1600. */
  function ChooseSwapExtent(caps: SurfaceCapabilities): (r: Extent2D)
    ensures caps.currentExtent.width != U32_MAX ==> r == caps.currentExtent
    ensures caps.currentExtent.width == U32_MAX &&
            caps.minImageExtent.width <= 1440 <= caps.maxImageExtent.width &&
            caps.minImageExtent.height <= 1600 <= caps.maxImageExtent.height
            ==> r == FALLBACK_EXTENT
  {
    SwapExtent(caps, FALLBACK_EXTENT)
  }

  /**
   * The subsystem's `ChooseSwapChainExtent`: the open case aims at the
   * view's extent. The result is what it hands to `SetRenderResolution`.
   */
  function ChooseSwapChainExtent(caps: SurfaceCapabilities, viewExtent: Extent2D): (r: Extent2D)
    ensures caps.currentExtent.width != U32_MAX ==> r == caps.currentExtent
    ensures caps.currentExtent.width == U32_MAX ==>
      caps.minImageExtent.width <= r.width && caps.minImageExtent.height <= r.height
    ensures caps.currentExtent.width == U32_MAX ==>
      r.width == Clamp(caps.minImageExtent.width, caps.maxImageExtent.width, viewExtent.width) &&
      r.height == Clamp(caps.minImageExtent.height, caps.maxImageExtent.height, viewExtent.height)
    ensures caps.currentExtent.width == U32_MAX && caps.minImageExtent.width <= caps.maxImageExtent.width &&
            caps.minImageExtent.height <= caps.maxImageExtent.height ==>
      r.width <= caps.maxImageExtent.width && r.height <= caps.maxImageExtent.height
  {
    SwapExtent(caps, viewExtent)
  }

  /**
   * Swapchain image count: one more than the minimum (in `uint32_t`),
   * lowered to the maximum when the surface has one (`maxImageCount > 0`).
   */
  function ImageCount(caps: SurfaceCapabilities): (r: u32)
    ensures caps.maxImageCount > 0 ==> r <= caps.maxImageCount
    ensures caps.maxImageCount == 0 ==> r == Add32(caps.minImageCount, 1)
    ensures caps.minImageCount < caps.maxImageCount ==> r == caps.minImageCount + 1
    ensures caps.maxImageCount > 0 && caps.maxImageCount <= caps.minImageCount < U32_MAX ==>
      r == caps.maxImageCount
  {
    var count := Add32(caps.minImageCount, 1);
    if caps.maxImageCount > 0 && count > caps.maxImageCount then caps.maxImageCount else count
  }

  /** Without a maximum, a minimum of `UINT32_MAX` wraps the count to zero images. */
  lemma ImageCountWrapsWithoutMaximum()
    ensures ImageCount(SurfaceCapabilities(U32_MAX, 0, Extent2D(0, 0), Extent2D(0, 0), Extent2D(0, 0))) == 0
  {
  }

  /** Image sharing mode; concurrent sharing lists the two queue families. */
  datatype SharingMode = Exclusive | Concurrent(familyIndices: seq<u32>)

  /** Concurrent between graphics and present families when they differ, else exclusive. */
  function Sharing(graphicsFamily: u32, presentFamily: u32): (r: SharingMode)
    ensures r.Concurrent? <==> graphicsFamily != presentFamily
    ensures r.Concurrent? ==> r.familyIndices == [graphicsFamily, presentFamily]
  {
    if graphicsFamily != presentFamily then Concurrent([graphicsFamily, presentFamily]) else Exclusive
  }

  datatype Format = B8G8R8A8Unorm | OtherFormat(code: nat)
  datatype ColorSpace = SrgbNonlinear | OtherColorSpace(code: nat)
  /** `vk::SurfaceFormatKHR`. */
  datatype SurfaceFormat = SurfaceFormat(format: Format, colorSpace: ColorSpace)

  const PREFERRED_FORMAT: SurfaceFormat := SurfaceFormat(B8G8R8A8Unorm, SrgbNonlinear)

  /**
   * `ChooseSwapSurfaceFormat` / `ChooseSwapChainSurfaceFormat` as written:
   * the loop finds the intended choice (the preferred format when offered),
   * then that choice is discarded and overwritten with the first format.
   * The caller guarantees a non-empty list (a device without formats is not
   * suitable). The model starts the loop's choice at `formats[0]`, where
   * the source starts from whatever was stored before; the loop's choice is
   * thrown away either way.
   */
  method ChooseSwapSurfaceFormat(formats: seq<SurfaceFormat>) returns (chosen: SurfaceFormat)
    requires |formats| > 0
    ensures chosen == formats[0]
  {
    chosen := formats[0];
    var i := 0;
    while i < |formats|
      invariant 0 <= i <= |formats|
      invariant chosen == if PREFERRED_FORMAT in formats[..i] then PREFERRED_FORMAT else formats[0]
    {
      assert formats[..i + 1] == formats[..i] + [formats[i]];
      if formats[i] == PREFERRED_FORMAT {
        chosen := formats[i];
      }
      i := i + 1;
    }
    assert formats[..i] == formats;
    assert chosen == PreferredSurfaceFormat(formats);
    chosen := formats[0];
  }

  /** The intended choice: the preferred format when offered, else the first one. */
  function PreferredSurfaceFormat(formats: seq<SurfaceFormat>): (r: SurfaceFormat)
    requires |formats| > 0
    ensures r in formats
    ensures r == PREFERRED_FORMAT <==> PREFERRED_FORMAT in formats
    ensures PREFERRED_FORMAT !in formats ==> r == formats[0]
  {
    if PREFERRED_FORMAT in formats then PREFERRED_FORMAT else formats[0]
  }

  /** A surface that lists the preferred format second never gets it from the code as written. */
  lemma PreferredFormatOverwritten()
    ensures var formats := [SurfaceFormat(OtherFormat(44), SrgbNonlinear), PREFERRED_FORMAT];
      PreferredSurfaceFormat(formats) == PREFERRED_FORMAT && formats[0] != PREFERRED_FORMAT
  {
  }

  /**
   * `checkDeviceExtensionSupport`: start from the set of required names,
   * erase every available name, and report whether nothing is left.
   */
  method CheckDeviceExtensionSupport(required: seq<string>, available: seq<string>)
    returns (supported: bool)
    ensures supported <==> forall e :: e in required ==> e in available
  {
    var remaining := set e | e in required;
    var i := 0;
    while i < |available|
      invariant 0 <= i <= |available|
      invariant remaining == set e | e in required && e !in available[..i]
    {
      assert available[..i + 1] == available[..i] + [available[i]];
      remaining := remaining - {available[i]};
      i := i + 1;
    }
    assert available[..i] == available;
    supported := remaining == {};
    if !supported {
      var e :| e in remaining;
      assert e in required && e !in available;
    } else {
      forall e | e in required
        ensures e in available
      {
        assert e !in available ==> e in remaining;
      }
    }
  }

  /** No name occurs twice. */
  predicate Distinct(v: seq<string>)
  {
    forall i, j :: 0 <= i < j < |v| ==> v[i] != v[j]
  }

  /**
   * The list with `s` appended unless it already holds the same text: what
   * `checked_vector_add` is meant to do.
   */
  function AddIfAbsent(v: seq<string>, s: string): (r: seq<string>)
    ensures s in r
    ensures |v| <= |r| <= |v| + 1
    ensures v == r[..|v|]
    ensures forall x :: x in r <==> x in v || x == s
    ensures Distinct(v) ==> Distinct(r)
  {
    if s in v then v else v + [s]
  }

  /** Adding a name that is already present again changes nothing. */
  lemma AddIfAbsentIdempotent(v: seq<string>, s: string)
    ensures AddIfAbsent(AddIfAbsent(v, s), s) == AddIfAbsent(v, s)
  {
  }

  /**
   * Where a `char const *` handed to Vulkan points: into the buffer of the
   * caller's `index`-th `std::string`, or at a string literal of the
   * program (equal literals may share one address).
   */
  datatype Address = CallerString(index: nat) | Literal(name: string)

  /** A `char const *`: its address and the text stored there. */
  datatype CStr = CStr(addr: Address, text: string)

  /** The texts a list of pointers shows, in order. */
  function Texts(v: seq<CStr>): (r: seq<string>)
    ensures |r| == |v|
    ensures forall i :: 0 <= i < |v| ==> r[i] == v[i].text
  {
    if v == [] then [] else [v[0].text] + Texts(v[1..])
  }

  lemma TextsAppend(v: seq<CStr>, w: seq<CStr>)
    ensures Texts(v + w) == Texts(v) + Texts(w)
  {
  }

  /** Some element is the very pointer `s`: `std::find` over `char const *`. */
  predicate HoldsPointer(v: seq<CStr>, s: CStr)
  {
    exists i :: 0 <= i < |v| && v[i].addr == s.addr
  }

  /** A pointer to a literal, such as `"VK_KHR_surface"`. */
  function LiteralPtr(name: string): CStr
  {
    CStr(Literal(name), name)
  }

  /** The `data()` pointers of the caller's strings, one buffer each. */
  function CallerPtrs(names: seq<string>): (r: seq<CStr>)
    ensures |r| == |names| && Texts(r) == names
    ensures forall i :: 0 <= i < |r| ==> r[i].addr == CallerString(i)
  {
    seq(|names|, i requires 0 <= i < |names| => CStr(CallerString(i), names[i]))
  }

  /**
   * `checked_vector_add` as written: `std::find` over `char const *`
   * compares addresses, so `s` is appended unless that very pointer is
   * present, whether or not the list already holds its text.
   */
  function AddIfAbsentPtr(v: seq<CStr>, s: CStr): (r: seq<CStr>)
    ensures HoldsPointer(v, s) ==> r == v
    ensures !HoldsPointer(v, s) ==> r == v + [s]
    ensures !HoldsPointer(v, s) ==> Texts(r) == Texts(v) + [s.text]
  {
    TextsAppend(v, [s]);
    if HoldsPointer(v, s) then v else v + [s]
  }

  /**
   * Pointer comparison agrees with text comparison when the text `s`
   * shows is held in the list only at `s`'s own address.
   */
  lemma AddIfAbsentPtrByText(v: seq<CStr>, s: CStr)
    requires forall i :: 0 <= i < |v| && v[i].addr == s.addr ==> v[i].text == s.text
    requires forall i :: 0 <= i < |v| && v[i].text == s.text ==> v[i].addr == s.addr
    ensures Texts(AddIfAbsentPtr(v, s)) == AddIfAbsent(Texts(v), s.text)
  {
    if HoldsPointer(v, s) {
      var i :| 0 <= i < |v| && v[i].addr == s.addr;
      assert Texts(v)[i] == s.text;
      assert s.text in Texts(v);
    } else {
      assert forall i :: 0 <= i < |v| ==> Texts(v)[i] != s.text;
      assert s.text !in Texts(v);
    }
  }

  /** The search loop of `checked_vector_add`, comparing pointers. */
  method CheckedVectorAdd(v: seq<CStr>, s: CStr) returns (r: seq<CStr>)
    ensures r == AddIfAbsentPtr(v, s)
  {
    var i := 0;
    while i < |v| && v[i].addr != s.addr
      invariant 0 <= i <= |v|
      invariant forall k :: 0 <= k < i ==> v[k].addr != s.addr
    {
      i := i + 1;
    }
    if i == |v| {
      r := v + [s];
    } else {
      r := v;
    }
  }

  const VALIDATION_LAYER: string := "VK_LAYER_KHRONOS_validation"
  const DEBUG_UTILS_EXTENSION: string := "VK_EXT_debug_utils"
  const SURFACE_EXTENSION: string := "VK_KHR_surface"

  /**
   * Layers of `createInstance`: the caller's layers, plus the validation
   * layer in debug builds when the caller did not list it.
   */
  function InstanceLayers(layers: seq<string>, debug: bool): (r: seq<string>)
    ensures |layers| <= |r| && r[..|layers|] == layers
    ensures debug ==> VALIDATION_LAYER in r
    ensures !debug ==> |r| == |layers|
    ensures forall x :: x in r ==> x in layers || x == VALIDATION_LAYER
    ensures Distinct(layers) ==> Distinct(r)
  {
    if debug then AddIfAbsent(layers, VALIDATION_LAYER) else layers
  }

  /**
   * Extensions of `createInstance`: the caller's extensions, the surface
   * extension, the platform's surface extensions, and in debug builds the
   * debug-utils extension when the caller did not list it.
   */
  function InstanceExtensions(extensions: seq<string>, platform: seq<string>, debug: bool): (r: seq<string>)
    ensures |extensions| + 1 + |platform| <= |r| <= |extensions| + 1 + |platform| + 1
    ensures r[..|extensions| + 1 + |platform|] == extensions + [SURFACE_EXTENSION] + platform
    ensures !debug || DEBUG_UTILS_EXTENSION in extensions ==> r == extensions + [SURFACE_EXTENSION] + platform
    ensures debug && DEBUG_UTILS_EXTENSION !in extensions ==>
      r == extensions + [SURFACE_EXTENSION] + platform + [DEBUG_UTILS_EXTENSION]
    ensures debug ==> DEBUG_UTILS_EXTENSION in r
  {
    var base := extensions + [SURFACE_EXTENSION] + platform;
    if debug && DEBUG_UTILS_EXTENSION !in extensions then base + [DEBUG_UTILS_EXTENSION] else base
  }

  /**
   * Layers of the subsystem's `CreateInstance`: the `data()` pointers of
   * the caller's layers, then in debug builds `checked_vector_add` of the
   * validation-layer literal. No caller buffer is that literal, so a debug
   * build always appends it, even when the caller listed the layer.
   */
  function SubsystemLayers(layers: seq<string>, debug: bool): (r: seq<CStr>)
    ensures !debug ==> Texts(r) == layers
    ensures debug ==> Texts(r) == layers + [VALIDATION_LAYER]
  {
    var v := CallerPtrs(layers);
    if debug then
      assert !HoldsPointer(v, LiteralPtr(VALIDATION_LAYER));
      AddIfAbsentPtr(v, LiteralPtr(VALIDATION_LAYER))
    else v
  }

  /** Pointers to the platform's surface-extension literals. */
  function LiteralPtrs(names: seq<string>): (r: seq<CStr>)
    ensures |r| == |names| && Texts(r) == names
    ensures forall i :: 0 <= i < |r| ==> r[i] == LiteralPtr(names[i])
  {
    seq(|names|, i requires 0 <= i < |names| => LiteralPtr(names[i]))
  }

  /** The extension pointers before the debug-utils check. */
  function BaseExtensionPtrs(extensions: seq<string>, platform: seq<string>): seq<CStr>
  {
    CallerPtrs(extensions) + LiteralPtrs([SURFACE_EXTENSION] + platform)
  }

  /** Their texts are the extension names in order. */
  lemma BaseExtensionTexts(extensions: seq<string>, platform: seq<string>)
    ensures Texts(BaseExtensionPtrs(extensions, platform)) == extensions + [SURFACE_EXTENSION] + platform
  {
    TextsAppend(CallerPtrs(extensions), LiteralPtrs([SURFACE_EXTENSION] + platform));
    assert extensions + ([SURFACE_EXTENSION] + platform) == extensions + [SURFACE_EXTENSION] + platform;
  }

  /** They hold the debug-utils literal exactly when one of the literals is it. */
  lemma BaseExtensionHoldsDebugUtils(extensions: seq<string>, platform: seq<string>)
    ensures HoldsPointer(BaseExtensionPtrs(extensions, platform), LiteralPtr(DEBUG_UTILS_EXTENSION))
      <==> DEBUG_UTILS_EXTENSION in [SURFACE_EXTENSION] + platform
  {
    var names := [SURFACE_EXTENSION] + platform;
    var c, l := CallerPtrs(extensions), LiteralPtrs(names);
    var v := c + l;
    var d := LiteralPtr(DEBUG_UTILS_EXTENSION);
    if HoldsPointer(v, d) {
      var i :| 0 <= i < |v| && v[i].addr == d.addr;
      assert v[i] == l[i - |c|];
      assert names[i - |c|] == DEBUG_UTILS_EXTENSION;
    }
    if DEBUG_UTILS_EXTENSION in names {
      var k :| 0 <= k < |names| && names[k] == DEBUG_UTILS_EXTENSION;
      assert v[|c| + k] == l[k];
    }
  }

  /**
   * Extensions of the subsystem's `CreateInstance`: the caller's
   * extensions, the surface literal, the platform's literals, and in debug
   * builds `checked_vector_add` of the debug-utils literal, which is
   * skipped only when one of the literals already is that very literal.
   */
  function SubsystemExtensions(extensions: seq<string>, platform: seq<string>, debug: bool): (r: seq<CStr>)
    ensures !debug || DEBUG_UTILS_EXTENSION in [SURFACE_EXTENSION] + platform ==>
      Texts(r) == extensions + [SURFACE_EXTENSION] + platform
    ensures debug && DEBUG_UTILS_EXTENSION !in [SURFACE_EXTENSION] + platform ==>
      Texts(r) == extensions + [SURFACE_EXTENSION] + platform + [DEBUG_UTILS_EXTENSION]
  {
    BaseExtensionTexts(extensions, platform);
    BaseExtensionHoldsDebugUtils(extensions, platform);
    var v := BaseExtensionPtrs(extensions, platform);
    if debug then AddIfAbsentPtr(v, LiteralPtr(DEBUG_UTILS_EXTENSION)) else v
  }

  /**
   * Unlike the layers, a caller-listed debug-utils extension is enabled
   * twice in a debug build, where `createInstance` enables it once.
   */
  lemma CallerDebugUtilsEnabledTwice()
    ensures Texts(SubsystemExtensions([DEBUG_UTILS_EXTENSION], [], true)) ==
      [DEBUG_UTILS_EXTENSION, SURFACE_EXTENSION, DEBUG_UTILS_EXTENSION]
    ensures InstanceExtensions([DEBUG_UTILS_EXTENSION], [], true) == [DEBUG_UTILS_EXTENSION, SURFACE_EXTENSION]
  {
  }

  /**
   * A debug build whose caller lists the validation layer enables it twice:
   * the caller's copy and the literal are different pointers.
   */
  lemma CallerValidationLayerEnabledTwice()
    ensures Texts(SubsystemLayers([VALIDATION_LAYER], true)) == [VALIDATION_LAYER, VALIDATION_LAYER]
    ensures Texts(SubsystemLayers([VALIDATION_LAYER], true)) != InstanceLayers([VALIDATION_LAYER], true)
  {
    assert InstanceLayers([VALIDATION_LAYER], true) == [VALIDATION_LAYER];
  }

  /**
   * The intended layer list of the subsystem, comparing texts as
   * `InstanceLayers` does, never enables a layer twice.
   */
  lemma SubsystemLayersByText(layers: seq<string>)
    requires Distinct(layers)
    ensures Distinct(AddIfAbsent(Texts(CallerPtrs(layers)), VALIDATION_LAYER))
    ensures AddIfAbsent(Texts(CallerPtrs(layers)), VALIDATION_LAYER) == InstanceLayers(layers, true)
  {
  }
}
