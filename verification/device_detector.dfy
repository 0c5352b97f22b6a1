/** The device performance tier: premium and mid-premium AI phones are told
    apart by SoC and model name, the presence of a neural processing unit and
    the installed RAM; every other device is not supported. */
module DeviceDetectors {
  import opened Wrappers
  import opened JvmInt
  import opened Text

  datatype Tier = NonAi | MidPremiumAi | PremiumAi

  /** NON_AI < MID_PREMIUM_AI < PREMIUM_AI. */
  function Rank(t: Tier): nat
  {
    match t
    case NonAi => 0
    case MidPremiumAi => 1
    case PremiumAi => 2
  }

  /** The `Build` fields and the package manager's feature answer. */
  datatype Device = Device(
    sdkInt: int,
    socModelField: string,
    device: string,
    model: string,
    brand: string,
    neuralNetworksFeature: bool)

  /** `ActivityManager.MemoryInfo.totalMem`, or `None` when reading it throws,
      and the heap limit `Runtime.maxMemory()` used instead. */
  datatype Memory = Memory(totalMem: Option<int>, maxMemory: int)

  const GIB: int := 1_073_741_824

  /** `getSocModel`: `Build.SOC_MODEL` from API level 31 on. */
  function SocModel(d: Device): Option<string>
  {
    if d.sdkInt >= 31 then Some(d.socModelField) else None
  }

  function IsA17OrNewer(d: Device): bool
  {
    Contains(d.model, "iPhone 15")
  }

  function IsA16OrNewer(d: Device): bool
  {
    Contains(d.model, "iPhone 14") || Contains(d.model, "iPhone 15")
  }

  function IsPremiumAi(d: Device, socModel: string): bool
  {
    Contains(socModel, "SM8650") || Contains(socModel, "SM8550") ||
    Contains(d.model, "Pixel 9") || Contains(d.model, "Galaxy S24") || IsA17OrNewer(d)
  }

  function IsMidPremiumAi(d: Device, socModel: string): bool
  {
    Contains(socModel, "SM8550") || Contains(socModel, "SM8475") ||
    Contains(d.model, "Pixel 8") || Contains(d.model, "Galaxy S23") || IsA16OrNewer(d)
  }

  /** The lowercase SoC markers of a chip with a neural unit. */
  const NPU_MARKERS: seq<string> := ["sm8650", "sm8550", "exynos", "tensor", "dimensity", "apple"]

  function HasMarker(soc: string): bool
  {
    exists m :: m in NPU_MARKERS && Contains(soc, m)
  }

  /** `hasNeuralProcessingUnit`. */
  function HasNpu(d: Device): bool
  {
    var feature := d.sdkInt >= 27 && d.neuralNetworksFeature;
    var soc := Lower(if SocModel(d).Some? then SocModel(d).value else "");
    feature || HasMarker(soc) || EqualsIgnoreCase(d.brand, "Apple")
  }

  /** `(bytes / 1 GiB).coerceAtLeast(1L).toInt()`. */
  function BytesToGb(bytes: int): int
  {
    var gb := TruncDiv(bytes, GIB);
    Wrap32(if gb < 1 then 1 else gb)
  }

  /** `getTotalRamInGB`: the total memory, or the heap limit when the total
      cannot be read. */
  function RamGb(m: Memory): int
  {
    BytesToGb(if m.totalMem.Some? then m.totalMem.value else m.maxMemory)
  }

  /** The `when` of `detectTier`. */
  function TierOf(premium: bool, mid: bool, hasNpu: bool, ramGb: int): Tier
  {
    if premium && hasNpu && ramGb >= 8 then PremiumAi
    else if mid && hasNpu && ramGb >= 6 then MidPremiumAi
    else NonAi
  }

  /** `detectTier`: the tier rule reads `SOC_MODEL`, or `Build.DEVICE` before
      API level 31. */
  function DetectTier(d: Device, m: Memory): Tier
  {
    var socModel := if SocModel(d).Some? then SocModel(d).value else d.device;
    TierOf(IsPremiumAi(d, socModel), IsMidPremiumAi(d, socModel), HasNpu(d), RamGb(m))
  }

  // ---------------------------------------------------------- properties

  /** The decision table: premium needs the premium list, an NPU and 8 GB;
      mid-premium needs the mid list, an NPU and 6 GB, and a failed premium
      test; every other case is NON_AI. */
  lemma TierTable(premium: bool, mid: bool, hasNpu: bool, ramGb: int)
    ensures TierOf(premium, mid, hasNpu, ramGb) == PremiumAi <==> premium && hasNpu && ramGb >= 8
    ensures TierOf(premium, mid, hasNpu, ramGb) == MidPremiumAi <==>
      !(premium && ramGb >= 8) && mid && hasNpu && ramGb >= 6
    ensures TierOf(premium, mid, hasNpu, ramGb) == NonAi <==>
      !(premium && hasNpu && ramGb >= 8) && !(mid && hasNpu && ramGb >= 6)
  {
  }

  /** Without an NPU, or with less than 6 GB, the device is never supported. */
  lemma NoNpuOrSmallRamIsNonAi(d: Device, m: Memory)
    requires !HasNpu(d) || RamGb(m) < 6
    ensures DetectTier(d, m) == NonAi
  {
  }

  /** More RAM never lowers the tier. */
  lemma TierMonotoneInRam(premium: bool, mid: bool, hasNpu: bool, ram1: int, ram2: int)
    requires ram1 <= ram2
    ensures Rank(TierOf(premium, mid, hasNpu, ram1)) <= Rank(TierOf(premium, mid, hasNpu, ram2))
  {
  }

  lemma DetectTierMonotone(d: Device, m1: Memory, m2: Memory)
    requires RamGb(m1) <= RamGb(m2)
    ensures Rank(DetectTier(d, m1)) <= Rank(DetectTier(d, m2))
  {
    var socModel := if SocModel(d).Some? then SocModel(d).value else d.device;
    TierMonotoneInRam(IsPremiumAi(d, socModel), IsMidPremiumAi(d, socModel), HasNpu(d), RamGb(m1), RamGb(m2));
  }

  lemma LowerContains(s: string, t: string)
    requires Contains(s, t)
    ensures Contains(Lower(s), Lower(t))
  {
    var i :| 0 <= i <= |s| - |t| && ContainsAt(s, t, i);
    assert Lower(s)[i..i + |t|] == Lower(t);
    assert ContainsAt(Lower(s), Lower(t), i);
  }

  /** An SM8550 SoC is on both lists and counts as having an NPU, so only
      RAM decides: 8 GB or more is premium, 6 or 7 GB mid-premium. */
  lemma Sm8550Tiers(d: Device, m: Memory)
    requires d.sdkInt >= 31 && Contains(d.socModelField, "SM8550")
    ensures HasNpu(d)
    ensures RamGb(m) >= 8 ==> DetectTier(d, m) == PremiumAi
    ensures 6 <= RamGb(m) < 8 ==> DetectTier(d, m) == MidPremiumAi
    ensures RamGb(m) < 6 ==> DetectTier(d, m) == NonAi
  {
    LowerContains(d.socModelField, "SM8550");
    assert Lower("SM8550") == "sm8550";
    assert "sm8550" in NPU_MARKERS;
  }

  /** An NPU is reported exactly when the system feature is present (from
      API level 27), a marker occurs in the lowercased SoC name, or the brand
      is "Apple" in any case. */
  lemma NpuRule(d: Device)
    ensures HasNpu(d) <==>
      (d.sdkInt >= 27 && d.neuralNetworksFeature) ||
      (d.sdkInt >= 31 && exists m :: m in NPU_MARKERS && Contains(Lower(d.socModelField), m)) ||
      Lower(d.brand) == "apple"
  {
    assert Lower("Apple") == "apple";
    if d.sdkInt < 31 {
      assert Lower("") == "";
      forall m | m in NPU_MARKERS
        ensures !Contains("", m)
      {
        assert |m| > 0;
      }
    }
  }

  /** RAM in GB is the whole number of GiB, at least 1 (below 2^61 bytes,
      past which `toInt` wraps). */
  lemma BytesToGbFloor(bytes: int)
    requires 0 <= bytes < 0x2000_0000_0000_0000
    ensures BytesToGb(bytes) == if bytes / GIB < 1 then 1 else bytes / GIB
    ensures BytesToGb(bytes) >= 1
  {
    assert bytes / GIB <= INT_MAX;
  }
}
