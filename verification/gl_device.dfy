/**
 The device capability descriptor: per-stage base bindings, extension and
 vendor flags, and the driver-bug flags derived from probe results.

 Everything the constructor asks the driver (glGetIntegerv, glGetString, the
 extension list, the GLAD extension flags, the link status of the probe
 programs and the component-indexing read-back) arrives as a DriverInfo
 value. Unsigned 32-bit arithmetic is written out modulo 2^32.
*/
module GLDevice {
  import opened Options

  const U32Modulus: int := 0x1_0000_0000
  const SizeModulus: int := 0x1_0000_0000_0000_0000

  type U32 = x: int | 0 <= x < 0x1_0000_0000
  type GLint = x: int | -0x8000_0000 <= x < 0x8000_0000

  /** GL_TRUE as glGetProgramiv reports it. */
  const GLTrue: GLint := 1

  /** static_cast<u32> of a GLint: the two's-complement bits read unsigned. */
  function ToU32(v: GLint): (r: U32)
    ensures 0 <= v ==> r == v
    ensures v < 0 ==> r == v + U32Modulus
  {
    if v >= 0 then v else v + U32Modulus
  }

  /** static_cast<std::size_t> of a GLint on a 64-bit target: sign extension
      read unsigned. */
  function ToSize(v: GLint): (r: nat)
    ensures r < SizeModulus
    ensures 0 <= v ==> r == v
    ensures v < 0 ==> r == v + SizeModulus
  {
    if v >= 0 then v else v + SizeModulus
  }

  /** u32 addition, wrapping. */
  function AddU32(a: U32, b: U32): (r: U32)
    ensures a + b < U32Modulus ==> r == a + b
    ensures a + b >= U32Modulus ==> r == a + b - U32Modulus
  {
    if a + b < U32Modulus then a + b else a + b - U32Modulus
  }

  /** u32 subtraction, wrapping. */
  function SubU32(a: U32, b: U32): (r: U32)
    ensures a >= b ==> r == a - b
    ensures a < b ==> r == a - b + U32Modulus
  {
    if a >= b then a - b else a - b + U32Modulus
  }

  /** One uniform block is reserved for the emulator's own bindings. */
  const ReservedUniformBlocks: U32 := 1

  /** The first binding index of each resource kind for one shader stage. */
  datatype BaseBindings = BaseBindings(uniformBuffer: U32, shaderStorageBuffer: U32, sampler: U32, image: U32)

  const NoBindings := BaseBindings(0, 0, 0, 0)

  /** Component-wise u32 addition of base bindings: each component is the
      integer sum, less 2^32 when that sum reaches 2^32. */
  function Add(lhs: BaseBindings, rhs: BaseBindings): (r: BaseBindings)
    ensures r.uniformBuffer == lhs.uniformBuffer + rhs.uniformBuffer
                               - (if lhs.uniformBuffer + rhs.uniformBuffer < U32Modulus then 0 else U32Modulus)
    ensures r.shaderStorageBuffer == lhs.shaderStorageBuffer + rhs.shaderStorageBuffer
                                     - (if lhs.shaderStorageBuffer + rhs.shaderStorageBuffer < U32Modulus
                                        then 0 else U32Modulus)
    ensures r.sampler == lhs.sampler + rhs.sampler - (if lhs.sampler + rhs.sampler < U32Modulus then 0 else U32Modulus)
    ensures r.image == lhs.image + rhs.image - (if lhs.image + rhs.image < U32Modulus then 0 else U32Modulus)
  {
    BaseBindings(AddU32(lhs.uniformBuffer, rhs.uniformBuffer),
                 AddU32(lhs.shaderStorageBuffer, rhs.shaderStorageBuffer),
                 AddU32(lhs.sampler, rhs.sampler),
                 AddU32(lhs.image, rhs.image))
  }

  /** Base-binding addition is addition modulo 2^32 in every component. */
  lemma AddIsModular(lhs: BaseBindings, rhs: BaseBindings)
    ensures Add(lhs, rhs).uniformBuffer == (lhs.uniformBuffer + rhs.uniformBuffer) % U32Modulus
    ensures Add(lhs, rhs).shaderStorageBuffer == (lhs.shaderStorageBuffer + rhs.shaderStorageBuffer) % U32Modulus
    ensures Add(lhs, rhs).sampler == (lhs.sampler + rhs.sampler) % U32Modulus
    ensures Add(lhs, rhs).image == (lhs.image + rhs.image) % U32Modulus
  {
  }

  /** Base-binding addition is a commutative monoid with NoBindings as unit,
      wrap-around included. */
  lemma AddIsCommutativeMonoid(a: BaseBindings, b: BaseBindings, c: BaseBindings)
    ensures Add(a, b) == Add(b, a)
    ensures Add(Add(a, b), c) == Add(a, Add(b, c))
    ensures Add(a, NoBindings) == a
  {
  }

  /** What glGetIntegerv reports for one stage's four resource limits. */
  datatype StageLimits = StageLimits(uniformBlocks: GLint, shaderStorageBlocks: GLint,
                                     textureImageUnits: GLint, imageUniforms: GLint)

  /** One stage's budget: its limits read as u32, less the reserved uniform
      block. */
  function BuildBaseBindings(limits: StageLimits): (r: BaseBindings)
    ensures limits.uniformBlocks >= 1 ==> r.uniformBuffer == limits.uniformBlocks - 1
    ensures limits.uniformBlocks == 0 ==> r.uniformBuffer == U32Modulus - 1
    ensures limits.shaderStorageBlocks >= 0 ==> r.shaderStorageBuffer == limits.shaderStorageBlocks
    ensures limits.textureImageUnits >= 0 ==> r.sampler == limits.textureImageUnits
    ensures limits.imageUniforms >= 0 ==> r.image == limits.imageUniforms
  {
    BaseBindings(SubU32(ToU32(limits.uniformBlocks), ReservedUniformBlocks),
                 ToU32(limits.shaderStorageBlocks),
                 ToU32(limits.textureImageUnits),
                 ToU32(limits.imageUniforms))
  }

  /** The stage-0 entry: the reserved uniform block comes first. */
  const FirstBindings := BaseBindings(ReservedUniformBlocks, 0, 0, 0)

  /** Entry k of the chain: entry 0 plus the budgets of stages 0..k-1. */
  function ChainEntry(stages: seq<StageLimits>, k: nat): BaseBindings
    requires k <= |stages|
    decreases k
  {
    if k == 0 then FirstBindings else Add(ChainEntry(stages, k - 1), BuildBaseBindings(stages[k - 1]))
  }

  /** The base-binding table for vertex, tessellation control, tessellation
      evaluation, geometry, fragment and compute: each graphics stage starts
      where the previous one's budget ends; compute starts at 0. */
  function BaseBindingTable(stages: seq<StageLimits>): (r: seq<BaseBindings>)
    requires |stages| == 4
    ensures |r| == 6
    ensures r[0] == BaseBindings(1, 0, 0, 0)
    ensures forall k :: 1 <= k <= 4 ==> r[k] == Add(r[k - 1], BuildBaseBindings(stages[k - 1]))
    ensures r[5] == NoBindings
  {
    seq(5, k requires 0 <= k < 5 => ChainEntry(stages, k)) + [NoBindings]
  }

  // ---- the chain as prefix sums -------------------------------------------

  /** The four binding kinds a stage reserves ranges for. */
  datatype Kind = UniformKind | StorageKind | SamplerKind | ImageKind

  function Get(b: BaseBindings, kind: Kind): U32 {
    match kind
    case UniformKind => b.uniformBuffer
    case StorageKind => b.shaderStorageBuffer
    case SamplerKind => b.sampler
    case ImageKind => b.image
  }

  /** The integer budget one stage adds to a binding kind. */
  function Budget(s: StageLimits, kind: Kind): int {
    match kind
    case UniformKind => s.uniformBlocks - 1
    case StorageKind => s.shaderStorageBlocks
    case SamplerKind => s.textureImageUnits
    case ImageKind => s.imageUniforms
  }

  /** Sum of the budgets of stages 0..k-1 for one kind. */
  function Sum(stages: seq<StageLimits>, k: nat, kind: Kind): int
    requires k <= |stages|
    decreases k
  {
    if k == 0 then 0 else Sum(stages, k - 1, kind) + Budget(stages[k - 1], kind)
  }

  /** Limits the way real drivers report them: every stage has at least the
      reserved uniform block and no limit is anywhere near 2^28. */
  predicate Plausible(stages: seq<StageLimits>) {
    forall j :: 0 <= j < |stages| ==> PlausibleStage(stages[j])
  }

  predicate PlausibleStage(s: StageLimits) {
    && 1 <= s.uniformBlocks < 0x1000_0000
    && 0 <= s.shaderStorageBlocks < 0x1000_0000
    && 0 <= s.textureImageUnits < 0x1000_0000
    && 0 <= s.imageUniforms < 0x1000_0000
  }

  /** A plausible stage's budget for each kind is its exact integer budget. */
  lemma PlausibleBudget(s: StageLimits, kind: Kind)
    requires PlausibleStage(s)
    ensures Get(BuildBaseBindings(s), kind) == Budget(s, kind)
    ensures 0 <= Budget(s, kind) < 0x1000_0000
  {
  }

  lemma {:induction false} SumBounds(stages: seq<StageLimits>, k: nat, kind: Kind)
    requires k <= |stages| && Plausible(stages)
    ensures 0 <= Sum(stages, k, kind) <= k * 0x1000_0000
    decreases k
  {
    if k > 0 {
      SumBounds(stages, k - 1, kind);
      PlausibleBudget(stages[k - 1], kind);
    }
  }

  /** With plausible limits nothing wraps: for every kind, entry k holds
      entry 0 plus the exact sum of stages 0..k-1's budgets. */
  lemma {:induction false} ChainIsPrefixSum(stages: seq<StageLimits>, k: nat, kind: Kind)
    requires k <= |stages| <= 4 && Plausible(stages)
    ensures Get(ChainEntry(stages, k), kind) == Get(FirstBindings, kind) + Sum(stages, k, kind)
    decreases k
  {
    if k > 0 {
      var last := stages[k - 1];
      var prev := Get(ChainEntry(stages, k - 1), kind);
      var budget := Get(BuildBaseBindings(last), kind);
      assert Get(ChainEntry(stages, k), kind) == AddU32(prev, budget) by {
        AddByKind(ChainEntry(stages, k - 1), BuildBaseBindings(last), kind);
      }
      PlausibleBudget(last, kind);
      assert prev == Get(FirstBindings, kind) + Sum(stages, k - 1, kind) <= 1 + 3 * 0x1000_0000 by {
        ChainIsPrefixSum(stages, k - 1, kind);
        SumBounds(stages, k - 1, kind);
      }
    }
  }

  lemma AddByKind(a: BaseBindings, b: BaseBindings, kind: Kind)
    ensures Get(Add(a, b), kind) == AddU32(Get(a, kind), Get(b, kind))
  {
  }

  /** Component-wise order on base bindings. */
  predicate AtOrBelow(a: BaseBindings, b: BaseBindings) {
    && a.uniformBuffer <= b.uniformBuffer && a.shaderStorageBuffer <= b.shaderStorageBuffer
    && a.sampler <= b.sampler && a.image <= b.image
  }

  /** With plausible limits the graphics stages' base bindings never go
      backwards, and each stage's range [entry k, entry k+1) is as wide as its
      budget. */
  lemma ChainIsMonotone(stages: seq<StageLimits>, k: nat)
    requires |stages| == 4 && Plausible(stages) && k < 4
    ensures var table := BaseBindingTable(stages);
            && AtOrBelow(table[k], table[k + 1])
            && table[k + 1].uniformBuffer - table[k].uniformBuffer == stages[k].uniformBlocks - 1
            && table[k + 1].shaderStorageBuffer - table[k].shaderStorageBuffer == stages[k].shaderStorageBlocks
            && table[k + 1].sampler - table[k].sampler == stages[k].textureImageUnits
            && table[k + 1].image - table[k].image == stages[k].imageUniforms
  {
    forall kind: Kind ensures Get(BaseBindingTable(stages)[k], kind) <= Get(BaseBindingTable(stages)[k + 1], kind)
                                   && Get(BaseBindingTable(stages)[k + 1], kind) - Get(BaseBindingTable(stages)[k], kind)
                                      == Budget(stages[k], kind)
    {
      ChainIsPrefixSum(stages, k, kind);
      ChainIsPrefixSum(stages, k + 1, kind);
      PlausibleBudget(stages[k], kind);
    }
    assert Get(BaseBindingTable(stages)[k], StorageKind) <= Get(BaseBindingTable(stages)[k + 1], StorageKind);
    assert Get(BaseBindingTable(stages)[k], ImageKind) <= Get(BaseBindingTable(stages)[k + 1], ImageKind);
    assert Get(BaseBindingTable(stages)[k + 1], UniformKind) - Get(BaseBindingTable(stages)[k], UniformKind)
           == Budget(stages[k], UniformKind);
    assert Get(BaseBindingTable(stages)[k + 1], SamplerKind) - Get(BaseBindingTable(stages)[k], SamplerKind)
           == Budget(stages[k], SamplerKind);
    assert Get(BaseBindingTable(stages)[k + 1], StorageKind) - Get(BaseBindingTable(stages)[k], StorageKind)
           == Budget(stages[k], StorageKind);
    assert Get(BaseBindingTable(stages)[k + 1], ImageKind) - Get(BaseBindingTable(stages)[k], ImageKind)
           == Budget(stages[k], ImageKind);
  }

  /** A stage reporting no uniform blocks at all wraps its budget to 2^32 - 1,
      which moves the next stage's first uniform binding one step back. */
  lemma ZeroUniformLimitStepsBack(stages: seq<StageLimits>, k: nat)
    requires |stages| == 4 && k < 4
    requires stages[k].uniformBlocks == 0
    requires BaseBindingTable(stages)[k].uniformBuffer >= 1
    ensures BaseBindingTable(stages)[k + 1].uniformBuffer == BaseBindingTable(stages)[k].uniformBuffer - 1
  {
  }

  // ---- extensions, vendors, probes ------------------------------------------

  /** std::find: the index of the first element equal to `e`, or |list|. */
  function Find(list: seq<string>, e: string): (r: nat)
    ensures r <= |list|
    ensures r < |list| ==> list[r] == e
    ensures forall j :: 0 <= j < r ==> list[j] != e
    decreases |list|
  {
    if |list| == 0 then 0
    else if list[0] == e then 0
    else 1 + Find(list[1..], e)
  }

  /** The extension list names `extension`. */
  function HasExtension(list: seq<string>, extension: string): (r: bool)
    ensures r <==> extension in list
  {
    Find(list, extension) != |list|
  }

  /** A probe program's link status read as success. */
  function TestProgram(linkStatus: GLint): (r: bool)
    ensures r <==> linkStatus == GLTrue
  {
    linkStatus == GLTrue
  }

  /** The variable-offset texture probe: the feature is present iff its
      program links. */
  function TestVariableAoffi(linkStatus: GLint): (r: bool)
    ensures r <==> linkStatus == GLTrue
  {
    TestProgram(linkStatus)
  }

  /** The `precise` probe: the bug is present iff its program fails to link,
      whatever non-GL_TRUE status the driver reports. */
  function TestPreciseBug(linkStatus: GLint): (r: bool)
    ensures r <==> linkStatus != GLTrue
    ensures linkStatus == 0 ==> r
  {
    !TestProgram(linkStatus)
  }

  /** The uniform buffer the component-indexing probe reads from. */
  const ComponentTestValues: seq<U32> := [0, 0, 0, 0, 0x1236327, 0x985482, 0x872753, 0x2378432]

  /** The first probed index from `index` to 7 whose read-back disagrees with
      the uploaded value; the probe stops drawing there. */
  function FirstMismatch(readBack: nat -> U32, index: nat): (r: Option<nat>)
    requires 4 <= index <= 8
    ensures r.None? <==> forall j :: index <= j < 8 ==> readBack(j) == ComponentTestValues[j]
    ensures r.Some? ==> && index <= r.value < 8
                        && readBack(r.value) != ComponentTestValues[r.value]
                        && forall j :: index <= j < r.value ==> readBack(j) == ComponentTestValues[j]
    decreases 8 - index
  {
    if index == 8 then None
    else if readBack(index) != ComponentTestValues[index] then Some(index)
    else FirstMismatch(readBack, index + 1)
  }

  /** The component-indexing bug: some index in 4..7 reads back wrong. */
  function TestComponentIndexingBug(readBack: nat -> U32): (r: bool)
    ensures r <==> exists i :: 4 <= i < 8 && readBack(i) != ComponentTestValues[i]
  {
    FirstMismatch(readBack, 4).Some?
  }

  /** A read-back that matches the upload at indices 4..7 reports no bug, and
      one wrong value is enough to report it. */
  lemma ComponentIndexingBugIsOneMismatch(readBack: nat -> U32, i: nat)
    requires 4 <= i < 8
    ensures readBack(i) != ComponentTestValues[i] ==> TestComponentIndexingBug(readBack)
    ensures (forall j :: 4 <= j < 8 ==> readBack(j) == ComponentTestValues[j]) ==>
              !TestComponentIndexingBug(readBack)
  {
  }

  /** Everything the constructor learns from the driver. */
  datatype DriverInfo = DriverInfo(
    vendor: string,
    extensions: seq<string>,
    vertex: StageLimits,
    tessControl: StageLimits,
    tessEvaluation: StageLimits,
    geometry: StageLimits,
    uniformBufferAlignment: GLint,
    shaderStorageAlignment: GLint,
    maxVertexAttribs: GLint,
    maxVaryingVectors: GLint,
    nvGpuShader5: bool,
    nvShaderThreadGroup: bool,
    nvShaderThreadShuffle: bool,
    arbShaderBallot: bool,
    arbShaderViewportLayerArray: bool,
    variableAoffiLinkStatus: GLint,
    preciseLinkStatus: GLint,
    componentReadBack: nat -> U32)

  /** The graphics stages' limits in binding order. */
  function Stages(info: DriverInfo): (r: seq<StageLimits>)
    ensures |r| == 4
  {
    [info.vertex, info.tessControl, info.tessEvaluation, info.geometry]
  }

  datatype Device = Device(
    baseBindings: seq<BaseBindings>,
    uniformBufferAlignment: nat,
    shaderStorageAlignment: nat,
    maxVertexAttributes: U32,
    maxVaryings: U32,
    hasWarpIntrinsics: bool,
    hasShaderBallot: bool,
    hasVertexViewportLayer: bool,
    hasImageLoadFormatted: bool,
    hasVariableAoffi: bool,
    hasComponentIndexingBug: bool,
    hasPreciseBug: bool,
    hasBrokenCompute: bool,
    hasFastBufferSubData: bool)

  const ImageLoadFormattedExtension := "GL_EXT_shader_image_load_formatted"

  /** The device as the constructor fills it in from the driver's answers. */
  function MakeDevice(info: DriverInfo): (r: Device)
    ensures r.baseBindings == BaseBindingTable(Stages(info))
    ensures info.uniformBufferAlignment >= 0 ==> r.uniformBufferAlignment == info.uniformBufferAlignment
    ensures info.shaderStorageAlignment >= 0 ==> r.shaderStorageAlignment == info.shaderStorageAlignment
    ensures info.maxVertexAttribs >= 0 ==> r.maxVertexAttributes == info.maxVertexAttribs
    ensures info.maxVaryingVectors >= 0 ==> r.maxVaryings == info.maxVaryingVectors
    ensures r.hasWarpIntrinsics <==>
              info.nvGpuShader5 && info.nvShaderThreadGroup && info.nvShaderThreadShuffle
    ensures r.hasShaderBallot == info.arbShaderBallot
    ensures r.hasVertexViewportLayer == info.arbShaderViewportLayerArray
    ensures r.hasImageLoadFormatted <==> ImageLoadFormattedExtension in info.extensions
    ensures r.hasVariableAoffi <==> info.variableAoffiLinkStatus == GLTrue
    ensures r.hasComponentIndexingBug <==>
              exists i :: 4 <= i < 8 && info.componentReadBack(i) != ComponentTestValues[i]
    ensures r.hasPreciseBug <==> info.preciseLinkStatus != GLTrue
    ensures r.hasBrokenCompute <==> info.vendor == "Intel"
    ensures r.hasFastBufferSubData <==> info.vendor == "NVIDIA Corporation"
  {
    var isNvidia := info.vendor == "NVIDIA Corporation";
    var isIntel := info.vendor == "Intel";
    Device(
      BaseBindingTable(Stages(info)),
      ToSize(info.uniformBufferAlignment),
      ToSize(info.shaderStorageAlignment),
      ToU32(info.maxVertexAttribs),
      ToU32(info.maxVaryingVectors),
      info.nvGpuShader5 && info.nvShaderThreadGroup && info.nvShaderThreadShuffle,
      info.arbShaderBallot,
      info.arbShaderViewportLayerArray,
      HasExtension(info.extensions, ImageLoadFormattedExtension),
      TestVariableAoffi(info.variableAoffiLinkStatus),
      TestComponentIndexingBug(info.componentReadBack),
      TestPreciseBug(info.preciseLinkStatus),
      isIntel,
      isNvidia)
  }

  /** The vendor flags compare whole strings: Mesa's Intel vendor string and a
      lower-case spelling do not count. */
  lemma VendorMatchIsExact(info: DriverInfo)
    ensures info.vendor == "Intel Open Source Technology Center" ==> !MakeDevice(info).hasBrokenCompute
    ensures info.vendor == "nvidia corporation" ==> !MakeDevice(info).hasFastBufferSubData
    ensures !(MakeDevice(info).hasBrokenCompute && MakeDevice(info).hasFastBufferSubData)
  {
  }

  /** The device without a driver (for tests): the fields the null
      constructor sets; the others keep what `unset` holds. */
  function NullDevice(unset: Device): (r: Device)
    ensures r.uniformBufferAlignment == 0
    ensures r.maxVertexAttributes == 16 && r.maxVaryings == 15
    ensures r.hasWarpIntrinsics && r.hasShaderBallot && r.hasVertexViewportLayer
    ensures r.hasImageLoadFormatted && r.hasVariableAoffi
    ensures !r.hasComponentIndexingBug && !r.hasBrokenCompute && !r.hasPreciseBug
    ensures r.baseBindings == unset.baseBindings
    ensures r.shaderStorageAlignment == unset.shaderStorageAlignment
    ensures r.hasFastBufferSubData == unset.hasFastBufferSubData
  {
    unset.(uniformBufferAlignment := 0,
           maxVertexAttributes := 16,
           maxVaryings := 15,
           hasWarpIntrinsics := true,
           hasShaderBallot := true,
           hasVertexViewportLayer := true,
           hasImageLoadFormatted := true,
           hasVariableAoffi := true,
           hasComponentIndexingBug := false,
           hasBrokenCompute := false,
           hasPreciseBug := false)
  }

  /** The null device is the device of an ideal driver on its feature and bug
      flags: one with every feature, correct indexing and a precise probe that
      links. */
  lemma NullDeviceIsIdealDriver(unset: Device, info: DriverInfo)
    requires info.nvGpuShader5 && info.nvShaderThreadGroup && info.nvShaderThreadShuffle
    requires info.arbShaderBallot && info.arbShaderViewportLayerArray
    requires ImageLoadFormattedExtension in info.extensions
    requires info.variableAoffiLinkStatus == GLTrue && info.preciseLinkStatus == GLTrue
    requires forall j :: 4 <= j < 8 ==> info.componentReadBack(j) == ComponentTestValues[j]
    requires info.vendor != "Intel"
    ensures var ideal, nulled := MakeDevice(info), NullDevice(unset);
            && ideal.hasWarpIntrinsics == nulled.hasWarpIntrinsics
            && ideal.hasShaderBallot == nulled.hasShaderBallot
            && ideal.hasVertexViewportLayer == nulled.hasVertexViewportLayer
            && ideal.hasImageLoadFormatted == nulled.hasImageLoadFormatted
            && ideal.hasVariableAoffi == nulled.hasVariableAoffi
            && ideal.hasComponentIndexingBug == nulled.hasComponentIndexingBug
            && ideal.hasPreciseBug == nulled.hasPreciseBug
            && ideal.hasBrokenCompute == nulled.hasBrokenCompute
  {
  }
}
