/**
  The part of wgpu-types that the validation code reads: binding layout
  entries, texture and vertex formats, usage flags, shader stages and the
  dynamic-offset alignment.
 */
module Wgt {

  import opened Wrappers

  /** Byte alignment that every dynamic buffer offset must be a multiple of. */
  const BIND_BUFFER_ALIGNMENT: nat := 256

  /** `BufferAddress` is a u64; `DynamicOffset` is a u32. */
  type BufferAddress = x: nat | x < 0x1_0000_0000_0000_0000
  type DynamicOffset = x: nat | x < 0x1_0000_0000

  /** `BufferSize`, a non-zero byte count. */
  type BufferSize = x: nat | x > 0 witness 1

  datatype ShaderStage = VERTEX | FRAGMENT | COMPUTE
  /** The `ShaderStage` bitflags of a visibility mask. */
  type ShaderStages = set<ShaderStage>

  datatype BufferUsageFlag =
    MAP_READ | MAP_WRITE | COPY_SRC | COPY_DST | INDEX | VERTEX_BUFFER | UNIFORM | STORAGE | INDIRECT
  type BufferUsage = set<BufferUsageFlag>

  datatype TextureUsageFlag = TEX_COPY_SRC | TEX_COPY_DST | SAMPLED | TEX_STORAGE | OUTPUT_ATTACHMENT
  type TextureUsage = set<TextureUsageFlag>

  datatype TextureViewDimension = D1 | D2 | D2Array | Cube | CubeArray | D3

  datatype TextureComponentType = Float | Sint | Uint

  datatype TextureFormat =
    | R8Unorm | R8Snorm | R8Uint | R8Sint
    | R16Uint | R16Sint | R16Float
    | Rg8Unorm | Rg8Snorm | Rg8Uint | Rg8Sint
    | R32Uint | R32Sint | R32Float
    | Rg16Uint | Rg16Sint | Rg16Float
    | Rgba8Unorm | Rgba8UnormSrgb | Rgba8Snorm | Rgba8Uint | Rgba8Sint
    | Bgra8Unorm | Bgra8UnormSrgb
    | Rgb10a2Unorm | Rg11b10Float
    | Rg32Uint | Rg32Sint | Rg32Float
    | Rgba16Uint | Rgba16Sint | Rgba16Float
    | Rgba32Uint | Rgba32Sint | Rgba32Float
    | Depth32Float | Depth24Plus | Depth24PlusStencil8
  {
    predicate IsDepth() {
      Depth32Float? || Depth24Plus? || Depth24PlusStencil8?
    }
  }

  datatype VertexFormat =
    | Uchar2 | Uchar4 | Char2 | Char4
    | Uchar2Norm | Uchar4Norm | Char2Norm | Char4Norm
    | Ushort2 | Ushort4 | Short2 | Short4
    | Ushort2Norm | Ushort4Norm | Short2Norm | Short4Norm
    | Half2 | Half4
    | Float | Float2 | Float3 | Float4
    | Uint | Uint2 | Uint3 | Uint4
    | Int | Int2 | Int3 | Int4

  datatype BindingType =
    | UniformBuffer(dynamic: bool, minBindingSize: Option<BufferSize>)
    | StorageBuffer(dynamic: bool, minBindingSize: Option<BufferSize>, readonly: bool)
    | Sampler(comparison: bool)
    | SampledTexture(dimension: TextureViewDimension, componentType: TextureComponentType, multisampled: bool)
    | StorageTexture(dimension: TextureViewDimension, format: TextureFormat, readonly: bool)

  datatype BindGroupLayoutEntry = BindGroupLayoutEntry(binding: nat, visibility: ShaderStages, ty: BindingType)
}
