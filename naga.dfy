/**
  The part of naga's intermediate representation that the validation code reads:
  the type arena, global variables, per-function global usage and entry points.
  Handles into the arena are plain indices.
 */
module Naga {

  import opened Wrappers

  datatype ScalarKind = Sint | Uint | Float | Bool

  /** naga's `VectorSize`, whose discriminants are the component counts. */
  datatype VectorSize = Bi | Tri | Quad {
    function Count(): (n: nat)
      ensures 2 <= n <= 4
    {
      match this
      case Bi => 2
      case Tri => 3
      case Quad => 4
    }
  }

  /** spirv::Dim, the dimensionality of an image. */
  datatype Dim = Dim1D | Dim2D | Dim3D | DimCube | DimRect | DimBuffer | DimSubpassData

  datatype ImageFlag = Multisampled | Arrayed | Sampled
  type ImageFlags = set<ImageFlag>

  datatype ArraySize = Static(count: nat) | Dynamic

  /** A struct member: its optional name, byte offset and type. */
  datatype StructMember = StructMember(name: Option<string>, offset: nat, ty: nat)

  /** A handle of the type arena. */
  type TypeHandle = nat

  /** naga's `NonZeroU32` strides. */
  type Stride = x: nat | x > 0 witness 1

  /** Widths are in bits; a stride is a non-zero byte count. */
  datatype TypeInner =
    | Scalar(kind: ScalarKind, width: nat)
    | Vector(size: VectorSize, kind: ScalarKind, width: nat)
    | Matrix(columns: VectorSize, rows: VectorSize, kind: ScalarKind, width: nat)
    | Pointer(base: TypeHandle)
    | Array(base: TypeHandle, arraySize: ArraySize, stride: Option<Stride>)
    | Struct(members: seq<StructMember>)
    | Image(base: TypeHandle, dim: Dim, flags: ImageFlags)
    | Sampler(comparison: bool)

  /** Every handle the type refers to is below `bound`. */
  predicate RefsBelow(t: TypeInner, bound: nat)
  {
    match t
    case Pointer(base) => base < bound
    case Array(base, _, _) => base < bound
    case Struct(members) => forall i :: 0 <= i < |members| ==> members[i].ty < bound
    case Image(base, _, _) => base < bound
    case _ => true
  }

  /**
    The arena is built bottom-up: every type refers only to types with smaller
    handles, so the arena is acyclic.
   */
  predicate TypesValid(types: seq<TypeInner>)
  {
    forall h :: 0 <= h < |types| ==> RefsBelow(types[h], h)
  }

  datatype GlobalUseFlag = Load | Store
  /** naga's `GlobalUse` bitflags. */
  type GlobalUse = set<GlobalUseFlag>

  const GLOBAL_USE_ALL: GlobalUse := {Load, Store}

  datatype Binding =
    | BuiltIn(builtIn: nat)
    | Location(location: nat)
    | Descriptor(group: nat, binding: nat)

  datatype GlobalVariable = GlobalVariable(binding: Option<Binding>, ty: TypeHandle)

  datatype Function = Function(globalUsage: seq<GlobalUse>)

  /** spirv::ExecutionModel. */
  datatype ExecutionModel =
    | Vertex | TessellationControl | TessellationEvaluation | Geometry
    | Fragment | GLCompute | Kernel

  datatype EntryPoint = EntryPoint(name: string, execModel: ExecutionModel, functionHandle: nat)

  datatype Module = Module(
    types: seq<TypeInner>,
    globalVariables: seq<GlobalVariable>,
    functions: seq<Function>,
    entryPoints: seq<EntryPoint>)

  /** Every handle and index stored in the module is in range of its arena. */
  predicate ModuleValid(m: Module)
  {
    && TypesValid(m.types)
    && (forall i :: 0 <= i < |m.globalVariables| ==> m.globalVariables[i].ty < |m.types|)
    && (forall i :: 0 <= i < |m.entryPoints| ==> m.entryPoints[i].functionHandle < |m.functions|)
  }
}
