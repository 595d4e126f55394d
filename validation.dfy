/**
  Validation of a reflected shader module against the binding layout and the
  previous stage's outputs (wgpu-core's validation.rs).
 */
module Validation {

  import opened Wrappers
  import opened Naga
  import Wgt
  import BindingModel

  // ---------------------------------------------------------------------------
  // Errors
  // ---------------------------------------------------------------------------

  datatype MissingBufferUsageError = MissingBufferUsageError(actual: Wgt.BufferUsage, expected: Wgt.BufferUsage)

  datatype MissingTextureUsageError = MissingTextureUsageError(actual: Wgt.TextureUsage, expected: Wgt.TextureUsage)

  datatype BindingError =
    | Missing
    | Invisible
    | WrongUsage(usage: GlobalUse)
    | WrongType
    | WrongBufferSize(size: nat)
    | WrongTextureViewDimension(dim: Dim, isArray: bool)
    | WrongTextureComponentType(kind: Option<ScalarKind>)
    | WrongTextureSampled
    | WrongTextureMultisampled
    | WrongSamplerComparison

  datatype InputError = InputMissing | InputWrongType

  datatype StageError =
    | MissingEntryPoint(model: ExecutionModel)
    | BindingFailed(group: nat, binding: nat, bindingError: BindingError)
    | InputFailed(location: nat, inputError: InputError)

  // ---------------------------------------------------------------------------
  // Usage containment
  // ---------------------------------------------------------------------------

  /** A buffer's usage must contain every usage the operation needs. */
  function CheckBufferUsage(actual: Wgt.BufferUsage, expected: Wgt.BufferUsage): (r: Result<(), MissingBufferUsageError>)
    ensures r.Ok? <==> expected <= actual
    ensures r.Err? ==> r.error == MissingBufferUsageError(actual, expected)
  {
    if !(expected <= actual) then Err(MissingBufferUsageError(actual, expected)) else Ok(())
  }

  /** A texture's usage must contain every usage the operation needs. */
  function CheckTextureUsage(actual: Wgt.TextureUsage, expected: Wgt.TextureUsage): (r: Result<(), MissingTextureUsageError>)
    ensures r.Ok? <==> expected <= actual
    ensures r.Err? ==> r.error == MissingTextureUsageError(actual, expected)
  {
    if !(expected <= actual) then Err(MissingTextureUsageError(actual, expected)) else Ok(())
  }

  /** Granting a resource more usages never makes a passing check fail. */
  lemma UsageCheckMonotone(actual: Wgt.BufferUsage, wider: Wgt.BufferUsage, expected: Wgt.BufferUsage,
                           tActual: Wgt.TextureUsage, tWider: Wgt.TextureUsage, tExpected: Wgt.TextureUsage)
    requires actual <= wider && tActual <= tWider
    ensures CheckBufferUsage(actual, expected).Ok? ==> CheckBufferUsage(wider, expected).Ok?
    ensures CheckTextureUsage(tActual, tExpected).Ok? ==> CheckTextureUsage(tWider, tExpected).Ok?
  {
  }

  // ---------------------------------------------------------------------------
  // Aggregate size
  // ---------------------------------------------------------------------------

  /**
    The size calculation does not panic on `h`: no sampler or image is reached,
    and an unbounded array appears only where `allowUnbound` holds.
   */
  predicate Sizable(types: seq<TypeInner>, h: TypeHandle, allowUnbound: bool)
    requires TypesValid(types) && h < |types|
    decreases h
  {
    match types[h]
    case Scalar(_, _) => true
    case Vector(_, _, _) => true
    case Matrix(_, _, _, _) => true
    case Pointer(_) => true
    case Array(base, Static(_), stride) => stride.Some? || Sizable(types, base, false)
    case Array(base, Dynamic, stride) => allowUnbound && (stride.Some? || Sizable(types, base, false))
    case Struct(members) => |members| == 0 || Sizable(types, members[|members| - 1].ty, false)
    case Image(_, _, _) => false
    case Sampler(_) => false
  }

  /** Host-visible byte size of type `h`, without alignment padding. */
  function AlignedTypeSize(types: seq<TypeInner>, h: TypeHandle, allowUnbound: bool): nat
    requires TypesValid(types) && h < |types| && Sizable(types, h, allowUnbound)
    decreases h
  {
    match types[h]
    case Scalar(_, width) => width / 8
    case Vector(size, _, width) => size.Count() * width / 8
    case Matrix(columns, rows, _, width) => rows.Count() * columns.Count() * width / 8
    case Pointer(_) => 4
    case Array(base, Static(count), stride) =>
      (if stride.Some? then stride.value else AlignedTypeSize(types, base, false)) * count
    case Array(base, Dynamic, stride) =>
      if stride.Some? then stride.value else AlignedTypeSize(types, base, false)
    case Struct(members) =>
      if |members| == 0 then 0
      else members[|members| - 1].offset + AlignedTypeSize(types, members[|members| - 1].ty, false)
  }

  /**
    The size of each kind of type: a scalar is its width in bytes, a vector or
    matrix the product of its component counts and width, a pointer 4 bytes,
    an array its stride (or else its element's size) times its count, with an
    unbounded array counted once, and a struct its last member's offset plus
    that member's size, or 0 without members.
   */
  lemma AlignedTypeSizeRules(types: seq<TypeInner>, h: TypeHandle, allowUnbound: bool)
    requires TypesValid(types) && h < |types| && Sizable(types, h, allowUnbound)
    ensures types[h].Scalar? ==> AlignedTypeSize(types, h, allowUnbound) == types[h].width / 8
    ensures types[h].Vector? ==>
      AlignedTypeSize(types, h, allowUnbound) == types[h].size.Count() * types[h].width / 8
    ensures types[h].Matrix? ==>
      AlignedTypeSize(types, h, allowUnbound) == types[h].rows.Count() * types[h].columns.Count() * types[h].width / 8
    ensures types[h].Pointer? ==> AlignedTypeSize(types, h, allowUnbound) == 4
    ensures types[h].Array? && types[h].stride.Some? ==>
      AlignedTypeSize(types, h, allowUnbound) ==
        types[h].stride.value * (if types[h].arraySize.Static? then types[h].arraySize.count else 1)
    ensures types[h].Array? && types[h].stride.None? ==>
      Sizable(types, types[h].base, false) &&
      AlignedTypeSize(types, h, allowUnbound) ==
        AlignedTypeSize(types, types[h].base, false) * (if types[h].arraySize.Static? then types[h].arraySize.count else 1)
    ensures types[h].Struct? && |types[h].members| == 0 ==> AlignedTypeSize(types, h, allowUnbound) == 0
    ensures types[h].Struct? && |types[h].members| > 0 ==>
      var last := types[h].members[|types[h].members| - 1];
      Sizable(types, last.ty, false) &&
      AlignedTypeSize(types, h, allowUnbound) == last.offset + AlignedTypeSize(types, last.ty, false)
    ensures !types[h].Image? && !types[h].Sampler?
  {
  }

  /**
    `allowUnbound` matters only to an unbounded array: every type sizable
    without it is sizable with it, at the same size, and any other type is
    sizable either way at the same size.
   */
  lemma SizeUnboundOnlyForDynamicArray(types: seq<TypeInner>, h: TypeHandle)
    requires TypesValid(types) && h < |types|
    ensures Sizable(types, h, false) ==>
      Sizable(types, h, true) && AlignedTypeSize(types, h, true) == AlignedTypeSize(types, h, false)
    ensures !(types[h].Array? && types[h].arraySize.Dynamic?) ==>
      (Sizable(types, h, true) <==> Sizable(types, h, false))
    ensures types[h].Array? && types[h].arraySize.Dynamic? ==> !Sizable(types, h, false)
  {
  }

  /**
    An unbounded array counts exactly one element: its size equals that of a
    one-element static array of the same element and stride.
   */
  lemma DynamicArrayCountsOneElement(types: seq<TypeInner>, h: TypeHandle, one: TypeHandle)
    requires TypesValid(types) && h < |types| && one < |types|
    requires types[h].Array? && types[h].arraySize.Dynamic?
    requires types[one] == Array(types[h].base, Static(1), types[h].stride)
    requires Sizable(types, h, true)
    ensures Sizable(types, one, false)
    ensures AlignedTypeSize(types, h, true) == AlignedTypeSize(types, one, false)
  {
  }

  /**
    Below the top level everything is sized with `allowUnbound` false: a
    struct whose last member, or a stride-less array whose element, is an
    unbounded array cannot be sized at all. A static array with a stride
    never sizes its element, so it can always be sized.
   */
  lemma NestedUnboundNeverSizable(types: seq<TypeInner>, h: TypeHandle, allowUnbound: bool)
    requires TypesValid(types) && h < |types|
    ensures types[h].Struct? && |types[h].members| > 0 &&
            types[types[h].members[|types[h].members| - 1].ty].Array? &&
            types[types[h].members[|types[h].members| - 1].ty].arraySize.Dynamic? ==>
      !Sizable(types, h, allowUnbound)
    ensures types[h].Array? && types[h].stride.None? &&
            types[types[h].base].Array? && types[types[h].base].arraySize.Dynamic? ==>
      !Sizable(types, h, allowUnbound)
    ensures types[h].Array? && types[h].arraySize.Static? && types[h].stride.Some? ==>
      Sizable(types, h, allowUnbound)
  {
  }

  /**
    A struct with members at offsets 0 and 16, the first 16 bytes long, has
    size 16 plus the second member's size, nested or at the top level; a
    trailing unbounded array counts one stride.
   */
  lemma StructSizeAccumulation(types: seq<TypeInner>, h: TypeHandle)
    requires TypesValid(types) && h < |types| && types[h].Struct? && |types[h].members| == 2
    requires types[h].members[0].offset == 0 && types[h].members[1].offset == 16
    requires MembersSizable(types, types[h].members)
    requires AlignedTypeSize(types, types[h].members[0].ty, false) == 16
    ensures MemberSizeSum(types, types[h].members, 2) == 16 + AlignedTypeSize(types, types[h].members[1].ty, true)
    ensures Sizable(types, h, false) ==>
      AlignedTypeSize(types, h, false) == 16 + AlignedTypeSize(types, types[h].members[1].ty, false)
    ensures
      var last := types[types[h].members[1].ty];
      last.Array? && last.arraySize.Dynamic? && last.stride.Some? ==>
        MemberSizeSum(types, types[h].members, 2) == 16 + last.stride.value
  {
  }

  /** Every member of a top-level buffer struct can be sized; only the last may be unbounded. */
  predicate MembersSizable(types: seq<TypeInner>, members: seq<StructMember>)
    requires TypesValid(types)
  {
    forall i :: 0 <= i < |members| ==>
      members[i].ty < |types| && Sizable(types, members[i].ty, i + 1 == |members|)
  }

  /** Sum of the sizes of the first `k` members, the last member allowed to be unbounded. */
  function MemberSizeSum(types: seq<TypeInner>, members: seq<StructMember>, k: nat): nat
    requires TypesValid(types) && MembersSizable(types, members) && k <= |members|
    decreases k
  {
    if k == 0 then 0
    else MemberSizeSum(types, members, k - 1) + AlignedTypeSize(types, members[k - 1].ty, k == |members|)
  }

  /** Members laid out in order without overlap. */
  predicate NonOverlapping(types: seq<TypeInner>, members: seq<StructMember>)
    requires TypesValid(types) && MembersSizable(types, members)
  {
    forall j :: 0 <= j < |members| - 1 ==>
      members[j].offset + AlignedTypeSize(types, members[j].ty, false) <= members[j + 1].offset
  }

  /** Members laid out back to back from offset 0. */
  predicate Packed(types: seq<TypeInner>, members: seq<StructMember>)
    requires TypesValid(types) && MembersSizable(types, members)
  {
    && (|members| > 0 ==> members[0].offset == 0)
    && forall j :: 0 <= j < |members| - 1 ==>
         members[j].offset + AlignedTypeSize(types, members[j].ty, false) == members[j + 1].offset
  }

  lemma {:induction false} MemberSizeSumPrefix(types: seq<TypeInner>, members: seq<StructMember>, k: nat)
    requires TypesValid(types) && MembersSizable(types, members) && NonOverlapping(types, members)
    requires 1 <= k <= |members|
    ensures MemberSizeSum(types, members, k) <=
            members[k - 1].offset + AlignedTypeSize(types, members[k - 1].ty, k == |members|)
    ensures Packed(types, members) ==>
            MemberSizeSum(types, members, k) ==
            members[k - 1].offset + AlignedTypeSize(types, members[k - 1].ty, k == |members|)
    decreases k
  {
    if k > 1 {
      MemberSizeSumPrefix(types, members, k - 1);
    }
  }

  /**
    A top-level buffer struct is sized as the sum of its members, a nested one
    as its last offset plus its last member's size. With members that do not
    overlap the sum never exceeds the nested size, and packed from offset 0
    the two agree.
   */
  lemma TopLevelSumVersusNestedSize(types: seq<TypeInner>, h: TypeHandle)
    requires TypesValid(types) && h < |types| && types[h].Struct?
    requires MembersSizable(types, types[h].members) && Sizable(types, h, false)
    requires NonOverlapping(types, types[h].members)
    ensures MemberSizeSum(types, types[h].members, |types[h].members|) <= AlignedTypeSize(types, h, false)
    ensures Packed(types, types[h].members) ==>
            MemberSizeSum(types, types[h].members, |types[h].members|) == AlignedTypeSize(types, h, false)
  {
    var members := types[h].members;
    if |members| > 0 {
      MemberSizeSumPrefix(types, members, |members|);
      SizeUnboundOnlyForDynamicArray(types, members[|members| - 1].ty);
    }
  }

  // ---------------------------------------------------------------------------
  // Type compatibility
  // ---------------------------------------------------------------------------

  /** Whether a value of type `provided` satisfies a consumer that requires `sub`. */
  function IsSubType(sub: TypeInner, provided: TypeInner): bool
  {
    match (sub, provided)
    case (Scalar(k0, w0), Scalar(k1, w1)) => k0 == k1 && w0 <= w1
    case (Scalar(k0, w0), Vector(_, k1, w1)) => k0 == k1 && w0 <= w1
    case (Vector(s0, k0, w0), Vector(s1, k1, w1)) => s0.Count() <= s1.Count() && k0 == k1 && w0 <= w1
    case (Matrix(c0, r0, k0, w0), Matrix(c1, r1, k1, w1)) => c0 == c1 && r0 == r1 && k0 == k1 && w0 <= w1
    case (Struct(m0), Struct(m1)) => m0 == m1
    case _ => false
  }

  predicate IsNumeric(t: TypeInner)
  {
    t.Scalar? || t.Vector?
  }

  /** A scalar is a vector of one component. */
  function ComponentCount(t: TypeInner): nat
    requires IsNumeric(t)
  {
    if t.Scalar? then 1 else t.size.Count()
  }

  /**
    On scalars and vectors, `provided` satisfies `sub` iff both have the same
    kind, `sub` is no wider and has no more components.
   */
  lemma SubTypeNumericIff(sub: TypeInner, provided: TypeInner)
    requires IsNumeric(sub) && IsNumeric(provided)
    ensures IsSubType(sub, provided) <==>
      sub.kind == provided.kind && sub.width <= provided.width &&
      ComponentCount(sub) <= ComponentCount(provided)
  {
  }

  /** Scalars, vectors, matrices and structs satisfy themselves; nothing else does. */
  lemma SubTypeReflexive(t: TypeInner)
    ensures IsSubType(t, t) <==> (t.Scalar? || t.Vector? || t.Matrix? || t.Struct?)
  {
  }

  /**
    Pointers, arrays, samplers and images are never compatible, in either
    position; a scalar needs a scalar or vector of its kind.
   */
  lemma SubTypeOnlyValueTypes(sub: TypeInner, provided: TypeInner)
    requires IsSubType(sub, provided)
    ensures sub.Scalar? || sub.Vector? || sub.Matrix? || sub.Struct?
    ensures provided.Scalar? || provided.Vector? || provided.Matrix? || provided.Struct?
    ensures sub.Scalar? ==> IsNumeric(provided) && provided.kind == sub.kind
    ensures sub.Vector? ==> provided.Vector?
    ensures sub.Matrix? ==> provided.Matrix?
    ensures sub.Struct? ==> provided == sub
  {
  }

  /**
    Structs are compared as whole member lists, names included: members that
    differ only in their names do not satisfy each other.
   */
  lemma SubTypeStructEquality(m0: seq<StructMember>, m1: seq<StructMember>)
    ensures IsSubType(Struct(m0), Struct(m1)) <==> m0 == m1
    ensures !IsSubType(Struct([StructMember(Some("a"), 0, 0)]), Struct([StructMember(Some("b"), 0, 0)]))
  {
  }

  /** A matrix needs a matrix of the same shape and kind, at least as wide. */
  lemma SubTypeMatrixIff(c0: VectorSize, r0: VectorSize, k0: ScalarKind, w0: nat,
                         c1: VectorSize, r1: VectorSize, k1: ScalarKind, w1: nat)
    ensures IsSubType(Matrix(c0, r0, k0, w0), Matrix(c1, r1, k1, w1)) <==>
      c0 == c1 && r0 == r1 && k0 == k1 && w0 <= w1
  {
  }

  lemma SubTypeTransitive(a: TypeInner, b: TypeInner, c: TypeInner)
    requires IsSubType(a, b) && IsSubType(b, c)
    ensures IsSubType(a, c)
  {
  }

  /** Compatibility is one-directional: two types that satisfy each other are equal. */
  lemma SubTypeAntisymmetric(a: TypeInner, b: TypeInner)
    requires IsSubType(a, b) && IsSubType(b, a)
    ensures a == b
  {
  }

  // ---------------------------------------------------------------------------
  // One binding
  // ---------------------------------------------------------------------------

  /** The type behind one level of pointer indirection. */
  function UnwrapPointer(types: seq<TypeInner>, h: TypeHandle): (t: TypeInner)
    requires TypesValid(types) && h < |types|
    ensures types[h].Pointer? ==> t == types[types[h].base]
    ensures !types[h].Pointer? ==> t == types[h]
  {
    match types[h]
    case Pointer(base) => types[base]
    case _ => types[h]
  }

  predicate IsBuffer(ty: Wgt.BindingType)
  {
    ty.UniformBuffer? || ty.StorageBuffer?
  }

  /** The size calculation of a buffer binding does not panic. */
  predicate BindingSizable(types: seq<TypeInner>, ty: TypeHandle, entry: Wgt.BindGroupLayoutEntry)
    requires TypesValid(types) && ty < |types|
  {
    UnwrapPointer(types, ty).Struct? && IsBuffer(entry.ty) ==>
      MembersSizable(types, UnwrapPointer(types, ty).members)
  }

  /** Usage a buffer entry allows: writable storage allows everything, the rest only loads. */
  function BufferAllowedUsage(ty: Wgt.BindingType): GlobalUse
    requires IsBuffer(ty)
  {
    if ty.StorageBuffer? && !ty.readonly then GLOBAL_USE_ALL else {Load}
  }

  /** The texture view dimension fits the image's dimensionality and arrayed flag. */
  predicate ViewDimensionMatches(dim: Dim, arrayed: bool, view: Wgt.TextureViewDimension)
  {
    if arrayed then
      (dim == Dim2D && view == Wgt.D2Array) || (dim == DimCube && view == Wgt.CubeArray)
    else
      || (dim == Dim1D && view == Wgt.D1)
      || (dim == Dim2D && view == Wgt.D2)
      || (dim == Dim3D && view == Wgt.D3)
      || (dim == DimCube && view == Wgt.Cube)
  }

  function ExpectedScalarKind(c: Wgt.TextureComponentType): ScalarKind
  {
    match c
    case Float => ScalarKind.Float
    case Sint => ScalarKind.Sint
    case Uint => ScalarKind.Uint
  }

  /** The component-type check of a sampled texture against the image's base type. */
  function ComponentTypeError(base: TypeInner, c: Wgt.TextureComponentType): Option<BindingError>
  {
    if IsNumeric(base) then
      if base.kind == ExpectedScalarKind(c) then None else Some(WrongTextureComponentType(Some(base.kind)))
    else Some(WrongTextureComponentType(None))
  }

  /** Usage allowed by a texture entry for an image, or the first check that fails. */
  function ImageAllowedUsage(types: seq<TypeInner>, base: TypeHandle, dim: Dim, flags: ImageFlags, ty: Wgt.BindingType): Result<GlobalUse, BindingError>
    requires base < |types|
  {
    if Multisampled in flags && !(ty.SampledTexture? && ty.multisampled) then
      Err(WrongTextureMultisampled)
    else if !(ty.SampledTexture? || ty.StorageTexture?) then
      Err(WrongTextureViewDimension(dim, true))
    else if !ViewDimensionMatches(dim, Arrayed in flags, ty.dimension) then
      Err(WrongTextureViewDimension(dim, Arrayed in flags))
    else if ty.SampledTexture? && ComponentTypeError(types[base], ty.componentType).Some? then
      Err(ComponentTypeError(types[base], ty.componentType).value)
    else if ty.SampledTexture? != (Sampled in flags) then
      Err(WrongTextureSampled)
    else if ty.SampledTexture? || ty.readonly then
      Ok({Load})
    else
      Ok({Store})
  }

  /** Usage the layout entry allows for the global's type, or the first check that fails. */
  function AllowedUsage(types: seq<TypeInner>, ty: TypeHandle, entry: Wgt.BindGroupLayoutEntry): Result<GlobalUse, BindingError>
    requires TypesValid(types) && ty < |types| && BindingSizable(types, ty, entry)
  {
    match UnwrapPointer(types, ty)
    case Struct(members) =>
      if !IsBuffer(entry.ty) then Err(WrongType)
      else
        var size := MemberSizeSum(types, members, |members|);
        if entry.ty.minBindingSize.Some? && entry.ty.minBindingSize.value < size then Err(WrongBufferSize(size))
        else Ok(BufferAllowedUsage(entry.ty))
    case Sampler(comparison) =>
      if !entry.ty.Sampler? then Err(WrongType)
      else if entry.ty.comparison != comparison then Err(WrongSamplerComparison)
      else Ok({})
    case Image(base, dim, flags) =>
      ImageAllowedUsage(types, base, dim, flags, entry.ty)
    case _ => Err(WrongType)
  }

  /** Reference outcome of checking one global against one layout entry. */
  function BindingResult(m: Module, v: GlobalVariable, entry: Wgt.BindGroupLayoutEntry, usage: GlobalUse): Result<(), BindingError>
    requires TypesValid(m.types) && v.ty < |m.types| && BindingSizable(m.types, v.ty, entry)
  {
    match AllowedUsage(m.types, v.ty, entry)
    case Err(e) => Err(e)
    case Ok(allowed) => if usage <= allowed then Ok(()) else Err(WrongUsage(usage))
  }

  /** Checks one global resource against one binding layout entry. */
  method CheckBinding(m: Module, v: GlobalVariable, entry: Wgt.BindGroupLayoutEntry, usage: GlobalUse)
    returns (r: Result<(), BindingError>)
    requires TypesValid(m.types) && v.ty < |m.types| && BindingSizable(m.types, v.ty, entry)
    ensures r == BindingResult(m, v, entry, usage)
  {
    var tyInner := m.types[v.ty];
    if tyInner.Pointer? {
      tyInner := m.types[tyInner.base];
    }
    assert tyInner == UnwrapPointer(m.types, v.ty);
    var allowedUsage: GlobalUse;
    match tyInner {
      case Struct(members) =>
        var minSize: Option<Wgt.BufferSize>;
        match entry.ty {
          case UniformBuffer(_, minBindingSize) =>
            allowedUsage, minSize := {Load}, minBindingSize;
          case StorageBuffer(_, minBindingSize, readonly) =>
            allowedUsage := if readonly then {Load} else GLOBAL_USE_ALL;
            minSize := minBindingSize;
          case _ =>
            return Err(WrongType);
        }
        var actualSize := 0;
        var i := 0;
        while i < |members|
          invariant 0 <= i <= |members|
          invariant actualSize == MemberSizeSum(m.types, members, i)
        {
          actualSize := actualSize + AlignedTypeSize(m.types, members[i].ty, i + 1 == |members|);
          i := i + 1;
        }
        if minSize.Some? && minSize.value < actualSize {
          return Err(WrongBufferSize(actualSize));
        }
      case Sampler(comparison) =>
        match entry.ty {
          case Sampler(cmp) =>
            if cmp == comparison {
              allowedUsage := {};
            } else {
              return Err(WrongSamplerComparison);
            }
          case _ =>
            return Err(WrongType);
        }
      case Image(base, dim, flags) =>
        if Multisampled in flags && !(entry.ty.SampledTexture? && entry.ty.multisampled) {
          return Err(WrongTextureMultisampled);
        }
        if !(entry.ty.SampledTexture? || entry.ty.StorageTexture?) {
          return Err(WrongTextureViewDimension(dim, true));
        }
        var viewDimension := entry.ty.dimension;
        if !ViewDimensionMatches(dim, Arrayed in flags, viewDimension) {
          return Err(WrongTextureViewDimension(dim, Arrayed in flags));
        }
        var isSampled: bool;
        if entry.ty.SampledTexture? {
          var expectedScalarKind := ExpectedScalarKind(entry.ty.componentType);
          var baseInner := m.types[base];
          if IsNumeric(baseInner) {
            if baseInner.kind != expectedScalarKind {
              return Err(WrongTextureComponentType(Some(baseInner.kind)));
            }
          } else {
            return Err(WrongTextureComponentType(None));
          }
          allowedUsage, isSampled := {Load}, true;
        } else {
          allowedUsage := if entry.ty.readonly then {Load} else {Store};
          isSampled := false;
        }
        if isSampled != (Sampled in flags) {
          return Err(WrongTextureSampled);
        }
      case _ =>
        return Err(WrongType);
    }
    if usage <= allowedUsage {
      r := Ok(());
    } else {
      r := Err(WrongUsage(usage));
    }
  }

  /**
    A struct binds only to a buffer entry (else WrongType); it is too small
    exactly when a minimum size is declared below the member-size sum, which
    is then reported; otherwise it is accepted iff its usage is within LOAD
    (uniform or read-only storage) or LOAD and STORE (writable storage).
   */
  lemma StructBindingRules(m: Module, v: GlobalVariable, entry: Wgt.BindGroupLayoutEntry, usage: GlobalUse)
    requires TypesValid(m.types) && v.ty < |m.types| && BindingSizable(m.types, v.ty, entry)
    requires UnwrapPointer(m.types, v.ty).Struct?
    ensures !IsBuffer(entry.ty) ==> BindingResult(m, v, entry, usage) == Err(WrongType)
    ensures IsBuffer(entry.ty) ==>
      var members := UnwrapPointer(m.types, v.ty).members;
      var size := MemberSizeSum(m.types, members, |members|);
      && (BindingResult(m, v, entry, usage) == Err(WrongBufferSize(size)) <==>
            entry.ty.minBindingSize.Some? && entry.ty.minBindingSize.value < size)
      && (BindingResult(m, v, entry, usage).Ok? <==>
            !(entry.ty.minBindingSize.Some? && entry.ty.minBindingSize.value < size) &&
            usage <= BufferAllowedUsage(entry.ty))
    ensures IsBuffer(entry.ty) && !(entry.ty.StorageBuffer? && !entry.ty.readonly) ==>
      BufferAllowedUsage(entry.ty) == {Load}
    ensures entry.ty.StorageBuffer? && !entry.ty.readonly ==>
      var members := UnwrapPointer(m.types, v.ty).members;
      var size := MemberSizeSum(m.types, members, |members|);
      !(entry.ty.minBindingSize.Some? && entry.ty.minBindingSize.value < size) ==>
        BindingResult(m, v, entry, usage) == Ok(())
  {
    forall x | x in usage
      ensures x in GLOBAL_USE_ALL
    {
      assert x == Load || x == Store;
    }
  }

  /**
    A sampler binds only to a sampler entry (else WrongType) with the same
    comparison flag (else WrongSamplerComparison), and then only when the
    shader neither loads nor stores it.
   */
  lemma SamplerBindingRules(m: Module, v: GlobalVariable, entry: Wgt.BindGroupLayoutEntry, usage: GlobalUse)
    requires TypesValid(m.types) && v.ty < |m.types| && BindingSizable(m.types, v.ty, entry)
    requires UnwrapPointer(m.types, v.ty).Sampler?
    ensures !entry.ty.Sampler? ==> BindingResult(m, v, entry, usage) == Err(WrongType)
    ensures entry.ty.Sampler? && entry.ty.comparison != UnwrapPointer(m.types, v.ty).comparison ==>
      BindingResult(m, v, entry, usage) == Err(WrongSamplerComparison)
    ensures BindingResult(m, v, entry, usage).Ok? <==>
      entry.ty.Sampler? && entry.ty.comparison == UnwrapPointer(m.types, v.ty).comparison && usage == {}
  {
  }

  /**
    The checks on an image, in order: multisampling, entry kind, view
    dimension, component type, sampling capability, then usage.
   */
  lemma ImageBindingRules(m: Module, v: GlobalVariable, entry: Wgt.BindGroupLayoutEntry, usage: GlobalUse)
    requires TypesValid(m.types) && v.ty < |m.types| && BindingSizable(m.types, v.ty, entry)
    requires UnwrapPointer(m.types, v.ty).Image?
    ensures
      var img := UnwrapPointer(m.types, v.ty);
      var r := BindingResult(m, v, entry, usage);
      var ms := Multisampled in img.flags && !(entry.ty.SampledTexture? && entry.ty.multisampled);
      var isTexture := entry.ty.SampledTexture? || entry.ty.StorageTexture?;
      && (ms ==> r == Err(WrongTextureMultisampled))
      && (!ms && !isTexture ==> r == Err(WrongTextureViewDimension(img.dim, true)))
      && (!ms && isTexture && !ViewDimensionMatches(img.dim, Arrayed in img.flags, entry.ty.dimension) ==>
            r == Err(WrongTextureViewDimension(img.dim, Arrayed in img.flags)))
      && (!ms && isTexture && ViewDimensionMatches(img.dim, Arrayed in img.flags, entry.ty.dimension) ==>
            if entry.ty.SampledTexture? && ComponentTypeError(m.types[img.base], entry.ty.componentType).Some? then
              r == Err(ComponentTypeError(m.types[img.base], entry.ty.componentType).value)
            else if entry.ty.SampledTexture? != (Sampled in img.flags) then
              r == Err(WrongTextureSampled)
            else
              (r.Ok? <==> usage <= (if entry.ty.SampledTexture? || entry.ty.readonly then {Load} else {Store})))
  {
  }

  /** The component type of a sampled texture must equal the kind of the image's scalar or vector base. */
  lemma ComponentTypeRule(base: TypeInner, c: Wgt.TextureComponentType)
    ensures ComponentTypeError(base, c).None? <==> IsNumeric(base) && base.kind == ExpectedScalarKind(c)
    ensures IsNumeric(base) && base.kind != ExpectedScalarKind(c) ==>
      ComponentTypeError(base, c) == Some(WrongTextureComponentType(Some(base.kind)))
    ensures !IsNumeric(base) ==> ComponentTypeError(base, c) == Some(WrongTextureComponentType(None))
  {
  }

  /**
    Only the listed pairs of image dimensionality and view dimension match:
    each image dimensionality has at most one matching view.
   */
  lemma ViewDimensionPairs(dim: Dim, arrayed: bool, view: Wgt.TextureViewDimension)
    ensures ViewDimensionMatches(dim, arrayed, view) <==>
      (dim, view) in (if arrayed then {(Dim2D, Wgt.D2Array), (DimCube, Wgt.CubeArray)}
                      else {(Dim1D, Wgt.D1), (Dim2D, Wgt.D2), (Dim3D, Wgt.D3), (DimCube, Wgt.Cube)})
    ensures forall other :: ViewDimensionMatches(dim, arrayed, view) && ViewDimensionMatches(dim, arrayed, other) ==>
      other == view
    ensures ViewDimensionMatches(dim, arrayed, view) ==>
      if arrayed then view == Wgt.D2Array || view == Wgt.CubeArray
      else view != Wgt.D2Array && view != Wgt.CubeArray
    ensures ViewDimensionMatches(dim, arrayed, view) ==>
      dim != DimRect && dim != DimBuffer && dim != DimSubpassData && (arrayed ==> dim != Dim1D && dim != Dim3D)
  {
  }

  /** Every binding check ends with usage containment: a global that is accepted stays accepted with less usage. */
  lemma BindingUsageMonotone(m: Module, v: GlobalVariable, entry: Wgt.BindGroupLayoutEntry, usage: GlobalUse, fewer: GlobalUse)
    requires TypesValid(m.types) && v.ty < |m.types| && BindingSizable(m.types, v.ty, entry)
    requires fewer <= usage
    ensures BindingResult(m, v, entry, usage).Ok? ==> BindingResult(m, v, entry, fewer).Ok?
    ensures AllowedUsage(m.types, v.ty, entry).Ok? && !(usage <= AllowedUsage(m.types, v.ty, entry).value) ==>
      BindingResult(m, v, entry, usage) == Err(WrongUsage(usage))
    ensures BindingResult(m, v, entry, usage).Err? && !BindingResult(m, v, entry, usage).error.WrongUsage? ==>
      BindingResult(m, v, entry, fewer) == BindingResult(m, v, entry, usage)
  {
  }

  /** Scalars, vectors, matrices, arrays and doubly indirect pointers never bind. */
  lemma OtherTypesWrongType(m: Module, v: GlobalVariable, entry: Wgt.BindGroupLayoutEntry, usage: GlobalUse)
    requires TypesValid(m.types) && v.ty < |m.types| && BindingSizable(m.types, v.ty, entry)
    requires !(UnwrapPointer(m.types, v.ty).Struct? || UnwrapPointer(m.types, v.ty).Sampler? || UnwrapPointer(m.types, v.ty).Image?)
    ensures BindingResult(m, v, entry, usage) == Err(WrongType)
  {
  }

  /** A global of pointer type is checked as the type it points to. */
  lemma BindingSeesThroughPointer(m: Module, v: GlobalVariable, entry: Wgt.BindGroupLayoutEntry, usage: GlobalUse)
    requires TypesValid(m.types) && v.ty < |m.types| && m.types[v.ty].Pointer?
    requires !m.types[m.types[v.ty].base].Pointer?
    requires BindingSizable(m.types, v.ty, entry)
    ensures BindingSizable(m.types, m.types[v.ty].base, entry)
    ensures BindingResult(m, v, entry, usage) ==
            BindingResult(m, GlobalVariable(v.binding, m.types[v.ty].base), entry, usage)
  {
  }

  /** A struct of 48 bytes against a storage entry declaring 32 bytes is too small, reporting 48. */
  lemma StorageBufferTooSmallExample()
    ensures
      var types := [Vector(Quad, ScalarKind.Float, 32), Struct([StructMember(None, 0, 0), StructMember(None, 16, 0), StructMember(None, 32, 0)])];
      var m := Module(types, [], [], []);
      var entry := Wgt.BindGroupLayoutEntry(0, {Wgt.COMPUTE}, Wgt.StorageBuffer(false, Some(32), false));
      BindingResult(m, GlobalVariable(Some(Descriptor(0, 0)), 1), entry, {Load}) == Err(WrongBufferSize(48))
  {
    var types := [Vector(Quad, ScalarKind.Float, 32), Struct([StructMember(None, 0, 0), StructMember(None, 16, 0), StructMember(None, 32, 0)])];
    var members := types[1].members;
    assert TypesValid(types);
    assert AlignedTypeSize(types, 0, false) == 16 && AlignedTypeSize(types, 0, true) == 16;
    assert MembersSizable(types, members);
    assert MemberSizeSum(types, members, 1) == 16;
    assert MemberSizeSum(types, members, 2) == 32;
    assert MemberSizeSum(types, members, 3) == 48;
  }

  // ---------------------------------------------------------------------------
  // Formats
  // ---------------------------------------------------------------------------

  /** The shader type a vertex attribute of `format` provides. */
  function MapVertexFormat(format: Wgt.VertexFormat): (t: TypeInner)
    ensures IsNumeric(t) && IsSubType(t, t)
  {
    match format
    case Uchar2 => Vector(Bi, Uint, 8)
    case Uchar4 => Vector(Quad, Uint, 8)
    case Char2 => Vector(Bi, Sint, 8)
    case Char4 => Vector(Quad, Sint, 8)
    case Uchar2Norm => Vector(Bi, ScalarKind.Float, 8)
    case Uchar4Norm => Vector(Quad, ScalarKind.Float, 8)
    case Char2Norm => Vector(Bi, ScalarKind.Float, 8)
    case Char4Norm => Vector(Quad, ScalarKind.Float, 8)
    case Ushort2 => Vector(Bi, Uint, 16)
    case Ushort4 => Vector(Quad, Uint, 16)
    case Short2 => Vector(Bi, Sint, 16)
    case Short4 => Vector(Quad, Sint, 16)
    case Ushort2Norm => Vector(Bi, ScalarKind.Float, 16)
    case Short2Norm => Vector(Bi, ScalarKind.Float, 16)
    case Half2 => Vector(Bi, ScalarKind.Float, 16)
    case Ushort4Norm => Vector(Quad, ScalarKind.Float, 16)
    case Short4Norm => Vector(Quad, ScalarKind.Float, 16)
    case Half4 => Vector(Quad, ScalarKind.Float, 16)
    case Float => Scalar(ScalarKind.Float, 32)
    case Float2 => Vector(Bi, ScalarKind.Float, 32)
    case Float3 => Vector(Tri, ScalarKind.Float, 32)
    case Float4 => Vector(Quad, ScalarKind.Float, 32)
    case Uint => Scalar(ScalarKind.Uint, 32)
    case Uint2 => Vector(Bi, ScalarKind.Uint, 32)
    case Uint3 => Vector(Tri, ScalarKind.Uint, 32)
    case Uint4 => Vector(Quad, ScalarKind.Uint, 32)
    case Int => Scalar(Sint, 32)
    case Int2 => Vector(Bi, Sint, 32)
    case Int3 => Vector(Tri, Sint, 32)
    case Int4 => Vector(Quad, Sint, 32)
  }

  /** Components named by the format: the trailing digit, one when there is none. */
  function VertexComponents(format: Wgt.VertexFormat): nat
  {
    if format in {Wgt.VertexFormat.Float, Wgt.VertexFormat.Uint, Wgt.Int} then 1
    else if format in {Wgt.Float3, Wgt.Uint3, Wgt.Int3} then 3
    else if format in {Wgt.Uchar4, Wgt.Char4, Wgt.Uchar4Norm, Wgt.Char4Norm, Wgt.Ushort4, Wgt.Short4,
                       Wgt.Ushort4Norm, Wgt.Short4Norm, Wgt.Half4, Wgt.Float4, Wgt.Uint4, Wgt.Int4} then 4
    else 2
  }

  /** Bits per component: 8 for chars, 16 for shorts and halves, 32 otherwise. */
  function VertexComponentBits(format: Wgt.VertexFormat): nat
  {
    if format in {Wgt.Uchar2, Wgt.Uchar4, Wgt.Char2, Wgt.Char4, Wgt.Uchar2Norm, Wgt.Uchar4Norm, Wgt.Char2Norm, Wgt.Char4Norm} then 8
    else if format in {Wgt.Ushort2, Wgt.Ushort4, Wgt.Short2, Wgt.Short4, Wgt.Ushort2Norm, Wgt.Ushort4Norm,
                       Wgt.Short2Norm, Wgt.Short4Norm, Wgt.Half2, Wgt.Half4} then 16
    else 32
  }

  /** Normalised, half and float formats read as floats; otherwise the name's signedness decides. */
  function VertexComponentKind(format: Wgt.VertexFormat): ScalarKind
  {
    if format in {Wgt.Uchar2Norm, Wgt.Uchar4Norm, Wgt.Char2Norm, Wgt.Char4Norm, Wgt.Ushort2Norm, Wgt.Ushort4Norm,
                  Wgt.Short2Norm, Wgt.Short4Norm, Wgt.Half2, Wgt.Half4,
                  Wgt.VertexFormat.Float, Wgt.Float2, Wgt.Float3, Wgt.Float4} then ScalarKind.Float
    else if format in {Wgt.Uchar2, Wgt.Uchar4, Wgt.Ushort2, Wgt.Ushort4,
                       Wgt.VertexFormat.Uint, Wgt.Uint2, Wgt.Uint3, Wgt.Uint4} then ScalarKind.Uint
    else Sint
  }

  /**
    A vertex format provides a scalar when it has one component and a vector
    of its component count otherwise, of the kind and bit width its name states.
   */
  lemma MapVertexFormatShape(format: Wgt.VertexFormat)
    ensures IsNumeric(MapVertexFormat(format))
    ensures ComponentCount(MapVertexFormat(format)) == VertexComponents(format)
    ensures MapVertexFormat(format).width == VertexComponentBits(format)
    ensures MapVertexFormat(format).kind == VertexComponentKind(format)
  {
  }

  /** The shader type a colour target of `format` expects to be written. */
  function MapTextureFormat(format: Wgt.TextureFormat): (t: TypeInner)
    requires !format.IsDepth()
    ensures IsNumeric(t) && IsSubType(t, t)
  {
    match format
    case R8Unorm => Scalar(ScalarKind.Float, 8)
    case R8Snorm => Scalar(ScalarKind.Float, 8)
    case R8Uint => Scalar(ScalarKind.Uint, 8)
    case R8Sint => Scalar(Sint, 8)
    case R16Uint => Scalar(ScalarKind.Uint, 16)
    case R16Sint => Scalar(Sint, 16)
    case R16Float => Scalar(ScalarKind.Float, 16)
    case Rg8Unorm => Vector(Bi, ScalarKind.Float, 8)
    case Rg8Snorm => Vector(Bi, ScalarKind.Float, 8)
    case Rg8Uint => Vector(Bi, ScalarKind.Uint, 8)
    case Rg8Sint => Vector(Bi, Sint, 8)
    case R32Uint => Scalar(ScalarKind.Uint, 32)
    case R32Sint => Scalar(Sint, 32)
    case R32Float => Scalar(ScalarKind.Float, 32)
    case Rg16Uint => Vector(Bi, ScalarKind.Uint, 16)
    case Rg16Sint => Vector(Bi, Sint, 16)
    case Rg16Float => Vector(Bi, ScalarKind.Float, 16)
    case Rgba8Unorm => Vector(Quad, ScalarKind.Float, 8)
    case Rgba8UnormSrgb => Vector(Quad, ScalarKind.Float, 8)
    case Rgba8Snorm => Vector(Quad, ScalarKind.Float, 8)
    case Bgra8Unorm => Vector(Quad, ScalarKind.Float, 8)
    case Bgra8UnormSrgb => Vector(Quad, ScalarKind.Float, 8)
    case Rgba8Uint => Vector(Quad, ScalarKind.Uint, 8)
    case Rgba8Sint => Vector(Quad, Sint, 8)
    case Rgb10a2Unorm => Vector(Quad, ScalarKind.Float, 10)
    case Rg11b10Float => Vector(Tri, ScalarKind.Float, 11)
    case Rg32Uint => Vector(Bi, ScalarKind.Uint, 32)
    case Rg32Sint => Vector(Bi, Sint, 32)
    case Rg32Float => Vector(Bi, ScalarKind.Float, 32)
    case Rgba16Uint => Vector(Quad, ScalarKind.Uint, 16)
    case Rgba16Sint => Vector(Quad, Sint, 16)
    case Rgba16Float => Vector(Quad, ScalarKind.Float, 16)
    case Rgba32Uint => Vector(Quad, ScalarKind.Uint, 32)
    case Rgba32Sint => Vector(Quad, Sint, 32)
    case Rgba32Float => Vector(Quad, ScalarKind.Float, 32)
  }

  /** Channels named by the format: R one, Rg two, Rg11b10 three, the rest four. */
  function TextureChannels(format: Wgt.TextureFormat): nat
  {
    if format in {Wgt.R8Unorm, Wgt.R8Snorm, Wgt.R8Uint, Wgt.R8Sint, Wgt.R16Uint, Wgt.R16Sint, Wgt.R16Float,
                  Wgt.R32Uint, Wgt.R32Sint, Wgt.R32Float} then 1
    else if format in {Wgt.Rg8Unorm, Wgt.Rg8Snorm, Wgt.Rg8Uint, Wgt.Rg8Sint, Wgt.Rg16Uint, Wgt.Rg16Sint, Wgt.Rg16Float,
                       Wgt.Rg32Uint, Wgt.Rg32Sint, Wgt.Rg32Float} then 2
    else if format == Wgt.Rg11b10Float then 3
    else 4
  }

  /** Bits per channel named by the format: 8, 16 or 32, with 10 for Rgb10a2 and 11 for Rg11b10. */
  function TextureChannelBits(format: Wgt.TextureFormat): nat
  {
    if format in {Wgt.R8Unorm, Wgt.R8Snorm, Wgt.R8Uint, Wgt.R8Sint, Wgt.Rg8Unorm, Wgt.Rg8Snorm, Wgt.Rg8Uint, Wgt.Rg8Sint,
                  Wgt.Rgba8Unorm, Wgt.Rgba8UnormSrgb, Wgt.Rgba8Snorm, Wgt.Rgba8Uint, Wgt.Rgba8Sint,
                  Wgt.Bgra8Unorm, Wgt.Bgra8UnormSrgb} then 8
    else if format in {Wgt.R16Uint, Wgt.R16Sint, Wgt.R16Float, Wgt.Rg16Uint, Wgt.Rg16Sint, Wgt.Rg16Float,
                       Wgt.Rgba16Uint, Wgt.Rgba16Sint, Wgt.Rgba16Float} then 16
    else if format == Wgt.Rgb10a2Unorm then 10
    else if format == Wgt.Rg11b10Float then 11
    else 32
  }

  /** Uint and Sint formats read as unsigned and signed integers; every other colour format as floats. */
  function TextureChannelKind(format: Wgt.TextureFormat): ScalarKind
  {
    if format in {Wgt.R8Uint, Wgt.R16Uint, Wgt.Rg8Uint, Wgt.R32Uint, Wgt.Rg16Uint, Wgt.Rgba8Uint, Wgt.Rg32Uint,
                  Wgt.Rgba16Uint, Wgt.Rgba32Uint} then ScalarKind.Uint
    else if format in {Wgt.R8Sint, Wgt.R16Sint, Wgt.Rg8Sint, Wgt.R32Sint, Wgt.Rg16Sint, Wgt.Rgba8Sint, Wgt.Rg32Sint,
                       Wgt.Rgba16Sint, Wgt.Rgba32Sint} then Sint
    else ScalarKind.Float
  }

  /**
    A colour format expects a scalar for one channel and a vector of its
    channel count otherwise, of the kind its suffix states.
   */
  lemma MapTextureFormatShape(format: Wgt.TextureFormat)
    requires !format.IsDepth()
    ensures IsNumeric(MapTextureFormat(format))
    ensures ComponentCount(MapTextureFormat(format)) == TextureChannels(format)
    ensures MapTextureFormat(format).kind == TextureChannelKind(format)
  {
    // One case per channel count keeps each proof obligation small.
    match format
    case R8Unorm | R8Snorm | R8Uint | R8Sint | R16Uint | R16Sint | R16Float | R32Uint | R32Sint | R32Float =>
    case Rg8Unorm | Rg8Snorm | Rg8Uint | Rg8Sint | Rg16Uint | Rg16Sint | Rg16Float | Rg32Uint | Rg32Sint | Rg32Float =>
    case Rg11b10Float =>
    case Rgba8Unorm | Rgba8UnormSrgb | Rgba8Snorm | Rgba8Uint | Rgba8Sint | Bgra8Unorm | Bgra8UnormSrgb | Rgb10a2Unorm =>
    case Rgba16Uint | Rgba16Sint | Rgba16Float | Rgba32Uint | Rgba32Sint | Rgba32Float =>
    case Depth32Float | Depth24Plus | Depth24PlusStencil8 =>
  }

  /** A colour format expects the bit width its name states. */
  lemma MapTextureFormatWidth(format: Wgt.TextureFormat)
    requires !format.IsDepth()
    ensures MapTextureFormat(format).width == TextureChannelBits(format)
  {
  }

  /** Whether a fragment output of type `output` covers the colour target `format`. */
  function CheckTextureFormat(format: Wgt.TextureFormat, output: TypeInner): (covered: bool)
    requires !format.IsDepth()
    ensures covered ==> IsNumeric(output)
    ensures covered <== output == MapTextureFormat(format)
  {
    IsSubType(MapTextureFormat(format), output)
  }

  /**
    An output covers a colour target iff it is a scalar or vector of the
    format's kind, at least as wide, with at least its channel count.
   */
  lemma CheckTextureFormatIff(format: Wgt.TextureFormat, output: TypeInner)
    requires !format.IsDepth()
    ensures CheckTextureFormat(format, output) <==>
      IsNumeric(output) && output.kind == TextureChannelKind(format) &&
      TextureChannelBits(format) <= output.width && TextureChannels(format) <= ComponentCount(output)
  {
    MapTextureFormatShape(format);
    MapTextureFormatWidth(format);
    if IsNumeric(output) {
      SubTypeNumericIff(MapTextureFormat(format), output);
    }
  }

  // ---------------------------------------------------------------------------
  // Stage
  // ---------------------------------------------------------------------------

  /** Interface between stages: the type at each varying location. */
  type StageInterface = map<nat, TypeInner>

  predicate IsPipelineStage(model: ExecutionModel)
  {
    model.Vertex? || model.Fragment? || model.GLCompute?
  }

  function StageBit(model: ExecutionModel): Wgt.ShaderStage
    requires IsPipelineStage(model)
  {
    match model
    case Vertex => Wgt.VERTEX
    case Fragment => Wgt.FRAGMENT
    case GLCompute => Wgt.COMPUTE
  }

  predicate EntryPointMatches(ep: EntryPoint, name: string, model: ExecutionModel)
  {
    ep.name == name && ep.execModel == model
  }

  /** Index of the first entry point with this name and execution model. */
  function FindEntryPoint(eps: seq<EntryPoint>, name: string, model: ExecutionModel): (r: Option<nat>)
    ensures r.Some? ==> r.value < |eps| && EntryPointMatches(eps[r.value], name, model)
    ensures r.Some? ==> forall j :: 0 <= j < r.value ==> !EntryPointMatches(eps[j], name, model)
    ensures r.None? ==> forall j :: 0 <= j < |eps| ==> !EntryPointMatches(eps[j], name, model)
  {
    if |eps| == 0 then None
    else if EntryPointMatches(eps[0], name, model) then Some(0)
    else match FindEntryPoint(eps[1..], name, model)
      case None => None
      case Some(j) => Some(j + 1)
  }

  /** The global-usage list of the function behind entry point `e`. */
  function EntryUsages(m: Module, e: nat): seq<GlobalUse>
    requires ModuleValid(m) && e < |m.entryPoints|
  {
    m.functions[m.entryPoints[e].functionHandle].globalUsage
  }

  /** Number of globals the loop visits: the two lists are zipped. */
  function VisitedCount(m: Module, usages: seq<GlobalUse>): nat
  {
    if |m.globalVariables| < |usages| then |m.globalVariables| else |usages|
  }

  /**
    The binding check of a used global cannot panic: it is only reached for a
    layout entry that exists and is visible to the stage `bit`.
   */
  predicate GlobalSizable(types: seq<TypeInner>, layouts: seq<BindingModel.BindEntryMap>, bit: Wgt.ShaderStage,
                          v: GlobalVariable, usage: GlobalUse)
    requires TypesValid(types) && v.ty < |types|
  {
    usage != {} && v.binding.Some? && v.binding.value.Descriptor? &&
    v.binding.value.group < |layouts| && v.binding.value.binding in layouts[v.binding.value.group] &&
    bit in layouts[v.binding.value.group][v.binding.value.binding].visibility ==>
      BindingSizable(types, v.ty, layouts[v.binding.value.group][v.binding.value.binding])
  }

  /**
    What the source needs of a stage check to run without panicking: when an
    entry point is found, its execution model is vertex, fragment or compute,
    and no used buffer binding makes the size calculation panic.
   */
  predicate StageSizable(m: Module, layouts: seq<BindingModel.BindEntryMap>, name: string, model: ExecutionModel)
    requires ModuleValid(m)
  {
    match FindEntryPoint(m.entryPoints, name, model)
    case None => true
    case Some(e) =>
      IsPipelineStage(model) &&
      var usages := EntryUsages(m, e);
      forall i :: 0 <= i < |m.globalVariables| && i < |usages| ==>
        GlobalSizable(m.types, layouts, StageBit(model), m.globalVariables[i], usages[i])
  }

  /** Outcome of looking up and checking a descriptor binding. */
  function DescriptorResult(m: Module, layouts: seq<BindingModel.BindEntryMap>, bit: Wgt.ShaderStage,
                            v: GlobalVariable, group: nat, binding: nat, usage: GlobalUse): Result<(), BindingError>
    requires TypesValid(m.types) && v.ty < |m.types|
    requires group < |layouts| && binding in layouts[group] && bit in layouts[group][binding].visibility ==>
      BindingSizable(m.types, v.ty, layouts[group][binding])
  {
    if group >= |layouts| || binding !in layouts[group] then Err(Missing)
    else if bit !in layouts[group][binding].visibility then Err(Invisible)
    else BindingResult(m, v, layouts[group][binding], usage)
  }

  /** Outcome of checking a read-only varying input against the previous stage. */
  function InputResult(ty: TypeInner, location: nat, inputs: StageInterface): Result<(), InputError>
  {
    if location !in inputs then Err(InputMissing)
    else if IsSubType(ty, inputs[location]) then Ok(())
    else Err(InputWrongType)
  }

  /** The error global `v` with `usage` raises, if any. */
  function GlobalFailure(m: Module, layouts: seq<BindingModel.BindEntryMap>, bit: Wgt.ShaderStage,
                         inputs: StageInterface, v: GlobalVariable, usage: GlobalUse): Option<StageError>
    requires TypesValid(m.types) && v.ty < |m.types| && GlobalSizable(m.types, layouts, bit, v, usage)
  {
    if usage == {} then None
    else match v.binding
      case Some(Descriptor(group, binding)) =>
        var res := DescriptorResult(m, layouts, bit, v, group, binding, usage);
        if res.Err? then Some(BindingFailed(group, binding, res.error)) else None
      case Some(Location(location)) =>
        if Store in usage then None
        else
          var res := InputResult(UnwrapPointer(m.types, v.ty), location, inputs);
          if res.Err? then Some(InputFailed(location, res.error)) else None
      case _ => None
  }

  /** Facts in scope for the globals an entry point's function uses. */
  predicate StageScope(m: Module, layouts: seq<BindingModel.BindEntryMap>, bit: Wgt.ShaderStage, usages: seq<GlobalUse>)
  {
    ModuleValid(m) &&
    forall i :: 0 <= i < |m.globalVariables| && i < |usages| ==>
      GlobalSizable(m.types, layouts, bit, m.globalVariables[i], usages[i])
  }

  /** The first error among globals `i .. n-1`. */
  function FirstGlobalFailure(m: Module, layouts: seq<BindingModel.BindEntryMap>, bit: Wgt.ShaderStage,
                              inputs: StageInterface, usages: seq<GlobalUse>, i: nat): Option<StageError>
    requires StageScope(m, layouts, bit, usages) && i <= VisitedCount(m, usages)
    decreases VisitedCount(m, usages) - i
  {
    if i == VisitedCount(m, usages) then None
    else match GlobalFailure(m, layouts, bit, inputs, m.globalVariables[i], usages[i])
      case Some(e) => Some(e)
      case None => FirstGlobalFailure(m, layouts, bit, inputs, usages, i + 1)
  }

  /** Global `j` is a stored varying at `location`. */
  predicate WritesLocation(m: Module, usages: seq<GlobalUse>, j: nat, location: nat)
    requires j < |m.globalVariables| && j < |usages|
  {
    Store in usages[j] && m.globalVariables[j].binding == Some(Location(location))
  }

  /** Outputs recorded by the first `k` globals: each stored varying, later ones overwriting. */
  function StageOutputs(m: Module, usages: seq<GlobalUse>, k: nat): StageInterface
    requires ModuleValid(m) && k <= |m.globalVariables| && k <= |usages|
    decreases k
  {
    if k == 0 then map[]
    else
      var prev := StageOutputs(m, usages, k - 1);
      var v := m.globalVariables[k - 1];
      if Store in usages[k - 1] && v.binding.Some? && v.binding.value.Location? then
        prev[v.binding.value.location := UnwrapPointer(m.types, v.ty)]
      else prev
  }

  /** Reference outcome of checking one stage. */
  function StageResult(m: Module, layouts: seq<BindingModel.BindEntryMap>, name: string,
                       model: ExecutionModel, inputs: StageInterface): Result<StageInterface, StageError>
    requires ModuleValid(m) && StageSizable(m, layouts, name, model)
  {
    match FindEntryPoint(m.entryPoints, name, model)
    case None => Err(MissingEntryPoint(model))
    case Some(e) =>
      var usages := EntryUsages(m, e);
      match FirstGlobalFailure(m, layouts, StageBit(model), inputs, usages, 0)
      case Some(err) => Err(err)
      case None => Ok(StageOutputs(m, usages, VisitedCount(m, usages)))
  }

  /**
    Checks one programmable stage: every used global against the layout and
    the previous stage's outputs, returning this stage's outputs.
   */
  method CheckStage(m: Module, layouts: seq<BindingModel.BindEntryMap>, name: string,
                    model: ExecutionModel, inputs: StageInterface)
    returns (r: Result<StageInterface, StageError>)
    requires ModuleValid(m) && StageSizable(m, layouts, name, model)
    ensures r == StageResult(m, layouts, name, model, inputs)
  {
    var found := FindEntryPoint(m.entryPoints, name, model);
    if found.None? {
      return Err(MissingEntryPoint(model));
    }
    var entryPoint := m.entryPoints[found.value];
    var stageBit := StageBit(model);
    var func := m.functions[entryPoint.functionHandle];
    var usages := func.globalUsage;
    var n := VisitedCount(m, usages);
    var outputs: StageInterface := map[];
    var i := 0;
    while i < n
      invariant 0 <= i <= n
      invariant FirstGlobalFailure(m, layouts, stageBit, inputs, usages, i) ==
                FirstGlobalFailure(m, layouts, stageBit, inputs, usages, 0)
      invariant outputs == StageOutputs(m, usages, i)
    {
      var v := m.globalVariables[i];
      var usage := usages[i];
      if usage == {} {
        i := i + 1;
        continue;
      }
      match v.binding {
        case Some(Descriptor(group, binding)) =>
          var result: Result<(), BindingError>;
          if group < |layouts| && binding in layouts[group] {
            var entry := layouts[group][binding];
            if stageBit in entry.visibility {
              result := CheckBinding(m, v, entry, usage);
            } else {
              result := Err(Invisible);
            }
          } else {
            result := Err(Missing);
          }
          if result.Err? {
            return Err(BindingFailed(group, binding, result.error));
          }
        case Some(Location(location)) =>
          var ty := m.types[v.ty];
          if ty.Pointer? {
            ty := m.types[ty.base];
          }
          if Store in usage {
            outputs := outputs[location := ty];
          } else {
            var result: Result<(), InputError>;
            if location !in inputs {
              result := Err(InputMissing);
            } else if IsSubType(ty, inputs[location]) {
              result := Ok(());
            } else {
              result := Err(InputWrongType);
            }
            if result.Err? {
              return Err(InputFailed(location, result.error));
            }
          }
        case _ =>
      }
      i := i + 1;
    }
    return Ok(outputs);
  }

  // ---------------------------------------------------------------------------
  // Properties of a stage check
  // ---------------------------------------------------------------------------

  lemma {:induction false} FirstGlobalFailureNone(m: Module, layouts: seq<BindingModel.BindEntryMap>, bit: Wgt.ShaderStage,
                                                  inputs: StageInterface, usages: seq<GlobalUse>, i: nat)
    requires StageScope(m, layouts, bit, usages) && i <= VisitedCount(m, usages)
    ensures FirstGlobalFailure(m, layouts, bit, inputs, usages, i).None? <==>
      forall j :: i <= j < VisitedCount(m, usages) ==>
        GlobalFailure(m, layouts, bit, inputs, m.globalVariables[j], usages[j]).None?
    decreases VisitedCount(m, usages) - i
  {
    if i < VisitedCount(m, usages) {
      FirstGlobalFailureNone(m, layouts, bit, inputs, usages, i + 1);
    }
  }

  lemma {:induction false} FirstGlobalFailureSome(m: Module, layouts: seq<BindingModel.BindEntryMap>, bit: Wgt.ShaderStage,
                                                  inputs: StageInterface, usages: seq<GlobalUse>, i: nat)
    requires StageScope(m, layouts, bit, usages) && i <= VisitedCount(m, usages)
    requires FirstGlobalFailure(m, layouts, bit, inputs, usages, i).Some?
    ensures exists k ::
      && i <= k < VisitedCount(m, usages)
      && GlobalFailure(m, layouts, bit, inputs, m.globalVariables[k], usages[k]) ==
         FirstGlobalFailure(m, layouts, bit, inputs, usages, i)
      && forall j :: i <= j < k ==> GlobalFailure(m, layouts, bit, inputs, m.globalVariables[j], usages[j]).None?
    decreases VisitedCount(m, usages) - i
  {
    if GlobalFailure(m, layouts, bit, inputs, m.globalVariables[i], usages[i]).None? {
      FirstGlobalFailureSome(m, layouts, bit, inputs, usages, i + 1);
      var k :|
        && i + 1 <= k < VisitedCount(m, usages)
        && GlobalFailure(m, layouts, bit, inputs, m.globalVariables[k], usages[k]) ==
           FirstGlobalFailure(m, layouts, bit, inputs, usages, i + 1)
        && forall j :: i + 1 <= j < k ==> GlobalFailure(m, layouts, bit, inputs, m.globalVariables[j], usages[j]).None?;
      assert forall j :: i <= j < k ==> GlobalFailure(m, layouts, bit, inputs, m.globalVariables[j], usages[j]).None?;
    }
  }

  lemma {:induction false} StageOutputsKeys(m: Module, usages: seq<GlobalUse>, k: nat, location: nat)
    requires ModuleValid(m) && k <= |m.globalVariables| && k <= |usages|
    ensures location in StageOutputs(m, usages, k) <==> exists j :: 0 <= j < k && WritesLocation(m, usages, j, location)
    decreases k
  {
    if k > 0 {
      StageOutputsKeys(m, usages, k - 1, location);
      if WritesLocation(m, usages, k - 1, location) {
        assert location in StageOutputs(m, usages, k);
      }
    }
  }

  lemma {:induction false} StageOutputsLastWriter(m: Module, usages: seq<GlobalUse>, k: nat, j: nat, location: nat)
    requires ModuleValid(m) && k <= |m.globalVariables| && k <= |usages|
    requires j < k && WritesLocation(m, usages, j, location)
    requires forall j' :: j < j' < k ==> !WritesLocation(m, usages, j', location)
    ensures location in StageOutputs(m, usages, k)
    ensures StageOutputs(m, usages, k)[location] == UnwrapPointer(m.types, m.globalVariables[j].ty)
    decreases k
  {
    if j < k - 1 {
      StageOutputsLastWriter(m, usages, k - 1, j, location);
      assert !WritesLocation(m, usages, k - 1, location);
    }
  }

  /** The stage fails for want of an entry point exactly when none has both the name and the execution model. */
  lemma StageMissingEntryPoint(m: Module, layouts: seq<BindingModel.BindEntryMap>, name: string,
                               model: ExecutionModel, inputs: StageInterface)
    requires ModuleValid(m) && StageSizable(m, layouts, name, model)
    ensures StageResult(m, layouts, name, model, inputs) == Err(MissingEntryPoint(model)) <==>
      forall j :: 0 <= j < |m.entryPoints| ==> !EntryPointMatches(m.entryPoints[j], name, model)
  {
    var found := FindEntryPoint(m.entryPoints, name, model);
    if found.Some? {
      var usages := EntryUsages(m, found.value);
      var bit := StageBit(model);
      if FirstGlobalFailure(m, layouts, bit, inputs, usages, 0).Some? {
        FirstGlobalFailureSome(m, layouts, bit, inputs, usages, 0);
      }
    }
  }

  /**
    Once the entry point `e` is found (the first with this name and model), the
    stage succeeds iff no visited global fails; a failure is that of the first
    failing global, every earlier global passing; on success the output keys
    are exactly the locations of stored varyings.
   */
  lemma StageFirstFailure(m: Module, layouts: seq<BindingModel.BindEntryMap>, name: string,
                          model: ExecutionModel, inputs: StageInterface, e: nat)
    requires ModuleValid(m) && StageSizable(m, layouts, name, model)
    requires e < |m.entryPoints| && EntryPointMatches(m.entryPoints[e], name, model)
    requires forall j :: 0 <= j < e ==> !EntryPointMatches(m.entryPoints[j], name, model)
    ensures
      var usages := EntryUsages(m, e);
      var n := VisitedCount(m, usages);
      var r := StageResult(m, layouts, name, model, inputs);
      && (r.Ok? <==> forall j :: 0 <= j < n ==>
            GlobalFailure(m, layouts, StageBit(model), inputs, m.globalVariables[j], usages[j]).None?)
      && (r.Err? ==> exists k ::
            && 0 <= k < n
            && GlobalFailure(m, layouts, StageBit(model), inputs, m.globalVariables[k], usages[k]) == Some(r.error)
            && forall j :: 0 <= j < k ==>
                 GlobalFailure(m, layouts, StageBit(model), inputs, m.globalVariables[j], usages[j]).None?)
      && (r.Ok? ==> forall location :: location in r.value <==>
            exists j :: 0 <= j < n && WritesLocation(m, usages, j, location))
  {
    var found := FindEntryPoint(m.entryPoints, name, model);
    assert found == Some(e);
    var usages := EntryUsages(m, e);
    var n := VisitedCount(m, usages);
    var bit := StageBit(model);
    FirstGlobalFailureNone(m, layouts, bit, inputs, usages, 0);
    if FirstGlobalFailure(m, layouts, bit, inputs, usages, 0).Some? {
      FirstGlobalFailureSome(m, layouts, bit, inputs, usages, 0);
    }
    forall location {
      StageOutputsKeys(m, usages, n, location);
    }
  }

  /** On success, a location holds the type of the last global stored to it. */
  lemma StageOutputOverwrite(m: Module, layouts: seq<BindingModel.BindEntryMap>, name: string,
                             model: ExecutionModel, inputs: StageInterface, e: nat, j: nat, location: nat)
    requires ModuleValid(m) && StageSizable(m, layouts, name, model)
    requires e < |m.entryPoints| && EntryPointMatches(m.entryPoints[e], name, model)
    requires forall i :: 0 <= i < e ==> !EntryPointMatches(m.entryPoints[i], name, model)
    requires StageResult(m, layouts, name, model, inputs).Ok?
    requires j < VisitedCount(m, EntryUsages(m, e)) && WritesLocation(m, EntryUsages(m, e), j, location)
    requires forall j' :: j < j' < VisitedCount(m, EntryUsages(m, e)) ==> !WritesLocation(m, EntryUsages(m, e), j', location)
    ensures location in StageResult(m, layouts, name, model, inputs).value
    ensures StageResult(m, layouts, name, model, inputs).value[location] == UnwrapPointer(m.types, m.globalVariables[j].ty)
  {
    assert FindEntryPoint(m.entryPoints, name, model) == Some(e);
    StageOutputsLastWriter(m, EntryUsages(m, e), VisitedCount(m, EntryUsages(m, e)), j, location);
  }

  /**
    A used descriptor binding fails with Missing when the group or binding is
    absent, and with Invisible when the entry's visibility lacks the stage,
    whatever the types; only otherwise is the binding itself checked. Every
    error carries the (group, binding) coordinates.
   */
  lemma DescriptorGates(m: Module, layouts: seq<BindingModel.BindEntryMap>, bit: Wgt.ShaderStage,
                        inputs: StageInterface, v: GlobalVariable, usage: GlobalUse, group: nat, binding: nat)
    requires TypesValid(m.types) && v.ty < |m.types| && GlobalSizable(m.types, layouts, bit, v, usage)
    requires usage != {} && v.binding == Some(Descriptor(group, binding))
    ensures group >= |layouts| || binding !in layouts[group] ==>
      GlobalFailure(m, layouts, bit, inputs, v, usage) == Some(BindingFailed(group, binding, Missing))
    ensures group < |layouts| && binding in layouts[group] && bit !in layouts[group][binding].visibility ==>
      GlobalFailure(m, layouts, bit, inputs, v, usage) == Some(BindingFailed(group, binding, Invisible))
    ensures group < |layouts| && binding in layouts[group] && bit in layouts[group][binding].visibility ==>
      (GlobalFailure(m, layouts, bit, inputs, v, usage).None? <==> BindingResult(m, v, layouts[group][binding], usage).Ok?) &&
      (BindingResult(m, v, layouts[group][binding], usage).Err? ==>
         GlobalFailure(m, layouts, bit, inputs, v, usage) ==
         Some(BindingFailed(group, binding, BindingResult(m, v, layouts[group][binding], usage).error)))
  {
  }

  /**
    A stored varying never fails; a read-only varying must be provided by the
    previous stage (else InputMissing) with a type that satisfies this stage's
    declared type (else InputWrongType), the error carrying the location.
    Unused globals and built-ins are skipped.
   */
  lemma VaryingRules(m: Module, layouts: seq<BindingModel.BindEntryMap>, bit: Wgt.ShaderStage,
                     inputs: StageInterface, v: GlobalVariable, usage: GlobalUse)
    requires TypesValid(m.types) && v.ty < |m.types| && GlobalSizable(m.types, layouts, bit, v, usage)
    ensures usage == {} ==> GlobalFailure(m, layouts, bit, inputs, v, usage).None?
    ensures (v.binding.None? || v.binding.value.BuiltIn?) ==> GlobalFailure(m, layouts, bit, inputs, v, usage).None?
    ensures v.binding.Some? && v.binding.value.Location? && usage != {} ==>
      var location := v.binding.value.location;
      var ty := UnwrapPointer(m.types, v.ty);
      && (Store in usage ==> GlobalFailure(m, layouts, bit, inputs, v, usage).None?)
      && (Store !in usage && location !in inputs ==>
            GlobalFailure(m, layouts, bit, inputs, v, usage) == Some(InputFailed(location, InputMissing)))
      && (Store !in usage && location in inputs ==>
            if IsSubType(ty, inputs[location]) then GlobalFailure(m, layouts, bit, inputs, v, usage).None?
            else GlobalFailure(m, layouts, bit, inputs, v, usage) == Some(InputFailed(location, InputWrongType)))
  {
  }

  /**
    A sampler reaches the binding check only with a non-empty usage, and a
    sampler entry allows none: when its comparison flag matches, a used
    sampler is always rejected with WrongUsage.
   */
  lemma UsedSamplerRejected(m: Module, layouts: seq<BindingModel.BindEntryMap>, bit: Wgt.ShaderStage,
                            inputs: StageInterface, v: GlobalVariable, usage: GlobalUse, group: nat, binding: nat)
    requires TypesValid(m.types) && v.ty < |m.types| && GlobalSizable(m.types, layouts, bit, v, usage)
    requires usage != {} && v.binding == Some(Descriptor(group, binding))
    requires group < |layouts| && binding in layouts[group] && bit in layouts[group][binding].visibility
    requires UnwrapPointer(m.types, v.ty).Sampler? && layouts[group][binding].ty.Sampler?
    requires layouts[group][binding].ty.comparison == UnwrapPointer(m.types, v.ty).comparison
    ensures GlobalFailure(m, layouts, bit, inputs, v, usage) == Some(BindingFailed(group, binding, WrongUsage(usage)))
  {
  }

  /** An entry point named "main" for `model`, whose function uses the globals as `usage` says. */
  function OneEntryModule(types: seq<TypeInner>, globals: seq<GlobalVariable>, usage: seq<GlobalUse>, model: ExecutionModel): Module
  {
    Module(types, globals, [Function(usage)], [EntryPoint("main", model, 0)])
  }

  /**
    A vertex stage storing a 4-component float vector at location 0 feeds a
    fragment stage reading a 2-component float vector there; a signed-integer
    vector at location 0 is rejected with InputWrongType at location 0.
   */
  lemma VertexFragmentScenarios()
    ensures
      var vertex := OneEntryModule([Vector(Quad, ScalarKind.Float, 32)], [GlobalVariable(Some(Location(0)), 0)], [{Store}], Vertex);
      var fragment := OneEntryModule([Vector(Bi, ScalarKind.Float, 32)], [GlobalVariable(Some(Location(0)), 0)], [{Load}], Fragment);
      && ModuleValid(vertex) && StageSizable(vertex, [], "main", Vertex)
      && ModuleValid(fragment) && StageSizable(fragment, [], "main", Fragment)
      && StageResult(vertex, [], "main", Vertex, map[]) == Ok(map[0 := Vector(Quad, ScalarKind.Float, 32)])
      && StageResult(fragment, [], "main", Fragment, map[0 := Vector(Quad, ScalarKind.Float, 32)]) == Ok(map[])
      && StageResult(fragment, [], "main", Fragment, map[0 := Vector(Quad, Sint, 32)]) == Err(InputFailed(0, InputWrongType))
      && StageResult(fragment, [], "main", Vertex, map[]) == Err(MissingEntryPoint(Vertex))
  {
    var vertex := OneEntryModule([Vector(Quad, ScalarKind.Float, 32)], [GlobalVariable(Some(Location(0)), 0)], [{Store}], Vertex);
    var fragment := OneEntryModule([Vector(Bi, ScalarKind.Float, 32)], [GlobalVariable(Some(Location(0)), 0)], [{Load}], Fragment);
    assert FindEntryPoint(vertex.entryPoints, "main", Vertex) == Some(0);
    assert FindEntryPoint(fragment.entryPoints, "main", Fragment) == Some(0);
    assert FindEntryPoint(fragment.entryPoints, "main", Vertex) == None;
    assert StageOutputs(vertex, [{Store}], 1) == map[0 := Vector(Quad, ScalarKind.Float, 32)];
  }

  /**
    A comparison sampler at (group 0, binding 1) against a non-comparison
    sampler entry fails with WrongSamplerComparison at (0, 1).
   */
  lemma SamplerMismatchScenario()
    ensures
      var frag := OneEntryModule([Sampler(true)], [GlobalVariable(Some(Descriptor(0, 1)), 0)], [{Load}], Fragment);
      var layouts := [map[1 := Wgt.BindGroupLayoutEntry(1, {Wgt.FRAGMENT}, Wgt.Sampler(false))]];
      && ModuleValid(frag) && StageSizable(frag, layouts, "main", Fragment)
      && StageResult(frag, layouts, "main", Fragment, map[]) == Err(BindingFailed(0, 1, WrongSamplerComparison))
      && StageResult(frag, [map[1 := Wgt.BindGroupLayoutEntry(1, {Wgt.VERTEX}, Wgt.Sampler(false))]], "main", Fragment, map[])
         == Err(BindingFailed(0, 1, Invisible))
  {
    var frag := OneEntryModule([Sampler(true)], [GlobalVariable(Some(Descriptor(0, 1)), 0)], [{Load}], Fragment);
    assert FindEntryPoint(frag.entryPoints, "main", Fragment) == Some(0);
  }

  /**
    A fragment stage uses a uniform-buffer struct whose first member is an
    unbounded array, which the size calculation cannot size. Its entry is
    visible to the vertex stage only, so the stage fails with Invisible at
    (0, 0) before the size calculation is reached.
   */
  lemma InvisibleBeforeSizeScenario()
    ensures
      var types := [Scalar(ScalarKind.Float, 32), Array(0, Dynamic, None),
                    Struct([StructMember(None, 0, 1), StructMember(None, 16, 0)])];
      var frag := OneEntryModule(types, [GlobalVariable(Some(Descriptor(0, 0)), 2)], [{Load}], Fragment);
      var entry := Wgt.BindGroupLayoutEntry(0, {Wgt.VERTEX}, Wgt.UniformBuffer(false, None));
      && ModuleValid(frag) && !BindingSizable(types, 2, entry)
      && StageSizable(frag, [map[0 := entry]], "main", Fragment)
      && StageResult(frag, [map[0 := entry]], "main", Fragment, map[]) == Err(BindingFailed(0, 0, Invisible))
  {
    var types := [Scalar(ScalarKind.Float, 32), Array(0, Dynamic, None),
                  Struct([StructMember(None, 0, 1), StructMember(None, 16, 0)])];
    var frag := OneEntryModule(types, [GlobalVariable(Some(Descriptor(0, 0)), 2)], [{Load}], Fragment);
    assert RefsBelow(types[2], 2);
    assert TypesValid(types);
    assert !Sizable(types, types[2].members[0].ty, 0 + 1 == |types[2].members|);
    assert !MembersSizable(types, types[2].members);
    assert FindEntryPoint(frag.entryPoints, "main", Fragment) == Some(0);
  }
}
