# wgpu-core shader/layout validation, modelled in Dafny

This project models two checking components of wgpu-core.

1. **Shader interface validation** (`wgpu-core/src/validation.rs`). A shader module reflected into naga's intermediate representation is compared against the bind group layouts the caller declared, and against the varying outputs of the previous pipeline stage. The module `Validation` holds this part:
   - the usage containment checks `CheckBufferUsage` and `CheckTextureUsage`;
   - the subtype predicate `IsSubType`;
   - the size calculator `AlignedTypeSize`;
   - the single-binding check `CheckBinding` (a method), specified by the function `BindingResult`;
   - the format tables `MapVertexFormat`, `MapTextureFormat` and `CheckTextureFormat`;
   - the stage check `CheckStage` (a method with the loop over global variables), specified by the function `StageResult`.
2. **Dynamic-offset validation** (`BindGroup::validate_dynamic_bindings` in `wgpu-core/src/binding_model.rs`). The module `BindingModel` holds this part. `ValidateDynamicBindings` is the indexed loop with early returns. `DynamicBindingsResult` is its specification.

The supporting data model is split into three modules:
- `Naga`: the type arena, global variables, per-function global usage and entry points.
- `Wgt`: binding layout entries, formats, usage flags and shader stages from wgpu-types.
- `Wrappers`: `Option` and `Result`.

The naga and wgpu-types crates are not part of this model. Their types are modelled from the way validation.rs uses them.

## Modelling choices

- **Type arena.** A sequence of `TypeInner` values, where a handle is an index. `TypesValid` requires that every handle a type refers to is smaller than the type's own handle. The model assumes this of every arena: a type refers only to earlier handles. This assumption also makes the recursion of `AlignedTypeSize` terminate.
- **Bitflags as sets.** `GlobalUse` is a set over {Load, Store}. A visibility mask is a set of `ShaderStage`. Image flags, buffer usages and texture usages are sets too. `contains` becomes `<=`, and `is_empty` becomes `== {}`.
- **Maps.** `BindEntryMap` is `map<nat, BindGroupLayoutEntry>`. A stage interface is `map<nat, TypeInner>`.
- **Panics become preconditions.**
  - `Sizable` says that `get_aligned_type_size` does not panic.
  - `MapTextureFormat` requires a non-depth format.
  - `StageSizable` requires a vertex, fragment or compute execution model whenever an entry point is found (the `unreachable!()` at line 678).
- **Sizes, as written in the code.** A nested struct is sized as its last offset plus its last member's size. A top-level buffer struct is sized as the sum of its members' sizes, and only the last member may be unbounded. No alignment padding is added.
- **Sizes: how the two formulas relate.** `TopLevelSumVersusNestedSize` proves that the sum never exceeds the nested size when members do not overlap. It also proves the two are equal when members are packed from offset 0.
- **Samplers.** `UsedSamplerRejected` records a consequence of the code. A sampler entry allows no usage, and a global reaches the binding check only when its usage is non-empty. So a used sampler with a matching comparison flag is always rejected with `WrongUsage`.

The model follows the code in two places where it departs from what one might expect:
- `is_sub_type` is not reflexive on every type. It returns false for pointers, arrays, samplers and images, and `SubTypeReflexive` states that.
- A top-level buffer struct is not sized with the nested-struct rule. The code sums the member sizes instead (validation.rs:184-187).

## Model

| member | source | states |
|---|---|---|
| `BindingModel.OffsetError` | wgpu-core/src/binding_model.rs:167-185 | An offset passes iff it is a multiple of the alignment and at most the binding's maximum. Alignment is checked first: an unaligned offset reports `UnalignedDynamicBinding(idx)` even when it is also too large. An aligned offset that is too large reports `DynamicBindingOutOfBounds(idx)`. |
| `BindingModel.DynamicBindingsResult` | wgpu-core/src/binding_model.rs:145-189 | The reference outcome: a count mismatch first, then the first failing offset in declaration order. Its rules are proved in `CountMismatchFirst`, `DynamicBindingsOkIff`, `DynamicBindingsFirstFailure` and `BoundInclusive`. |
| `BindingModel.ValidateDynamicBindings` | wgpu-core/src/binding_model.rs:145-189 | The loop returns exactly the outcome of the count check followed by the in-order scan, `DynamicBindingsResult`. It only reads the bind group value and the offsets. |
| `BindingModel.FirstOffsetErrorNone` | wgpu-core/src/binding_model.rs:161-186 | The scan from index i finds no error iff every offset from i onwards is aligned and within its bound. |
| `BindingModel.FirstOffsetErrorSome` | wgpu-core/src/binding_model.rs:161-186 | An error found by the scan is the error of the smallest failing index, and every earlier index passes. |
| `BindingModel.CountMismatchFirst` | wgpu-core/src/binding_model.rs:149-159 | The result is `MismatchedDynamicOffsetCount(actual = offsets length, expected = info length)` exactly when the lengths differ. This is decided before any offset is examined. |
| `BindingModel.DynamicBindingsOkIff` | wgpu-core/src/binding_model.rs:149-188 | The result is Ok iff the counts are equal and every offset is aligned and within its bound. |
| `BindingModel.DynamicBindingsFirstFailure` | wgpu-core/src/binding_model.rs:161-186 | With equal counts, for the smallest failing index k, the result is `UnalignedDynamicBinding(k)` if that offset is unaligned, else `DynamicBindingOutOfBounds(k)`. No later index matters. |
| `BindingModel.BoundInclusive` | wgpu-core/src/binding_model.rs:176-188 | The bound is inclusive. With every other offset valid, an aligned offset equal to its binding's maximum makes the whole check succeed, and an aligned offset above it gives `DynamicBindingOutOfBounds` at its index. |
| `BindingModel.DynamicBindingsExamples` | wgpu-core/src/binding_model.rs:149-188 | With bounds [256, 512]: [0, 256] and [256, 512] pass, [0, 257] is unaligned at 1, [0, 768] is out of bounds at 1, and [0] is a count mismatch (1 against 2). |
| `Validation.CheckBufferUsage` | wgpu-core/src/validation.rs:19-28 | Ok iff the actual buffer usage contains the expected usage. Otherwise the error carries both values. |
| `Validation.CheckTextureUsage` | wgpu-core/src/validation.rs:39-48 | Ok iff the actual texture usage contains the expected usage. Otherwise the error carries both values. |
| `Validation.UsageCheckMonotone` | wgpu-core/src/validation.rs:19-48 | Adding usages to a resource never makes a passing usage check fail. |
| `Validation.AlignedTypeSize` | wgpu-core/src/validation.rs:102-150 | The size calculation, defined on the sizable types (`Sizable` marks where the source does not panic). Its equations, one per kind of type, are proved in `AlignedTypeSizeRules`. Further rules are proved in `SizeUnboundOnlyForDynamicArray`, `DynamicArrayCountsOneElement`, `NestedUnboundNeverSizable`, `StructSizeAccumulation` and `TopLevelSumVersusNestedSize`. |
| `Validation.AlignedTypeSizeRules` | wgpu-core/src/validation.rs:109-148 | A scalar is its width divided by 8. A vector is its size times its width divided by 8. A matrix is rows times columns times width divided by 8. A pointer is 4. An array is its stride, or else its element's size, times its count, and an unbounded array counts one element. A struct is its last member's offset plus that member's size, or 0 with no members. Images and samplers are never sized. |
| `Validation.SizeUnboundOnlyForDynamicArray` | wgpu-core/src/validation.rs:102-149 | `allow_unbound` only affects an unbounded array. A type that can be sized without it is sized the same with it. An unbounded array cannot be sized without it. |
| `Validation.DynamicArrayCountsOneElement` | wgpu-core/src/validation.rs:126-144 | An unbounded array, where allowed, has the size of a one-element static array with the same element and stride. |
| `Validation.NestedUnboundNeverSizable` | wgpu-core/src/validation.rs:126-148 | Nested elements and members are sized with `allow_unbound` false. So a struct whose last member is an unbounded array cannot be sized (it panics). Neither can an array with no explicit stride whose element is an unbounded array. A static array with an explicit stride never sizes its element, so it can always be sized, even over an unbounded array. An unbounded outer array is never sizable when nested, stride or not (`SizeUnboundOnlyForDynamicArray`). |
| `Validation.StructSizeAccumulation` | wgpu-core/src/validation.rs:145-187 | For members at offsets 0 and 16 where the first is 16 bytes, both the nested size and the top-level sum are 16 plus the second member's size. A trailing unbounded array with a stride adds exactly one stride. |
| `Validation.MemberSizeSumPrefix` | wgpu-core/src/validation.rs:184-187 | If members do not overlap, the running member-size sum up to member k is at most k's offset plus k's size. It is equal when members are packed from offset 0. |
| `Validation.TopLevelSumVersusNestedSize` | wgpu-core/src/validation.rs:145-187 | The top-level sum is at most the nested size (last offset + last size) when members do not overlap, and equal when they are packed from 0. |
| `Validation.IsSubType` | wgpu-core/src/validation.rs:293-347 | Whether a provided type satisfies a required one. Its rules are proved in `SubTypeNumericIff`, `SubTypeReflexive`, `SubTypeOnlyValueTypes`, `SubTypeMatrixIff`, `SubTypeStructEquality`, `SubTypeTransitive` and `SubTypeAntisymmetric`. |
| `Validation.SubTypeNumericIff` | wgpu-core/src/validation.rs:293-329 | On scalars and vectors, a required type is satisfied iff the kinds are equal, the required width is no larger and the required component count is no larger. A scalar counts as one component, so a vector is never satisfied by a scalar. |
| `Validation.SubTypeReflexive` | wgpu-core/src/validation.rs:293-347 | A type satisfies itself iff it is a scalar, vector, matrix or struct. |
| `Validation.SubTypeOnlyValueTypes` | wgpu-core/src/validation.rs:296-346 | Only scalars, vectors, matrices and structs are ever related. A scalar needs a scalar or a vector of the same kind, a vector needs a vector and a matrix needs a matrix. A struct is satisfied only by an identical struct. |
| `Validation.SubTypeStructEquality` | wgpu-core/src/validation.rs:344 | A struct satisfies a struct iff the two member lists are equal, member names included. Two members that differ only in name do not match. |
| `Validation.SubTypeMatrixIff` | wgpu-core/src/validation.rs:330-343 | A matrix satisfies a matrix iff the columns, rows and kind are equal and the required width is no larger. |
| `Validation.SubTypeTransitive` | wgpu-core/src/validation.rs:293-347 | Compatibility is transitive. |
| `Validation.SubTypeAntisymmetric` | wgpu-core/src/validation.rs:293-347 | Two types that satisfy each other are equal, so the relation is one-directional. |
| `Validation.BindingResult` | wgpu-core/src/validation.rs:152-291 | The reference outcome of checking one global against one layout entry: the type rules give an allowed usage or an error, and the usage must lie within it. Its rules are proved in `StructBindingRules`, `SamplerBindingRules`, `ImageBindingRules`, `ComponentTypeRule`, `ViewDimensionPairs`, `BindingUsageMonotone`, `OtherTypesWrongType` and `BindingSeesThroughPointer`. |
| `Validation.CheckBinding` | wgpu-core/src/validation.rs:152-291 | The method, with its pointer unwrapping and its member-size loop, returns exactly `BindingResult`. |
| `Validation.StructBindingRules` | wgpu-core/src/validation.rs:163-195 | A struct binds only to a uniform or storage buffer entry, else `WrongType`. It fails with `WrongBufferSize(sum)` exactly when a minimum size is declared below the member-size sum. Otherwise it is Ok iff its usage is within the allowed usage. A uniform or read-only storage buffer allows LOAD only. A writable storage buffer that is large enough accepts every usage. |
| `Validation.SamplerBindingRules` | wgpu-core/src/validation.rs:196-205 | A sampler needs a sampler entry, else `WrongType`. The entry needs an equal comparison flag, else `WrongSamplerComparison`. It is then Ok iff the usage is empty. |
| `Validation.ImageBindingRules` | wgpu-core/src/validation.rs:206-283 | The image checks run in this order: multisampling, entry kind (reporting is_array = true), view dimension, component type, sampling capability, then usage (LOAD for sampled or read-only storage textures, STORE for writable storage textures). |
| `Validation.ComponentTypeRule` | wgpu-core/src/validation.rs:250-268 | A sampled texture's component type must equal the kind of the image's scalar or vector base. Otherwise the error reports that kind, or None when the base is neither a scalar nor a vector. |
| `Validation.ViewDimensionPairs` | wgpu-core/src/validation.rs:225-249 | A view matches exactly in these pairs. Arrayed: 2D with 2D-array, and cube with cube-array. Non-arrayed: 1D with 1D, 2D with 2D, 3D with 3D, and cube with cube. So each image dimensionality has at most one matching view, and rect, buffer and subpass images match none. |
| `Validation.BindingUsageMonotone` | wgpu-core/src/validation.rs:286-290 | Usage is checked last, by containment. When the type rules pass but the usage is not within the allowed usage, the result is `WrongUsage(usage)`. An accepted global stays accepted with less usage, and any other error does not depend on the usage. |
| `Validation.OtherTypesWrongType` | wgpu-core/src/validation.rs:284 | A global that is not a struct, sampler or image (after one pointer unwrap) fails with `WrongType`. |
| `Validation.BindingSeesThroughPointer` | wgpu-core/src/validation.rs:158-162 | A global whose type is a pointer to a non-pointer type is checked exactly as the type it points to. Only one pointer is unwrapped, so a pointer to a pointer is checked as a pointer and gives `WrongType`. |
| `Validation.StorageBufferTooSmallExample` | wgpu-core/src/validation.rs:184-191 | A 48-byte struct against a storage entry whose minimum size is 32 fails with `WrongBufferSize(48)`. |
| `Validation.MapVertexFormat` | wgpu-core/src/validation.rs:364-496 | Every vertex format maps to a scalar or a vector, which satisfies itself. The per-format component count, kind and width are proved in `MapVertexFormatShape`. |
| `Validation.MapVertexFormatShape` | wgpu-core/src/validation.rs:364-496 | Each vertex format maps to a scalar when it has one component, else to a vector of its component count. The kind and bit width are those its name states. |
| `Validation.MapTextureFormat` | wgpu-core/src/validation.rs:498-647 | Every colour format maps to a scalar or a vector, which satisfies itself. Depth formats are excluded because the source panics on them. The per-format channel count and kind are proved in `MapTextureFormatShape`. |
| `Validation.MapTextureFormatShape` | wgpu-core/src/validation.rs:498-647 | Each colour format maps to a scalar or vector with its channel count, and the kind its suffix states. |
| `Validation.MapTextureFormatWidth` | wgpu-core/src/validation.rs:498-647 | Each colour format maps to the bit width its name states: 8, 16 or 32, with 10 for Rgb10a2 and 11 for Rg11b10. |
| `Validation.CheckTextureFormat` | wgpu-core/src/validation.rs:649-653 | Only a scalar or vector output can cover a colour format, and the format's own type always covers it. The full condition is proved in `CheckTextureFormatIff`. |
| `Validation.CheckTextureFormatIff` | wgpu-core/src/validation.rs:649-653 | An output covers a colour format iff it is a scalar or vector of the format's kind, at least as wide as the format's channel bits and with at least as many components. |
| `Validation.FindEntryPoint` | wgpu-core/src/validation.rs:666-672 | Returns the first entry point matching both name and execution model, or None when no entry point matches. |
| `Validation.StageResult` | wgpu-core/src/validation.rs:657-738 | The reference outcome of one stage: `MissingEntryPoint` when no entry point matches, else the first failing global's error, else the stored varyings as outputs. Its rules are proved in `StageMissingEntryPoint`, `StageFirstFailure`, `StageOutputOverwrite`, `DescriptorGates` and `VaryingRules`. |
| `Validation.CheckStage` | wgpu-core/src/validation.rs:657-738 | The loop over the zipped global variables and usages returns exactly `StageResult`. |
| `Validation.FirstGlobalFailureNone` | wgpu-core/src/validation.rs:683-736 | The scan from global i finds no error iff every visited global from i onwards passes. |
| `Validation.FirstGlobalFailureSome` | wgpu-core/src/validation.rs:683-736 | An error found by the scan is that of the first failing global, and every earlier global passes. |
| `Validation.StageOutputsKeys` | wgpu-core/src/validation.rs:715-716 | A location is among the outputs of the first k globals iff one of them is a stored varying at that location. |
| `Validation.StageOutputsLastWriter` | wgpu-core/src/validation.rs:715-716 | A location holds the unwrapped type of the last global stored to it: later globals overwrite earlier ones. |
| `Validation.StageMissingEntryPoint` | wgpu-core/src/validation.rs:666-672 | The result is `MissingEntryPoint(model)` iff no entry point has both the name and the execution model. |
| `Validation.StageFirstFailure` | wgpu-core/src/validation.rs:682-737 | The stage is Ok iff no visited global fails, and a failure is that of the first failing global. On success, the output keys are exactly the locations of stored varyings. |
| `Validation.StageOutputOverwrite` | wgpu-core/src/validation.rs:715-716 | On success, each output location holds the type of the last global stored to it. |
| `Validation.DescriptorGates` | wgpu-core/src/validation.rs:688-708 | For a used descriptor global, an absent group or binding gives `Missing`, and a visibility mask without the stage gives `Invisible`. Both are decided before any type check or size calculation, so they hold for every type, sizable or not. Otherwise the binding check decides, and every error is wrapped with (group, binding). |
| `Validation.VaryingRules` | wgpu-core/src/validation.rs:683-735 | Unused globals and built-ins are skipped, and stored varyings never fail. A read-only varying gives `InputMissing` when the previous stage lacks its location. It gives `InputWrongType` when its declared type is not satisfied by the provided type. Both errors carry the location. |
| `Validation.UsedSamplerRejected` | wgpu-core/src/validation.rs:196-205 | A used, visible sampler with a matching comparison flag is always rejected, with `WrongUsage(usage)`. |
| `Validation.VertexFragmentScenarios` | wgpu-core/src/validation.rs:709-737 | A vertex stage storing a float 4-vector at location 0 outputs it. A fragment stage reading a float 2-vector there then succeeds. A signed-integer vector at location 0 gives `InputWrongType` at 0. A wrong execution model gives `MissingEntryPoint`. |
| `Validation.InvisibleBeforeSizeScenario` | wgpu-core/src/validation.rs:688-708 | A fragment stage using a uniform-buffer struct that cannot be sized (its first member is an unbounded array), behind an entry visible to the vertex stage only, fails with `Invisible` at (0, 0). The size calculation is never reached. |
| `Validation.SamplerMismatchScenario` | wgpu-core/src/validation.rs:688-708 | A comparison sampler at (0, 1) against a non-comparison sampler entry gives `WrongSamplerComparison` at (0, 1). The same sampler against an entry not visible to the fragment stage gives `Invisible`. |

## Left out

- Validation.CheckStage: `StageSizable` requires every used descriptor global whose layout entry exists and is visible to the stage to be sizable. Among the globals after the first failing one, the source never reaches this size calculation.
- Validation.StageResult: the same sizability precondition as `CheckStage`.
- Integer widths: sizes are unbounded naturals, so u64 overflow in `get_aligned_type_size` and in the member-size sum is not modelled. Offsets and maxima keep their u32 and u64 ranges. This does not matter there, because the offset is widened to u64 before it is compared.
- Alignment and padding of GPU layouts are not modelled, because the code does not implement them (the TODO at validation.rs:108). The storage-texture format check is left out for the same reason (the TODO at validation.rs:271).
- `log::error!` calls in `validate_dynamic_bindings`: logging is a side effect. Only the returned error is modelled.
- Error message strings and `Debug` formatting are presentation only.
- `BindGroupLayout`, `PipelineLayout`, `PipelineLayoutDescriptor` (a raw pointer and length), `BufferBinding`, `BindingResource`, `BindGroupEntry`, `BindGroupDescriptor`, the layout, group and pipeline-layout error enums, and the other `BindGroup` fields (backend set, device, layout id, life guard, trackers) are left out, along with the `Borrow` impls. These are resource lifetime and tracking concerns. The offset check reads only `dynamic_binding_info`.
- `MaybeOwned` only expresses Rust borrowing. Interface values are plain `TypeInner` copies.
- `FastHashMap` hashing and iteration order are irrelevant here; Dafny maps are used.
- naga fields the checks never read are left out: type names, a pointer's storage class, a variable's class and name, and built-in details. Struct members keep their name, offset and type. The name is kept because `is_sub_type` compares whole member records (validation.rs:344).
- `BIND_BUFFER_ALIGNMENT` is taken as 256, its value in wgpu-types, which is not part of this model.
