/**
  Bind groups and the per-draw check of dynamic buffer offsets
  (`BindGroup::validate_dynamic_bindings`).
 */
module BindingModel {

  import opened Wrappers
  import opened Wgt

  /** Layout entries of one bind group, keyed by binding index. */
  type BindEntryMap = map<nat, BindGroupLayoutEntry>

  datatype BindError =
    | MismatchedDynamicOffsetCount(actual: nat, expected: nat)
    | UnalignedDynamicBinding(idx: nat)
    | DynamicBindingOutOfBounds(idx: nat)

  datatype BindGroupDynamicBindingData = BindGroupDynamicBindingData(maximumDynamicOffset: BufferAddress)

  /**
    A bind group, reduced to what the offset check reads: the bound of each
    dynamic binding, in declaration order, fixed when the group was built.
   */
  datatype BindGroup = BindGroup(dynamicBindingInfo: seq<BindGroupDynamicBindingData>)

  predicate Aligned(offset: DynamicOffset)
  {
    offset % BIND_BUFFER_ALIGNMENT == 0
  }

  /** The offset passes both per-binding checks. */
  predicate OffsetValid(info: BindGroupDynamicBindingData, offset: DynamicOffset)
  {
    Aligned(offset) && offset <= info.maximumDynamicOffset
  }

  /** The error one offset raises at index `idx`: alignment is checked first. */
  function OffsetError(info: BindGroupDynamicBindingData, offset: DynamicOffset, idx: nat): (e: Option<BindError>)
    ensures e.None? <==> OffsetValid(info, offset)
    ensures e.Some? ==> e.value.UnalignedDynamicBinding? || e.value.DynamicBindingOutOfBounds?
    ensures e.Some? && !Aligned(offset) ==> e.value == UnalignedDynamicBinding(idx)
    ensures e.Some? && Aligned(offset) ==> e.value == DynamicBindingOutOfBounds(idx)
  {
    if !Aligned(offset) then Some(UnalignedDynamicBinding(idx))
    else if offset > info.maximumDynamicOffset then Some(DynamicBindingOutOfBounds(idx))
    else None
  }

  /** The first error among the offsets from index `i` on, scanning in order. */
  function FirstOffsetError(infos: seq<BindGroupDynamicBindingData>, offsets: seq<DynamicOffset>, i: nat): Option<BindError>
    requires |infos| == |offsets| && i <= |offsets|
    decreases |offsets| - i
  {
    if i == |offsets| then None
    else match OffsetError(infos[i], offsets[i], i)
      case Some(e) => Some(e)
      case None => FirstOffsetError(infos, offsets, i + 1)
  }

  /** Reference outcome of validating `offsets` against the bind group. */
  function DynamicBindingsResult(group: BindGroup, offsets: seq<DynamicOffset>): Result<(), BindError>
  {
    var infos := group.dynamicBindingInfo;
    if |infos| != |offsets| then
      Err(MismatchedDynamicOffsetCount(|offsets|, |infos|))
    else match FirstOffsetError(infos, offsets, 0)
      case Some(e) => Err(e)
      case None => Ok(())
  }

  /**
    The check run before encoding a bind operation: the count first, then each
    offset in declaration order, returning the first failure.
   */
  method ValidateDynamicBindings(group: BindGroup, offsets: seq<DynamicOffset>) returns (r: Result<(), BindError>)
    ensures r == DynamicBindingsResult(group, offsets)
  {
    var infos := group.dynamicBindingInfo;
    if |infos| != |offsets| {
      return Err(MismatchedDynamicOffsetCount(|offsets|, |infos|));
    }
    var idx := 0;
    while idx < |offsets|
      invariant 0 <= idx <= |offsets|
      invariant FirstOffsetError(infos, offsets, idx) == FirstOffsetError(infos, offsets, 0)
    {
      var offset := offsets[idx];
      if offset % BIND_BUFFER_ALIGNMENT != 0 {
        return Err(UnalignedDynamicBinding(idx));
      }
      if offset > infos[idx].maximumDynamicOffset {
        return Err(DynamicBindingOutOfBounds(idx));
      }
      idx := idx + 1;
    }
    return Ok(());
  }

  /** The scan from `i` finds nothing iff every offset from `i` on is valid. */
  lemma {:induction false} FirstOffsetErrorNone(infos: seq<BindGroupDynamicBindingData>, offsets: seq<DynamicOffset>, i: nat)
    requires |infos| == |offsets| && i <= |offsets|
    ensures FirstOffsetError(infos, offsets, i).None? <==>
            forall j :: i <= j < |offsets| ==> OffsetValid(infos[j], offsets[j])
    decreases |offsets| - i
  {
    if i < |offsets| {
      FirstOffsetErrorNone(infos, offsets, i + 1);
    }
  }

  /**
    The scan from `i` reports the error of the smallest failing index at or
    after `i`, and every index before it passes.
   */
  lemma {:induction false} FirstOffsetErrorSome(infos: seq<BindGroupDynamicBindingData>, offsets: seq<DynamicOffset>, i: nat)
    requires |infos| == |offsets| && i <= |offsets|
    requires FirstOffsetError(infos, offsets, i).Some?
    ensures exists k ::
              && i <= k < |offsets|
              && !OffsetValid(infos[k], offsets[k])
              && OffsetError(infos[k], offsets[k], k) == FirstOffsetError(infos, offsets, i)
              && forall j :: i <= j < k ==> OffsetValid(infos[j], offsets[j])
    decreases |offsets| - i
  {
    if OffsetError(infos[i], offsets[i], i).None? {
      FirstOffsetErrorSome(infos, offsets, i + 1);
      var k :| i + 1 <= k < |offsets| &&
        !OffsetValid(infos[k], offsets[k]) &&
        OffsetError(infos[k], offsets[k], k) == FirstOffsetError(infos, offsets, i + 1) &&
        forall j :: i + 1 <= j < k ==> OffsetValid(infos[j], offsets[j]);
      assert forall j :: i <= j < k ==> OffsetValid(infos[j], offsets[j]);
    }
  }

  /** A count mismatch is reported before any offset is looked at, with both counts. */
  lemma CountMismatchFirst(group: BindGroup, offsets: seq<DynamicOffset>)
    ensures DynamicBindingsResult(group, offsets).Err? &&
            DynamicBindingsResult(group, offsets).error.MismatchedDynamicOffsetCount?
        <==> |group.dynamicBindingInfo| != |offsets|
    ensures |group.dynamicBindingInfo| != |offsets| ==>
      DynamicBindingsResult(group, offsets) ==
        Err(MismatchedDynamicOffsetCount(|offsets|, |group.dynamicBindingInfo|))
  {
    if |group.dynamicBindingInfo| == |offsets| && FirstOffsetError(group.dynamicBindingInfo, offsets, 0).Some? {
      FirstOffsetErrorSome(group.dynamicBindingInfo, offsets, 0);
    }
  }

  /** Success means equal counts and every offset aligned and within its bound. */
  lemma DynamicBindingsOkIff(group: BindGroup, offsets: seq<DynamicOffset>)
    ensures DynamicBindingsResult(group, offsets).Ok? <==>
      |group.dynamicBindingInfo| == |offsets| &&
      forall i :: 0 <= i < |offsets| ==> OffsetValid(group.dynamicBindingInfo[i], offsets[i])
  {
    if |group.dynamicBindingInfo| == |offsets| {
      FirstOffsetErrorNone(group.dynamicBindingInfo, offsets, 0);
    }
  }

  /**
    With equal counts, a failure names the smallest failing index: unaligned
    if that offset is unaligned (even when it is also too large), out of
    bounds otherwise.
   */
  lemma DynamicBindingsFirstFailure(group: BindGroup, offsets: seq<DynamicOffset>, k: nat)
    requires |group.dynamicBindingInfo| == |offsets|
    requires k < |offsets| && !OffsetValid(group.dynamicBindingInfo[k], offsets[k])
    requires forall j :: 0 <= j < k ==> OffsetValid(group.dynamicBindingInfo[j], offsets[j])
    ensures !Aligned(offsets[k]) ==> DynamicBindingsResult(group, offsets) == Err(UnalignedDynamicBinding(k))
    ensures Aligned(offsets[k]) ==> DynamicBindingsResult(group, offsets) == Err(DynamicBindingOutOfBounds(k))
  {
    var infos := group.dynamicBindingInfo;
    FirstOffsetErrorNone(infos, offsets, 0);
    FirstOffsetErrorSome(infos, offsets, 0);
    var k' :| 0 <= k' < |offsets| &&
      !OffsetValid(infos[k'], offsets[k']) &&
      OffsetError(infos[k'], offsets[k'], k') == FirstOffsetError(infos, offsets, 0) &&
      forall j :: 0 <= j < k' ==> OffsetValid(infos[j], offsets[j]);
    assert k' == k;
  }

  /**
    The bound is inclusive. With every other offset valid, an aligned offset
    equal to its binding's maximum gives success, and one above it gives
    DynamicBindingOutOfBounds at its index.
   */
  lemma BoundInclusive(group: BindGroup, offsets: seq<DynamicOffset>, k: nat)
    requires |group.dynamicBindingInfo| == |offsets| && k < |offsets| && Aligned(offsets[k])
    requires forall j :: 0 <= j < |offsets| && j != k ==> OffsetValid(group.dynamicBindingInfo[j], offsets[j])
    ensures offsets[k] == group.dynamicBindingInfo[k].maximumDynamicOffset ==>
      DynamicBindingsResult(group, offsets) == Ok(())
    ensures offsets[k] > group.dynamicBindingInfo[k].maximumDynamicOffset ==>
      DynamicBindingsResult(group, offsets) == Err(DynamicBindingOutOfBounds(k))
  {
    DynamicBindingsOkIff(group, offsets);
    if offsets[k] > group.dynamicBindingInfo[k].maximumDynamicOffset {
      DynamicBindingsFirstFailure(group, offsets, k);
    }
  }

  /**
    Bounds [256, 512] with alignment 256: two successes (one at both bounds)
    and the three kinds of failure.
   */
  lemma DynamicBindingsExamples()
    ensures DynamicBindingsResult(BindGroup([BindGroupDynamicBindingData(256), BindGroupDynamicBindingData(512)]), [0, 256]) == Ok(())
    ensures DynamicBindingsResult(BindGroup([BindGroupDynamicBindingData(256), BindGroupDynamicBindingData(512)]), [256, 512]) == Ok(())
    ensures DynamicBindingsResult(BindGroup([BindGroupDynamicBindingData(256), BindGroupDynamicBindingData(512)]), [0, 257]) == Err(UnalignedDynamicBinding(1))
    ensures DynamicBindingsResult(BindGroup([BindGroupDynamicBindingData(256), BindGroupDynamicBindingData(512)]), [0, 768]) == Err(DynamicBindingOutOfBounds(1))
    ensures DynamicBindingsResult(BindGroup([BindGroupDynamicBindingData(256), BindGroupDynamicBindingData(512)]), [0]) == Err(MismatchedDynamicOffsetCount(1, 2))
  {
  }
}
