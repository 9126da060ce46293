/** `BuildingPointCloudRenderer`: the per-cloud position and memory buffers, from `Awake` to `OnDestroy`. */
module PointCloudRenderer {
  import opened Geometry

  /** A `GraphicsBuffer`: its elements, and whether `Release` has been called on it. */
  datatype GpuBuffer<T> = GpuBuffer(data: seq<T>, released: bool)

  /** The component's fields, and whether Unity has destroyed the component; a component whose `Awake`
      has not run holds 0 and two null buffers. */
  datatype Renderer = Renderer(pointCount: nat, positionBuffer: Option<GpuBuffer<Vec3>>,
                               memoryBuffer: Option<GpuBuffer<real>>, destroyed: bool)

  const Fresh: Renderer := Renderer(0, None, None, false)

  /** The buffers' lifecycle: never allocated, allocated and live, or released. */
  datatype Phase = Unallocated | Allocated | Released

  /** Both buffers are present or both absent, share one release state, and each holds `pointCount`
      elements; without buffers the count is at most what `Awake` wrote before failing, 0; and a
      destroyed component holds no live buffer. */
  predicate Consistent(r: Renderer)
  {
    && (r.positionBuffer.Some? <==> r.memoryBuffer.Some?)
    && (r.positionBuffer.Some? ==>
          && |r.positionBuffer.value.data| == r.pointCount
          && |r.memoryBuffer.value.data| == r.pointCount
          && r.positionBuffer.value.released == r.memoryBuffer.value.released)
    && (r.positionBuffer.None? ==> r.pointCount == 0)
    && (r.destroyed && r.positionBuffer.Some? ==> r.positionBuffer.value.released)
  }

  function PhaseOf(r: Renderer): Phase
    requires Consistent(r)
  {
    if r.positionBuffer.None? then Unallocated
    else if r.positionBuffer.value.released then Released
    else Allocated
  }

  /** The initial memory contents: a fresh array of `n` floats, set to 1.0 one index at a time. */
  method FillOnes(n: nat) returns (ones: seq<real>)
    ensures |ones| == n
    ensures forall i :: 0 <= i < n ==> ones[i] == 1.0
  {
    var a := new real[n];
    var i := 0;
    while i < n
      invariant 0 <= i <= n
      invariant forall k :: 0 <= k < i ==> a[k] == 1.0
    {
      a[i] := 1.0;
      i := i + 1;
    }
    ones := a[..];
  }

  /** The state `Awake` leaves behind for `asset`: the count is the asset's position count, the position
      buffer holds the positions in order, and the memory buffer holds one 1.0 per point. */
  predicate InitialisedFrom(r: Renderer, asset: PointCloudData)
  {
    && |asset.positions| > 0
    && !r.destroyed
    && r.pointCount == |asset.positions|
    && r.positionBuffer == Some(GpuBuffer(asset.positions, false))
    && r.memoryBuffer.Some?
    && !r.memoryBuffer.value.released
    && |r.memoryBuffer.value.data| == r.pointCount
    && forall i :: 0 <= i < |r.memoryBuffer.value.data| ==> r.memoryBuffer.value.data[i] == 1.0
  }

  /** `Awake` on a fresh component. With no asset assigned, reading `pointCloudData.positions` throws
      before any modelled field is written, so the component stays as it was. With an asset of no
      points the count 0 is written and then the position buffer's constructor throws, since a
      `GraphicsBuffer` of zero elements cannot be created: both buffers stay null. */
  method Awake(asset: Option<PointCloudData>) returns (r: Renderer)
    ensures asset.None? ==> r == Fresh
    ensures asset.Some? && |asset.value.positions| == 0 ==> r == Fresh
    ensures asset.Some? && |asset.value.positions| > 0 ==> InitialisedFrom(r, asset.value)
    ensures Consistent(r)
    ensures PhaseOf(r) == Allocated <==> asset.Some? && |asset.value.positions| > 0
  {
    if asset.None? {
      return Fresh;
    }
    var count := |asset.value.positions|;
    if count == 0 {
      return Renderer(count, None, None, false);
    }
    var positions := GpuBuffer(asset.value.positions, false);
    var ones := FillOnes(count);
    r := Renderer(count, Some(positions), Some(GpuBuffer(ones, false)), false);
  }

  /** `buffer?.Release()`: releases a buffer that exists and does nothing to a null one. */
  function Release<T>(b: Option<GpuBuffer<T>>): (b': Option<GpuBuffer<T>>)
    ensures b'.Some? <==> b.Some?
    ensures b.Some? ==> b'.value.data == b.value.data && b'.value.released
  {
    match b
    case None => None
    case Some(buf) => Some(buf.(released := true))
  }

  /** `OnDestroy`, run as Unity destroys the component: releases both buffers, whichever of them
      exist. Neither field is cleared and the count is kept. */
  function OnDestroy(r: Renderer): (r': Renderer)
    ensures r'.destroyed
    ensures r'.pointCount == r.pointCount
    ensures r'.positionBuffer.Some? <==> r.positionBuffer.Some?
    ensures r'.memoryBuffer.Some? <==> r.memoryBuffer.Some?
    ensures r'.positionBuffer.Some? ==> r'.positionBuffer.value.released
    ensures r'.memoryBuffer.Some? ==> r'.memoryBuffer.value.released
  {
    r.(positionBuffer := Release(r.positionBuffer), memoryBuffer := Release(r.memoryBuffer), destroyed := true)
  }

  /** The lifecycle Unallocated -> Allocated -> Released: destroying keeps both buffers the same length
      as the count, takes a live component to Released, leaves an unallocated one's fields untouched
      and is harmless when repeated. */
  lemma OnDestroyLifecycle(r: Renderer)
    requires Consistent(r)
    ensures Consistent(OnDestroy(r))
    ensures PhaseOf(r) == Unallocated ==> OnDestroy(r) == r.(destroyed := true)
    ensures PhaseOf(r) != Unallocated ==> PhaseOf(OnDestroy(r)) == Released
    ensures OnDestroy(OnDestroy(r)) == OnDestroy(r)
  {
  }

  /** The `PositionBuffer` property: on a consistent component, present whenever the count is non-zero,
      and a buffer of one position per point whenever present. */
  function PositionBuffer(r: Renderer): (b: Option<GpuBuffer<Vec3>>)
    ensures Consistent(r) && r.pointCount > 0 ==> b.Some?
    ensures Consistent(r) && b.Some? ==> |b.value.data| == r.pointCount
  {
    r.positionBuffer
  }

  /** The `MemoryBuffer` property: on a consistent component, present with the position buffer and
      holding one memory value per point. */
  function MemoryBuffer(r: Renderer): (b: Option<GpuBuffer<real>>)
    ensures Consistent(r) ==> (b.Some? <==> PositionBuffer(r).Some?)
    ensures Consistent(r) && b.Some? ==> |b.value.data| == r.pointCount
  {
    r.memoryBuffer
  }

  /** The `PointCount` property: on a consistent component, a non-zero count means both buffers exist
      and hold that many elements. */
  function PointCount(r: Renderer): (n: nat)
    ensures Consistent(r) && n > 0 ==> r.positionBuffer.Some? && r.memoryBuffer.Some?
    ensures Consistent(r) && r.positionBuffer.Some? ==> |r.positionBuffer.value.data| == n
  {
    r.pointCount
  }

  /** What the accessors show after `Awake`: the asset's count, its positions in order, and a memory
      buffer of as many ones, both live. */
  lemma AccessorsAfterAwake(r: Renderer, asset: PointCloudData)
    requires InitialisedFrom(r, asset)
    ensures PointCount(r) == |asset.positions|
    ensures PositionBuffer(r).Some? && PositionBuffer(r).value.data == asset.positions
    ensures MemoryBuffer(r).Some? && |MemoryBuffer(r).value.data| == PointCount(r)
    ensures forall i :: 0 <= i < PointCount(r) ==> MemoryBuffer(r).value.data[i] == 1.0
    ensures PhaseOf(r) == Allocated
  {
  }
}
