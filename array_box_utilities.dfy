/**
 * Axis-aligned bounding boxes stored flat, as the hierarchy builder keeps
 * them: six numbers [minX, minY, minZ, maxX, maxY, maxZ] in a numeric buffer.
 * Numbers are modelled as `real` (no NaN, no infinities, no float rounding).
 */
module ArrayBoxUtilities {

  /** Number of entries of one flat box. */
  const BoxSize := 6

  /** Distance from an axis' minimum entry to its maximum entry. */
  const MaxOffset := 3

  // ---------------------------------------------------------------------------
  // The flat layout

  /** The minimum coordinate of a flat box along `axis` (0 = x, 1 = y, 2 = z). */
  function Lo(bounds: seq<real>, axis: nat): real
    requires axis < MaxOffset && |bounds| >= BoxSize
  {
    bounds[axis]
  }

  /** The maximum coordinate of a flat box along `axis`. */
  function Hi(bounds: seq<real>, axis: nat): real
    requires axis < MaxOffset && |bounds| >= BoxSize
  {
    bounds[axis + MaxOffset]
  }

  /** The length of the box's edge along `axis`. */
  function Extent(bounds: seq<real>, axis: nat): real
    requires axis < MaxOffset && |bounds| >= BoxSize
  {
    Hi(bounds, axis) - Lo(bounds, axis)
  }

  /** A box whose minimum does not exceed its maximum on any axis (zero volume is allowed). */
  predicate WellFormed(bounds: seq<real>)
    requires |bounds| >= BoxSize
  {
    forall axis :: 0 <= axis < MaxOffset ==> Lo(bounds, axis) <= Hi(bounds, axis)
  }

  /** `outer` encloses `inner` on every axis. */
  predicate Contains(outer: seq<real>, inner: seq<real>)
    requires |outer| >= BoxSize && |inner| >= BoxSize
  {
    forall axis :: 0 <= axis < MaxOffset ==>
      Lo(outer, axis) <= Lo(inner, axis) && Hi(inner, axis) <= Hi(outer, axis)
  }

  // ---------------------------------------------------------------------------
  // arrayToBox

  /** A three.js vector, reduced to the coordinates the bounds utilities write. */
  class Vector3 {
    var x: real
    var y: real
    var z: real

    constructor ()
      ensures x == 0.0 && y == 0.0 && z == 0.0
    {
      x, y, z := 0.0, 0.0, 0.0;
    }
  }

  /** A three.js box object: a minimum and a maximum corner, held as two distinct vectors. */
  class Box3 {
    var min: Vector3
    var max: Vector3

    ghost predicate Valid()
      reads this
    {
      min != max
    }

    constructor ()
      ensures Valid() && fresh(min) && fresh(max)
    {
      min := new Vector3();
      max := new Vector3();
    }

    /** The box's corners in the flat six-entry layout. */
    ghost function Flat(): (bounds: seq<real>)
      reads this, min, max
      ensures |bounds| == BoxSize
    {
      [min.x, min.y, min.z, max.x, max.y, max.z]
    }
  }

  /**
   * Decodes the six entries of `buffer` starting at `nodeIndex32` into the
   * corners of `target` and hands `target` back. The buffer is only read.
   */
  method ArrayToBox(nodeIndex32: nat, buffer: array<real>, target: Box3) returns (r: Box3)
    requires nodeIndex32 + BoxSize <= buffer.Length
    requires target.Valid()
    modifies target.min, target.max
    ensures r == target && target.Valid()
    ensures target.min.x == buffer[nodeIndex32] && target.min.y == buffer[nodeIndex32 + 1]
    ensures target.min.z == buffer[nodeIndex32 + 2] && target.max.x == buffer[nodeIndex32 + 3]
    ensures target.max.y == buffer[nodeIndex32 + 4] && target.max.z == buffer[nodeIndex32 + 5]
    ensures target.Flat() == buffer[nodeIndex32..nodeIndex32 + BoxSize]
    ensures unchanged(buffer)
  {
    target.min.x := buffer[nodeIndex32];
    target.min.y := buffer[nodeIndex32 + 1];
    target.min.z := buffer[nodeIndex32 + 2];

    target.max.x := buffer[nodeIndex32 + 3];
    target.max.y := buffer[nodeIndex32 + 4];
    target.max.z := buffer[nodeIndex32 + 5];

    r := target;
  }

  // ---------------------------------------------------------------------------
  // getLongestEdgeIndex

  /** A number or minus infinity, the start value of the running longest edge. */
  datatype ExtReal = NegInfinity | Finite(value: real)

  /** `x > e`, where every number exceeds minus infinity. */
  predicate Exceeds(x: real, e: ExtReal)
  {
    match e
    case NegInfinity => true
    case Finite(v) => x > v
  }

  /**
   * The axis of the longest edge. The running best is replaced only when an
   * edge is strictly longer, so among edges of equal length the lowest axis wins.
   */
  method GetLongestEdgeIndex(bounds: array<real>) returns (splitDimIdx: int)
    requires bounds.Length >= BoxSize
    ensures 0 <= splitDimIdx < MaxOffset
    ensures forall axis :: 0 <= axis < MaxOffset ==>
      Extent(bounds[..], axis) <= Extent(bounds[..], splitDimIdx)
    ensures forall axis :: 0 <= axis < splitDimIdx ==>
      Extent(bounds[..], axis) < Extent(bounds[..], splitDimIdx)
  {
    splitDimIdx := -1;
    var splitDist := NegInfinity;
    for i := 0 to MaxOffset
      invariant i == 0 ==> splitDimIdx == -1 && splitDist == NegInfinity
      invariant i > 0 ==> 0 <= splitDimIdx < i && splitDist == Finite(Extent(bounds[..], splitDimIdx))
      invariant forall axis :: 0 <= axis < i ==>
        Extent(bounds[..], axis) <= Extent(bounds[..], splitDimIdx)
      invariant forall axis :: 0 <= axis < splitDimIdx ==>
        Extent(bounds[..], axis) < Extent(bounds[..], splitDimIdx)
    {
      var dist := bounds[i + MaxOffset] - bounds[i];
      if Exceeds(dist, splitDist) {
        splitDist := Finite(dist);
        splitDimIdx := i;
      }
    }
  }

  // ---------------------------------------------------------------------------
  // copyBounds

  /**
   * Copies `source` over the front of `target`, as a typed array's bulk `set`
   * does; `target` must be at least as long. Entries of `target` past the
   * copied prefix keep their values. `source` may be `target` itself.
   */
  method CopyBounds(source: array<real>, target: array<real>)
    requires source.Length <= target.Length
    modifies target
    ensures target[..source.Length] == old(source[..])
    ensures target[source.Length..] == old(target[source.Length..])
    ensures source[..] == old(source[..])
  {
    forall i | 0 <= i < source.Length {
      target[i] := source[i];
    }
  }

  // ---------------------------------------------------------------------------
  // unionBounds

  /** The smaller of two numbers, choosing `y` unless `x < y`. */
  function MinOf(x: real, y: real): (m: real)
    ensures m <= x && m <= y && (m == x || m == y)
  {
    if x < y then x else y
  }

  /** The larger of two numbers, choosing `y` unless `x > y`. */
  function MaxOf(x: real, y: real): (m: real)
    ensures x <= m && y <= m && (m == x || m == y)
  {
    if x > y then x else y
  }

  /** The union box: per axis, the minimum of the minima and the maximum of the maxima. */
  function Union(a: seq<real>, b: seq<real>): (u: seq<real>)
    requires |a| >= BoxSize && |b| >= BoxSize
    ensures |u| == BoxSize
    ensures Contains(u, a) && Contains(u, b)
  {
    seq(BoxSize, i requires 0 <= i < BoxSize =>
      if i < MaxOffset then MinOf(a[i], b[i]) else MaxOf(a[i], b[i]))
  }

  /**
   * Writes the union of boxes `a` and `b` into the first six entries of
   * `target`. Each axis reads both inputs before writing that axis, so
   * `target` may be `a` or `b`.
   */
  method UnionBounds(a: array<real>, b: array<real>, target: array<real>)
    requires a.Length >= BoxSize && b.Length >= BoxSize && target.Length >= BoxSize
    modifies target
    ensures target[..BoxSize] == Union(old(a[..]), old(b[..]))
    ensures target[BoxSize..] == old(target[BoxSize..])
  {
    ghost var a0, b0, target0 := a[..], b[..], target[..];
    var aVal, bVal;
    for d := 0 to MaxOffset
      invariant forall k :: 0 <= k < d ==> target[k] == Union(a0, b0)[k]
      invariant forall k :: MaxOffset <= k < d + MaxOffset ==> target[k] == Union(a0, b0)[k]
      invariant forall k :: d <= k < MaxOffset ==> a[k] == a0[k] && b[k] == b0[k]
      invariant forall k :: d + MaxOffset <= k < BoxSize ==> a[k] == a0[k] && b[k] == b0[k]
      invariant forall k :: BoxSize <= k < target.Length ==> target[k] == target0[k]
    {
      var d3 := d + MaxOffset;

      // the minimum values
      aVal := a[d];
      bVal := b[d];
      target[d] := MinOf(aVal, bVal);

      // the maximum values
      aVal := a[d3];
      bVal := b[d3];
      target[d3] := MaxOf(aVal, bVal);
    }
    assert forall i :: 0 <= i < BoxSize ==> target[..BoxSize][i] == Union(a0, b0)[i];
  }

  /** The union of two well-formed boxes is well-formed. */
  lemma UnionWellFormed(a: seq<real>, b: seq<real>)
    requires |a| >= BoxSize && |b| >= BoxSize
    requires WellFormed(a) && WellFormed(b)
    ensures WellFormed(Union(a, b))
  {
  }

  /** The union is the smallest box enclosing both inputs. */
  lemma UnionIsLeast(a: seq<real>, b: seq<real>, c: seq<real>)
    requires |a| >= BoxSize && |b| >= BoxSize && |c| >= BoxSize
    ensures Contains(c, a) && Contains(c, b) <==> Contains(c, Union(a, b))
  {
  }

  /** The order of the two inputs does not matter. */
  lemma UnionCommutative(a: seq<real>, b: seq<real>)
    requires |a| >= BoxSize && |b| >= BoxSize
    ensures Union(a, b) == Union(b, a)
  {
  }

  /** The union of a box with itself is that box. */
  lemma UnionIdempotent(a: seq<real>)
    requires |a| >= BoxSize
    ensures Union(a, a) == a[..BoxSize]
  {
  }

  /** Grouping does not matter, so a range of boxes can be merged in any bracketing. */
  lemma UnionAssociative(a: seq<real>, b: seq<real>, c: seq<real>)
    requires |a| >= BoxSize && |b| >= BoxSize && |c| >= BoxSize
    ensures Union(Union(a, b), c) == Union(a, Union(b, c))
  {
  }

  // ---------------------------------------------------------------------------
  // computeSurfaceArea

  /** The surface area 2 * (dx*dy + dy*dz + dz*dx) of a flat box. */
  function SurfaceArea(bounds: seq<real>): (area: real)
    requires |bounds| >= BoxSize
    ensures WellFormed(bounds) ==> area >= 0.0
  {
    var d0 := Extent(bounds, 0);
    var d1 := Extent(bounds, 1);
    var d2 := Extent(bounds, 2);
    assert WellFormed(bounds) ==> d0 >= 0.0 && d1 >= 0.0 && d2 >= 0.0 by {
      if WellFormed(bounds) {
        assert Lo(bounds, 0) <= Hi(bounds, 0);
        assert Lo(bounds, 1) <= Hi(bounds, 1);
        assert Lo(bounds, 2) <= Hi(bounds, 2);
      }
    }
    2.0 * (d0 * d1 + d1 * d2 + d2 * d0)
  }

  /** Products of non-negative numbers grow with their factors. */
  lemma MulMonotone(x: real, y: real, x': real, y': real)
    requires 0.0 <= x <= x' && 0.0 <= y <= y'
    ensures x * y <= x' * y'
  {
  }

  /** A product of positive numbers is positive. */
  lemma MulPositive(x: real, y: real)
    requires x > 0.0 && y > 0.0
    ensures x * y > 0.0
  {
  }

  /**
   * A well-formed box has zero surface area exactly when it is flat in at
   * least two axes, i.e. it is a segment or a point.
   */
  lemma SurfaceAreaZero(bounds: seq<real>)
    requires |bounds| >= BoxSize && WellFormed(bounds)
    ensures SurfaceArea(bounds) == 0.0 <==>
      (Extent(bounds, 0) == 0.0 && Extent(bounds, 1) == 0.0) ||
      (Extent(bounds, 1) == 0.0 && Extent(bounds, 2) == 0.0) ||
      (Extent(bounds, 2) == 0.0 && Extent(bounds, 0) == 0.0)
  {
    var d0, d1, d2 := Extent(bounds, 0), Extent(bounds, 1), Extent(bounds, 2);
    assert Lo(bounds, 0) <= Hi(bounds, 0);
    assert Lo(bounds, 1) <= Hi(bounds, 1);
    assert Lo(bounds, 2) <= Hi(bounds, 2);
    MulMonotone(0.0, 0.0, d0, d1);
    MulMonotone(0.0, 0.0, d1, d2);
    MulMonotone(0.0, 0.0, d2, d0);
    if d0 > 0.0 && d1 > 0.0 {
      MulPositive(d0, d1);
    } else if d1 > 0.0 && d2 > 0.0 {
      MulPositive(d1, d2);
    } else if d2 > 0.0 && d0 > 0.0 {
      MulPositive(d2, d0);
    }
  }

  /** A well-formed box inside another has no larger surface area. */
  lemma SurfaceAreaMonotone(outer: seq<real>, inner: seq<real>)
    requires |outer| >= BoxSize && |inner| >= BoxSize
    requires WellFormed(inner) && Contains(outer, inner)
    ensures SurfaceArea(inner) <= SurfaceArea(outer)
  {
    forall axis | 0 <= axis < MaxOffset
      ensures 0.0 <= Extent(inner, axis) <= Extent(outer, axis)
    {
      assert Lo(inner, axis) <= Hi(inner, axis);
      assert Lo(outer, axis) <= Lo(inner, axis) && Hi(inner, axis) <= Hi(outer, axis);
    }
    var i0, i1, i2 := Extent(inner, 0), Extent(inner, 1), Extent(inner, 2);
    var o0, o1, o2 := Extent(outer, 0), Extent(outer, 1), Extent(outer, 2);
    assert SurfaceArea(inner) == 2.0 * (i0 * i1 + i1 * i2 + i2 * i0);
    assert SurfaceArea(outer) == 2.0 * (o0 * o1 + o1 * o2 + o2 * o0);
    MulMonotone(i0, i1, o0, o1);
    MulMonotone(i1, i2, o1, o2);
    MulMonotone(i2, i0, o2, o0);
  }

  /**
   * Merging two well-formed boxes never shrinks the surface area, the cost
   * term a split candidate is weighted by.
   */
  lemma UnionSurfaceArea(a: seq<real>, b: seq<real>)
    requires |a| >= BoxSize && |b| >= BoxSize
    requires WellFormed(a) && WellFormed(b)
    ensures SurfaceArea(a) <= SurfaceArea(Union(a, b))
    ensures SurfaceArea(b) <= SurfaceArea(Union(a, b))
  {
    SurfaceAreaMonotone(Union(a, b), a);
    SurfaceAreaMonotone(Union(a, b), b);
  }
}
