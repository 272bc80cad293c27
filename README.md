# Flat bounding-box utilities of three-mesh-bvh, in Dafny

three-mesh-bvh builds a bounding-volume hierarchy over a triangle mesh. Its
builder and its surface-area-heuristic split evaluator store every
axis-aligned bounding box flat, as six numbers
`[minX, minY, minZ, maxX, maxY, maxZ]` in a numeric buffer. The module
`src/utils/ArrayBoxUtilities.js` holds the operations on that layout. This
project models all five of them in one Dafny module, `ArrayBoxUtilities`
(`array_box_utilities.dfy`):

- `arrayToBox` decodes six buffer entries at an offset into a three.js box
  object. It becomes the method `ArrayToBox`. It writes the coordinates of a
  `Box3` class, whose two corners are `Vector3` objects.
- `getLongestEdgeIndex` picks the axis with the longest edge. It becomes the
  method `GetLongestEdgeIndex`, which keeps the source's loop. The running
  best starts at minus infinity, which the `ExtReal` datatype models.
- `copyBounds` bulk-copies one buffer into another with a typed array's
  `set`. It becomes the method `CopyBounds`, which uses a simultaneous
  `forall` assignment.
- `unionBounds` writes the per-axis union of two boxes into a target buffer.
  It becomes the method `UnionBounds`, which keeps the source's loop. Its
  result is specified by the function `Union` over sequences.
- `computeSurfaceArea` computes `2*(dx*dy + dy*dz + dz*dx)`. It becomes the
  function `SurfaceArea`.

Buffers are `array<real>`. The sequence functions `Lo`, `Hi`, `Extent`,
`WellFormed` and `Contains` describe the flat layout. `WellFormed` means that
min <= max on every axis. `Contains` means that one box encloses another.

## Model

| member | source | states |
|---|---|---|
| `ArrayBoxUtilities.ArrayToBox` | src/utils/ArrayBoxUtilities.js:1-13 | min.x..max.z of the target become buffer[o]..buffer[o+5] in that order, so the box read back flat equals the six-entry slice; the same target object is returned; the buffer is unchanged; needs o+6 <= buffer length |
| `ArrayBoxUtilities.GetLongestEdgeIndex` | src/utils/ArrayBoxUtilities.js:15-34 | the result is an axis in {0,1,2} (never the -1 start value) whose extent is at least every axis' extent, and every lower axis is strictly shorter (ties go to the lowest axis); the bounds are only read |
| `ArrayBoxUtilities.CopyBounds` | src/utils/ArrayBoxUtilities.js:36-41 | the first source-length entries of target equal the old source, the later target entries keep their values, and source is unchanged, also when source and target are the same array; needs source no longer than target |
| `ArrayBoxUtilities.MinOf` | src/utils/ArrayBoxUtilities.js:52-54 | the `aVal < bVal ? aVal : bVal` selection is one of its inputs and no larger than either |
| `ArrayBoxUtilities.MaxOf` | src/utils/ArrayBoxUtilities.js:57-59 | the `aVal > bVal ? aVal : bVal` selection is one of its inputs and no smaller than either |
| `ArrayBoxUtilities.Union` | src/utils/ArrayBoxUtilities.js:43-63 | the union box has six entries and contains both inputs on every axis |
| `ArrayBoxUtilities.UnionBounds` | src/utils/ArrayBoxUtilities.js:43-63 | target's first six entries become the union of the old a and old b, also when target is a or b; entries from index 6 on are untouched |
| `ArrayBoxUtilities.UnionWellFormed` | src/utils/ArrayBoxUtilities.js:54-59 | the union of two well-formed boxes is well-formed |
| `ArrayBoxUtilities.UnionIsLeast` | src/utils/ArrayBoxUtilities.js:47-61 | a box contains both inputs if and only if it contains their union: the union is the smallest enclosing box |
| `ArrayBoxUtilities.UnionCommutative` | src/utils/ArrayBoxUtilities.js:47-61 | union(a, b) == union(b, a) |
| `ArrayBoxUtilities.UnionIdempotent` | src/utils/ArrayBoxUtilities.js:47-61 | union(a, a) is a itself (its first six entries) |
| `ArrayBoxUtilities.UnionAssociative` | src/utils/ArrayBoxUtilities.js:47-61 | union(union(a, b), c) == union(a, union(b, c)) |
| `ArrayBoxUtilities.SurfaceArea` | src/utils/ArrayBoxUtilities.js:66-74 | the surface area of a well-formed box is non-negative |
| `ArrayBoxUtilities.SurfaceAreaZero` | src/utils/ArrayBoxUtilities.js:66-74 | for a well-formed box the area is zero if and only if at least two extents are zero |
| `ArrayBoxUtilities.SurfaceAreaMonotone` | src/utils/ArrayBoxUtilities.js:66-74 | a well-formed box enclosed by another has no larger surface area |
| `ArrayBoxUtilities.UnionSurfaceArea` | src/utils/ArrayBoxUtilities.js:43-74 | the union of two well-formed boxes has at least the surface area of each input |

## Left out

- Numbers are `real`. NaN, infinities and 32-bit float rounding are not
  modelled.
- `GetLongestEdgeIndex`: the source returns its start value -1 when no extent
  compares greater than minus infinity, that is when every extent is NaN or
  minus infinity. The latter happens for three.js's empty box, whose minima
  are +Infinity and maxima -Infinity. With `real` extents the model proves
  that -1 is never returned.
- `UnionCommutative` and `UnionIdempotent` hold only for real numbers. In
  the source a NaN in `a` is dropped, because `NaN < bVal` and `NaN > bVal`
  are false and the selection picks `bVal`, while a NaN in `b` is kept. So
  the source's union is not commutative when NaN occurs. `union(a, a)`
  copies a NaN of `a` through, but under IEEE-754 that NaN does not compare
  equal to itself, so idempotence as an equation also needs real numbers.
- `computeSurfaceArea` rounding: the model's area is exact, while the source
  rounds each product and sum.
- Reading past the end of a buffer yields `undefined` in JavaScript. The
  model requires the entries read to exist: offset+6 entries for
  `ArrayToBox`, six entries of `a` and `b` for `UnionBounds`, six entries
  for `GetLongestEdgeIndex` and `SurfaceArea`.
- `UnionBounds` also requires `target` to hold six entries. In JavaScript a
  write past the end of a typed array is silently dropped. The model does
  not cover a shorter target.
- `UnionBounds`: distinct typed-array views that overlap in one underlying
  buffer at different offsets are not modelled. `target` is either `a`, `b`
  or an array disjoint from both. With an overlapping subarray the source
  can read an entry it has already written, and its result then differs
  from the union.
- `CopyBounds`: the `RangeError` a typed array's `set` throws when the
  source is longer than the target is a precondition, not an error path.
  Distinct typed-array views that overlap in one underlying buffer are not
  modelled. Source and target are either the same array or disjoint.
- The three.js `Vector3` and `Box3` classes are reduced to the fields
  `arrayToBox` writes. Box3's default empty-box value (+Infinity / -Infinity
  corners) is not modelled; its constructor starts at zero corners.
- `ArrayToBox` requires the target's two corners to be distinct objects, as
  boxes built by `new Box3()` have them. A box whose `min` and `max` are one
  shared vector is not modelled.
- Any value that is not a number in the buffers (JavaScript's dynamic typing)
  is not modelled.
