# graphene geometry core in Dafny

This project models the exact, order-based core of the graphene geometry
library, together with the identifier filter its documentation build uses.
It covers:

- the SIMD value types `simd4f` and `simd4x4f`;
- vectors, points, sizes, rectangles, quads, 2D and 3D boxes, line
  segments and triangles;
- planes, frustums, rays, matrices, Euler angles and quaternions;
- the aligned allocator;
- `to_camel_case` from `identfilter.py`.

The C library computes in IEEE single precision. The model computes over
Dafny's `real`. Positive and negative infinity are kept only where the
library uses them as sentinels: the empty and the infinite boxes. They are
modelled by the extended reals of module `ExtReal`.

Functions that need a square root, trigonometry or a fuzzy float
comparison are taken as function-valued parameters:

- `graphene_approx_val` and `graphene_vec3_normalize`;
- `sinf`, `cosf`, `asinf`, `atan2f` and `acosf`;
- the weights `slerp` computes.

Contracts about those operations therefore hold for every choice of the
foreign function. Where they need a property of it, such as the
reflexivity of `approx`, that property is a `requires`.

Values are modelled by datatypes and pure functions. The structures the C
code updates in place are modelled by classes whose methods are proved
against those functions:

- `graphene_rect_t`, `graphene_size_t`, the quad, the frustum's plane array
  and `graphene_matrix_t`;
- a `simd4x4f` matrix whose rows `matrix_mul` and `transpose_in_place`
  overwrite one at a time.

Loops in the source (quad bounds, box `init_from_points`, the frustum scans,
the clearing in `aligned_alloc0`) are methods with loop invariants.

NULL arguments are modelled in two ways. A NULL-able input is an `Option`.
The `a == b` / NULL / NULL pattern of the equality functions is the
`PtrPair` datatype of module `Common`.

## Model

| member | source | states |
|---|---|---|
| Common.PointerEqual | src/graphene-point.c:78-88 | identical pointers (two NULLs included) compare equal, a NULL against a non-NULL compares unequal, and two distinct objects are equal exactly when the type's comparison says so |
| ExtReal.Min | src/graphene-private.h:44 | `a < b ? a : b` over reals and infinities is a lower bound of both operands and is one of them |
| ExtReal.Max | src/graphene-private.h:57 | `a > b ? a : b` is an upper bound of both operands and is one of them |
| ExtReal.Add | src/graphene-box2d.c:305-320 | the float sum used when a box with infinite lanes is expanded: finite plus finite is the real sum, and an infinity absorbs a finite operand |
| ExtReal.Neg | src/graphene-box2d.c:305-320 | negation swaps the two infinities and negates finite values |
| ExtReal.Sub | src/graphene-box2d.c:305-320 | subtraction of finite values is the real difference |
| ExtReal.Mul | src/graphene-box2d.c:338-362 | the lane product of scale_offset: finite times finite is the real product and 1 times anything is that value |
| Private.Min | src/graphene-private.h:44 | MIN(a, b) is one of its operands and not above either |
| Private.Max | src/graphene-private.h:57 | MAX(a, b) is one of its operands and not below either |
| Private.Clamp | src/graphene-private.h:71 | CLAMP(v, lo, hi) lies in [lo, hi] when lo <= hi, is v when v already lies there, and is lo below lo |
| Private.LerpEnds | src/graphene-private.h:86 | graphene_lerp gives a at factor 0, b at factor 1 and the midpoint at 0.5 |
| Private.LerpBetween | src/graphene-private.h:86 | for a factor in [0, 1] the interpolation stays between a <= b |
| Private.DegRadRoundTrip | src/graphene-private.h:83-84 | GRAPHENE_RAD_TO_DEG undoes GRAPHENE_DEG_TO_RAD and the other way round |
| Alloc.OverflowGuardExact | src/graphene-alloc.c:81 | the guard `number > max_size / size` fires exactly when size * number does not fit in a 64-bit size_t |
| Alloc.RoundUpIsNextMultiple | src/graphene-alloc.c:104-108 | the intended rounding gives the least multiple of the alignment that is at least the request, and leaves a multiple unchanged |
| Alloc.RoundUpWrappedAgrees | src/graphene-alloc.c:104-108 | the size_t rounding as written agrees with the intended one whenever the rounded size fits |
| Alloc.RoundUpWrapsToZero | src/graphene-alloc.c:107 | SIZE_MAX bytes at alignment 16 round up to 2^64, which the size_t addition wraps to 0 |
| Alloc.AlignedAllocAsWritten | src/graphene-alloc.c:70-126 | graphene_aligned_alloc as written: NULL for a zero size or count, abort (or NULL without asserts) on overflow of size * number, otherwise the allocator's block of the possibly wrapped rounded size, or abort/NULL when the allocator fails |
| Alloc.AlignedAlloc | src/graphene-alloc.c:70-126 | the corrected allocation: the same error paths, a rounded size that does not fit refused like an overflow, and any block it returns is at least size * number bytes, fits in a size_t, is less than one alignment larger, and is a multiple of the alignment for aligned_alloc |
| Alloc.AlignedAlloc0 | src/graphene-alloc.c:140-150 | graphene_aligned_alloc0 on top of the corrected allocation: its outcome is exactly that allocation's (NULL, abort or a block of the rounded size); a block is at least size * number bytes long, its first size * number bytes are zero and the rest keep what the allocator left |
| Alloc.Memset | src/graphene-alloc.c:147 | the memset that alloc0 applies: the first n bytes of the block become zero and every later byte keeps its value |
| Alloc.AsWrittenClearOverruns | src/graphene-alloc.c:104-147 | on the allocation as written, size SIZE_MAX, number 1 and alignment 16 under aligned_alloc request a 0-byte block that alloc0 then clears over SIZE_MAX bytes; the corrected allocation returns no block for that request |
| Identfilter.Upper | src/identfilter.py:13 | the upper-casing str.title applies maps letters to capitals, keeps other characters, and agrees with Lower on letters |
| Identfilter.Lower | src/identfilter.py:13 | the lower-casing str.title applies maps letters to small letters and keeps other characters |
| Identfilter.Title | src/identfilter.py:13 | title() keeps the length of the token |
| Identfilter.TitleAt | src/identfilter.py:13 | str.title, position by position: a letter is upper-cased exactly when the character before it is not a letter, is lower-cased otherwise, and any other character is kept |
| Identfilter.TitleNoDigitThenLower | src/identfilter.py:13-19 | after title() a digit is never followed by a lower-case letter, so NUMBER_REGEX never matches a title-cased token |
| Identfilter.TitleKeepsUnderscores | src/identfilter.py:13 | title() neither adds nor removes underscores |
| Identfilter.TitleEmpty | src/identfilter.py:13 | the empty token title-cases to the empty string |
| Identfilter.Split | src/identfilter.py:12 | split('_') always gives at least one segment, the empty text included |
| Identfilter.SplitJoin | src/identfilter.py:12 | str.split('_') is undone by '_'.join, gives one more segment than there are underscores, and no segment holds an underscore |
| Identfilter.SplitTrailingSeparator | src/identfilter.py:12 | a trailing '_' adds one empty segment at the end of split('_') |
| Identfilter.DropLastTwo | src/identfilter.py:12 | `text[:-2]` is the text without its last two characters, and empty for a text shorter than two |
| Identfilter.CamelTokensNeverFails | src/identfilter.py:12-23 | the token loop never reaches the special case (which would raise a TypeError by joining the unbound `title` method) and returns the concatenation of the title-cased tokens |
| Identfilter.EligibleLength | src/identfilter.py:8 | a text that passes the guard has at least two characters |
| Identfilter.ToCamelCaseResult | src/identfilter.py:6-23 | to_camel_case returns unchanged a text that neither starts with "graphene_" nor ends with "_t", and otherwise returns the title-cased segments of `text[:-2]` concatenated |
| Identfilter.CamelCaseShape | src/identfilter.py:6-23 | the result for an eligible text has no underscore and is len(text) - 2 - (underscores in text[:-2]) characters long |
| Identfilter.TrailingNewlineIgnored | src/identfilter.py:26-27 | a name read from standard input with its trailing newline converts to the same result as the bare name |
| Identfilter.TwoSegments | src/identfilter.py:12-23 | an eligible text whose `text[:-2]` is a_b converts to title(a) + title(b) |
| Identfilter.TypeName | src/identfilter.py:6-23 | graphene_<b>_t, with no underscore in b, converts to "Graphene" + title(b) |
| Identfilter.PrefixOnly | src/identfilter.py:8-12 | a name that only starts with "graphene_" still loses its last two characters: graphene_<b> converts to "Graphene" + title(b[:-2]) |
| Identfilter.TitleGraphene | src/identfilter.py:13 | "graphene" title-cases to "Graphene" |
| Identfilter.TitlePoint3D | src/identfilter.py:13-16 | "point3d" title-cases to "Point3D": the letter after a digit is upper-cased by title() itself |
| Identfilter.TitleBox | src/identfilter.py:13 | "box" title-cases to "Box" |
| Identfilter.PrefixOnlyExample | src/identfilter.py:8-12 | "graphene_foo" converts to "GrapheneF" |
| Identfilter.Point3DExample | src/identfilter.py:15-16 | "graphene_point3d_t" converts to "GraphenePoint3D" through title() alone |
| Identfilter.BoxExample | src/identfilter.py:6-23 | "graphene_box_t" converts to "GrapheneBox" |
| Identfilter.IneligibleExample | src/identfilter.py:8-9 | "gboolean" is returned unchanged |
| Simd.Lanes | src/graphene-simd4f-scalar.h:42-57 | the four lanes in memory order, lane i being graphene_simd4f_get(v, i) |
| Simd.LanesExt | src/graphene-simd4f-scalar.h:42-57 | a vector is determined by what get returns for its four lanes |
| Simd.GetInit | src/graphene-simd4f-scalar.h:67-71 | get after init(x, y, z, w) returns x, y, z and w |
| Simd.InitN | src/graphene-simd4f-scalar.h:67-85 | init_4f, init_3f and init_2f load the first n floats and leave the other lanes zero |
| Simd.Dup | src/graphene-simd4f-scalar.h:88-106 | dup_4f, dup_3f and dup_2f store the first n lanes into the array and leave the rest of it untouched |
| Simd.InitNDupRoundTrip | src/graphene-simd4f-scalar.h:67-106 | storing n lanes and loading them back keeps those lanes (dup_4f/init_4f restores the vector, dup_3f/init_3f zeroes w), and loading n floats and storing them gives the floats back |
| Simd.Neg | include/graphene-simd4f.h:1167 | neg is the additive inverse: v + neg(v) is the zero vector |
| Simd.AddSubInverse | include/graphene-simd4f.h:1000-1001 | sub undoes add and add undoes sub lane by lane, and add commutes |
| Simd.MulDivInverse | include/graphene-simd4f.h:1002-1003 | div undoes mul on every lane whose divisor is not zero |
| Simd.MaddUnits | src/graphene-simd4f-common.h:32-37 | madd(a, splat(1), c) is a + c, madd(a, b, 0) is a * b, and neg is an involution |
| Simd.Cross3 | include/graphene-simd4f.h:1005-1013 | cross3 always has w = 0 |
| Simd.Dot3 | include/graphene-simd4f.h:1015-1021 | dot3 of the vector-extension branch puts the same value in all four lanes |
| Simd.Cross3Properties | include/graphene-simd4f.h:1005-1021 | the cross product is orthogonal to both operands, anti-commutes, and is zero for a vector with itself |
| Simd.Sum | include/graphene-simd4f.h:2031-2039 | the generic sum puts the same value in all four lanes |
| Simd.SumSequential | src/graphene-simd4f-common.h:40-47 | the common-header sum puts the same value in all four lanes |
| Simd.Dot4 | include/graphene-simd4f.h:2073-2076 | dot4 puts the same value in all four lanes |
| Simd.Dot2 | include/graphene-simd4f.h:2093-2100 | dot2 puts the same value in all four lanes |
| Simd.SumOrders | src/graphene-simd4f-common.h:40-47 | the pairwise sum (x + y) + (z + w) and the sequential sum ((x + y) + z) + w agree and are x + y + z + w in every lane |
| Simd.Dot4Value | include/graphene-simd4f.h:2073-2076 | dot4(a, b) is the four-term scalar product in every lane |
| Simd.Dot2Value | include/graphene-simd4f.h:2093-2100 | dot2(a, b) is a.x b.x + a.y b.y in every lane |
| Simd.DotZeroW | src/graphene-simd4f-common.h:50-66 | dot4 of a vector with w cleared is dot3 |
| Simd.DotZeroZW | src/graphene-simd4f-common.h:50-76 | dot4 of a vector with z and w cleared is dot2 |
| Simd.DotProperties | src/graphene-simd4f-common.h:50-76 | dot2 and dot3 read only the lanes they are named after, and all three dot products are symmetric |
| Simd.ZeroTests | include/graphene-simd4f.h:2220-2260 | is_zero4 (exact) implies the exact is_zero3 and is_zero2 of the common header, the exact tests imply the FLT_EPSILON-tolerant tests of the generic header, and the tolerant is_zero3 accepts a lane of FLT_EPSILON that the exact one rejects |
| Simd.InterpolateIsLerp | include/graphene-simd4f.h:2277-2285 | interpolate is graphene_lerp on every lane |
| Simd.InterpolateForms | src/graphene-simd4f-common.h:140-147 | the generic formula (1 - f) a + f b and the common-header formula a + (b - a) f agree |
| Simd.InterpolateEnds | include/graphene-simd4f.h:2277-2285 | interpolate gives a at factor 0 and b at factor 1 |
| Simd.Clamp | include/graphene-simd4f.h:2302-2308 | min(max(lo, v), hi) lies in [lo, hi] on every lane where lo <= hi, and is v on every lane where v already lies there |
| Simd.ClampScalar | include/graphene-simd4f.h:2325-2331 | clamp_scalar with lo <= hi puts every lane in [lo, hi] and equals CLAMP on each lane |
| Simd.MinVal | include/graphene-simd4f.h:2346-2351 | min_val puts the smallest of the four lanes in every lane |
| Simd.MaxVal | include/graphene-simd4f.h:2368-2373 | max_val puts the largest of the four lanes in every lane |
| Simd.ShuffleRotations | include/graphene-simd4f.h:1048-1061 | shuffle_wxyz, shuffle_zwxy and shuffle_yzwx rotate the lanes by one, two and three places, so zwxy is its own inverse, wxyz and yzwx are inverse to each other, and wxyz twice is zwxy |
| Simd.MergeW | include/graphene-simd4f.h:1073-1076 | merge_w keeps x, y and z and puts the scalar in w |
| Simd.MergeHigh | include/graphene-simd4f.h:1078-1081 | merge_high(a, b) is the high halves of a and b, one after the other |
| Simd.MergeLow | include/graphene-simd4f.h:1083-1086 | merge_low(a, b) is the low halves of a and b, one after the other |
| Simd.MergeRoundTrips | include/graphene-simd4f.h:1073-1086 | merging the low half and the high half of a vector gives it back, and merge_w with the vector's own w changes nothing |
| Simd.ZeroLaneFacts | include/graphene-simd4f.h:1063-1076 | zero_w discards what merge_w put in w, zero_zw and zero_w compose to zero_zw, and merge_w restores the w that zero_w cleared |
| Simd.FlipSignProperties | include/graphene-simd4f.h:1088-1098 | each flip_sign is an involution, and the two composed negate all four lanes |
| Simd.CmpAllLanes | include/graphene-simd4f.h:1100-1165 | cmp_eq is equality of vectors, cmp_lt and cmp_le hold exactly when the relation holds on all four lanes, cmp_ge and cmp_gt are their mirror images, and cmp_lt implies cmp_le and not cmp_eq |
| Simd.CmpNeq | include/graphene-simd4f.h:1113 | cmp_neq of the vector-extension branch holds exactly when at least one of the four lanes differs |
| Simd.CmpNeqSomeLane | include/graphene-simd4f.h:1113 | cmp_neq of the vector-extension branch (the negation of cmp_eq) holds exactly when some lane differs |
| Simd.CmpNeqAllLanesCounterexample | src/graphene-simd4f-scalar.h:284-291 | the scalar cmp_neq as written reports (1, 0, 1, 0) and splat(1) as not different although they are not equal |
| Simd.CmpNeqAllLanes | src/graphene-simd4f-scalar.h:284-291 | the scalar cmp_neq as written requires every lane to differ, so whenever it holds the intended cmp_neq holds too |
| Simd.CmpNeqAllLanesImplies | src/graphene-simd4f-scalar.h:284-291 | the scalar cmp_neq as written is never true when the intended one is false |
| Simd4Ext.Lift | src/graphene-box.c:231-239 | a finite vector seen as one whose lanes may be infinite keeps its lanes |
| Simd4Ext.Lower | src/graphene-box.c:231-239 | the finite lanes of a vector with no infinite lane lift back to it |
| Simd4Ext.LiftCommutes | src/graphene-box.c:242-248 | on finite lanes the lanewise min, max, cmp_le, add, sub and mul over reals with infinities are the plain ones |
| Simd4Ext.MinMaxBounds | src/graphene-box.c:325-331 | lanewise min and max are the greatest lower and the least upper bound under cmp_le |
| Simd4Ext.CmpLeTrans | src/graphene-box.c:565-574 | cmp_le is transitive |
| Vectors.InitLanes | src/graphene-vectors.c:103-110 | vec2_init and vec3_init store their arguments and zero the padding lanes, and vec4_init_from_vec3 and vec4_init_from_vec2 (lines 1410-1442) keep the leading lanes and add the given ones |
| Vectors.ToFloat | src/graphene-vectors.c:196-200 | vecN_to_float writes N floats |
| Vectors.FloatRoundTrip | src/graphene-vectors.c:145-151 | init_from_float followed by to_float gives the floats back, and the vec2 and vec3 it builds have zero padding |
| Vectors.ToFloatRoundTrip | src/graphene-vectors.c:1456-1462 | to_float followed by init_from_float gives a vec4 back, and a vec3 or vec2 whose padding is zero |
| Vectors.Vec3Closed | src/graphene-vectors.c:788-978 | add, subtract, multiply, min, max, scale, negate and cross of vec3s keep the w lane at zero |
| Vectors.Vec2Closed | src/graphene-vectors.c:214-404 | add, subtract, multiply, min, max, scale and negate of vec2s keep the z and w lanes at zero |
| Vectors.ScaleProperties | src/graphene-vectors.c:973-978 | scale by 1 is the identity, scale by -1 is negate, and scale by 1/f undoes scale by a non-zero f |
| Vectors.DotAgree | src/graphene-vectors.c:883-887 | on a well-formed vec3 or vec2, vec3_dot and vec2_dot equal the four-lane dot product |
| Vectors.Conversions | src/graphene-vectors.c:991-1067 | get_xy, get_xyz0, get_xyz1 and get_xyzw keep the leading lanes and put 0, 1 or the given w after them |
| Vectors.Vec3NearValue | src/graphene-vectors.c:1130-1138 | vec3_near holds exactly when the squared distance over x, y and z is below epsilon squared |
| Vectors.Vec3NearLanes | src/graphene-vectors.c:1130-1138 | near vec3s differ by less than |epsilon| on every lane |
| Vectors.Vec3NearSelf | src/graphene-vectors.c:1130-1138 | a vec3 is near itself exactly when epsilon is not zero, because the comparison is strict |
| Vectors.Vec3NearSymmetric | src/graphene-vectors.c:1130-1138 | vec3_near is symmetric |
| Vectors.Vec4NearValue | src/graphene-vectors.c:1827-1835 | vec4_near holds exactly when the squared distance over all four lanes is below epsilon squared |
| Vectors.Vec4NearSelf | src/graphene-vectors.c:1827-1835 | a vec4 is near itself exactly when epsilon is not zero |
| Vectors.Vec4NearSymmetric | src/graphene-vectors.c:1827-1835 | vec4_near is symmetric |
| Vectors.Vec3EqualProperties | src/graphene-vectors.c:1086-1114 | vec3_equal accepts the same pointer and a copy, rejects a NULL against a vector, is symmetric, and accepts lanewise-equal vectors |
| Vectors.Vec3EqualTolerance | src/graphene-vectors.c:1086-1096 | vec3_equal accepts two vectors that cmp_eq rejects, when they are within GRAPHENE_FLOAT_EPSILON |
| Vectors.ConstantVectors | src/graphene-vectors.c:473-534 | the static zero, one and axis vectors have zero padding, and the axes of each type add up to its one vector |
| Vectors.AxesRightHanded | src/graphene-vectors.c:1265-1306 | the vec3 axes are orthonormal and x × y = z, y × z = x, z × x = y |
| Points.EqualIsPointerEqual | src/graphene-point.c:78-88 | graphene_point_equal is the pointer-equality pattern over graphene_point_near with GRAPHENE_FLOAT_EPSILON |
| Points.NearProperties | src/graphene-point.c:117-134 | graphene_point_near: with epsilon 0 only the same pointer is near; a positive epsilon makes a copy near; the relation is symmetric; any NULL gives false (two NULLs included); and both deltas must be below epsilon (0 and (0.5, 2) are not within 1) |
| Points.DistanceOf | src/graphene-point.c:91-114 | graphene_point_distance writes \|dx\| and \|dy\| exactly into the out-parameters that are not NULL, writes nothing for NULL or identical points, and its squared length is not negative |
| Points.DistanceToCopy | src/graphene-point.c:91-114 | a point is at distance 0 from a copy of itself on both axes |
| Points.InterpolateEnds | src/graphene-point.c:137-147 | graphene_point_interpolate gives a at factor 0, b at factor 1, and graphene_lerp on each axis |
| Points3D.Vec3RoundTrip | src/graphene-point3d.c:159-180 | init_from_vec3 and to_vec3 are inverse on points and on vec3s whose w is 0 |
| Points3D.NearProperties | src/graphene-point3d.c:224-238 | graphene_point3d_near is symmetric, holds between copies exactly when epsilon is positive, and needs every coordinate within epsilon; equal accepts the same pointer and a copy and rejects a NULL |
| Points3D.ScaleCoordinates | src/graphene-point3d.c:252-262 | graphene_point3d_scale multiplies each coordinate by the factor: 1 keeps the point and 0 gives the origin |
| Points3D.CrossDotAgree | src/graphene-point3d.c:276-306 | graphene_point3d_cross and graphene_point3d_dot are the vec3 cross and dot products of the coordinates, and the cross product is orthogonal to both points |
| Points3D.InterpolateEnds | src/graphene-point3d.c:399-407 | graphene_point3d_interpolate gives a at factor 0 and b at factor 1 |
| Points3D.NormalizeViewport | src/graphene-point3d.c:429-442 | every coordinate of the normalised point lies in [-1, 1] |
| Points3D.NormalizeViewportCorners | src/graphene-point3d.c:429-442 | the viewport origin on the near plane maps to (-1, -1, -1), the far corner on the far plane to (1, 1, 1), and the centre to the origin |
| Sizes.InterpolateEnds | src/graphene-size.c:58-68 | graphene_size_interpolate gives a at factor 0, b at factor 1, the midpoint at 0.5, and graphene_lerp in each dimension |
| Sizes.ScaleProperties | src/graphene-size.c:44-55 | graphene_size_scale of 10x10 by 0.5 is 5x5, scaling by 1 changes nothing, and scaling by 1/f undoes scaling by a non-zero f |
| Sizes.EqualProperties | src/tests/size.c:27-36 | graphene_size_equal accepts the same pointer and a copy, rejects a NULL, and is symmetric |
| Sizes.SizeStruct.constructor | src/graphene-size.c:5-9 | a new size struct holds the given value |
| Sizes.SizeStruct.Init | src/graphene-size.c:19-29 | graphene_size_init stores the width and the height |
| Sizes.SizeStruct.InitFromSize | src/graphene-size.c:32-41 | graphene_size_init_from_size copies the source size |
| Sizes.SizeStruct.ScaleFrom | src/graphene-size.c:44-55 | the copy-then-scale order is modelled: after copying s into res and multiplying each field in place, res holds s scaled by the factor (s is passed by value, so res aliasing s is not modelled) |
| Sizes.SizeStruct.InterpolateFrom | src/graphene-size.c:58-68 | res holds the interpolated size |
| Rects.Normalize | src/graphene-rect.c:31-51 | normalize_internal always yields non-negative width and height, and leaves an already normal rectangle unchanged |
| Rects.NormalizeSpan | src/graphene-rect.c:31-51 | normalisation keeps the span each axis covers (origin becomes the smaller edge, far edge the larger) and is idempotent |
| Rects.NormalizeExample | src/tests/rect.c:24-38 | (10, 10, -10, -10) normalises to (0, 0, 10, 10) |
| Rects.EqualProperties | src/graphene-rect.c:98-109 | graphene_rect_equal is reflexive, symmetric and blind to normalisation, and holds only when all four normalised fields agree within the float epsilon |
| Rects.ContainsPointExample | src/graphene-rect.c:280-294 | contains_point is inclusive on the normalised rectangle: the corners and the centre of (0, 0, 10, 10) are inside, (-1, -1) and (11, 11) are not |
| Rects.CornersContained | src/graphene-rect.c:137-199 | every corner the corner getters return lies in the rectangle |
| Rects.CenterMidpoint | src/graphene-rect.c:122-136 | get_center is the midpoint of the normalised top-left and bottom-right corners, does not depend on the sign of the stored size, and lies in the rectangle (src/tests/rect.c:74-75) |
| Rects.UnionAsWritten | src/graphene-rect.c:222-242 | union as written is normalised and has the origin of the bounding rectangle, with a width and height at least those of each operand; only its far edges can fall short |
| Rects.UnionAsWrittenCounterexample | src/graphene-rect.c:222-242 | as written, the union of (0, 0, 10, 10) and (5, 5, 15, 15) is 15x15 and leaves out the point (20, 20) of the second rectangle |
| Rects.Union | src/graphene-rect.c:222-242 | the corrected union is normal |
| Rects.UnionBounds | src/graphene-rect.c:222-242 | the corrected union holds every point of either rectangle and each of its edges is an edge of an operand, so it is the smallest such rectangle |
| Rects.UnionExample | src/tests/rect.c:125-140 | the corrected union of (0, 0, 10, 10) and (5, 5, 15, 15) is (0, 0, 20, 20) |
| Rects.ContainsRectAsWritten | src/graphene-rect.c:297-307 | contains_rect on the union as written accepts b only when b's origin is not before a's and b's width and height are not above a's, each up to the float epsilon; the far edges of b are not checked |
| Rects.ContainsRectAsWrittenCounterexample | src/graphene-rect.c:297-307 | with the as-written union, (0, 0, 10, 10) claims to contain (5, 5, 10, 10) although (15, 15) sticks out |
| Rects.ContainsRectSound | src/graphene-rect.c:297-307 | on the corrected union every rectangle contains itself and every rectangle inside it, and a contained rectangle lies inside the container widened by the float epsilon |
| Rects.ContainsRectExample | src/tests/rect.c:86-99 | (0, 0, 10, 10) contains (1, 1, 9, 9) and not the other way round |
| Rects.IntersectionAsWritten | src/graphene-rect.c:245-277 | intersection as written writes the zero rectangle when it reports no overlap, and agrees with the corrected intersection whenever b's normalised x and y origins coincide |
| Rects.IntersectionAsWrittenCounterexample | src/graphene-rect.c:245-277 | as written, b's bottom edge is taken from its x origin, so (0, 0, 100, 100) and (50, 0, 10, 10) give a rectangle 60 high holding (55, 30), which is outside b |
| Rects.Intersection | src/graphene-rect.c:245-277 | without an overlap the corrected intersection stores the zero rectangle |
| Rects.IntersectionExact | src/graphene-rect.c:245-277 | on overlap the corrected result holds exactly the points in both rectangles and has positive size; without overlap no point is inside both interiors |
| Rects.IntersectionExample | src/tests/rect.c:102-122 | (0, 0, 10, 10) and (5, 5, 15, 15) meet in (5, 5, 5, 5), which does not meet (11, 11, 2, 2), and the failed result is all zeros |
| Rects.IntersectionAgrees | src/graphene-rect.c:245-277 | where b's normalised x and y origins agree, the as-written and the corrected intersection coincide |
| Rects.OffsetMoves | src/graphene-rect.c:310-320 | offset normalises and moves every contained point with the rectangle; offset by (0, 0) is normalisation |
| Rects.InsetProperties | src/graphene-rect.c:323-349 | inset never makes a size negative, keeps the centre while the size stays non-negative, and follows the four steps of the inset test |
| Rects.RoundToPixelProperties | src/graphene-rect.c:352-363 | round_to_pixel floors the origin and ceils the size of the normalised rectangle: the origin moves back by less than one unit and each size grows by less than one unit |
| Rects.InterpolateEnds | src/graphene-rect.c:366-391 | interpolate gives the normalised a at factor 0 and the normalised b at factor 1 |
| Rects.RectStruct.constructor | src/graphene-rect.c:66-83 | a new rect struct holds the given value |
| Rects.RectStruct.NormalizeInternal | src/graphene-rect.c:31-51 | in place, the struct becomes the normalised rectangle |
| Rects.RectStruct.Init | src/graphene-rect.c:66-83 | init stores the four values and normalises |
| Rects.RectStruct.InitWithRect | src/graphene-rect.c:85-95 | init_with_rect is a plain copy, not normalised |
| Rects.RectStruct.Offset | src/graphene-rect.c:310-320 | in place, the struct becomes the offset rectangle |
| Rects.RectStruct.Inset | src/graphene-rect.c:323-349 | in place, the struct becomes the inset rectangle |
| Rects.RectStruct.RoundToPixel | src/graphene-rect.c:352-363 | in place, the struct becomes the rounded rectangle |
| LineSegments.Init | src/graphene-line-segment.h:34-40 | the segment keeps both points |
| LineSegments.SideIsCross | src/graphene-line-segment.h:42-57 | the side term is the z lane of the cross product of the segment's direction and the vector from its start to the point |
| LineSegments.SameSideProperties | src/graphene-line-segment.h:42-57 | points_on_same_side is symmetric and reflexive, a point on the segment's line is on the same side as any point, two points strictly on opposite sides are not, and the end points are on every side |
| Quads.ContainsExample | src/tests/quad.c:42-74 | on the convex quad (0, 0), (10, 1), (10, 9), (0, 10) contains accepts the four vertices and (5, 5) and rejects (10, 10) |
| Quads.VertexOnItsEdges | src/graphene-quad.c:76-93 | each vertex passes the test of the two edges it lies on |
| Quads.Quad.constructor | src/graphene-quad.c:30-34 | a new quad has four points |
| Quads.Quad.Init | src/graphene-quad.c:42-58 | init stores the four points in argument order |
| Quads.Quad.InitFromRect | src/graphene-quad.c:60-73 | init_from_rect stores the top-left, top-right, bottom-right and bottom-left corners of the normalised rectangle |
| Quads.Quad.Bounds | src/graphene-quad.c:96-119 | bounds is a normal rectangle holding every point, and each of its four edges passes through one of the points, so it is the tightest |
| Quads.BoundsOfRect | src/tests/quad.c:6-40 | the bounds of a quad built from a rectangle are the normalised rectangle |
| Boxes2D.CornersRoundTrip | src/graphene-box2d.c:178-189 | splitting a box into its min and max corners and merging them back is the identity |
| Boxes2D.Sentinels | src/graphene-box2d.c:553-618 | is_empty and is_infinity hold exactly for the empty and the infinite static boxes, never for a box with finite lanes, and the two sentinels differ |
| Boxes2D.InitReadBack | src/graphene-box2d.c:81-92 | init stores min and max (the origin for a NULL corner) where get_minmax and to_float find them, init of two NULLs is the zero box, and init_from_vec2 agrees with init |
| Boxes2D.ToFloat | src/graphene-box2d.c:383-387 | to_float writes four lanes |
| Boxes2D.RectRoundTrip | src/graphene-box2d.c:223-234 | init_from_rect and to_rect (lines 400-411) are inverse; to_rect gives a rectangle exactly for boxes with finite lanes |
| Boxes2D.ExpandVec2IsExpand | src/graphene-box2d.c:264-289 | expand_vec2 reads only the x and y lanes, so it agrees with expand on the same point |
| Boxes2D.GetVertices | src/graphene-box2d.c:749-760 | get_vertices writes four vertices |
| Boxes2D.ContainsPointRange | src/graphene-box2d.c:774-793 | outside the sentinels, contains_point is min <= p <= max on both axes |
| Boxes2D.ExpandContains | src/graphene-box2d.c:236-289 | the expanded box contains the point and everything the box contained, its corners only move outwards, and expanding the empty box gives the box of that point |
| Boxes2D.GetSizeFinite | src/graphene-box2d.c:630-645 | on a box with finite lanes get_size is max - min |
| Boxes2D.WidthHeightSize | src/graphene-box2d.c:519-551 | get_width and get_height are never negative and equal get_size on an ordered box; they are +inf for the empty box, whose size get_size reports as 0 |
| Boxes2D.ExpandExample | tests/box2d.c:373-410 | from the zero box, expanding by (0, 0), (1, 1) and (-1, -1) gives sizes 0, 1 and 2 |
| Boxes2D.ExpandScalarLanes | src/graphene-box2d.c:305-320 | expand_scalar moves finite min lanes by -s and max lanes by +s and keeps infinite lanes |
| Boxes2D.ExpandScalarSize | src/graphene-box2d.c:305-320 | on a finite box expand_scalar grows each side by 2s |
| Boxes2D.ExpandScalarSentinels | src/graphene-box2d.c:305-320 | expand_scalar keeps both sentinels, and by 0 changes nothing |
| Boxes2D.ScaleOffsetIdentity | src/graphene-box2d.c:338-362 | a vec2 scale (x, y) acts as (x, y, x, y), and with neither scale nor offset the box is unchanged |
| Boxes2D.ScaleOffsetMapsPoints | src/graphene-box2d.c:338-362 | with a positive scale, each point of a finite box maps to a point of the scaled and offset box |
| Boxes2D.UnionExample | tests/box2d.c:282-305 | union of the zero box with itself is zero, zero with one is one, minus_one with one is one_minus_one, and the empty box is a unit |
| Boxes2D.UnionContains | src/graphene-box2d.c:424-441 | union is commutative and contains every point of either box |
| Boxes2D.IntersectsInlineAgrees | include/graphene-box2d.h:157-178 | intersects_inline returns the same boolean as intersection, is symmetric, and never holds with the empty box |
| Boxes2D.IntersectionCommonPoint | src/graphene-box2d.c:459-487 | two finite boxes intersect exactly when some point lies in both |
| Boxes2D.IntersectionExactPoints | src/graphene-box2d.c:459-487 | on success, the intersection holds exactly the points common to both boxes |
| Boxes2D.IntersectionExample | tests/box2d.c:306-372 | empty with zero fails and yields the empty box, one_minus_one or the infinite box with one gives one, separated boxes fail and touching ones succeed |
| Boxes2D.SizeAndCenter | tests/box2d.c:192-257 | the empty box has size 0, the infinite box size +inf, both have centre 0; an ordered box has non-negative size and its centre is the midpoint of its corners |
| Boxes2D.ContainsCenterAndVertices | src/graphene-box2d.c:749-793 | an ordered box contains its centre and its four vertices |
| Boxes2D.ContainsPointExample | tests/box2d.c:476-511 | one_minus_one contains the origin but not (-2, 2); the empty box contains nothing and the infinite box everything |
| Boxes2D.ContainsBoxSound | src/graphene-box2d.c:808-829 | when contains_box holds, every point of b is a point of a |
| Boxes2D.ContainsBoxComplete | src/graphene-box2d.c:808-829 | a finite box that holds both corners of an ordered box contains it |
| Boxes2D.ContainsBoxExample | tests/box2d.c:512-543 | one does not contain minus_one, one_minus_one and the infinite box contain one, and the empty box does not; the infinite box does not contain itself because the infinite-b check comes first |
| Boxes2D.ContainsRectSound | src/graphene-box2d.c:843-863 | when contains_rect holds, every point of the rectangle is in the box |
| Boxes2D.EqualProperties | src/graphene-box2d.c:865-901 | box equality is reflexive and symmetric; the two sentinels equal themselves and differ from each other and from the zero box |
| Boxes2D.InitFromPoints | src/graphene-box2d.c:110-126 | init_from_points is the empty box expanded by each point in turn |
| Boxes2D.PointsOf | src/graphene-box2d.c:144-155 | the vectors stand for the points of their x and y lanes |
| Boxes2D.InitFromVectors | src/graphene-box2d.c:144-155 | init_from_vectors gives the same box as init_from_points on those points |
| Boxes2D.PointsBoxContains | src/graphene-box2d.c:110-126 | no points give the empty box; otherwise the box has finite lanes and contains every point |
| Boxes2D.PointsBoxAttained | src/graphene-box2d.c:110-126 | each lane of a non-empty points box is a coordinate of one of the points, so the box is the tightest |
| Boxes.InitReadBack | tests/box.c:7-63 | init stores the corners (the origin for NULL) where get_min and get_max find them, NULL corners and init_from_vec3 of NULLs give the zero box, init_from_vec3 of zero and one gives the one box, and init_from_box copies |
| Boxes.GetVertices | src/graphene-box.c:510-526 | get_vertices writes eight vertices |
| Boxes.IntersectionAsWritten | src/graphene-box.c:349-370 | intersection as written writes the empty box when it reports no overlap, and when both it and the corrected test report an overlap they write the same box |
| Boxes.IntersectionAsWrittenCounterexample | src/graphene-box.c:349-370 | as written, no intersection is reported only when cmp_ge holds on every lane, so the test's horizontally separated boxes are reported to intersect though no point lies in both |
| Boxes.Intersection | src/graphene-box.c:349-370 | the corrected intersection writes the empty box when there is no overlap; otherwise a box with min <= max on every lane, lying inside both operands |
| Boxes.IntersectionCommonPoint | src/graphene-box.c:349-370 | with the test negated as in the 2D box (`!cmp_le`), two finite boxes intersect exactly when some point lies in both |
| Boxes.IntersectionExactPoints | src/graphene-box.c:349-370 | on success the corrected intersection holds exactly the common points |
| Boxes.IntersectionExample | tests/box.c:283-341 | empty with zero fails and yields the empty box, one_minus_one or the infinite box with one gives one, and vertically or depth separated boxes do not intersect |
| Boxes.GetCenterAsWritten | src/graphene-box.c:454-463 | on a finite box, get_center as written is the true centre moved by -min on every axis, so it is right only for a box whose min is the origin |
| Boxes.CenterAsWrittenCounterexample | src/graphene-box.c:454-463 | as written, get_center computes (max - min) / 2, which puts the centre of the (-1, 1) box at its corner (1, 1, 1) instead of the origin |
| Boxes.CenterAsWrittenIsHalfExtent | src/graphene-box.c:454-463 | on a finite box the as-written centre is half the size |
| Boxes.GetCenter | src/graphene-box.c:454-463 | the corrected centre of a finite box is finite and equally far from min and max on every axis; where a lane adds +inf and -inf it is the origin |
| Boxes.CenterMidpoint | src/graphene-box.c:454-463 | the corrected centre of a finite box is the midpoint of its corners on every axis |
| Boxes.CenterExample | tests/box.c:190-233 | the corrected centre of zero is 0, of one 0.5, of one_minus_one 0 and of minus_one -0.5, as the test expects |
| Boxes.CenterOfEmpty | tests/box.c:190-233 | the corrected centre of the empty box is the origin |
| Boxes.ExpandContains | src/graphene-box.c:241-287 | the expanded box contains the point and everything the box contained, its corners only move outwards, expanding the empty box gives the box of that point, and w stays 0 |
| Boxes.ExpandVec3IsExpand | src/graphene-box.c:262-287 | expand_vec3 of a vector with w = 0 is expand of its point |
| Boxes.GetSizeFinite | src/graphene-box.c:437-441 | on a finite box get_size is max - min |
| Boxes.ExtentsOfSize | src/graphene-box.c:383-435 | get_width, get_height and get_depth are the lanes of get_size made non-negative, equal to the size on an ordered box, and +inf for both the empty and the infinite box |
| Boxes.ExpandScalarSize | src/graphene-box.c:303-312 | expand_scalar grows each side of a finite box by 2s |
| Boxes.ExpandScalarZero | src/graphene-box.c:303-312 | expand_scalar by 0 changes nothing |
| Boxes.UnionExample | tests/box.c:259-281 | union of zero with zero is zero, zero with one is one, minus_one with one is one_minus_one, and the empty box is a unit for boxes with w = 0 |
| Boxes.Union | src/graphene-box.c:325-331 | the min corner of the union is below both min corners and its max corner above both max corners, on every lane |
| Boxes.UnionContains | src/graphene-box.c:325-331 | union is commutative and contains every point of either box |
| Boxes.SizeExample | tests/box.c:165-188 | the cube from lo to hi has size hi - lo on each axis, so zero has size 0, one height 1 and one_minus_one depth 2 |
| Boxes.SizeNonNegative | src/graphene-box.c:437-441 | an ordered finite box has a non-negative size |
| Boxes.ContainsCenterAndVertices | tests/box.c:446-480 | an ordered finite box contains its corrected centre and its eight vertices |
| Boxes.ContainsPointExample | tests/box.c:446-480 | one_minus_one does not contain (-2, 2, -2), the infinite box does, and the empty box contains nothing |
| Boxes.ContainsBoxSound | src/graphene-box.c:565-574 | when contains_box holds, every point of b is a point of a |
| Boxes.ContainsBoxExample | tests/box.c:482-512 | one does not contain minus_one, one_minus_one and the infinite box contain one, the empty box does not, and every box contains the empty box |
| Boxes.EqualProperties | src/graphene-box.c:576-603 | box equality is reflexive and symmetric, equal(NULL, NULL) holds, and the empty box differs from the infinite and the zero box |
| Boxes.InitFromPoints | src/graphene-box.c:130-146 | init_from_points is the empty box expanded by each point in turn |
| Boxes.PointsOf | src/graphene-box.c:164-175 | the vectors stand for the points of their x, y and z lanes |
| Boxes.InitFromVectors | src/graphene-box.c:164-175 | init_from_vectors gives the same box as init_from_points on those points |
| Boxes.PointsBoxContains | src/graphene-box.c:130-146 | no points give the empty box; otherwise the box is finite, has w = 0, and contains every point |
| Boxes.PointsBoxAttained | src/graphene-box.c:130-146 | each corner lane of a non-empty points box is a coordinate of one of the points, so the box is the tightest |
| Boxes.PointsBoxExample | tests/box.c:65-112 | the points (0, 0, 0), (1, 1, 1), (2, 2, 2) give min (0, 0, 0) and max (2, 2, 2) |
| Triangles.InitReadBack | src/graphene-triangle.c:91-214 | get_points and get_vertices read back what init_from_point3d and init_from_vec3 stored, a NULL vertex reading back as the origin, w stays 0, and the two initialisers agree on NULLs |
| Triangles.BoundingBoxOfVertices | src/graphene-triangle.c:315-322 | get_bounding_box is the points box of the three vertices, the smallest box holding them, and it holds each of them |
| Triangles.GetUV | src/graphene-triangle.c:324-353 | get_uv fails exactly when \|denom\| <= FLT_EPSILON |
| Triangles.Numerators | src/graphene-triangle.c:324-353 | for the right-hand side of the point a + s (c - a) + r (b - a), the numerators of u and v are s and r times the denominator |
| Triangles.SolveInverts | src/graphene-triangle.c:346-352 | when \|denom\| > FLT_EPSILON, multiplying the numerators by 1 / denom recovers (s, r) (Cramer's rule) |
| Triangles.UVRecovers | src/graphene-triangle.c:324-353 | on a non-degenerate triangle get_uv returns the plane coordinates (s, r) of every point of the triangle's plane |
| Triangles.ContainsPlanePoint | src/graphene-triangle.c:418-434 | on a non-degenerate triangle a point of its plane is contained exactly when s >= 0, r >= 0 and s + r < 1 |
| Triangles.VerticesArePlanePoints | src/graphene-triangle.c:324-353 | A, B and C are the plane points (0, 0), (0, 1) and (1, 0) |
| Triangles.BarycoordsOfVertices | tests/triangle.c:265-306 | on a non-degenerate triangle get_barycoords gives A, B and C the coordinates (0, 0), (0, 1) and (1, 0) |
| Triangles.ContainsVertices | src/graphene-triangle.c:418-434 | because u + v < 1 is strict, a non-degenerate triangle contains its vertex A but neither B nor C |
| Triangles.MidpointIsCentroid | src/graphene-triangle.c:243-262 | get_midpoint is the plane point (1/3, 1/3), so a non-degenerate triangle contains it and its barycoords are (1/3, 1/3) |
| Triangles.SingularGramAB | src/graphene-triangle.c:324-353 | when A = B the denominator is 0 |
| Triangles.SingularGramAC | src/graphene-triangle.c:324-353 | when A = C the denominator is 0 |
| Triangles.SingularGramBC | src/graphene-triangle.c:324-353 | when B = C the denominator is 0 |
| Triangles.DegenerateFails | src/graphene-triangle.c:385-434 | on a degenerate triangle get_barycoords fails for every point (NULL included) and contains_point is false |
| Triangles.CoincidingVerticesDegenerate | src/graphene-triangle.c:324-353 | a triangle with two coinciding vertices is degenerate |
| Triangles.DetIsCrossLength | src/graphene-triangle.c:324-353 | the denominator is the squared length of the cross product of the two edges (Lagrange's identity), so never negative |
| Triangles.TestTriangleInit | tests/triangle.c:144-172 | init_from_point3d of (0, 1, 0), (1, -1, 0), (-1, -1, 0) stores the test triangle |
| Triangles.TestTriangleLanes | tests/triangle.c:144-172 | its edges c - a and b - a are (-1, -2, 0) and (1, -2, 0) |
| Triangles.TestTriangleGram | tests/triangle.c:144-172 | its dot products are 5, 3 and 5, so it is not degenerate |
| Triangles.QuarterEdges | tests/triangle.c:144-172 | a quarter of each edge of the test triangle |
| Triangles.QuarterPoint | tests/triangle.c:144-172 | a plus the two quarter edges is the origin |
| Triangles.OneDots | tests/triangle.c:144-172 | for the point (1, 1, 1), dot02 = -1 and dot12 = 1 |
| Triangles.OriginIsQuarterPoint | tests/triangle.c:144-172 | the origin is the plane point (1/4, 1/4) of the test triangle |
| Triangles.ContainsOriginExample | tests/triangle.c:144-172 | the test triangle contains (0, 0, 0) |
| Triangles.OneSystem | tests/triangle.c:144-172 | for (1, 1, 1) get_uv solves with dot products 5, 3, 5 and right-hand side -1, 1 |
| Triangles.OneSolution | src/graphene-triangle.c:346-352 | that system has the solution (u, v) = (-1/2, 1/2) |
| Triangles.ExcludesOneExample | tests/triangle.c:144-172 | the test triangle does not contain (1, 1, 1) |
| Triangles.ContainsMidpointExample | tests/triangle.c:144-172 | the test triangle contains its midpoint |
| Planes.InitReadBack | src/graphene-plane.c:99-157 | init with a NULL normal reads back the x axis, a given normal and the constant read back unchanged (get_normal, get_constant at lines 297-318), and init_from_plane copies |
| Planes.Vec4RoundTrip | src/graphene-plane.c:127-135 | init_from_vec4 takes the normal from x, y, z and the constant from w, so it inverts (normal, constant) packed into a vec4 |
| Planes.InitFromPointDistance | src/graphene-plane.c:172-185 | the plane init_from_point builds passes through the point, and every other point's distance is its offset from that point along the normal |
| Planes.NegateFlips | src/graphene-plane.c:257-284 | negate flips the sign of every distance, keeps the points on the plane, and negating twice gives the plane back |
| Planes.NegateInitFromPoint | src/graphene-plane.c:172-262 | negating the plane through a point is the plane through that point with the negated normal |
| Planes.EqualProperties | src/graphene-plane.c:320-347 | equal accepts the same pointer and two NULLs and rejects one NULL; when graphene_approx_val is reflexive and symmetric, a plane equals a copy and the comparison is symmetric |
| Frustums.ContainsImpliesIntersects | src/graphene-frustum.c:206-255 | a sphere with a non-negative radius whose centre is inside meets the frustum |
| Frustums.PointSphere | src/graphene-frustum.c:206-255 | a sphere of radius 0 meets the frustum exactly when its centre is inside |
| Frustums.NegatedPlaneExcludes | src/graphene-frustum.c:206-223 | a point strictly inside one plane is outside once that plane is negated |
| Frustums.OnAllPlanesInside | src/graphene-frustum.c:206-223 | a point on every plane is inside, because the test is inclusive |
| Frustums.Frustum.constructor | src/graphene-frustum.c:98-114 | a new frustum has six planes |
| Frustums.Frustum.Init | src/graphene-frustum.c:98-114 | init stores the six planes in argument order |
| Frustums.Frustum.InitFromFrustum | src/graphene-frustum.c:129-138 | init_from_frustum copies the six planes of the source, which may be the frustum itself |
| Frustums.Frustum.ContainsPoint | src/graphene-frustum.c:206-223 | contains_point is false for NULL and otherwise true exactly when no plane has the point at a negative distance |
| Frustums.Frustum.IntersectsSphere | src/graphene-frustum.c:238-255 | intersects_sphere is true exactly when no plane has the centre further than the radius behind it |
| Frustums.CopyAgrees | src/tests/frustum.c:6-31 | a frustum built by init and its copy by init_from_frustum classify every point alike, by the six planes |
| Rays.InitReadBack | src/graphene-ray.c:93-189 | init with NULL origin and direction reads back the zero point and zero vector (tests/ray.c:7-28); a given origin reads back unchanged, a given direction reads back normalised, and init from points agrees with init_from_vec3 |
| Rays.InitFromRayCopies | src/graphene-ray.c:123-127 | init_from_ray reproduces its source exactly when normalising the source direction leaves it unchanged |
| Rays.PositionAtProperties | src/graphene-ray.c:203-213 | the position at 0 is the origin, and the ray started at the position at s reaches at t the position at s + t |
| Rays.ClosestPointProjects | src/graphene-ray.c:336-356 | a point behind the origin has the origin as its closest point, any other point its projection onto the ray; with a unit direction the offset to the point is perpendicular to the ray |
| Rays.ClosestPointOnRay | src/graphene-ray.c:336-356 | with a unit direction, every point ahead on the ray is its own closest point and lies at its own parameter along the ray |
| Rays.DistanceToPlaneMeets | src/graphene-ray.c:270-293 | the distance to a plane is never negative nor minus infinity, and a finite distance from a non-parallel ray names the position where the ray lies on the plane |
| Rays.OriginOnPlane | src/graphene-ray.c:270-293 | a ray whose origin is on the plane is at distance 0 from it, whether or not it is parallel |
| Rays.BehindPlane | src/graphene-ray.c:270-293 | from the negative side of a plane, a non-parallel ray meets it (finite distance) if and only if it points towards the positive side |
| Rays.EqualProperties | src/graphene-ray.c:296-322 | equal is true for one pointer twice, two NULLs and a ray against itself, false for one NULL, and symmetric |
| Rays.TestRayInit | tests/ray.c:30-39 | init from (1, 1, 1) and the z axis gives the ray of the tests when the normaliser keeps the z axis |
| Rays.PositionExamples | tests/ray.c:30-56 | on the test ray the position at t is (1, 1, 1 + t), which covers the expected (1, 1, 1), (1, 1, 0) and (1, 1, 2) |
| Rays.ClosestExamples | tests/ray.c:81-106 | on the test ray the closest point is (1, 1, z) for z >= 1 and the origin otherwise, which covers the three expected answers |
| Matrices.To2D | src/graphene-matrix.c:622-654 | to_2d succeeds exactly when the matrix is 2D, and then init_from_2d of the six coefficients rebuilds the matrix |
| Matrices.Affine2DRoundTrip | src/graphene-matrix.c:576-654 | init_from_2d builds a 2D matrix whose to_2d reads back the six coefficients, to_2d succeeds if and only if the matrix is 2D, and a successful to_2d rebuilds the same matrix (tests/matrix.c:505-522) |
| Matrices.GetRow | src/graphene-matrix.c:668-694 | get_row of a row up to 3 holds floats 4 index .. 4 index + 3 of the row-major layout; past 3 it is the zero vector |
| Matrices.GetValue | src/graphene-matrix.c:709-759 | get_value of a row and column up to 3 is float 4 row + col of the row-major layout; otherwise 0 |
| Matrices.GetValueIsRowLane | src/graphene-matrix.c:668-759 | get_value is lane col of get_row, equals the row-major float at 4 * row + col, and is 0 whenever row or col is past 3 |
| Matrices.GettersReadBack | src/graphene-matrix.c:1702-1785 | the translation getters read back the point init_translate stored and the scale getters the factors init_scale stored; a scale matrix has zero translation and a translation matrix unit scale |
| Matrices.IdentityFloatsRoundTrip | src/graphene-matrix.c:111-140 | init_identity stores a matrix that is_identity accepts, and to_float of the identity gives the identity floats (tests/matrix.c:30-92) |
| Matrices.IdentityScaled | tests/matrix.c:30-92 | multiplying the identity by a uniform scale other than 1 gives a matrix that is no longer the identity |
| Matrices.IdentityNeutral | src/graphene-matrix.c:347-384 | init_translate of the zero point and init_scale by 1 both give the identity |
| Matrices.SkewedXY | src/graphene-matrix.c:1538-1547 | skew_xy replaces row y by x * f + y and keeps rows x, z and w; a zero factor changes nothing |
| Matrices.SkewedXZ | src/graphene-matrix.c:1559-1568 | skew_xz replaces row z by x * f + z and keeps rows x, y and w; a zero factor changes nothing |
| Matrices.SkewedYZ | src/graphene-matrix.c:1580-1589 | skew_yz replaces row z by y * f + z and keeps rows x, y and w; a zero factor changes nothing |
| Matrices.SkewRows | src/graphene-matrix.c:1538-1589 | skew_xy changes only row y, to x * f + y; skew_xz and skew_yz change only row z, to x * f + z and y * f + z; a zero factor changes nothing |
| Matrices.SkewIdentity | src/graphene-matrix.c:1538-1547 | skew_xy of the identity has row y equal to (f, 1, 0, 0) |
| Matrices.TranslateScaleIdentity | src/graphene-matrix.c:1356-1363 | translate and scale applied to the identity give exactly init_translate and init_scale (tests/matrix.c:185-232) |
| Matrices.TranslateScaleNeutral | src/graphene-matrix.c:1517-1526 | translating by zero and scaling by one leave any matrix unchanged (tests/matrix.c:279-305) |
| Matrices.TransformBounds | src/graphene-matrix.c:961-1015 | the bounds are a normalised rectangle, with non-negative width and height |
| Matrices.TransformBoundsContains | src/graphene-matrix.c:961-1015 | the bounds contain all four transformed corners of the rectangle, and each of their four edges lies on the x or y of one transformed corner, so no smaller rectangle contains them |
| Matrices.TransformBoundsIdentity | src/graphene-matrix.c:961-1015 | the bounds of a rectangle under the identity are the normalised rectangle itself |
| Matrices.Near | src/graphene-matrix.c:2226-2248 | the row loop answers true for one pointer twice or two NULLs, false for one NULL, and otherwise true exactly when all four row pairs are near |
| Matrices.Equal | src/graphene-matrix.c:2262-2266 | equal is near with FLT_EPSILON |
| Matrices.NearSpecRows | src/graphene-matrix.c:2226-2248 | two matrices are near if and only if each of their four row pairs is near |
| Matrices.NearSelf | src/graphene-matrix.c:2226-2306 | a matrix is near a copy of itself exactly when epsilon is not 0, so equal and equal_fast both accept a copy |
| Matrices.NearSymmetric | src/graphene-matrix.c:2226-2248 | nearness of two matrices does not depend on their order |
| Matrices.MatrixStruct.constructor | src/graphene-matrix.c:79-82 | a new matrix struct holds the given value |
| Matrices.MatrixStruct.InitIdentity | src/graphene-matrix.c:135-140 | after init_identity the matrix is the identity |
| Matrices.MatrixStruct.InitFromFloat | src/graphene-matrix.c:156-162 | after init_from_float the matrix is built from the first sixteen floats, and to_float gives exactly those floats back |
| Matrices.MatrixStruct.InitFromVec4 | src/graphene-matrix.c:180-192 | after init_from_vec4, get_row 0 to 3 read back the four vectors in order |
| Matrices.MatrixStruct.InitScale | src/graphene-matrix.c:347-359 | after init_scale the matrix is the diagonal scale matrix with 1 in the last lane |
| Matrices.MatrixStruct.InitTranslate | src/graphene-matrix.c:374-384 | after init_translate the matrix is the identity with the point in row w |
| Matrices.MatrixStruct.InitFrom2D | src/graphene-matrix.c:576-590 | after init_from_2d the matrix holds the six coefficients and to_2d reads them back |
| Matrices.MatrixStruct.Translate | src/graphene-matrix.c:1356-1363 | translate leaves the product of the old matrix and the translation matrix, even though the multiply writes into its own first operand |
| Matrices.MatrixStruct.Scale | src/graphene-matrix.c:1517-1526 | scale leaves the product of the old matrix and the scale matrix, even though the multiply writes into its own first operand |
| Matrices.MatrixStruct.SkewXY | src/graphene-matrix.c:1538-1547 | skew_xy leaves the old matrix with row y replaced by x * f + y |
| Matrices.MatrixStruct.SkewXZ | src/graphene-matrix.c:1559-1568 | skew_xz leaves the old matrix with row z replaced by x * f + z |
| Matrices.MatrixStruct.SkewYZ | src/graphene-matrix.c:1580-1589 | skew_yz leaves the old matrix with row z replaced by y * f + z |
| Simd4x4.IdentityEntries | src/graphene-simd4x4f.h:62-67 | init_identity has 1 on the diagonal and 0 everywhere else |
| Simd4x4.ToFloat | src/graphene-simd4x4f.h:80-87 | to_float stores exactly sixteen floats |
| Simd4x4.RowMajor | src/graphene-simd4x4f.h:70-87 | init_from_float puts float 4i + j at row i, column j, and to_float reads it back at the same place |
| Simd4x4.FloatRoundTrip | src/graphene-simd4x4f.h:70-87 | to_float after init_from_float gives the first sixteen floats back, and init_from_float after to_float gives the matrix back (tests/matrix.c:30-92) |
| Simd4x4.Vec4MulIsProduct | src/graphene-simd4x4f-common.h:42-57 | vec4_mul is the row vector times the matrix, lane j being the sum over k of v_k times entry (k, j) |
| Simd4x4.Vec3MulIsProduct | src/graphene-simd4x4f-common.h:60-73 | vec3_mul is the product of the vector with w set to 0 |
| Simd4x4.Point3MulIsProduct | src/graphene-simd4x4f-common.h:76-89 | point3_mul is the product of the point with w set to 1 |
| Simd4x4.MatrixMul | src/graphene-simd4x4f-common.h:128-136 | every row of matrix_mul(a, b) is the matching row of b times a by the reference row-times-matrix product, so the result is the matrix product b a |
| Simd4x4.MatrixMulRows | src/graphene-simd4x4f-common.h:128-136 | row i of matrix_mul(a, b) is row i of b times a |
| Simd4x4.RowTimesIdentity | src/graphene-simd4x4f.h:62-67 | any row vector times the identity is itself |
| Simd4x4.UnitRowTimes | src/graphene-simd4x4f-common.h:42-57 | the identity's unit rows times a matrix pick out that matrix's rows |
| Simd4x4.MatrixMulIdentity | src/graphene-simd4x4f-common.h:128-136 | the identity is a unit on both sides of matrix_mul |
| Simd4x4.TranslationActs | src/graphene-simd4x4f-common.h:213-222 | the translation matrix adds (x, y, z) to a point under point3_mul and leaves a direction unchanged under vec3_mul |
| Simd4x4.AliasedMulSafeForTranslation | src/graphene-matrix.c:1356-1363 | matrix_mul written into its own first operand still gives the product when the second operand is a translation matrix |
| Simd4x4.AliasedMulSafeForScale | src/graphene-matrix.c:1517-1526 | matrix_mul written into its own first operand still gives the product when the second operand is a scale matrix |
| Simd4x4.Transpose | src/graphene-simd4x4f-common.h:92-97 | entry (i, j) of the transpose is entry (j, i) of the matrix, for all i and j |
| Simd4x4.TransposeEntry | src/graphene-simd4x4f-common.h:92-97 | entry (i, j) of the transpose is entry (j, i) of the matrix |
| Simd4x4.TransposeProperties | src/graphene-simd4x4f-common.h:92-97 | transposing twice gives the matrix back, the diagonal stays, and the identity is its own transpose |
| Simd4x4.RowwiseInverses | src/graphene-simd4x4f-common.h:260-277 | rowwise sub undoes rowwise add, and rowwise div undoes rowwise mul when no entry of the divisor is 0 |
| Simd4x4.RowwiseAddEntry | src/graphene-simd4x4f-common.h:260-277 | every entry of the rowwise sum is the sum of the matching entries |
| Simd4x4.Matrix4.constructor | src/graphene-simd4x4f.h:52-59 | a new matrix holds the given rows |
| Simd4x4.Matrix4.TransposeInPlace | src/graphene-simd4x4f-gcc.h:34-45 | after transpose_in_place the matrix is the transpose of the old one, although its rows are overwritten one by one |
| Simd4x4.Matrix4.TransposeInPlaceScalar | src/graphene-simd4x4f.c:62-86 | the entry-by-entry transpose_in_place also leaves the transpose of the old matrix |
| Simd4x4.MatrixMulInto | src/graphene-simd4x4f-common.h:128-136 | matrix_mul into a result other than the first operand (the second operand included) leaves the product; into the first operand it leaves the aliased result, each row computed from the rows already overwritten |
| Simd4x4.MatrixMulIntoSnapshot | src/graphene-simd4x4f-common.h:128-136 | multiplying from copies of both operands leaves the product whichever matrix receives it |
| Simd4x4.LaneYPicksY | src/graphene-simd4x4f-common.h:42-57 | a row vector with only lane y non-zero scales row y of the matrix |
| Simd4x4.LaneZPicksY | src/graphene-simd4x4f-common.h:42-57 | a row vector with only lane z non-zero scales row z of the matrix |
| Simd4x4.AntiDiagonalSquaredRowZ | tests/matrix.c:589-624 | the square of the anti-diagonal matrix of the multiply test has 0 at row z, lane y |
| Simd4x4.AliasedAntiDiagonalRowZ | src/graphene-simd4x4f-common.h:132-135 | the aliased square of that matrix has d * d * d at row z, lane y, because row y was overwritten first |
| Simd4x4.AliasedMul | src/graphene-simd4x4f-common.h:128-136 | matrix_mul with res the same matrix as a gets its first row right; later rows read the rows already overwritten |
| Simd4x4.AliasedMulCounterexample | src/graphene-simd4x4f-common.h:132-135 | for every non-zero d, multiplying the anti-diagonal matrix into its first operand does not give its product, although tests/matrix.c:589-624 expects it to |
| Eulers.GetOrder | src/graphene-euler.c:537-543 | get_order never answers DEFAULT: DEFAULT reads as XYZ, and every other stored order reads back as stored |
| Eulers.InitRoundTrip | src/graphene-euler.c:99-165 | init stores the angles in radians and get_x, get_y and get_z (lines 483-518) give back the degrees; init uses DEFAULT, which get_order reports as XYZ; to_vec3 (lines 556-561) gives the degrees back, and init_from_vec3 of that vector rebuilds the same euler (lines 403-415) |
| Eulers.InitZero | tests/euler.c:6-34 | init (0, 0, 0) reads back 0 on each axis |
| Eulers.NullSources | src/graphene-euler.c:183-442 | a NULL matrix, quaternion or vector gives zero angles with the requested order; init_from_euler of NULL gives zero angles with DEFAULT, and of a euler gives a copy |
| Eulers.NewOrdersFallThrough | src/graphene-euler.c:203-703 | for the static and relative orders no switch arm matches: init_from_matrix and init_from_quaternion keep zero angles, and to_matrix gives the identity |
| Eulers.DefaultIsXYZ | src/graphene-euler.c:183-703 | DEFAULT converts exactly as XYZ in init_from_matrix, init_from_quaternion and to_matrix |
| Eulers.ToMatrix | src/graphene-euler.c:588-703 | the corrected to_matrix (c = cos, s = sin of each angle): every result has row w equal to (0, 0, 0, 1), and the static and relative orders give the identity |
| Eulers.ToMatrixAsWritten | src/graphene-euler.c:602-604 | to_matrix as written: because graphene_sincos (src/graphene-private.h:88-99) takes the sine output before the cosine output, the result is the corrected to_matrix run with sine and cosine exchanged |
| Eulers.ZeroAnglesAsWritten | src/graphene-euler.c:602-629 | with sin 0 = 0 and cos 0 = 1, to_matrix as written turns zero XYZ angles into rows (0, 0, 1), (0, -1, 0), (1, 0, 0), not the identity |
| Eulers.ZeroAnglesIdentity | src/graphene-euler.c:588-703 | for the corrected to_matrix, with sin 0 = 0 and cos 0 = 1, zero angles give the identity in every order, and every result has row w equal to (0, 0, 0, 1) |
| Eulers.InitFromMatrix | src/graphene-euler.c:183-303 | init_from_matrix stores the requested order; a NULL matrix, or an order with no switch arm, gives zero angles |
| Eulers.IdentityGivesZeroAngles | src/graphene-euler.c:183-303 | with asin 0 = 0 and atan2(0, 1) = 0, init_from_matrix of the identity gives zero angles in every order, so the corrected to_matrix followed by init_from_matrix returns the zero rotation |
| Eulers.InitFromQuaternion | src/graphene-euler.c:321-383 | init_from_quaternion stores the requested order; a NULL quaternion, or an order with no switch arm, gives zero angles |
| Eulers.IdentityQuaternionGivesZeroAngles | src/graphene-euler.c:321-383 | the identity quaternion (0, 0, 0, 1) gives zero angles in every order |
| Eulers.EqualProperties | src/graphene-euler.c:445-470 | equal compares the stored order, so DEFAULT and XYZ with the same angles are not equal although get_order agrees; it is true for one pointer twice, two NULLs and a euler against itself, false for one NULL, and symmetric |
| Quaternions.Init | src/graphene-quaternion.c:47-61 | init stores the four components, which read back as the lanes x, y, z, w in that order |
| Quaternions.ToMatrixAsWritten | src/graphene-quaternion.c:94-120 | to_matrix as written is the corrected rotation matrix with its w row replaced by (0, 0, 0, 0) |
| Quaternions.RotationMatrix | src/graphene-quaternion.c:94-120 | the corrected rotation matrix has row w equal to (0, 0, 0, 1) and a zero w lane in rows x, y and z |
| Quaternions.ToMatrix | src/graphene-quaternion.c:94-120 | to_matrix builds the rotation rows from the quaternion and initialises the matrix from them, leaving the rotation matrix with the corrected w row (0, 0, 0, 1) |
| Quaternions.AsWrittenNotIdentity | src/graphene-quaternion.c:117 | with the w row as written, the identity quaternion (0, 0, 0, 1) does not give the identity matrix |
| Quaternions.AsWrittenLosesW | src/graphene-quaternion.c:117-119 | with the w row as written, every vector multiplied by the matrix loses its w lane, so the result is not a homogeneous transform |
| Quaternions.RotationMatrixOfIdentity | src/graphene-quaternion.c:94-120 | with the corrected w row, the identity quaternion gives the identity matrix |
| Quaternions.RotationMatrixAffine | src/graphene-quaternion.c:94-120 | with the corrected w row, every quaternion gives an affine matrix whose last column is (0, 0, 0, 1) and which keeps the w lane of a vector |
| Quaternions.RotationMatrixNegated | src/graphene-quaternion.c:94-120 | q and -q give the same rotation matrix |
| Quaternions.UnitRowX | src/graphene-quaternion.c:101-105 | for a quaternion of length 1 the first row of the rotation has length 1 |
| Quaternions.Blend | src/graphene-quaternion.c:148-159 | the splat, multiply and add on the four lanes give the component-wise sum left * a + right * b |
| Quaternions.Slerp | src/graphene-quaternion.c:123-160 | slerp returns a unchanged whenever the dot product of a and b is at least 1 |
| Quaternions.SlerpShortcut | src/graphene-quaternion.c:136-142 | a dot product of at least 1, clamped to 1, returns a unchanged for every factor; so a unit quaternion slerped with itself is itself |
| Quaternions.SlerpBlend | src/graphene-quaternion.c:136-159 | the clamped dot differs from 1 exactly when the dot product is below 1, and then slerp is the blend of a and b with the weights cos(f θ) - dot * right and right |
| Quaternions.SlerpAtZero | src/graphene-quaternion.c:123-160 | when sin 0 = 0 and cos 0 = 1, slerp at factor 0 gives a |

## Left out

- Floating point: every `float` is a `real`, so IEEE rounding, NaN, denormals and overflow to infinity are not modelled. Positive and negative infinity exist only as the box sentinels.
- Square roots, trigonometry and fuzzy comparison are parameters. This covers `graphene_approx_val`, vector normalisation, `sinf`, `cosf`, `asinf`, `atan2f`, `acosf` and the slerp weights. Contracts hold for every such function and assume only what their `requires` name.
- Vector and point `length`, `normalize` and `distance` (the square root) are not modelled. `graphene_point_distance` is modelled through the per-axis deltas it writes (`Points.DistanceOf`).
- `graphene_ray_get_distance_to_point`, the ray intersection tests and `graphene_matrix_transform_ray` are not modelled, because they need a square root or a matrix inverse.
- Matrix operations outside the structural core are not modelled: rotate, `init_rotate`, `init_skew`, perspective, ortho, look_at, `init_frustum`, inverse, determinant, `is_singular`, `is_backface_visible`, decompose, interpolate, the project and unproject functions, the other `transform_*` functions and `graphene_matrix_print`.
- Matrices.IsIdentity: `graphene_simd4x4f_is_identity` is not part of this model, so it is taken to be exact equality with the identity.
- Matrices.Is2D: `graphene_simd4x4f_is_2d` is not part of this model, so it is taken to be an exact comparison. The 1e-6 tolerance of its disabled variant is not modelled.
- Alloc.AlignedAlloc0: modelled on top of the corrected allocation only; the as-written allocation followed by the clearing is shown by Alloc.AsWrittenClearOverruns on the one input that overruns, not as a method.
- Eulers.ZeroAnglesIdentity: stated about the corrected to_matrix; the conversion as written is Eulers.ToMatrixAsWritten. The trigonometry of `to_matrix`, `init_from_matrix` and `init_from_quaternion` is a parameter. The angles are proved only for the zero rotation and the identity. The order dispatch is proved for all orders.
- `graphene_euler_reorder` is not modelled. It goes through `graphene_quaternion_init_from_euler`, which is not part of this model.
- Quaternions: `init_from_matrix` and the other quaternion operations outside `init`, `to_matrix` and `slerp` are not modelled.
- Quaternions.SlerpBlend: the slerp weights are parameters. Only the dot == 1 shortcut and the blend of the two inputs are stated exactly.
- Plane `normalize`, `transform` and `init_from_points` are not modelled, because they need normalisation or a matrix inverse. So is frustum `init_from_matrix`.
- Triangle `area`, `normal`, `plane` and `equal` are not modelled, because they need a square root or normalisation.
- `graphene_box_get_bounding_sphere` and `graphene_matrix_transform_sphere` are not modelled, because they need a square root.
- Boxes2D.GetWidth: +inf - +inf has no value over the extended reals, so `get_width`, `get_height` and `get_depth` of a box whose corners hold such a pair give no result where C gives NaN.
- `graphene_size_equal` is not part of this model. `Sizes.Equal` takes it to be `graphene_pointer_equal` with both dimensions within GRAPHENE_FLOAT_EPSILON.
- Allocation and freeing: `posix_memalign`, `aligned_alloc`, `malloc` and `free` are parameters or left out. Only the size arithmetic and the zeroing are modelled. `errno` and the `g_assert` abort are the outcomes of `AlignedAllocAsWritten`.
- The `pthread_once` and `InitOnceExecuteOnce` set-up of the static vectors and boxes is concurrency. Those values are constants of the model.
- The SSE, NEON and MSVC intrinsic branches are not modelled. The vector-extension and scalar definitions give the lane semantics.
- src/graphene-simd4x4f-scalar.h assigns from an undeclared `d`. That header is not modelled; the scalar `transpose_in_place` of src/graphene-simd4x4f.c is.
- The standard-input script around `to_camel_case` is not modelled. Only its trailing newline is (`Identfilter.TrailingNewlineIgnored`).
- Python's `str.title` is modelled on ASCII letters. Other Unicode letters and case rules are not modelled.


## Findings

| source | as written | input that shows it | evidently intended | confidence | as-written member | corrected member |
|---|---|---|---|---|---|---|
| src/graphene-alloc.c:104-108 | the aligned_alloc branch rounds `real_size` up to a multiple of the alignment by a size_t addition that can wrap | size SIZE_MAX, number 1, alignment 16: the guard passes, the rounded size wraps to 0 bytes, and alloc0 then clears SIZE_MAX bytes of that block | a rounded size that does not fit is refused like an overflow of size * number | not executed | Alloc.AsWrittenClearOverruns | Alloc.AlignedAlloc |
| src/graphene-simd4f-scalar.h:284-291 | the scalar cmp_neq is true only when all four lanes differ (src/graphene-simd4f.c:563-571 is the same) | (1, 0, 1, 0) against splat(1): neither cmp_eq nor cmp_neq holds | cmp_neq is the negation of cmp_eq, as in include/graphene-simd4f.h:1113 and src/tests/simd.c:23-38 | not executed | Simd.CmpNeqAllLanesCounterexample | Simd.CmpNeqSomeLane |
| src/graphene-rect.c:237-241 | union takes the larger of the two sizes from the smaller origin | (0, 0, 10, 10) and (5, 5, 15, 15) give 15x15, which leaves out (20, 20) | the bounding rectangle, 20x20 here, as src/tests/rect.c:125-140 expects | not executed | Rects.UnionAsWrittenCounterexample | Rects.UnionBounds |
| src/graphene-rect.c:297-307 | contains_rect compares a with the union as written | (0, 0, 10, 10) is reported to contain (5, 5, 10, 10), whose corner (15, 15) is outside | a contains b only when every point of b is in a | not executed | Rects.ContainsRectAsWrittenCounterexample | Rects.ContainsRectSound |
| src/graphene-rect.c:263 | the bottom edge of b is computed from its x origin | (0, 0, 100, 100) and (50, 0, 10, 10) give a rectangle 60 high holding (55, 30), which is outside b | the bottom edge from the y origin, so the result is the overlap (50, 0, 10, 10) | not executed | Rects.IntersectionAsWrittenCounterexample | Rects.IntersectionExact |
| src/graphene-box.c:358 | intersection reports no overlap only when cmp_ge holds on every lane, so the boxes must be apart on every axis | (5, 0, 0)-(6, 1, 1) and (7, 0, 0)-(8, 1, 1) share no point but are reported to intersect | no overlap as soon as one axis separates them, as in the 2D box (`!cmp_le`) and tests/box.c:283-341 | not executed | Boxes.IntersectionAsWrittenCounterexample | Boxes.IntersectionCommonPoint |
| src/graphene-box.c:459-460 | get_center computes (max - min) / 2, the half-extent | the (-1, 1) box gets its corner (1, 1, 1) as centre | the midpoint (min + max) / 2, the origin here, as tests/box.c:190-233 expects | not executed | Boxes.CenterAsWrittenCounterexample | Boxes.CenterMidpoint |
| src/graphene-simd4x4f-common.h:132-135 | matrix_mul writes the rows of res one by one while later rows are still read from a, so res may not be a | the anti-diagonal matrix with 2s multiplied by itself into its first operand has 8 at row z, lane y, where the product has 0 | the product whatever res aliases, as tests/matrix.c:589-624 expects | not executed | Simd4x4.AliasedMulCounterexample | Simd4x4.MatrixMulIntoSnapshot |
| src/graphene-quaternion.c:117 | the w row of to_matrix is (0, 0, 0, 0) | the identity quaternion (0, 0, 0, 1) does not give the identity matrix | the homogeneous row (0, 0, 0, 1), as every other rotation the library builds has | not executed | Quaternions.AsWrittenNotIdentity | Quaternions.RotationMatrixOfIdentity |
| src/graphene-euler.c:602-604 | to_matrix calls graphene_sincos (angle, &c, &s), but graphene_sincos writes the sine to its second argument and the cosine to its third (src/graphene-private.h:88-99), so every c holds a sine and every s a cosine | zero angles in order XYZ give rows (0, 0, 1), (0, -1, 0), (1, 0, 0) instead of the identity | c the cosine and s the sine of each angle, as graphene_matrix_interpolate passes &rot_sin, &rot_cos (src/graphene-matrix.c:2107) | not executed | Eulers.ZeroAnglesAsWritten | Eulers.ZeroAnglesIdentity |
