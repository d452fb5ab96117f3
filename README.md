# Animated transforms of the tray_rust renderer, in Dafny

This project models the keyframe-animation core of the renderer: the
`AnimatedTransform` of `src/linalg/animated_transform.rs`. An animated
transform is a chain of levels, leaf first. Level 0 is the object's own
animation, level 1 its parent's, and so on. Each level is a degree-1 B-spline
whose control points are keyframes (time, translation, rotation quaternion,
scaling).

The model covers five operations:

- **Building a level** (`with_keyframes`, `Animation.WithKeyframes`). The
  owned keyframe list is copied into a fresh array. The array is sorted in
  place by time (`SortByTime`). A left-to-right pass then negates each
  rotation whose dot product with the already-corrected predecessor is
  negative (`TakeShortestArcs`, specified by the function `ShortestArc`).
  Finally a knot vector is built from the first one or two times
  (`KnotVector`), and the result is wrapped as a single degree-1 spline level.
- **The time query** (`transform`, `Animation.TransformAt`, specified by
  `Evaluate` and `Accumulate`). It starts from the identity. For each level,
  leaf first, it left-multiplies that level's transform onto the running
  product. A level with exactly one control point is read directly; any other
  level is evaluated on its spline at the given time.
- **The animated-state predicate** (`is_animated`, `Animation.IsAnimated`).
  It holds when every level has more than one control point. For an empty
  chain it is true, as the code says.
- **Bounds by sampling** (`animation_bounds`, `Animation.AnimationBounds`). A
  chain that is not animated transforms the box once, at `start`. An animated
  chain folds `box_union` from the empty box over the box transformed at 128
  times `lerp(i / 127, start, end)`.
- **Composition** (`impl Mul`, `Animation.Mul`). `lhs * rhs` pushes the
  levels of `lhs` after those of `rhs`.

Floating-point values (`f32`) are modelled as `real`. Quaternions are concrete
4-tuples of reals, so that `dot` and negation are exact. These operations are
called but not defined by the core, so they are fields of the datatype
`Animation.Collaborators` and are passed in as parameters:

- the identity transform and the transform product;
- `Keyframe::transform`;
- B-spline evaluation;
- the empty box, transforming a box, and box union.

`Transform` and `BBox` are abstract types. Lemmas that need algebraic laws
say so in their preconditions. `IsMonoid` asks for an associative product with
a two-sided identity. `UnionBounds` asks that the union hold both of its
arguments and that "holds" be transitive.

Three behaviours of the code are worth knowing:

- `self * rhs` puts the levels of `rhs` first (lines 84-88), so `rhs` is the
  inner chain and is applied first. `self` (`lhs` in `Animation.Mul`) is the
  outer chain (`MulEvaluates`).
- `is_animated` is true for a chain with no levels (line 77).
- With three or more keyframes, the knot vector still uses only the first two
  times (lines 34-38). `KnotVector` states that its length equals
  control points + degree + 1 exactly when there are at most two keyframes.

## Model

| member | source | states |
|---|---|---|
| `Linalg.Negate` | src/linalg/animated_transform.rs:30 | negating a rotation negates its dot product with every quaternion |
| `Linalg.Lerp` | src/linalg/animated_transform.rs:68 | interpolation weight 0 gives `start`, weight 1 gives `end` |
| `Linalg.LerpMonotone` | src/linalg/animated_transform.rs:68 | for a <= b and weights 0 <= s <= t <= 1, the interpolated values lie in [a, b] in weight order |
| `Keyframes.WithNegatedRotation` | src/linalg/animated_transform.rs:30 | overwriting the rotation with its negation keeps time, translation and scaling, and negates every dot product with the rotation |
| `Animation.SortByTime` | src/linalg/animated_transform.rs:23 | after the in-place sort, the array is non-decreasing by time and a permutation of what it held |
| `Animation.InsertIntoSorted` | src/linalg/animated_transform.rs:23 | one insertion step of the sort: extends the sorted prefix by one, keeps the multiset of keyframes and leaves every keyframe after index `i` in place |
| `Animation.SwapWithPrevious` | src/linalg/animated_transform.rs:23 | exchanges two neighbours, changes nothing else and keeps the multiset |
| `Animation.FlipToward` | src/linalg/animated_transform.rs:29-31 | the corrected keyframe has a non-negative dot product with its predecessor; it is either unchanged or has its rotation negated; it is unchanged when the dot product was already non-negative |
| `Animation.ShortestArc` | src/linalg/animated_transform.rs:26-32 | the correction pass keeps the number of keyframes |
| `Animation.TakeShortestArcs` | src/linalg/animated_transform.rs:26-32 | the in-place loop, flipping each keyframe toward its already-corrected predecessor, leaves exactly `ShortestArc` of the sorted list |
| `Animation.ShortestArcHasNoLongArcs` | src/linalg/animated_transform.rs:26-32 | after correction, every adjacent pair of rotations has a non-negative dot product |
| `Animation.ShortestArcChangesOnlyRotations` | src/linalg/animated_transform.rs:26-32 | the correction changes nothing but rotations: each keyframe is kept or has its rotation negated, and the first keyframe is always kept |
| `Animation.ShortestArcKeepsOrder` | src/linalg/animated_transform.rs:23-32 | the correction keeps every time, so a list sorted by time stays sorted |
| `Animation.NoLongArcsUnchanged` | src/linalg/animated_transform.rs:26-32 | a list without long arcs is left unchanged by the correction |
| `Animation.ShortestArcFixedPoints` | src/linalg/animated_transform.rs:26-32 | the correction leaves a list unchanged if and only if the list has no long arc |
| `Animation.ShortestArcIdempotent` | src/linalg/animated_transform.rs:26-32 | correcting twice gives the same list as correcting once |
| `Animation.KnotVector` | src/linalg/animated_transform.rs:34-38 | the knot vector is clamped at the first time and ends at the first (one keyframe) or second time; it is non-decreasing for sorted keyframes; its length is control points + 2 exactly when there are at most two keyframes |
| `Animation.WithKeyframes` | src/linalg/animated_transform.rs:22-40 | needs a non-empty list. The result is one degree-1 level whose control points are the shortest-arc correction of a time-sorted permutation of the input. They are as many as the input, sorted, and without long arcs. The knots are `[t0, t0, t0]` for one keyframe and `[t0, t0, t1, t1]` otherwise. A single keyframe is stored unchanged |
| `Animation.TransformAt` | src/linalg/animated_transform.rs:45-59 | the loop computes `T_{n-1} * ... * T_1 * T_0` over the levels, leaf first, where a one-point level contributes its control point's transform; with no levels the result is the identity |
| `Animation.AccumulateAppend` | src/linalg/animated_transform.rs:49-57 | fold order: the product over a concatenation of levels is the product over the second part accumulated onto the product over the first |
| `Animation.AccumulateOntoSeed` | src/linalg/animated_transform.rs:46-58 | for an associative product with identity, accumulating levels onto a seed is the chain's product times the seed |
| `Animation.StaticChainIgnoresTime` | src/linalg/animated_transform.rs:50-55 | if every level has one control point, the transform is the same at all times |
| `Animation.SingleKeyframePose` | src/linalg/animated_transform.rs:51-52 | a level built from one keyframe gives that keyframe's transform at every time, when the identity is a right unit |
| `Animation.AllSeveralPoints` | src/linalg/animated_transform.rs:77 | the fold `acc && count > 1` over the levels holds if and only if `acc` holds and every level has more than one control point |
| `Animation.IsAnimated` | src/linalg/animated_transform.rs:76-78 | true if and only if every level has more than one control point, and so true for an empty chain |
| `Animation.AnimationBounds` | src/linalg/animated_transform.rs:61-74 | a chain that is not animated gives exactly the box transformed at `start`; an animated chain gives the left fold of the union, from the empty box, over the 128 sample boxes in order |
| `Animation.SampleSchedule` | src/linalg/animated_transform.rs:67-68 | sample 0 is at `start` and sample 127 at `end`; for start <= end every sample lies in [start, end] and the samples are in time order |
| `Animation.SweptUnionHoldsSamples` | src/linalg/animated_transform.rs:66-72 | when the union holds its arguments, the folded union holds every sample box folded into it |
| `Animation.AnimatedBoundsHoldEndpoints` | src/linalg/animated_transform.rs:65-73 | for an animated chain, the bounds hold the box transformed at `start`, at `end` and at every sample time |
| `Animation.Mul` | src/linalg/animated_transform.rs:84-89 | the composition's levels are the right operand's levels followed by the left operand's levels, each in its original order |
| `Animation.MulEvaluates` | src/linalg/animated_transform.rs:84-89 | for an associative product with identity, the composition's transform at any time is the left operand's transform times the right operand's |
| `Animation.MulIsAnimated` | src/linalg/animated_transform.rs:84-89 | a composition is animated if and only if both operands are |

## Left out

- B-spline evaluation (`BSpline::point`, basis functions) is a foreign library. It is the uninterpreted `point` field of `Collaborators`.
- The B-spline library's own checks of the degree, control points and knot vector are not modelled. `KnotVector` only records that the knot count matches the usual rule for one or two keyframes.
- Transform arithmetic, `Keyframe::transform`, and box construction, transformation and union are defined outside the core file. They are uninterpreted collaborators over abstract types.
- `SingleKeyframePose`, `MulEvaluates` and `AccumulateOntoSeed`: these hold only under the stated product laws, which the model assumes rather than derives.
- `SortByTime`: states that the result is sorted and a permutation, but not that the sort is stable. The library sort the code calls is stable, and so is the modelled insertion sort.
- The keyframe ordering is defined in `src/linalg/keyframe.rs`, which is not part of this model. It is taken to compare `time` alone.
- `lerp` is defined in `src/linalg/mod.rs`, which is not part of this model. It is taken as `a * (1 - t) + b * t`.
- `f32` rounding, NaN and `-0.0` are not modelled in the dot-product test, the sample times or `lerp`: all values are reals.
- `Clone` and Rust's move semantics of `mul` are not modelled. Animated transforms are immutable values, and composition returns a new value.
- That negating a rotation leaves a keyframe's own transform unchanged depends on `Keyframe::transform`, which is not modelled.
- Numeric scenarios, such as the transform halfway between two keyframes, depend on spline evaluation, which is not modelled.
