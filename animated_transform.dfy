/** The keyframe-animation core: building one animated level from a list of
    keyframes, composing levels into a hierarchy, querying the composite
    transform at a time, and bounding a moving box by sampling. */
module Animation {
  import opened Linalg
  import opened Geometry
  import opened Keyframes
  import opened BSplines

  /** The operations the core calls but does not define: transform identity
      and product, a keyframe's pose as a transform, B-spline evaluation, and
      the bounding-box constructor, transformation and union. */
  datatype Collaborators = Collaborators(
    identity: Transform,                        // the identity transform
    mul: (Transform, Transform) -> Transform,   // mul(a, b) is `a * b`: b first, then a
    poseTransform: Keyframe -> Transform,       // a keyframe's pose as a transform
    point: (Spline, real) -> Keyframe,          // the spline evaluated at a time
    emptyBox: BBox,                             // the empty box
    transformBox: (Transform, BBox) -> BBox,    // a transform applied to a box
    union: (BBox, BBox) -> BBox)                // the smallest box holding both

  /** The laws a transform product usually obeys; only lemmas that say so
      depend on them. */
  ghost predicate IsMonoid(c: Collaborators)
  {
    && (forall x, y, z :: c.mul(c.mul(x, y), z) == c.mul(x, c.mul(y, z)))
    && (forall x :: c.mul(c.identity, x) == x)
    && (forall x :: c.mul(x, c.identity) == x)
  }

  /** A chain of animated levels, leaf first: index 0 is the object's own
      animation, index 1 its parent's, and so on. Every level is a degree-1
      spline over keyframes. */
  datatype AnimatedTransform = AnimatedTransform(levels: seq<Spline>)

  // ---------------------------------------------------------------------
  // Construction of one level from keyframes

  /** Sorts the keyframes in place by time (the keyframe ordering). */
  method SortByTime(a: array<Keyframe>)
    modifies a
    ensures SortedByTime(a[..])
    ensures multiset(a[..]) == old(multiset(a[..]))
  {
    var i := 0;
    while i < a.Length
      invariant 0 <= i <= a.Length
      invariant forall k, l :: 0 <= k < l < i ==> a[k].time <= a[l].time
      invariant multiset(a[..]) == old(multiset(a[..]))
    {
      InsertIntoSorted(a, i);
      i := i + 1;
    }
  }

  /** Moves `a[i]` left past every later keyframe of `a[..i]`, which is sorted,
      so that `a[..i + 1]` is sorted. */
  method InsertIntoSorted(a: array<Keyframe>, i: nat)
    requires i < a.Length
    requires forall k, l :: 0 <= k < l < i ==> a[k].time <= a[l].time
    modifies a
    ensures forall k, l :: 0 <= k < l <= i ==> a[k].time <= a[l].time
    ensures multiset(a[..]) == old(multiset(a[..]))
    ensures a[i + 1..] == old(a[i + 1..])
  {
    var j := i;
    while j > 0 && a[j - 1].time > a[j].time
      invariant 0 <= j <= i
      invariant forall k, l :: 0 <= k < l <= i && k != j && l != j ==> a[k].time <= a[l].time
      invariant forall l :: j < l <= i ==> a[j].time < a[l].time
      invariant multiset(a[..]) == old(multiset(a[..]))
      invariant a[i + 1..] == old(a[i + 1..])
    {
      SwapWithPrevious(a, j);
      j := j - 1;
    }
  }

  /** Exchanges `a[j - 1]` and `a[j]`. */
  method SwapWithPrevious(a: array<Keyframe>, j: nat)
    requires 0 < j < a.Length
    modifies a
    ensures a[j - 1] == old(a[j]) && a[j] == old(a[j - 1])
    ensures forall m :: 0 <= m < a.Length && m != j - 1 && m != j ==> a[m] == old(a[m])
    ensures multiset(a[..]) == old(multiset(a[..]))
  {
    a[j - 1], a[j] := a[j], a[j - 1];
  }

  /** The keyframe `k` as the correction loop leaves it after the corrected
      keyframe `prev`: its rotation is negated exactly when the dot product
      with `prev`'s rotation is negative. */
  function FlipToward(prev: Keyframe, k: Keyframe): (r: Keyframe)
    ensures Dot(prev.rotation, r.rotation) >= 0.0
    ensures r == k || r == WithNegatedRotation(k)
    ensures Dot(prev.rotation, k.rotation) >= 0.0 ==> r == k
  {
    if Dot(prev.rotation, k.rotation) < 0.0 then WithNegatedRotation(k) else k
  }

  /** The keyframes after the left-to-right correction pass: each keyframe
      is flipped toward its already-corrected predecessor. */
  function ShortestArc(ks: seq<Keyframe>): (r: seq<Keyframe>)
    ensures |r| == |ks|
    decreases |ks|
  {
    if |ks| <= 1 then ks
    else
      var done := ShortestArc(ks[..|ks| - 1]);
      done + [FlipToward(done[|done| - 1], ks[|ks| - 1])]
  }

  /** Every adjacent pair of rotations takes the shorter arc. */
  ghost predicate NoLongArcs(ks: seq<Keyframe>)
  {
    forall i :: 1 <= i < |ks| ==> Dot(ks[i - 1].rotation, ks[i].rotation) >= 0.0
  }

  /** The correction loop, in place: for each keyframe after the first, negate
      its rotation when it points away from the corrected predecessor. */
  method TakeShortestArcs(a: array<Keyframe>)
    modifies a
    ensures a[..] == ShortestArc(old(a[..]))
  {
    ghost var input := a[..];
    var i := 1;
    while i < a.Length
      invariant a.Length == 0 || 1 <= i <= a.Length
      invariant a.Length > 0 ==> a[..i] == ShortestArc(input[..i]) && a[i..] == input[i..]
    {
      ghost var before := a[..i];
      assert input[..i + 1][..i] == input[..i];
      assert a[i] == input[i];
      if Dot(a[i - 1].rotation, a[i].rotation) < 0.0 {
        a[i] := a[i].(rotation := Negate(a[i].rotation));
      }
      assert a[..i + 1] == before + [a[i]];
      i := i + 1;
    }
    assert a.Length > 0 ==> a[..i] == a[..] && input[..i] == input;
  }

  /** The knot vector built from the first one or two (sorted) keyframes. */
  function KnotVector(ks: seq<Keyframe>): (knots: seq<real>)
    requires |ks| > 0
    ensures 3 <= |knots| && knots[0] == knots[1] == ks[0].time
    ensures knots[|knots| - 1] == ks[if |ks| == 1 then 0 else 1].time
    ensures |knots| == |ks| + 1 + 1 <==> |ks| <= 2
    ensures SortedByTime(ks) ==> forall i, j :: 0 <= i < j < |knots| ==> knots[i] <= knots[j]
  {
    if |ks| == 1 then [ks[0].time, ks[0].time, ks[0].time]
    else [ks[0].time, ks[0].time, ks[1].time, ks[1].time]
  }

  /** Builds one animated level: sorts the keyframes by time, corrects the
      rotations to take the shortest arc, and wraps them with their knot
      vector in a single degree-1 spline. The keyframe list must be
      non-empty: the knot vector reads its first element. `sorted` is the
      list between the two steps. */
  method WithKeyframes(keyframes: seq<Keyframe>) returns (at: AnimatedTransform, ghost sorted: seq<Keyframe>)
    requires |keyframes| > 0
    ensures SortedByTime(sorted) && multiset(sorted) == multiset(keyframes)
    ensures |at.levels| == 1 && at.levels[0].degree == 1
    ensures at.levels[0].controlPoints == ShortestArc(sorted)
    ensures var cps := at.levels[0].controlPoints;
      && |cps| == |keyframes|
      && SortedByTime(cps)
      && NoLongArcs(cps)
      && at.levels[0].knots == (if |cps| == 1 then [cps[0].time, cps[0].time, cps[0].time]
                                else [cps[0].time, cps[0].time, cps[1].time, cps[1].time])
    ensures |keyframes| == 1 ==> at.levels[0].controlPoints == keyframes
  {
    var a := new Keyframe[|keyframes|](i requires 0 <= i < |keyframes| => keyframes[i]);
    assert a[..] == keyframes;
    SortByTime(a);
    sorted := a[..];
    TakeShortestArcs(a);
    var cps := a[..];
    ShortestArcKeepsOrder(sorted);
    ShortestArcHasNoLongArcs(sorted);
    if |keyframes| == 1 {
      assert |multiset(sorted)| == 1;
      assert sorted[0] in multiset(keyframes);
    }
    var knots := KnotVector(cps);
    at := AnimatedTransform([Spline(1, cps, knots)]);
  }

  /** The correction pass leaves no long arc between neighbours. */
  lemma {:induction false} ShortestArcHasNoLongArcs(ks: seq<Keyframe>)
    ensures NoLongArcs(ShortestArc(ks))
  {
    if |ks| > 1 {
      ShortestArcHasNoLongArcs(ks[..|ks| - 1]);
    }
  }

  /** The correction pass changes nothing but rotations: each keyframe is kept
      or has its rotation negated, and the first is always kept. */
  lemma {:induction false} ShortestArcChangesOnlyRotations(ks: seq<Keyframe>)
    ensures forall i :: 0 <= i < |ks| ==>
      ShortestArc(ks)[i] == ks[i] || ShortestArc(ks)[i] == WithNegatedRotation(ks[i])
    ensures |ks| > 0 ==> ShortestArc(ks)[0] == ks[0]
  {
    if |ks| > 1 {
      ShortestArcChangesOnlyRotations(ks[..|ks| - 1]);
    }
  }

  /** Since only rotations change, the times and so the order are kept. */
  lemma {:induction false} ShortestArcKeepsOrder(ks: seq<Keyframe>)
    ensures forall i :: 0 <= i < |ks| ==> ShortestArc(ks)[i].time == ks[i].time
    ensures SortedByTime(ks) ==> SortedByTime(ShortestArc(ks))
  {
    ShortestArcChangesOnlyRotations(ks);
  }

  /** A list with no long arc is left alone by the correction pass. */
  lemma {:induction false} NoLongArcsUnchanged(ks: seq<Keyframe>)
    requires NoLongArcs(ks)
    ensures ShortestArc(ks) == ks
    decreases |ks|
  {
    if |ks| > 1 {
      var init := ks[..|ks| - 1];
      assert NoLongArcs(init);
      NoLongArcsUnchanged(init);
      assert ks == init + [ks[|ks| - 1]];
    }
  }

  /** The correction pass leaves a list alone exactly when it already has no
      long arc. */
  lemma {:induction false} ShortestArcFixedPoints(ks: seq<Keyframe>)
    ensures ShortestArc(ks) == ks <==> NoLongArcs(ks)
  {
    ShortestArcHasNoLongArcs(ks);
    if NoLongArcs(ks) {
      NoLongArcsUnchanged(ks);
    }
  }

  /** Running the correction twice is the same as running it once. */
  lemma {:induction false} ShortestArcIdempotent(ks: seq<Keyframe>)
    ensures ShortestArc(ShortestArc(ks)) == ShortestArc(ks)
  {
    ShortestArcHasNoLongArcs(ks);
    ShortestArcFixedPoints(ShortestArc(ks));
  }

  // ---------------------------------------------------------------------
  // Time query

  /** One level's transform at `time`: a level with a single control point is
      read directly; any other is evaluated on its spline. */
  function LevelTransform(c: Collaborators, s: Spline, time: real): Transform
  {
    if |s.controlPoints| == 1 then c.poseTransform(s.controlPoints[0])
    else c.poseTransform(c.point(s, time))
  }

  /** Left-multiplies the level transforms, leaf first, onto `seed`:
      T_{n-1} * ... * T_1 * T_0 * seed. */
  function Accumulate(c: Collaborators, levels: seq<Spline>, time: real, seed: Transform): Transform
    decreases |levels|
  {
    if |levels| == 0 then seed
    else c.mul(LevelTransform(c, levels[|levels| - 1], time), Accumulate(c, levels[..|levels| - 1], time, seed))
  }

  /** The composite transform of the whole chain at `time`. */
  function Evaluate(c: Collaborators, at: AnimatedTransform, time: real): Transform
  {
    Accumulate(c, at.levels, time, c.identity)
  }

  /** The time query: starts from the identity and left-multiplies each
      level's transform, leaf first. */
  method TransformAt(at: AnimatedTransform, c: Collaborators, time: real) returns (t: Transform)
    ensures t == Evaluate(c, at, time)
    ensures |at.levels| == 0 ==> t == c.identity
  {
    t := c.identity;
    for i := 0 to |at.levels|
      invariant t == Accumulate(c, at.levels[..i], time, c.identity)
    {
      assert at.levels[..i + 1][..i] == at.levels[..i];
      t := c.mul(LevelTransform(c, at.levels[i], time), t);
    }
    assert at.levels[..|at.levels|] == at.levels;
  }

  /** Fold order: accumulating a concatenation is accumulating the second
      part onto the result of the first. */
  lemma {:induction false} AccumulateAppend(c: Collaborators, a: seq<Spline>, b: seq<Spline>, time: real, seed: Transform)
    ensures Accumulate(c, a + b, time, seed) == Accumulate(c, b, time, Accumulate(c, a, time, seed))
    decreases |b|
  {
    if |b| == 0 {
      assert a + b == a;
    } else {
      var init := b[..|b| - 1];
      assert (a + b)[..|a + b| - 1] == a + init;
      AccumulateAppend(c, a, init, time, seed);
    }
  }

  /** When the product is associative with a left identity, accumulating onto
      a seed is multiplying the chain's own product onto it. */
  lemma {:induction false} AccumulateOntoSeed(c: Collaborators, levels: seq<Spline>, time: real, seed: Transform)
    requires IsMonoid(c)
    ensures Accumulate(c, levels, time, seed) == c.mul(Accumulate(c, levels, time, c.identity), seed)
    decreases |levels|
  {
    if |levels| > 0 {
      AccumulateOntoSeed(c, levels[..|levels| - 1], time, seed);
    }
  }

  /** A chain whose every level has one control point gives the same
      transform at every time. */
  lemma {:induction false} StaticChainIgnoresTime(c: Collaborators, levels: seq<Spline>, t1: real, t2: real, seed: Transform)
    requires forall i :: 0 <= i < |levels| ==> |levels[i].controlPoints| == 1
    ensures Accumulate(c, levels, t1, seed) == Accumulate(c, levels, t2, seed)
    decreases |levels|
  {
    if |levels| > 0 {
      StaticChainIgnoresTime(c, levels[..|levels| - 1], t1, t2, seed);
    }
  }

  /** A level built from one keyframe yields that keyframe's pose at every
      time, when the identity is a right unit of the product. */
  lemma SingleKeyframePose(c: Collaborators, k: Keyframe, knots: seq<real>, time: real)
    requires forall x :: c.mul(x, c.identity) == x
    ensures Evaluate(c, AnimatedTransform([Spline(1, [k], knots)]), time) == c.poseTransform(k)
  {
    var levels := [Spline(1, [k], knots)];
    assert levels[..0] == [];
    assert Accumulate(c, levels[..0], time, c.identity) == c.identity;
    assert LevelTransform(c, levels[0], time) == c.poseTransform(k);
    assert Evaluate(c, AnimatedTransform(levels), time) == c.mul(c.poseTransform(k), c.identity);
  }

  // ---------------------------------------------------------------------
  // Animated-state predicate

  /** The fold `acc && every level has more than one control point`. */
  function AllSeveralPoints(levels: seq<Spline>, acc: bool): (r: bool)
    ensures r <==> acc && forall i :: 0 <= i < |levels| ==> |levels[i].controlPoints| > 1
    decreases |levels|
  {
    if |levels| == 0 then acc
    else AllSeveralPoints(levels[1..], acc && |levels[0].controlPoints| > 1)
  }

  /** True exactly when every level has more than one control point, and so
      also when there are no levels at all. */
  function IsAnimated(at: AnimatedTransform): (r: bool)
    ensures r <==> forall i :: 0 <= i < |at.levels| ==> |at.levels[i].controlPoints| > 1
    ensures |at.levels| == 0 ==> r
  {
    |at.levels| == 0 || AllSeveralPoints(at.levels, true)
  }

  // ---------------------------------------------------------------------
  // Bounds by sampling

  /** The number of time samples the bounds of an animated box are taken at. */
  const SampleCount: nat := 128

  /** The time of sample `i`: the fraction i/127 of the way from `start` to `end`. */
  function SampleTime(i: nat, start: real, end: real): real
    requires i < SampleCount
  {
    Lerp(i as real / 127.0, start, end)
  }

  /** The box transformed at the time of sample `i`. */
  function SampleBox(c: Collaborators, at: AnimatedTransform, b: BBox, start: real, end: real, i: nat): BBox
    requires i < SampleCount
  {
    c.transformBox(Evaluate(c, at, SampleTime(i, start, end)), b)
  }

  /** The union, folded left from the empty box, of the first `n` sample boxes. */
  function SweptUnion(c: Collaborators, at: AnimatedTransform, b: BBox, start: real, end: real, n: nat): BBox
    requires n <= SampleCount
  {
    if n == 0 then c.emptyBox
    else c.union(SweptUnion(c, at, b, start, end, n - 1), SampleBox(c, at, b, start, end, n - 1))
  }

  /** The bounds of `b` moving under the animation over [start, end]: the box
      transformed once at `start` when the chain is not animated, otherwise the
      union of the box transformed at 128 evenly spaced times. */
  method AnimationBounds(at: AnimatedTransform, c: Collaborators, b: BBox, start: real, end: real) returns (r: BBox)
    ensures !IsAnimated(at) ==> r == c.transformBox(Evaluate(c, at, start), b)
    ensures IsAnimated(at) ==> r == SweptUnion(c, at, b, start, end, SampleCount)
  {
    if !IsAnimated(at) {
      var t := TransformAt(at, c, start);
      r := c.transformBox(t, b);
    } else {
      var ret := c.emptyBox;
      for i := 0 to SampleCount
        invariant ret == SweptUnion(c, at, b, start, end, i)
      {
        var time := Lerp(i as real / 127.0, start, end);
        var t := TransformAt(at, c, time);
        ret := c.union(ret, c.transformBox(t, b));
      }
      r := ret;
    }
  }

  /** The sample schedule: sample 0 is at `start`, sample 127 at `end`, and
      for start <= end the samples lie in [start, end] in time order. */
  lemma SampleSchedule(i: nat, j: nat, start: real, end: real)
    requires i <= j < SampleCount
    ensures SampleTime(0, start, end) == start
    ensures SampleTime(SampleCount - 1, start, end) == end
    ensures start <= end ==>
      start <= SampleTime(i, start, end) <= SampleTime(j, start, end) <= end
  {
    assert 0 as real / 127.0 == 0.0;
    assert 127 as real / 127.0 == 1.0;
    if start <= end {
      assert 0.0 <= i as real / 127.0 <= j as real / 127.0 <= 1.0;
      LerpMonotone(i as real / 127.0, j as real / 127.0, start, end);
    }
  }

  /** `contains(x, y)`: box x holds box y. The union holds both its arguments,
      and holding is transitive. */
  ghost predicate UnionBounds(c: Collaborators, contains: (BBox, BBox) -> bool)
  {
    && (forall x, y :: contains(c.union(x, y), x) && contains(c.union(x, y), y))
    && (forall x, y, z :: contains(x, y) && contains(y, z) ==> contains(x, z))
  }

  /** The folded union holds every sample box folded into it. */
  lemma {:induction false} SweptUnionHoldsSamples(c: Collaborators, at: AnimatedTransform, b: BBox, start: real, end: real,
                                                  n: nat, contains: (BBox, BBox) -> bool)
    requires n <= SampleCount && UnionBounds(c, contains)
    ensures forall i :: 0 <= i < n ==> contains(SweptUnion(c, at, b, start, end, n), SampleBox(c, at, b, start, end, i))
  {
    if n > 0 {
      SweptUnionHoldsSamples(c, at, b, start, end, n - 1, contains);
      var prev := SweptUnion(c, at, b, start, end, n - 1);
      var last := SampleBox(c, at, b, start, end, n - 1);
      assert contains(c.union(prev, last), prev);
    }
  }

  /** For an animated chain the bounds hold the box transformed at `start`,
      at `end` and at every sample time in between. */
  lemma AnimatedBoundsHoldEndpoints(c: Collaborators, at: AnimatedTransform, b: BBox, start: real, end: real,
                                    contains: (BBox, BBox) -> bool)
    requires IsAnimated(at) && UnionBounds(c, contains)
    ensures forall i :: 0 <= i < SampleCount ==>
      contains(SweptUnion(c, at, b, start, end, SampleCount), SampleBox(c, at, b, start, end, i))
    ensures contains(SweptUnion(c, at, b, start, end, SampleCount), c.transformBox(Evaluate(c, at, start), b))
    ensures contains(SweptUnion(c, at, b, start, end, SampleCount), c.transformBox(Evaluate(c, at, end), b))
  {
    SweptUnionHoldsSamples(c, at, b, start, end, SampleCount, contains);
    SampleSchedule(0, 0, start, end);
    assert SampleBox(c, at, b, start, end, 0) == c.transformBox(Evaluate(c, at, start), b);
    assert SampleBox(c, at, b, start, end, SampleCount - 1) == c.transformBox(Evaluate(c, at, end), b);
  }

  // ---------------------------------------------------------------------
  // Composition

  /** `lhs * rhs`: appends `lhs`'s levels after `rhs`'s, so `rhs` is the inner
      chain, applied first. */
  method Mul(lhs: AnimatedTransform, rhs: AnimatedTransform) returns (r: AnimatedTransform)
    ensures r.levels == rhs.levels + lhs.levels
  {
    r := rhs;
    for i := 0 to |lhs.levels|
      invariant r.levels == rhs.levels + lhs.levels[..i]
    {
      assert lhs.levels[..i + 1] == lhs.levels[..i] + [lhs.levels[i]];
      r := r.(levels := r.levels + [lhs.levels[i]]);
    }
    assert lhs.levels[..|lhs.levels|] == lhs.levels;
  }

  /** Querying a composition at a time applies the inner chain's transform and
      then the outer chain's, when the product is associative with identity. */
  lemma MulEvaluates(c: Collaborators, lhs: AnimatedTransform, rhs: AnimatedTransform, time: real)
    requires IsMonoid(c)
    ensures Evaluate(c, AnimatedTransform(rhs.levels + lhs.levels), time)
         == c.mul(Evaluate(c, lhs, time), Evaluate(c, rhs, time))
  {
    AccumulateAppend(c, rhs.levels, lhs.levels, time, c.identity);
    AccumulateOntoSeed(c, lhs.levels, time, Evaluate(c, rhs, time));
  }

  /** A composition is animated exactly when both operands are. */
  lemma MulIsAnimated(lhs: AnimatedTransform, rhs: AnimatedTransform)
    ensures IsAnimated(AnimatedTransform(rhs.levels + lhs.levels)) <==> IsAnimated(lhs) && IsAnimated(rhs)
  {
    var both := rhs.levels + lhs.levels;
    assert forall i :: 0 <= i < |lhs.levels| ==> both[|rhs.levels| + i] == lhs.levels[i];
    assert forall i :: 0 <= i < |rhs.levels| ==> both[i] == rhs.levels[i];
    if IsAnimated(lhs) && IsAnimated(rhs) {
      forall i | 0 <= i < |both|
        ensures |both[i].controlPoints| > 1
      {
        if i >= |rhs.levels| {
          assert both[i] == lhs.levels[i - |rhs.levels|];
        }
      }
    }
  }
}
