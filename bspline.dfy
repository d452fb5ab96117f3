/** The B-spline a hierarchy level is stored as. Only its data is modelled:
    evaluation at a time is a collaborator of the animation core. */
module BSplines {
  import opened Keyframes

  /** A B-spline over keyframes: its degree, control points and knot vector. */
  datatype Spline = Spline(degree: nat, controlPoints: seq<Keyframe>, knots: seq<real>)
}
