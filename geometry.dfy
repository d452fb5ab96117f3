/** Axis-aligned bounding boxes. Their construction, transformation and union
    are not part of this model, so the type is left abstract. */
module Geometry {
  type BBox(!new)
}
