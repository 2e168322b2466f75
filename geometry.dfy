/** The graphics values the core stores but never computes with: a rectangle
    in pixel space (ggez's `graphics::Rect`) and a blending mode. Floating point
    coordinates are modelled as exact reals. */
module Geometry {

  datatype Rect = Rect(x: real, y: real, w: real, h: real)

  /** Only `Add` is ever chosen by the core; the other ggez modes are lumped together. */
  datatype BlendMode = Add | OtherBlendMode
}
