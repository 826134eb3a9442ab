/**
 * Plane geometry used by tiles, chunks and the UI: the integral part of
 * pixel.Vec and pixel.Rect.
 */
module Geometry {

  /** A point or a displacement. */
  datatype Vec = Vec(x: int, y: int)

  /** pixel.R(minX, minY, maxX, maxY): the corners are stored as given, never normalised. */
  datatype Rect = Rect(min: Vec, max: Vec)

  /** pixel.ZV */
  const Zero := Vec(0, 0)

  /** pixel.R(0, 0, 0, 0), also the zero value of a Rect. */
  const ZeroRect := Rect(Zero, Zero)
}
