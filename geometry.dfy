/**
 * The values the vision code reads from OpenCV: pixel points, upright
 * bounding boxes, fitted rotated rectangles and enclosing circles.
 * Coordinates, angles and radii are reals; the source's `double` and
 * `float` rounding is not modelled.
 */
module Geometry {

  /** A pixel-space coordinate (OpenCV `Point`). */
  datatype Point = Point(x: real, y: real)

  /** A side length of an upright bounding box: OpenCV's
      `RotatedRect.boundingRect` rounds the corners outwards and adds one,
      so a width or height is never below one pixel. */
  type Extent = n: int | n >= 1 witness 1

  /** The integer upright box enclosing a rotated rectangle (OpenCV `Rect`). */
  datatype Rect = Rect(x: int, y: int, width: Extent, height: Extent)

  /** What `Imgproc.minAreaRect` computes for one contour: the centre and
      the rotation angle in degrees, together with the upright box that
      `boundingRect()` derives from them (taken as given). */
  datatype Shape = Shape(center: Point, angle: real, bounds: Rect)

  /** A fitted rectangle as the source holds it in its list. Each call of
      `minAreaRect` allocates a new object; `id`, the position of the
      contour it was fitted from, stands for that object's identity, so
      two boxes are the same object exactly when they are equal values. */
  datatype RotatedRect = RotatedRect(id: nat, shape: Shape)

  /** What `Imgproc.minEnclosingCircle` computes for one contour. */
  datatype Circle = Circle(center: Point, radius: real)

  /** A possibly-absent value, for fields the source leaves `null`. */
  datatype Option<T> = None | Some(value: T)
}
