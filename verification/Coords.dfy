/** Sizes and points (app/src/coords.h). */
module Coords {
  import opened Binary

  datatype Size = Size(width: U16, height: U16)

  /** The coordinates may be outside the frame. */
  datatype Point = Point(x: int, y: int)
}
