/** The input both decoders read from a camera frame in which a face was found. */
module Frames {
  /** The frame's timestamp in milliseconds and whether the eyes count as closed in it. */
  datatype Sample = Sample(now: int, closed: bool)
}
