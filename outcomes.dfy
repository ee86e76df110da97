/** Small value types shared by the MIDI and RTP modules. */
module Outcomes {

  /** An octet, as Python's `bytes` holds them. */
  type byte = x: int | 0 <= x < 256

  /** Python's `None` or a value. */
  datatype Option<+T> = None | Some(value: T)

  /** What a Python call does: it returns a value, or it raises an exception. */
  datatype Outcome<+T> = Returns(value: T) | Raises
}
