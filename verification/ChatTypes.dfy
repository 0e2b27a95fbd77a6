/** Records shared by the chat modules. */
module ChatTypes {
  import Utf8

  datatype Option<+T> = None | Some(value: T)

  /** Decoded text, one element per Unicode scalar value. */
  type Text = seq<Utf8.Scalar>

  /** One entry of the client table. A free slot is an inactive one. */
  datatype Slot = Slot(
    fd: int,
    active: bool,
    closing: bool,
    joined: bool,
    isAlive: bool,
    timeOffsetValid: bool,
    timeOffset: int,
    registeredAt: int,
    lastPing: int,
    userId: Text,
    name: Text)
}
