/** What the relay server writes to a connection (internal/relay/client.go, control.go). */
module Frames {
  import opened Core

  /** Error codes of the control channel. */
  datatype ErrorCode = Malformed | KeyMismatch | Internal | CodeExpired | InvalidCode | AlreadyPaired

  /** A control message from the server. */
  datatype Control =
    | Welcome(device: DeviceId, peers: seq<(DeviceId, string)>)
    | PeerStatus(peer: DeviceId, online: bool)
    | PairCode(code: string)
    | PairComplete(code: string, peer: DeviceId, staticKey: string)
    | Unpaired(peer: DeviceId)
    | Error(error: ErrorCode)
    | Pong

  /** wsFrame: a text frame carrying a control message, or a binary frame carrying an opaque envelope. */
  datatype Frame = Text(msg: Control, closeAfter: bool) | Binary(payload: seq<nat>)
}
