/** Identifiers and the failure-compatible wrappers shared by the relay's modules. */
module Common {

  /** A participant's user id, as carried in the verified token's payload. */
  type UserId = string

  /** A call session's id, as sent in the handshake query. */
  type SessionId = string

  /** Stands for one live socket.io socket (the value stored in a room). */
  type SocketId = nat

  datatype Option<+T> = None | Some(value: T)

  datatype Result<+T, +E> = Success(value: T) | Failure(error: E)
}
