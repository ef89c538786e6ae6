/**
 * The error descriptor that the networking layer passes around: a code and a
 * human-readable message. HTTP-TS playback reports every terminal outcome,
 * successful or not, as one of these values.
 */
module SockErrors {

  /** The error codes of the socket layer. Only ErrSuccess and ErrOther are produced by the player. */
  datatype ErrCode = ErrSuccess | ErrEof | ErrTimeout | ErrRefused | ErrDns | ErrShutdown | ErrOther

  datatype SockException = SockException(code: ErrCode, what: string)

}
