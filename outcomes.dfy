/** Option, Result and the error values of the MiIO client.

    Go returns `(value, error)` pairs; here a failing call returns `Err(e)`
    and a Go runtime panic (a slice or index out of range, a nil receiver,
    `CryptBlocks` on a partial block) is the explicit error `Panic(kind)`.
 */
module Outcomes {

  datatype Option<+T> = None | Some(value: T)

  /** Where the Go runtime would panic instead of returning. */
  datatype PanicKind =
    | SliceBounds         // `buf[low:high]` with high < low
    | IndexOutOfRange     // `data[len(data)-1]` on an empty slice
    | InputNotFullBlocks  // `CryptBlocks` on a length that is not a multiple of 16
    | NilDereference      // a method call on a nil connection or device
    | Explicit            // `panic(err)` written in the source

  datatype Error =
    | ErrReadFromBuf        // a read past the end of a buffer (miio/utils.go)
    | ErrWrongPacket        // magic is not 0x2131
    | ErrWrongMagic         // "wrong magic": a reply header that is not 0x2131
    | ErrPadding            // PKCS padding rejected
    | ErrCryptoNotSet       // key or iv missing
    | ErrTokenNil           // NewPacket for a data packet without a token
    | ErrAlreadyConnected   // Connect on a session with an established offset
    | ErrNotStarted         // "device not started with Hello() call"
    | ErrTokenUnknown       // "token unknown for device"
    | ErrNetwork            // dial, write or read failed
    | ErrMarshal            // json.Marshal failed
    | Panic(kind: PanicKind)

  datatype Result<+T> = Ok(value: T) | Err(error: Error)
}
