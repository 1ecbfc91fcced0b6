/** The external collaborators of the cache: the errors they report, the
    connection handles they hand out, and the answers the network gives to
    each store call. */
module Wire {

  datatype Option<T> = None | Some(value: T)

  /** An error value passed through unchanged from the library that raised it. */
  datatype Error = Error(message: string)

  datatype Result<T> = Ok(value: T) | Err(error: Error)

  /** A connection to the key-value server. */
  datatype Handle = Handle(id: nat)

  /** One call made on a connection: the answer to it is chosen by the network. */
  datatype Call = ExistsCall(key: string) | GetCall(key: string) | SetCall(key: string)

  /** How the world answers during one operation of the manager:
      `probe` is what Ping on the cached connection returns,
      `dial` is what opening a new connection returns, and
      `fault(c)` is the error call `c` fails with, or None when it succeeds. */
  datatype Network = Network(probe: Option<Error>, dial: Result<Handle>, fault: Call -> Option<Error>)
}
