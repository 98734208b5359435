/** What the pool sees of the MongoDB driver: opaque sessions, errors, and connection settings. */
module Driver {

  /** An opaque driver session, the `*mongo.Client` a pool client embeds. */
  datatype Conn = Conn(id: nat)

  /** Driver errors. Only a duplicate-key failure is told apart, because counter seeding treats it as success. */
  datatype Error = DuplicateKeyError | DriverError(message: string)

  /** Go's `error` return: `None` is `nil`. */
  datatype Option<+T> = None | Some(value: T)

  /** The outcome of one driver call that yields a value or fails. */
  datatype Result<+T> = Ok(value: T) | Err(error: Error)

  /** The connection settings kept for the initial fill and for reconnects: target URI and the two timeouts. */
  datatype ClientOptions = ClientOptions(uri: string, connectTimeoutMs: nat, timeoutMs: nat)
}
