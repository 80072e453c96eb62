/** A value that may be absent, and an RPC that may fail. */
module Options {
  datatype Option<+T> = None | Some(value: T)

  /** The status codes the exporter tells apart. */
  datatype Code = Unimplemented | AlreadyExists | NotFound | FailedPrecondition | OtherCode

  datatype Result<+T> = Ok(value: T) | Err(code: Code)

  /** The codes by which a per-device query reports that only this device is unavailable. */
  predicate DeviceUnavailable(code: Code)
  {
    code == NotFound || code == FailedPrecondition
  }
}
