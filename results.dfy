/** Option and Result values, and the exceptions the modelled code raises. */
module Results {

  datatype Option<+T> = None | Some(value: T)

  /** The outcome of a call that either returns a value or raises. */
  datatype Result<+T> = Success(value: T) | Failure(error: Error)

  /** The exception classes that cross the boundaries of the modelled code. */
  datatype Error =
    | EncryptionConfigError   // bad KDF configuration or short runtime key
    | DecryptionError         // every failure inside TenantEncryptionService.decrypt
    | LibraryError            // an exception raised by a cryptographic library call
    | RuntimeError            // an encrypted attribute used with no encryption service bound
    | ValueError              // a validator or setter refusing its value
    | UsageError(matches: seq<string>)  // click's ctx.fail listing ambiguous command names
}
