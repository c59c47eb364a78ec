/**
 * warp's Rejection, reduced to what the rejection handler asks of it: is it
 * the not-found rejection, and if not, which cause does it carry.
 */
module Rejections {
  import opened Auth

  /** The guard's AuthenticationError variants that the rejection handler matches. */
  datatype GuardError = InternalError | NoSessionIdHeader | InvalidSessionId

  /**
   * The cause a custom rejection carries. The handler looks for an IDPError,
   * including a CryptoError variant, and for the guard's errors; the
   * CryptoError variant and the guard's error type are not part of this
   * model, so each carries the text its Display implementation produces.
   */
  datatype Cause =
    | Idp(error: IdpError)
    | IdpCryptoError(display: string)
    | Guard(guardError: GuardError, display: string)
    | Unrecognised

  /** `reject::not_found()`, or a rejection that carries a cause. */
  datatype Rejection = NotFound | Custom(cause: Cause)
}
