/**
 * The protocol-level values every handler produces: the error taxonomy of
 * RFC 6749 sections 4.1.2.1 and 5.2, the structured payload an error
 * carries, the success-or-error result of a validation step, and the two
 * shapes of HTTP response the core can end in.
 */
module Protocol {
  import opened Php

  /** One exception class per OAuth2 error code. */
  datatype ErrorKind =
    | InvalidRequest
    | InvalidClient
    | InvalidGrant
    | InvalidScope
    | UnauthorizedClient
    | UnsupportedGrantType
    | ServerError

  /** A raised OAuth2 exception: its class and the array it was constructed
      with (`error_description`, and `redirect_uri`/`state` where the
      raising site adds them), in the order the raising site writes them. */
  datatype OAuthError = OAuthError(kind: ErrorKind, payload: PhpArray)

  /** The outcome of a validation step: its value, or the exception it throws.
      Supports `:-`, which stops the pipeline at the first exception. */
  datatype Result<+T> = Ok(value: T) | Err(error: OAuthError) {
    predicate IsFailure() {
      Err?
    }

    function PropagateFailure<U>(): Result<U>
      requires Err?
    {
      Err(error)
    }

    function Extract(): T
      requires Ok?
    {
      value
    }
  }

  /** A `RedirectResponse` to `uri` with the query parameters `query` added,
      or a `JsonResponse` with a status, a body and headers. */
  datatype Response =
    | Redirect(uri: string, query: PhpArray)
    | Json(status: int, body: PhpArray, headers: PhpArray)

  /** The headers of every token response and every JSON error body. */
  const NoCacheHeaders: PhpArray := [("Cache-Control", "no-store"), ("Pragma", "no-cache")]

  /** An error with only a description. */
  function Described(kind: ErrorKind, description: string): OAuthError {
    OAuthError(kind, [("error_description", description)])
  }

  // The fixed descriptions, exactly as the raising sites spell them
  // (two sites leave out the final full stop).
  const DescServerError := "The authorization server encountered an unexpected condition that prevented it from fulfilling the request."
  const DescInvalidValue := "The request includes an invalid parameter value."
  const DescInvalidValueNoStop := "The request includes an invalid parameter value"
  const DescMissing := "The request is missing a required parameter."
  const DescUnauthorizedClient := "The client is not authorized."
  const DescScopeUnknown := "The requested scope is unknown."
  const DescScopeInvalid := "The requested scope is invalid."
  const DescGrantInvalid := "The requested grant is invalid."
  const DescScopeExceeds := "The requested scope exceeds the scope granted by the resource owner."
  const DescCodeInvalid := "The provided authorization grant is invalid."
  const DescCodeExpired := "The provided authorization grant is expired."
  const DescRedirectMismatch := "The provided authorization grant does not match the redirection URI used in the authorization request."
  const DescRefreshOtherClient := "The provided refresh token was issued to another client."
  const DescRefreshExpired := "The provided refresh token is expired."
  const DescBadCredentials := "The provided resource owner credentials is invalid."
  const DescUnsupportedGrantType := "The authorization grant type is not supported by the authorization server."
  const DescClientAuthFailed := "Client authentication failed."
}
