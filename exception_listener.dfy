/**
 * The kernel exception listener that turns a raised OAuth2 exception into
 * the HTTP response RFC 6749 prescribes: a redirect back to the client
 * (section 4.1.2.1) when the error names a redirect URI, and a JSON error
 * body (section 5.2) otherwise.
 */
module EventDispatcher {
  import opened Php
  import opened Protocol
  import AbstractResponseType

  /** A link of an exception chain: an OAuth2 exception, with its decoded
      message array and its code, or any other throwable. */
  datatype Throwable = OAuthException(message: PhpArray, code: int) | OtherThrowable

  /** `handleException`: redirect to the message's `redirect_uri` with the
      rest of the message as query, or answer with the whole message as JSON
      under the exception's code. */
  function HandleException(message: PhpArray, code: int): (r: Response)
    ensures r.Redirect? <==> Get(message, "redirect_uri").Some?
    ensures r.Redirect? ==>
              && r.uri == Get(message, "redirect_uri").value
              && Get(r.query, "redirect_uri").None?
              && (forall k :: k != "redirect_uri" ==> Get(r.query, k) == Get(message, k))
              && (forall e :: e in r.query <==> e in message && e.0 != "redirect_uri")
    ensures r.Json? ==> r.body == message && r.status == code && r.headers == NoCacheHeaders
  {
    match Get(message, "redirect_uri")
    case Some(uri) => Redirect(uri, Unset(message, "redirect_uri"))
    case None => Json(code, message, NoCacheHeaders)
  }

  /** The position of the first OAuth2 exception along the chain. */
  function FirstOAuth(chain: seq<Throwable>): (r: Option<nat>)
    ensures r.Some? ==> r.value < |chain| && chain[r.value].OAuthException?
    ensures r.Some? ==> forall k :: 0 <= k < r.value ==> chain[k].OtherThrowable?
    ensures r.None? <==> forall k :: 0 <= k < |chain| ==> chain[k].OtherThrowable?
  {
    if chain == [] then None
    else if chain[0].OAuthException? then Some(0)
    else match FirstOAuth(chain[1..])
      case None => None
      case Some(i) => Some(i + 1)
  }

  /** The event: the chain from the thrown exception down through
      `getPrevious`, and the response set on it, if any. */
  class ExceptionEvent {
    const chain: seq<Throwable>
    var response: Option<Response>

    constructor (chain: seq<Throwable>)
      ensures this.chain == chain && response.None?
    {
      this.chain := chain;
      response := None;
    }
  }

  /** `onKernelException`: walk the chain and let the first OAuth2 exception
      decide the response; leave the event alone when there is none. */
  method OnKernelException(event: ExceptionEvent)
    modifies event`response
    ensures FirstOAuth(event.chain).None? ==> event.response == old(event.response)
    ensures FirstOAuth(event.chain).Some? ==>
              var e := event.chain[FirstOAuth(event.chain).value];
              event.response == Some(HandleException(e.message, e.code))
  {
    var i := 0;
    while i < |event.chain|
      invariant 0 <= i <= |event.chain|
      invariant forall k :: 0 <= k < i ==> event.chain[k].OtherThrowable?
      invariant event.response == old(event.response)
    {
      var exception := event.chain[i];
      if exception.OAuthException? {
        event.response := Some(HandleException(exception.message, exception.code));
        return;
      }
      i := i + 1;
    }
  }

  /** A scope error of the authorize endpoint goes back to the client's
      redirect URI, with the state and the description as query. */
  lemma ScopeErrorRedirects(kind: ErrorKind, redirectUri: string, state: string, description: string, code: int)
    ensures HandleException(AbstractResponseType.ScopeError(kind, redirectUri, state, description).payload, code)
            == Redirect(redirectUri, [("state", state), ("error_description", description)])
  {
    var rest: PhpArray := [("state", state), ("error_description", description)];
    assert "state"[0] != "redirect_uri"[0] && "error_description"[0] != "redirect_uri"[0];
    assert Unset(rest[1..], "redirect_uri") == rest[1..];
    assert Unset(rest, "redirect_uri") == rest;
  }

  /** An error with only a description is answered as JSON, uncached. */
  lemma DescribedErrorIsJson(kind: ErrorKind, description: string, code: int)
    ensures HandleException(Described(kind, description).payload, code)
            == Json(code, [("error_description", description)], NoCacheHeaders)
  {
  }
}
