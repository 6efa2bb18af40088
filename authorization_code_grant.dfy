/**
 * The `authorization_code` grant of the token endpoint (RFC 6749 section
 * 4.1.3): the redirect-URI rule, then a single-use lookup of the code,
 * which is deleted when it is redeemed.
 */
module AuthorizationCodeGrant {
  import opened Php
  import opened Protocol
  import opened Model
  import opened RedirectUris

  const GrantType := "authorization_code"

  /** The redirect-URI rule of the token endpoint: a missing URI or a bad
      format is `InvalidRequest`, a mismatch is `InvalidGrant`. */
  function CheckRedirectUri(v: Validator, clients: map<string, Client>, supplied: Option<string>, clientId: string)
    : (r: Result<string>)
    ensures !v.redirectUri(supplied) ==> r == Err(Described(InvalidRequest, DescInvalidValue))
    ensures v.redirectUri(supplied) && !Truthy(StoredRedirectUri(clients, clientId)) && !Truthy(supplied) ==>
              r == Err(Described(InvalidRequest, DescMissing))
    ensures v.redirectUri(supplied) && Truthy(StoredRedirectUri(clients, clientId)) && Truthy(supplied) ==>
              (r.Ok? <==> HasPrefixIgnoringCase(StoredRedirectUri(clients, clientId).value, supplied.value))
    ensures r.Ok? <==> v.redirectUri(supplied) && ResolveRedirectUri(StoredRedirectUri(clients, clientId), supplied).Resolved?
    ensures v.redirectUri(supplied) && ResolveRedirectUri(StoredRedirectUri(clients, clientId), supplied) == Mismatch ==>
              r == Err(Described(InvalidGrant, DescRedirectMismatch))
    ensures r.Err? && r.error.kind != InvalidGrant ==> r.error.kind == InvalidRequest
    ensures r.Err? && r.error.kind == InvalidGrant ==> r.error == Described(InvalidGrant, DescRedirectMismatch)
    ensures r.Ok? ==> r.value == ResolveRedirectUri(StoredRedirectUri(clients, clientId), supplied).uri
  {
    if !v.redirectUri(supplied) then Err(Described(InvalidRequest, DescInvalidValue))
    else match ResolveRedirectUri(StoredRedirectUri(clients, clientId), supplied)
      case Missing => Err(Described(InvalidRequest, DescMissing))
      case Mismatch => Err(Described(InvalidGrant, DescRedirectMismatch))
      case Resolved(uri) => Ok(uri)
  }

  /** `checkCode` up to the deletion: the code record to redeem. */
  function CodeOutcome(v: Validator, codes: map<string, Code>, code: Option<string>, clientId: string, now: int)
    : (r: Result<Code>)
    ensures !(NotBlank(code) && v.code(code)) ==> r == Err(Described(InvalidRequest, DescInvalidValue))
    ensures NotBlank(code) && v.code(code) && (code.value !in codes || codes[code.value].clientId != clientId) ==>
              r == Err(Described(InvalidGrant, DescCodeInvalid))
    ensures NotBlank(code) && v.code(code) && code.value in codes && codes[code.value].clientId == clientId
            && codes[code.value].expires < now ==>
              r == Err(Described(InvalidGrant, DescCodeExpired))
    ensures r.Ok? <==> (NotBlank(code) && v.code(code) && code.value in codes
                        && codes[code.value].clientId == clientId && now <= codes[code.value].expires)
    ensures r.Ok? ==> r.value == codes[code.value]
  {
    if !(NotBlank(code) && v.code(code)) then Err(Described(InvalidRequest, DescInvalidValue))
    else if code.value !in codes || codes[code.value].clientId != clientId then Err(Described(InvalidGrant, DescCodeInvalid))
    else if codes[code.value].expires < now then Err(Described(InvalidGrant, DescCodeExpired))
    else Ok(codes[code.value])
  }

  /** `checkCode`: on success the code is deleted and its username and scope returned. */
  method CheckCode(store: Store, v: Validator, code: Option<string>, clientId: string, now: int)
    returns (r: Result<(string, seq<string>)>)
    modifies store`codes
    ensures var spec := CodeOutcome(v, old(store.codes), code, clientId, now);
            && r == (if spec.Ok? then Ok((spec.value.username, spec.value.scope)) else Err(spec.error))
            && store.codes == (if spec.Ok? then old(store.codes) - {code.value} else old(store.codes))
  {
    if !(NotBlank(code) && v.code(code)) {
      return Err(Described(InvalidRequest, DescInvalidValue));
    }
    if code.value !in store.codes || store.codes[code.value].clientId != clientId {
      return Err(Described(InvalidGrant, DescCodeInvalid));
    } else if store.codes[code.value].expires < now {
      return Err(Described(InvalidGrant, DescCodeExpired));
    }
    var result := store.codes[code.value];
    store.codes := store.codes - {code.value};
    r := Ok((result.username, result.scope));
  }

  /** The grant over a store snapshot: the response and the code store after
      it. `clientCheck` is the outcome of the inherited client check. */
  function Redemption(
    v: Validator, clients: map<string, Client>, codes: map<string, Code>,
    clientCheck: Result<string>, req: TokenRequest, now: int, issue: Issuer)
    : (t: Transition<map<string, Code>>)
    ensures t.response.Err? ==> t.after == codes
    ensures clientCheck.Err? ==> t == Transition(Err(clientCheck.error), codes)
    ensures clientCheck.Ok? && CheckRedirectUri(v, clients, req.redirectUri, clientCheck.value).Err? ==>
              t.response == Err(CheckRedirectUri(v, clients, req.redirectUri, clientCheck.value).error)
    ensures clientCheck.Ok? && CheckRedirectUri(v, clients, req.redirectUri, clientCheck.value).Ok?
            && CodeOutcome(v, codes, req.code, clientCheck.value, now).Err? ==>
              t.response == Err(CodeOutcome(v, codes, req.code, clientCheck.value, now).error)
    ensures t.response.Ok? <==> clientCheck.Ok? && CheckRedirectUri(v, clients, req.redirectUri, clientCheck.value).Ok?
                                && CodeOutcome(v, codes, req.code, clientCheck.value, now).Ok?
    ensures t.response.Ok? ==>
              && clientCheck.Ok?
              && req.code.Some? && req.code.value in codes
              && codes[req.code.value].clientId == clientCheck.value
              && now <= codes[req.code.value].expires
              && t.after == codes - {req.code.value}
              && t.response.value == Json(200, issue(clientCheck.value, codes[req.code.value].username,
                                                     Some(codes[req.code.value].scope)), NoCacheHeaders)
  {
    match clientCheck
    case Err(e) => Transition(Err(e), codes)
    case Ok(clientId) =>
      match CheckRedirectUri(v, clients, req.redirectUri, clientId)
      case Err(e) => Transition(Err(e), codes)
      case Ok(_) =>
        match CodeOutcome(v, codes, req.code, clientId, now)
        case Err(e) => Transition(Err(e), codes)
        case Ok(c) =>
          Transition(Ok(Json(200, issue(clientId, c.username, Some(c.scope)), NoCacheHeaders)),
                     codes - {req.code.value})
  }

  /** A redeemed code cannot be redeemed again: any later request presenting
      it fails, and the same request fails with `InvalidGrant` "invalid". */
  lemma CodeIsSingleUse(
    v: Validator, clients: map<string, Client>, codes: map<string, Code>,
    clientCheck: Result<string>, req: TokenRequest, now: int, issue: Issuer,
    clientCheck': Result<string>, req': TokenRequest, now': int, issue': Issuer)
    requires Redemption(v, clients, codes, clientCheck, req, now, issue).response.Ok?
    requires req'.code == req.code
    ensures var after := Redemption(v, clients, codes, clientCheck, req, now, issue).after;
            && Redemption(v, clients, after, clientCheck', req', now', issue').response.Err?
            && Redemption(v, clients, after, clientCheck, req, now', issue').response
               == Err(Described(InvalidGrant, DescCodeInvalid))
  {
  }

  /** A code is valid up to and including its expiry instant, and rejected
      as expired, and kept, from the next instant on. */
  lemma CodeExpiry(
    v: Validator, clients: map<string, Client>, codes: map<string, Code>,
    clientId: string, req: TokenRequest, now: int, issue: Issuer)
    requires CheckRedirectUri(v, clients, req.redirectUri, clientId).Ok?
    requires NotBlank(req.code) && v.code(req.code) && req.code.value in codes
    requires codes[req.code.value].clientId == clientId
    ensures var t := Redemption(v, clients, codes, Ok(clientId), req, now, issue);
            && (codes[req.code.value].expires < now ==>
                  t == Transition(Err(Described(InvalidGrant, DescCodeExpired)), codes))
            && (codes[req.code.value].expires >= now ==> t.response.Ok? && req.code.value !in t.after)
  {
  }

  /** The redirect check runs before the code is read, so its failure
      leaves the code store as it was. */
  lemma RedirectFailureKeepsCode(
    v: Validator, clients: map<string, Client>, codes: map<string, Code>,
    clientId: string, req: TokenRequest, now: int, issue: Issuer)
    requires CheckRedirectUri(v, clients, req.redirectUri, clientId).Err?
    ensures Redemption(v, clients, codes, Ok(clientId), req, now, issue)
            == Transition(Err(CheckRedirectUri(v, clients, req.redirectUri, clientId).error), codes)
  {
  }

  /** The redirect URI presented at redemption is checked against the
      client's registered URI only: the URI a code was issued for has no
      influence on the outcome of redeeming it. */
  lemma RedemptionIgnoresIssuedRedirectUri(
    v: Validator, clients: map<string, Client>, codes: map<string, Code>,
    clientCheck: Result<string>, req: TokenRequest, now: int, issue: Issuer, c: string, other: string)
    requires c in codes
    ensures Redemption(v, clients, codes[c := codes[c].(redirectUri := other)], clientCheck, req, now, issue).response
            == Redemption(v, clients, codes, clientCheck, req, now, issue).response
  {
  }

  /** The `authorization_code` grant handler. */
  method Handle(
    store: Store, v: Validator, clientCheck: Result<string>, req: TokenRequest, now: int, issue: Issuer)
    returns (r: Result<Response>)
    requires store.Valid()
    modifies store`codes
    ensures store.Valid()
    ensures var spec := Redemption(v, store.clients, old(store.codes), clientCheck, req, now, issue);
            r == spec.response && store.codes == spec.after
  {
    var clientId :- clientCheck;
    var redirectUri :- CheckRedirectUri(v, store.clients, req.redirectUri, clientId);
    var grant :- CheckCode(store, v, req.code, clientId, now);
    var (username, scope) := grant;
    r := Ok(Json(200, issue(clientId, username, Some(scope)), NoCacheHeaders));
  }
}
