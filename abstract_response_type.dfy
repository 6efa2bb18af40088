/**
 * The checks of the authorize endpoint, each a decision over one request
 * parameter and a snapshot of the store: the session's username, the
 * client id, the redirect URI, the state and the requested scope.
 */
module AbstractResponseType {
  import opened Php
  import opened Protocol
  import opened Model
  import opened Scopes
  import opened RedirectUris

  /** The username of the session token; a falsy one is a server error. */
  function CheckUsername(sessionUsername: Option<string>): (r: Result<string>)
    ensures r.Ok? <==> Truthy(sessionUsername)
    ensures r.Ok? ==> r.value == sessionUsername.value
    ensures r.Err? ==> r.error == Described(ServerError, DescServerError)
  {
    if !Truthy(sessionUsername) then Err(Described(ServerError, DescServerError))
    else Ok(sessionUsername.value)
  }

  /** `client_id` must be non-blank, well formed and registered. */
  function CheckClientId(v: Validator, clients: map<string, Client>, clientId: Option<string>): (r: Result<string>)
    ensures !(NotBlank(clientId) && v.clientId(clientId)) ==> r == Err(Described(InvalidRequest, DescInvalidValue))
    ensures NotBlank(clientId) && v.clientId(clientId) && clientId.value !in clients ==>
              r == Err(Described(UnauthorizedClient, DescUnauthorizedClient))
    ensures r.Ok? <==> NotBlank(clientId) && v.clientId(clientId) && clientId.value in clients
    ensures r.Ok? ==> r.value == clientId.value
  {
    if !(NotBlank(clientId) && v.clientId(clientId)) then Err(Described(InvalidRequest, DescInvalidValue))
    else if clientId.value !in clients then Err(Described(UnauthorizedClient, DescUnauthorizedClient))
    else Ok(clientId.value)
  }

  /** The redirect-URI rule, every failure of which is `InvalidRequest` here. */
  function CheckRedirectUri(v: Validator, clients: map<string, Client>, supplied: Option<string>, clientId: string)
    : (r: Result<string>)
    ensures r.Err? ==> r.error.kind == InvalidRequest
    ensures !v.redirectUri(supplied) ==> r == Err(Described(InvalidRequest, DescInvalidValue))
    ensures v.redirectUri(supplied) && !Truthy(StoredRedirectUri(clients, clientId)) && !Truthy(supplied) ==>
              r == Err(Described(InvalidRequest, DescMissing))
    ensures r.Ok? <==> v.redirectUri(supplied) && ResolveRedirectUri(StoredRedirectUri(clients, clientId), supplied).Resolved?
    ensures v.redirectUri(supplied) && ResolveRedirectUri(StoredRedirectUri(clients, clientId), supplied) == Mismatch ==>
              r == Err(Described(InvalidRequest, DescInvalidValueNoStop))
    ensures r.Ok? ==> r.value == ResolveRedirectUri(StoredRedirectUri(clients, clientId), supplied).uri
    ensures r.Ok? ==> Truthy(Some(r.value))
  {
    if !v.redirectUri(supplied) then Err(Described(InvalidRequest, DescInvalidValue))
    else match ResolveRedirectUri(StoredRedirectUri(clients, clientId), supplied)
      case Missing => Err(Described(InvalidRequest, DescMissing))
      case Mismatch => Err(Described(InvalidRequest, DescInvalidValueNoStop))
      case Resolved(uri) => Ok(uri)
  }

  /** `state` must be non-blank and well formed; the error carries the
      resolved redirect URI so that it can be reported by redirect. */
  function CheckState(v: Validator, state: Option<string>, redirectUri: string): (r: Result<string>)
    ensures r.Ok? <==> NotBlank(state) && v.state(state)
    ensures r.Ok? ==> r.value == state.value
    ensures r.Err? ==> r.error == OAuthError(InvalidRequest,
              [("redirect_uri", redirectUri), ("error_description", DescInvalidValueNoStop)])
  {
    if !(NotBlank(state) && v.state(state)) then
      Err(OAuthError(InvalidRequest, [("redirect_uri", redirectUri), ("error_description", DescInvalidValueNoStop)]))
    else Ok(state.value)
  }

  /** An error of the scope check, carrying the redirect URI and the state. */
  function ScopeError(kind: ErrorKind, redirectUri: string, state: string, description: string): OAuthError {
    OAuthError(kind, [("redirect_uri", redirectUri), ("state", state), ("error_description", description)])
  }

  /** `checkScope` over a store snapshot: an empty scope gives null; otherwise
      the split scope must be within the supported scopes, then within the
      authorized scopes, and the authorize record must list `grantType`. */
  function ScopeOutcome(
    v: Validator, rows: seq<ScopeRow>, authorizes: map<(string, string), Authorize>,
    scope: Option<string>, clientId: string, username: string, redirectUri: string, state: string,
    grantType: string)
    : (r: Result<Option<seq<string>>>)
    ensures !Truthy(scope) ==> r == Ok(None)
    ensures Truthy(scope) && r.Ok? ==> r.value == Some(PregSplit(scope.value))
    ensures r.Ok? && r.value.Some? ==>
              && (forall e :: e in r.value.value ==> e in ScopeNames(rows))
              && (forall e :: e in r.value.value ==> e in AuthorizedScopes(authorizes, clientId, username))
              && (clientId, username) in authorizes
              && grantType in authorizes[(clientId, username)].grantType
  {
    if !Truthy(scope) then Ok(None)
    else if !(NotBlank(scope) && v.scope(scope)) then Err(ScopeError(InvalidRequest, redirectUri, state, DescInvalidValue))
    else
      var s := PregSplit(scope.value);
      var supported := ScopeNames(rows);
      if !IntersectIsIdentity(s, supported) then Err(ScopeError(InvalidScope, redirectUri, state, DescScopeUnknown))
      else
        var authorized := AuthorizedScopes(authorizes, clientId, username);
        if !IntersectIsIdentity(s, authorized) then Err(ScopeError(InvalidScope, redirectUri, state, DescScopeInvalid))
        else
          WithinAuthorizedImpliesRecord(s, authorizes, clientId, username);
          if grantType !in authorizes[(clientId, username)].grantType then
            Err(OAuthError(InvalidGrant, [("state", state), ("error_description", DescGrantInvalid)]))
          else
            IntersectIsIdentityIff(s, supported);
            IntersectIsIdentityIff(s, authorized);
            Ok(Some(s))
  }

  /** The failures of a non-empty scope, in the order they are tested. */
  lemma ScopeOutcomeErrors(
    v: Validator, rows: seq<ScopeRow>, authorizes: map<(string, string), Authorize>,
    scope: Option<string>, clientId: string, username: string, redirectUri: string, state: string,
    grantType: string)
    requires Truthy(scope)
    ensures var r := ScopeOutcome(v, rows, authorizes, scope, clientId, username, redirectUri, state, grantType);
            var s := PregSplit(scope.value);
            && (!v.scope(scope) ==> r == Err(ScopeError(InvalidRequest, redirectUri, state, DescInvalidValue)))
            && (v.scope(scope) && (exists e :: e in s && e !in ScopeNames(rows)) ==>
                  r == Err(ScopeError(InvalidScope, redirectUri, state, DescScopeUnknown)))
            && (v.scope(scope) && (forall e :: e in s ==> e in ScopeNames(rows))
                && (exists e :: e in s && e !in AuthorizedScopes(authorizes, clientId, username)) ==>
                  r == Err(ScopeError(InvalidScope, redirectUri, state, DescScopeInvalid)))
            && (r.Err? && r.error.kind == InvalidGrant ==>
                  r.error.payload == [("state", state), ("error_description", DescGrantInvalid)])
            && (v.scope(scope) && (forall e :: e in s ==> e in ScopeNames(rows))
                && (forall e :: e in s ==> e in AuthorizedScopes(authorizes, clientId, username)) ==>
                  && (clientId, username) in authorizes
                  && (grantType in authorizes[(clientId, username)].grantType ==> r == Ok(Some(s)))
                  && (grantType !in authorizes[(clientId, username)].grantType ==>
                        r == Err(OAuthError(InvalidGrant, [("state", state), ("error_description", DescGrantInvalid)]))))
  {
    var s := PregSplit(scope.value);
    IntersectIsIdentityIff(s, ScopeNames(rows));
    IntersectIsIdentityIff(s, AuthorizedScopes(authorizes, clientId, username));
    if v.scope(scope) && IntersectIsIdentity(s, AuthorizedScopes(authorizes, clientId, username)) {
      WithinAuthorizedImpliesRecord(s, authorizes, clientId, username);
    }
  }

  /** `checkScope` as the source runs it, filling the supported scopes with a loop. */
  method CheckScope(
    store: Store, v: Validator, scope: Option<string>, clientId: string, username: string,
    redirectUri: string, state: string, grantType: string)
    returns (r: Result<Option<seq<string>>>)
    ensures r == ScopeOutcome(v, store.scopes, store.authorizes, scope, clientId, username, redirectUri, state, grantType)
  {
    if !Truthy(scope) {
      return Ok(None);
    }
    if !(NotBlank(scope) && v.scope(scope)) {
      return Err(ScopeError(InvalidRequest, redirectUri, state, DescInvalidValue));
    }
    var s := PregSplit(scope.value);
    var supported := CollectSupportedScopes(store.scopes);
    if !IntersectIsIdentity(s, supported) {
      return Err(ScopeError(InvalidScope, redirectUri, state, DescScopeUnknown));
    }
    var authorized := AuthorizedScopes(store.authorizes, clientId, username);
    if !IntersectIsIdentity(s, authorized) {
      return Err(ScopeError(InvalidScope, redirectUri, state, DescScopeInvalid));
    }
    WithinAuthorizedImpliesRecord(s, store.authorizes, clientId, username);
    if grantType !in store.authorizes[(clientId, username)].grantType {
      return Err(OAuthError(InvalidGrant, [("state", state), ("error_description", DescGrantInvalid)]));
    }
    r := Ok(Some(s));
  }
}
