/**
 * The `password` grant of the token endpoint (RFC 6749 section 4.3): the
 * username and password must be present and well formed, the credentials
 * must be accepted by the authentication provider, and only then is the
 * scope checked and a token issued. Nothing in the store changes here.
 */
module PasswordGrant {
  import opened Php
  import opened Protocol
  import opened Model

  const GrantType := "password"

  /** The authentication provider's verdict on a username and password. */
  type CredentialCheck = (string, string) -> bool

  /** The inherited `checkScope` for a client id and a username. */
  type ScopeCheck = (string, string) -> Result<Option<seq<string>>>

  /** The username is tested before the password is looked at. */
  predicate UsernameWellFormed(v: Validator, req: TokenRequest) {
    NotBlank(req.username) && v.username(req.username)
  }

  predicate PasswordWellFormed(v: Validator, req: TokenRequest) {
    NotBlank(req.password) && v.password(req.password)
  }

  /** `checkUsername`: the supplied username, once the provider accepts the
      credentials. */
  function CheckUsername(v: Validator, credentialsOk: CredentialCheck, req: TokenRequest): (r: Result<string>)
    ensures !UsernameWellFormed(v, req) ==> r == Err(Described(InvalidRequest, DescInvalidValue))
    ensures UsernameWellFormed(v, req) && !PasswordWellFormed(v, req) ==>
              r == Err(Described(InvalidRequest, DescInvalidValue))
    ensures UsernameWellFormed(v, req) && PasswordWellFormed(v, req)
            && !credentialsOk(req.username.value, req.password.value) ==>
              r == Err(Described(InvalidGrant, DescBadCredentials))
    ensures r.Ok? <==> (UsernameWellFormed(v, req) && PasswordWellFormed(v, req)
                        && credentialsOk(req.username.value, req.password.value))
    ensures r.Ok? ==> r.value == req.username.value
  {
    if !UsernameWellFormed(v, req) then Err(Described(InvalidRequest, DescInvalidValue))
    else if !PasswordWellFormed(v, req) then Err(Described(InvalidRequest, DescInvalidValue))
    else if !credentialsOk(req.username.value, req.password.value) then Err(Described(InvalidGrant, DescBadCredentials))
    else Ok(req.username.value)
  }

  /** A malformed username decides the outcome whatever the password is. */
  lemma UsernameFailureIgnoresPassword(
    v: Validator, credentialsOk: CredentialCheck, req: TokenRequest, password: Option<string>)
    requires !UsernameWellFormed(v, req)
    ensures CheckUsername(v, credentialsOk, req.(password := password)) == CheckUsername(v, credentialsOk, req)
  {
  }

  /** A rejected login gives the same error whichever field was wrong, so
      the response does not reveal whether the username exists. */
  lemma CredentialFailuresIndistinguishable(
    v: Validator, credentialsOk: CredentialCheck, req: TokenRequest, req': TokenRequest)
    requires UsernameWellFormed(v, req) && PasswordWellFormed(v, req)
    requires UsernameWellFormed(v, req') && PasswordWellFormed(v, req')
    requires !credentialsOk(req.username.value, req.password.value)
    requires !credentialsOk(req'.username.value, req'.password.value)
    ensures CheckUsername(v, credentialsOk, req) == CheckUsername(v, credentialsOk, req')
  {
  }

  /** The `password` grant handler: client check, credentials, scope, then
      the token response. */
  function Handle(
    v: Validator, clientCheck: Result<string>, credentialsOk: CredentialCheck, scopeCheck: ScopeCheck,
    issue: Issuer, req: TokenRequest)
    : (r: Result<Response>)
    ensures clientCheck.Err? ==> r == Err(clientCheck.error)
    ensures clientCheck.Ok? && CheckUsername(v, credentialsOk, req).Err? ==>
              r == Err(CheckUsername(v, credentialsOk, req).error)
    ensures clientCheck.Ok? && CheckUsername(v, credentialsOk, req).Ok?
            && scopeCheck(clientCheck.value, req.username.value).Err? ==>
              r == Err(scopeCheck(clientCheck.value, req.username.value).error)
    ensures r.Ok? ==>
              && clientCheck.Ok?
              && CheckUsername(v, credentialsOk, req) == Ok(req.username.value)
              && scopeCheck(clientCheck.value, req.username.value).Ok?
              && r.value == Json(200, issue(clientCheck.value, req.username.value,
                                            scopeCheck(clientCheck.value, req.username.value).value),
                                 NoCacheHeaders)
  {
    var clientId :- clientCheck;
    var username :- CheckUsername(v, credentialsOk, req);
    var scope :- scopeCheck(clientId, username);
    Ok(Json(200, issue(clientId, username, scope), NoCacheHeaders))
  }

  /** When the credentials fail, the scope check never runs: the outcome
      does not depend on it, nor on the issuer. */
  lemma ScopeCheckSkippedOnCredentialFailure(
    v: Validator, clientCheck: Result<string>, credentialsOk: CredentialCheck,
    scopeCheck: ScopeCheck, issue: Issuer, scopeCheck': ScopeCheck, issue': Issuer, req: TokenRequest)
    requires CheckUsername(v, credentialsOk, req).Err?
    ensures Handle(v, clientCheck, credentialsOk, scopeCheck, issue, req)
            == Handle(v, clientCheck, credentialsOk, scopeCheck', issue', req)
    ensures Handle(v, clientCheck, credentialsOk, scopeCheck, issue, req).Err?
  {
  }

  /** A correct login with an accepted scope issues a token for exactly the
      supplied username. */
  lemma LoginIssuesForSuppliedUser(
    v: Validator, clientId: string, credentialsOk: CredentialCheck, scopeCheck: ScopeCheck,
    issue: Issuer, req: TokenRequest)
    requires UsernameWellFormed(v, req) && PasswordWellFormed(v, req)
    requires credentialsOk(req.username.value, req.password.value)
    requires scopeCheck(clientId, req.username.value).Ok?
    ensures Handle(v, Ok(clientId), credentialsOk, scopeCheck, issue, req)
            == Ok(Json(200, issue(clientId, req.username.value, scopeCheck(clientId, req.username.value).value),
                       NoCacheHeaders))
  {
  }
}
